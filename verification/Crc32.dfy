/** The bitwise CRC of the PNG scanner (RFC 2083 section 3.4) and what it detects. */
module Crc32 {

  type Bytes = seq<bv8>

  const POLYNOMIAL: bv32 := 0xedb8_8320

  /** One round of the inner loop. */
  function Shift(crc: bv32): bv32 {
    if crc & 1 == 1 then (crc >> 1) ^ POLYNOMIAL else crc >> 1
  }

  function Iterate<A>(f: A -> A, x: A, n: nat): A {
    if n == 0 then x else f(Iterate(f, x, n - 1))
  }

  function Fold<A, B>(step: (A, B) -> A, x: A, items: seq<B>): A {
    if items == [] then x else step(Fold(step, x, items[..|items| - 1]), items[|items| - 1])
  }

  /** A byte enters at the low end of the register. */
  function Mix(crc: bv32, byte: bv8): bv32 {
    crc ^ byte as bv32
  }

  /** The register after one byte. */
  function StepByte(crc: bv32, byte: bv8): bv32 {
    Iterate(Shift, Mix(crc, byte), 8)
  }

  function State(crc: bv32, bytes: Bytes): bv32 {
    Fold(StepByte, crc, bytes)
  }

  function Crc(bytes: Bytes): bv32 {
    State(0xffff_ffff, bytes) ^ 0xffff_ffff
  }

  lemma MaskedShift(v: bv32)
    ensures (v >> 1) ^ (POLYNOMIAL & -(v & 1)) == Shift(v)
  {
    assert v & 1 == 0 || v & 1 == 1;
  }

  method ComputeCrc(bytes: Bytes) returns (r: bv32)
    ensures r == Crc(bytes)
  {
    var crc: bv32 := 0xffff_ffff;
    for i := 0 to |bytes|
      invariant crc == State(0xffff_ffff, bytes[..i])
    {
      FoldPrefix(StepByte, 0xffff_ffff, bytes, i);
      crc := ShiftByte(crc, bytes[i]);
    }
    assert bytes[..|bytes|] == bytes;
    r := crc ^ 0xffff_ffff;
  }

  method ShiftByte(before: bv32, byte: bv8) returns (crc: bv32)
    ensures crc == StepByte(before, byte)
  {
    crc := before ^ byte as bv32;
    for bit := 0 to 8
      invariant crc == Iterate(Shift, before ^ byte as bv32, bit)
    {
      MaskedShift(crc);
      crc := (crc >> 1) ^ (POLYNOMIAL & -(crc & 1));
    }
  }

  lemma FoldPrefix<A, B>(step: (A, B) -> A, x: A, items: seq<B>, i: nat)
    requires i < |items|
    ensures Fold(step, x, items[..i + 1]) == step(Fold(step, x, items[..i]), items[i])
  {
    assert items[..i + 1][..i] == items[..i];
  }

  lemma {:induction false} FoldConcat<A, B>(step: (A, B) -> A, x: A, a: seq<B>, b: seq<B>)
    ensures Fold(step, x, a + b) == Fold(step, Fold(step, x, a), b)
  {
    if b == [] {
      assert a + b == a;
    } else {
      FoldConcat(step, x, a, b[..|b| - 1]);
      assert (a + b)[..|a + b| - 1] == a + b[..|b| - 1];
    }
  }

  // ----- Iterating and folding linear and injective maps

  lemma {:induction false} IterateLinear<A(!new)>(f: A -> A, xor: (A, A) -> A, v: A, w: A, n: nat)
    requires forall x, y :: f(xor(x, y)) == xor(f(x), f(y))
    ensures Iterate(f, xor(v, w), n) == xor(Iterate(f, v, n), Iterate(f, w, n))
  {
    if n > 0 {
      IterateLinear(f, xor, v, w, n - 1);
    }
  }

  lemma {:induction false} IterateInjective<A(!new)>(f: A -> A, inverse: A -> A, v: A, w: A, n: nat)
    requires forall x :: inverse(f(x)) == x
    requires Iterate(f, v, n) == Iterate(f, w, n)
    ensures v == w
  {
    if n > 0 {
      assert inverse(f(Iterate(f, v, n - 1))) == inverse(f(Iterate(f, w, n - 1)));
      IterateInjective(f, inverse, v, w, n - 1);
    }
  }

  lemma MixedInjective<A(!new), B(!new)>(f: A -> A, inverse: A -> A, mix: (A, B) -> A, unmix: (A, B) -> A,
                                         v: A, w: A, b: B, n: nat)
    requires forall x :: inverse(f(x)) == x
    requires forall x, c :: unmix(mix(x, c), c) == x
    requires Iterate(f, mix(v, b), n) == Iterate(f, mix(w, b), n)
    ensures v == w
  {
    IterateInjective(f, inverse, mix(v, b), mix(w, b), n);
    assert unmix(mix(v, b), b) == unmix(mix(w, b), b);
  }

  lemma {:induction false} FoldInjective<A(!new), B(!new)>(step: (A, B) -> A, v: A, w: A, items: seq<B>)
    requires forall x, y, b :: step(x, b) == step(y, b) ==> x == y
    requires Fold(step, v, items) == Fold(step, w, items)
    ensures v == w
  {
    if items != [] {
      FoldInjective(step, v, w, items[..|items| - 1]);
    }
  }

  function Zip<B>(op: (B, B) -> B, a: seq<B>, b: seq<B>): (r: seq<B>)
    requires |a| == |b|
    ensures |r| == |a|
    ensures forall i :: 0 <= i < |a| ==> r[i] == op(a[i], b[i])
  {
    seq(|a|, i requires 0 <= i < |a| => op(a[i], b[i]))
  }

  lemma {:induction false} FoldLinear<A(!new), B(!new)>(step: (A, B) -> A, xor: (A, A) -> A, op: (B, B) -> B,
                                                        v: A, w: A, a: seq<B>, b: seq<B>)
    requires |a| == |b|
    requires forall x, y, c, d :: step(xor(x, y), op(c, d)) == xor(step(x, c), step(y, d))
    ensures Fold(step, xor(v, w), Zip(op, a, b)) == xor(Fold(step, v, a), Fold(step, w, b))
  {
    if a != [] {
      var n := |a| - 1;
      FoldLinear(step, xor, op, v, w, a[..n], b[..n]);
      assert Zip(op, a, b)[..n] == Zip(op, a[..n], b[..n]);
    }
  }

  // ----- The round is linear and a bijection

  function Xor(v: bv32, w: bv32): bv32 { v ^ w }

  function XorByte(a: bv8, b: bv8): bv8 { a ^ b }

  lemma XorSame(v: bv32, w: bv32, p: bv32)
    ensures (v ^ p) ^ (w ^ p) == v ^ w
    ensures (v ^ p) ^ w == (v ^ w) ^ p
    ensures v ^ (w ^ p) == (v ^ w) ^ p
  {}

  lemma HalveXor(v: bv32, w: bv32)
    ensures (v ^ w) >> 1 == (v >> 1) ^ (w >> 1)
    ensures (v ^ w) & 1 == (v & 1) ^ (w & 1)
  {}

  lemma LowBit(v: bv32)
    ensures v & 1 == 0 || v & 1 == 1
  {}

  lemma ShiftBothOdd(v: bv32, w: bv32)
    requires v & 1 == 1 && w & 1 == 1
    ensures Shift(Xor(v, w)) == Xor(Shift(v), Shift(w))
  {
    HalveXor(v, w);
    XorSame(v >> 1, w >> 1, POLYNOMIAL);
  }

  lemma ShiftLeftOdd(v: bv32, w: bv32)
    requires v & 1 == 1 && w & 1 == 0
    ensures Shift(Xor(v, w)) == Xor(Shift(v), Shift(w))
  {
    HalveXor(v, w);
    XorSame(v >> 1, w >> 1, POLYNOMIAL);
  }

  lemma ShiftBothEven(v: bv32, w: bv32)
    requires v & 1 == 0 && w & 1 == 0
    ensures Shift(Xor(v, w)) == Xor(Shift(v), Shift(w))
  {
    HalveXor(v, w);
  }

  lemma XorSwap(v: bv32, w: bv32)
    ensures Xor(v, w) == Xor(w, v)
  {}

  lemma ShiftLinear(v: bv32, w: bv32)
    ensures Shift(Xor(v, w)) == Xor(Shift(v), Shift(w))
  {
    LowBit(v);
    LowBit(w);
    if v & 1 == 1 && w & 1 == 1 {
      ShiftBothOdd(v, w);
    } else if v & 1 == 1 {
      ShiftLeftOdd(v, w);
    } else if w & 1 == 1 {
      ShiftLeftOdd(w, v);
      XorSwap(v, w);
      XorSwap(Shift(v), Shift(w));
    } else {
      ShiftBothEven(v, w);
    }
  }

  /** The round run backwards: the polynomial's top bit tells which case applied. */
  function Unshift(crc: bv32): bv32 {
    if crc & 0x8000_0000 == 0 then crc << 1 else ((crc ^ POLYNOMIAL) << 1) | 1
  }

  lemma UnshiftShift(v: bv32)
    ensures Unshift(Shift(v)) == v
  {}

  lemma DoubleThenHalve(v: bv32)
    requires v & 0x8000_0000 == 0
    ensures (v << 1) & 1 == 0 && (v << 1) >> 1 == v
  {}

  lemma OddThenHalve(v: bv32)
    requires v & 0x8000_0000 == 0
    ensures ((v << 1) | 1) & 1 == 1 && ((v << 1) | 1) >> 1 == v
  {}

  lemma TopBit(v: bv32)
    requires v & 0x8000_0000 != 0
    ensures (v ^ POLYNOMIAL) & 0x8000_0000 == 0
  {}

  lemma ShiftUnshift(v: bv32)
    ensures Shift(Unshift(v)) == v
  {
    if v & 0x8000_0000 == 0 {
      DoubleThenHalve(v);
    } else {
      TopBit(v);
      OddThenHalve(v ^ POLYNOMIAL);
      XorSame(v, 0, POLYNOMIAL);
      assert (v ^ POLYNOMIAL) ^ POLYNOMIAL == v;
    }
  }

  lemma XorInterchange(s: bv32, t: bv32, a: bv8, b: bv8)
    ensures (s ^ t) ^ (a ^ b) as bv32 == (s ^ a as bv32) ^ (t ^ b as bv32)
  {}

  lemma RoundsLinear(s: bv32, t: bv32, a: bv8, b: bv8, n: nat)
    ensures Iterate(Shift, Xor(s, t) ^ XorByte(a, b) as bv32, n)
         == Xor(Iterate(Shift, s ^ a as bv32, n), Iterate(Shift, t ^ b as bv32, n))
  {
    XorInterchange(s, t, a, b);
    forall x, y ensures Shift(Xor(x, y)) == Xor(Shift(x), Shift(y)) {
      ShiftLinear(x, y);
    }
    IterateLinear(Shift, Xor, s ^ a as bv32, t ^ b as bv32, n);
  }

  lemma StepByteLinear(s: bv32, t: bv32, a: bv8, b: bv8)
    ensures StepByte(Xor(s, t), XorByte(a, b)) == Xor(StepByte(s, a), StepByte(t, b))
  {
    RoundsLinear(s, t, a, b, 8);
  }

  lemma UnshiftInverts()
    ensures forall x :: Unshift(Shift(x)) == x
  {
    forall x ensures Unshift(Shift(x)) == x {
      UnshiftShift(x);
    }
  }

  lemma MixInverts()
    ensures forall v, b :: Mix(Mix(v, b), b) == v
  {}

  /** A byte moves the register by a bijection. */
  lemma StepByteInjective(v: bv32, w: bv32, byte: bv8)
    requires StepByte(v, byte) == StepByte(w, byte)
    ensures v == w
  {
    UnshiftInverts();
    MixInverts();
    MixedInjective(Shift, Unshift, Mix, Mix, v, w, byte, 8);
  }

  lemma StateInjective(v: bv32, w: bv32, bytes: Bytes)
    requires State(v, bytes) == State(w, bytes)
    ensures v == w
  {
    forall x, y, b | StepByte(x, b) == StepByte(y, b) ensures x == y {
      StepByteInjective(x, y, b);
    }
    FoldInjective(StepByte, v, w, bytes);
  }

  /** Messages of one length: the CRC of the XOR of three messages is the XOR of their CRCs. */
  lemma CrcAffine(a: Bytes, b: Bytes, c: Bytes)
    requires |a| == |b| == |c|
    ensures Crc(Zip(XorByte, Zip(XorByte, a, b), c)) == Xor(Xor(Crc(a), Crc(b)), Crc(c))
  {
    var ones: bv32 := 0xffff_ffff;
    var ab := Zip(XorByte, a, b);
    StateLinear(ones, ones, a, b);
    StateLinear(Xor(ones, ones), ones, ab, c);
    assert Xor(Xor(ones, ones), ones) == ones;
    XorOnes(State(ones, a), State(ones, b), State(ones, c));
  }

  lemma StateLinear(v: bv32, w: bv32, a: Bytes, b: Bytes)
    requires |a| == |b|
    ensures State(Xor(v, w), Zip(XorByte, a, b)) == Xor(State(v, a), State(w, b))
  {
    forall x, y, c, d ensures StepByte(Xor(x, y), XorByte(c, d)) == Xor(StepByte(x, c), StepByte(y, d)) {
      StepByteLinear(x, y, c, d);
    }
    FoldLinear(StepByte, Xor, XorByte, v, w, a, b);
  }

  lemma XorOnes(x: bv32, y: bv32, z: bv32)
    ensures (x ^ y ^ z) ^ 0xffff_ffff == (x ^ 0xffff_ffff) ^ (y ^ 0xffff_ffff) ^ (z ^ 0xffff_ffff)
  {}

  // ----- Four bytes fill the register

  /** A byte `k` places above the low end of the register. */
  function At(byte: bv8, k: nat): bv32 {
    if k == 0 then byte as bv32 else At(byte, k - 1) << 8
  }

  /** Up to four bytes as one little-endian word. */
  function Word(w: Bytes): bv32 {
    if w == [] then 0 else Xor(Word(w[..|w| - 1]), At(w[|w| - 1], |w| - 1))
  }

  lemma {:induction false} IterateAdd<A>(f: A -> A, x: A, m: nat, n: nat)
    ensures Iterate(f, Iterate(f, x, m), n) == Iterate(f, x, m + n)
  {
    if n > 0 {
      IterateAdd(f, x, m, n - 1);
    }
  }

  lemma EightShifts(v: bv32)
    requires v & 0xff00_0000 == 0
    ensures Iterate(Shift, v << 8, 8) == v
  {}

  lemma AtBound(byte: bv8, k: nat)
    requires k < 3
    ensures At(byte, k) & 0xff00_0000 == 0
  {
    if k >= 1 {
      assert At(byte, 1) == byte as bv32 << 8;
    }
    if k == 2 {
      assert At(byte, 2) == At(byte, 1) << 8;
    }
  }

  /** Eight rounds per place bring the byte down to the low end. */
  lemma {:induction false} AtShiftsDown(byte: bv8, k: nat)
    requires k < 4
    ensures Iterate(Shift, At(byte, k), 8 * k) == byte as bv32
  {
    if k > 0 {
      AtBound(byte, k - 1);
      EightShifts(At(byte, k - 1));
      IterateAdd(Shift, At(byte, k), 8, 8 * (k - 1));
      AtShiftsDown(byte, k - 1);
    }
  }

  lemma ShiftsLinear(v: bv32, w: bv32, n: nat)
    ensures Iterate(Shift, Xor(v, w), n) == Xor(Iterate(Shift, v, n), Iterate(Shift, w, n))
  {
    forall x, y ensures Shift(Xor(x, y)) == Xor(Shift(x), Shift(y)) {
      ShiftLinear(x, y);
    }
    IterateLinear(Shift, Xor, v, w, n);
  }

  lemma AbsorbStep(crc: bv32, v: bv32, byte: bv8, k: nat)
    requires k < 4 && crc == Iterate(Shift, v, 8 * k)
    ensures StepByte(crc, byte) == Iterate(Shift, Xor(v, At(byte, k)), 8 * k + 8)
  {
    AtShiftsDown(byte, k);
    ShiftsLinear(v, At(byte, k), 8 * k);
    IterateAdd(Shift, Xor(v, At(byte, k)), 8 * k, 8);
  }

  lemma XorAssociative(u: bv32, v: bv32, w: bv32)
    ensures Xor(u, Xor(v, w)) == Xor(Xor(u, v), w)
    ensures Xor(u, 0) == u
    ensures Xor(u, Xor(u, v)) == v
  {}

  /** Feeding up to four bytes is the same as adding them to the register first and shifting after. */
  lemma {:induction false} Absorb(crc: bv32, w: Bytes)
    requires |w| <= 4
    ensures State(crc, w) == Iterate(Shift, Xor(crc, Word(w)), 8 * |w|)
  {
    if w == [] {
      XorAssociative(crc, 0, 0);
    } else {
      var k := |w| - 1;
      Absorb(crc, w[..k]);
      AbsorbStep(State(crc, w[..k]), Xor(crc, Word(w[..k])), w[k], k);
      XorAssociative(crc, Word(w[..k]), At(w[k], k));
    }
  }

  function ByteAt(w: Bytes, k: nat): bv8 {
    if k < |w| then w[k] else 0
  }

  function Quad(a: bv8, b: bv8, c: bv8, d: bv8): bv32 {
    a as bv32 | (b as bv32 << 8) | (c as bv32 << 16) | (d as bv32 << 24)
  }

  lemma AtQuad(byte: bv8)
    ensures At(byte, 0) == Quad(byte, 0, 0, 0)
    ensures At(byte, 1) == Quad(0, byte, 0, 0)
    ensures At(byte, 2) == Quad(0, 0, byte, 0)
    ensures At(byte, 3) == Quad(0, 0, 0, byte)
  {
    assert At(byte, 1) == At(byte, 0) << 8;
    assert At(byte, 2) == At(byte, 1) << 8;
    assert At(byte, 3) == At(byte, 2) << 8;
  }

  lemma QuadZero(a: bv8)
    ensures Quad(0, 0, 0, 0) == 0
    ensures Xor(0, Quad(a, 0, 0, 0)) == Quad(a, 0, 0, 0)
  {}

  lemma QuadSecond(a: bv8, b: bv8)
    ensures Xor(Quad(a, 0, 0, 0), Quad(0, b, 0, 0)) == Quad(a, b, 0, 0)
  {}

  lemma QuadThird(a: bv8, b: bv8, c: bv8)
    ensures Xor(Quad(a, b, 0, 0), Quad(0, 0, c, 0)) == Quad(a, b, c, 0)
  {}

  lemma QuadFourth(a: bv8, b: bv8, c: bv8, d: bv8)
    ensures Xor(Quad(a, b, c, 0), Quad(0, 0, 0, d)) == Quad(a, b, c, d)
  {}

  lemma QuadInjective(a: bv8, b: bv8, c: bv8, d: bv8, a': bv8, b': bv8, c': bv8, d': bv8)
    requires Quad(a, b, c, d) == Quad(a', b', c', d')
    ensures a == a' && b == b' && c == c' && d == d'
  {}

  lemma {:induction false} WordIsQuad(w: Bytes)
    requires |w| <= 4
    ensures Word(w) == Quad(ByteAt(w, 0), ByteAt(w, 1), ByteAt(w, 2), ByteAt(w, 3))
  {
    if w == [] {
      QuadZero(0);
    } else {
      var front, last := w[..|w| - 1], w[|w| - 1];
      WordIsQuad(front);
      AtQuad(last);
      if |w| == 1 {
        QuadZero(last);
      } else if |w| == 2 {
        QuadSecond(w[0], last);
      } else if |w| == 3 {
        QuadThird(w[0], w[1], last);
      } else {
        QuadFourth(w[0], w[1], w[2], last);
      }
    }
  }

  lemma WordInjective(v: Bytes, w: Bytes)
    requires |v| == |w| <= 4 && Word(v) == Word(w)
    ensures v == w
  {
    WordIsQuad(v);
    WordIsQuad(w);
    QuadInjective(ByteAt(v, 0), ByteAt(v, 1), ByteAt(v, 2), ByteAt(v, 3), ByteAt(w, 0), ByteAt(w, 1), ByteAt(w, 2),
                  ByteAt(w, 3));
    forall i | 0 <= i < |v| ensures v[i] == w[i] {
      assert ByteAt(v, i) == v[i] && ByteAt(w, i) == w[i];
      assert i == 0 || i == 1 || i == 2 || i == 3;
    }
  }

  /** From one register, two windows of at most four bytes lead to one register only if they are equal. */
  lemma WindowInjective(crc: bv32, v: Bytes, w: Bytes)
    requires |v| == |w| <= 4 && State(crc, v) == State(crc, w)
    ensures v == w
  {
    Absorb(crc, v);
    Absorb(crc, w);
    UnshiftInverts();
    IterateInjective(Shift, Unshift, Xor(crc, Word(v)), Xor(crc, Word(w)), 8 * |v|);
    XorAssociative(crc, Word(v), 0);
    XorAssociative(crc, Word(w), 0);
    WordInjective(v, w);
  }

  /** `a` and `b` have one length and agree outside the four bytes from `k` on. */
  ghost predicate DifferWithin(a: Bytes, b: Bytes, k: nat) {
    |a| == |b| && forall i :: 0 <= i < |a| && !(k <= i < k + 4) ==> a[i] == b[i]
  }

  lemma CrcDeterminesState(a: Bytes, b: Bytes)
    requires Crc(a) == Crc(b)
    ensures State(0xffff_ffff, a) == State(0xffff_ffff, b)
  {
    MaskTwice(State(0xffff_ffff, a));
    MaskTwice(State(0xffff_ffff, b));
  }

  lemma MaskTwice(v: bv32)
    ensures (v ^ 0xffff_ffff) ^ 0xffff_ffff == v
  {}

  lemma StateSplit(crc: bv32, a: Bytes, b: Bytes, c: Bytes)
    ensures State(crc, a + b + c) == State(State(State(crc, a), b), c)
  {
    FoldConcat(StepByte, crc, a + b, c);
    FoldConcat(StepByte, crc, a, b);
  }

  lemma MiddleInjective(crc: bv32, front: Bytes, v: Bytes, w: Bytes, rest: Bytes)
    requires |v| == |w| <= 4 && State(crc, front + v + rest) == State(crc, front + w + rest)
    ensures v == w
  {
    StateSplit(crc, front, v, rest);
    StateSplit(crc, front, w, rest);
    StateInjective(State(State(crc, front), v), State(State(crc, front), w), rest);
    WindowInjective(State(crc, front), v, w);
  }

  /** Two messages of one length that differ only inside a four-byte window never share a CRC. */
  lemma BurstDetected(a: Bytes, b: Bytes, k: nat)
    requires DifferWithin(a, b, k) && Crc(a) == Crc(b)
    ensures a == b
  {
    var lo := if k < |a| then k else |a|;
    var hi := if k + 4 < |a| then k + 4 else |a|;
    assert a == a[..lo] + a[lo..hi] + a[hi..];
    assert b == a[..lo] + b[lo..hi] + a[hi..];
    CrcDeterminesState(a, b);
    MiddleInjective(0xffff_ffff, a[..lo], a[lo..hi], b[lo..hi], a[hi..]);
  }
}
