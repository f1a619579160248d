/** The base 64 encoding of section 4 of RFC 4648, on bytes as small integers. */
module Base64 {
  import opened JsText

  newtype Octet = n: int | 0 <= n < 0x100

  type Octets = seq<Octet>

  /** Three bytes, and the same twenty-four bits as four sextets. */
  datatype Three = Three(a: Octet, b: Octet, c: Octet)

  datatype Four = Four(p: int, q: int, r: int, s: int)

  const PAD: CodeUnit := 61

  // ----- The alphabet and the regrouping of bits

  function Symbol(s: int): CodeUnit {
    if s < 0 then 65
    else if s < 26 then (65 + s) as CodeUnit
    else if s < 52 then (71 + s) as CodeUnit
    else if s < 62 then (s - 4) as CodeUnit
    else if s == 62 then 43
    else 47
  }

  function Sextet(u: CodeUnit): Option<int> {
    if 65 <= u <= 90 then Some(u as int - 65)
    else if 97 <= u <= 122 then Some(u as int - 71)
    else if 48 <= u <= 57 then Some(u as int + 4)
    else if u == 43 then Some(62)
    else if u == 47 then Some(63)
    else None
  }

  function Split(t: Three): Four {
    var (a, b, c) := (t.a as int, t.b as int, t.c as int);
    Four(a / 4, a % 4 * 16 + b / 16, b % 16 * 4 + c / 64, c % 64)
  }

  function Merge(f: Four): Three {
    if Sextets(f) then
      Three((f.p * 4 + f.q / 16) as Octet, (f.q % 16 * 16 + f.r / 4) as Octet, (f.r % 4 * 64 + f.s) as Octet)
    else Three(0, 0, 0)
  }

  predicate Sextets(f: Four) {
    0 <= f.p < 64 && 0 <= f.q < 64 && 0 <= f.r < 64 && 0 <= f.s < 64
  }

  lemma SplitMerge(f: Four)
    requires Sextets(f)
    ensures Split(Merge(f)) == f
  {}

  lemma MergeSplit(t: Three)
    ensures Sextets(Split(t)) && Merge(Split(t)) == t
    ensures t.c == 0 ==> Split(t).s == 0
    ensures t.b == 0 && t.c == 0 ==> Split(t).r == 0
  {
    TopBits(t.a as int, 4, 16, t.b as int / 16);
    TopBits(t.b as int, 16, 4, t.c as int / 64);
    TopBits(t.c as int, 64, 1, 0);
  }

  /** The low bits of one number in front of the high bits of another can be told apart again. */
  lemma TopBits(n: int, low: int, high: int, k: int)
    requires 0 <= n < 256 && 0 <= k < high
             && ((low == 4 && high == 16) || (low == 16 && high == 4) || (low == 64 && high == 1))
    ensures 0 <= n / low < 256 / low && 0 <= n % low * high + k < low * high
    ensures (n % low * high + k) / high == n % low && (n % low * high + k) % high == k
    ensures n / low * low + n % low == n
  {}

  /** The alphabet and the regrouping, so that the proofs about lists need not look into them. */
  datatype Scheme = Scheme(symbol: int -> CodeUnit, sextet: CodeUnit -> Option<int>, split: Three -> Four,
                           merge: Four -> Three)

  function Standard(): Scheme {
    Scheme(Symbol, Sextet, Split, Merge)
  }

  ghost predicate Lawful(x: Scheme) {
    (forall s :: 0 <= s < 64 ==> x.sextet(x.symbol(s)) == Some(s))
    && (forall u :: x.sextet(u).Some? ==> 0 <= x.sextet(u).value < 64 && x.symbol(x.sextet(u).value) == u)
    && x.sextet(PAD) == None
    && (forall f: Four :: Sextets(f) ==> x.split(x.merge(f)) == f)
    && (forall t: Three :: Sextets(x.split(t)) && x.merge(x.split(t)) == t)
    && (forall t: Three :: t.c == 0 ==> x.split(t).s == 0)
    && (forall t: Three :: t.b == 0 && t.c == 0 ==> x.split(t).r == 0)
  }

  lemma StandardLawful()
    ensures Lawful(Standard())
  {
    var x := Standard();
    forall s | 0 <= s < 64 ensures x.sextet(x.symbol(s)) == Some(s) {
      assert x.symbol(s) == Symbol(s);
    }
    forall f: Four | Sextets(f) ensures x.split(x.merge(f)) == f {
      SplitMerge(f);
    }
    forall t: Three
      ensures Sextets(x.split(t)) && x.merge(x.split(t)) == t
      ensures t.c == 0 ==> x.split(t).s == 0
      ensures t.b == 0 && t.c == 0 ==> x.split(t).r == 0
    {
      MergeSplit(t);
    }
  }

  // ----- Lists of bytes

  function EncodeWith(x: Scheme, bytes: Octets): Text {
    if |bytes| == 0 then []
    else if |bytes| == 1 then
      var f := x.split(Three(bytes[0], 0, 0));
      [x.symbol(f.p), x.symbol(f.q), PAD, PAD]
    else if |bytes| == 2 then
      var f := x.split(Three(bytes[0], bytes[1], 0));
      [x.symbol(f.p), x.symbol(f.q), x.symbol(f.r), PAD]
    else
      var f := x.split(Three(bytes[0], bytes[1], bytes[2]));
      [x.symbol(f.p), x.symbol(f.q), x.symbol(f.r), x.symbol(f.s)] + EncodeWith(x, bytes[3..])
  }

  /** The strict decoder: padding only at the end, no stray bits, nothing else. */
  function DecodeWith(x: Scheme, t: Text): Option<Octets> {
    if |t| == 0 then Some([])
    else if |t| < 4 || x.sextet(t[0]).None? || x.sextet(t[1]).None? then None
    else
      var p, q := x.sextet(t[0]).value, x.sextet(t[1]).value;
      if t[2] == PAD then
        var m := x.merge(Four(p, q, 0, 0));
        if |t| == 4 && t[3] == PAD && m.b == 0 && m.c == 0 then Some([m.a]) else None
      else if x.sextet(t[2]).None? then None
      else if t[3] == PAD then
        var m := x.merge(Four(p, q, x.sextet(t[2]).value, 0));
        if |t| == 4 && m.c == 0 then Some([m.a, m.b]) else None
      else if x.sextet(t[3]).None? || DecodeWith(x, t[4..]).None? then None
      else
        var m := x.merge(Four(p, q, x.sextet(t[2]).value, x.sextet(t[3]).value));
        Some([m.a, m.b, m.c] + DecodeWith(x, t[4..]).value)
  }

  lemma {:induction false} DecodeEncodeWith(x: Scheme, bytes: Octets)
    requires Lawful(x)
    ensures DecodeWith(x, EncodeWith(x, bytes)) == Some(bytes)
  {
    if |bytes| == 0 {
    } else if |bytes| == 1 {
      DecodeOne(x, bytes);
    } else if |bytes| == 2 {
      DecodeTwo(x, bytes);
    } else {
      DecodeEncodeWith(x, bytes[3..]);
      DecodeGroup(x, bytes);
    }
  }

  lemma DecodeOne(x: Scheme, bytes: Octets)
    requires Lawful(x) && |bytes| == 1
    ensures DecodeWith(x, EncodeWith(x, bytes)) == Some(bytes)
  {
    var t, three := EncodeWith(x, bytes), Three(bytes[0], 0, 0);
    var f := x.split(three);
    assert Sextets(f) && x.merge(f) == three && f == Four(f.p, f.q, 0, 0);
    assert x.sextet(t[0]) == Some(f.p) && x.sextet(t[1]) == Some(f.q);
    assert DecodeWith(x, t) == Some([three.a]);
    assert bytes == [bytes[0]];
  }

  lemma DecodeTwo(x: Scheme, bytes: Octets)
    requires Lawful(x) && |bytes| == 2
    ensures DecodeWith(x, EncodeWith(x, bytes)) == Some(bytes)
  {
    var t, three := EncodeWith(x, bytes), Three(bytes[0], bytes[1], 0);
    var f := x.split(three);
    assert Sextets(f) && x.merge(f) == three && f == Four(f.p, f.q, f.r, 0);
    assert x.sextet(t[0]) == Some(f.p) && x.sextet(t[1]) == Some(f.q) && x.sextet(t[2]) == Some(f.r);
    assert t[2] != PAD && t[3] == PAD;
    assert DecodeWith(x, t) == Some([three.a, three.b]);
    assert bytes == [bytes[0], bytes[1]];
  }

  lemma DecodeGroup(x: Scheme, bytes: Octets)
    requires Lawful(x) && |bytes| >= 3 && DecodeWith(x, EncodeWith(x, bytes[3..])) == Some(bytes[3..])
    ensures DecodeWith(x, EncodeWith(x, bytes)) == Some(bytes)
  {
    var t := EncodeWith(x, bytes);
    var three := Three(bytes[0], bytes[1], bytes[2]);
    var f := x.split(three);
    assert Sextets(f) && x.merge(f) == three && f == Four(f.p, f.q, f.r, f.s);
    assert t[4..] == EncodeWith(x, bytes[3..]);
    assert x.sextet(t[0]) == Some(f.p) && x.sextet(t[1]) == Some(f.q) && x.sextet(t[2]) == Some(f.r)
           && x.sextet(t[3]) == Some(f.s);
    assert bytes == [bytes[0], bytes[1], bytes[2]] + bytes[3..];
  }

  lemma {:induction false} EncodeDecodeWith(x: Scheme, t: Text)
    requires Lawful(x) && DecodeWith(x, t).Some?
    ensures EncodeWith(x, DecodeWith(x, t).value) == t
  {
    if |t| != 0 {
      var p, q := x.sextet(t[0]).value, x.sextet(t[1]).value;
      if t[2] == PAD {
        var f := Four(p, q, 0, 0);
        assert x.split(x.merge(f)) == f;
        assert x.merge(f) == Three(x.merge(f).a, 0, 0);
        assert t == [t[0], t[1], PAD, PAD];
      } else if t[3] == PAD {
        var f := Four(p, q, x.sextet(t[2]).value, 0);
        assert x.split(x.merge(f)) == f;
        assert x.merge(f) == Three(x.merge(f).a, x.merge(f).b, 0);
        assert t == [t[0], t[1], t[2], PAD];
      } else {
        var f := Four(p, q, x.sextet(t[2]).value, x.sextet(t[3]).value);
        assert x.split(x.merge(f)) == f;
        EncodeDecodeWith(x, t[4..]);
        var bytes := DecodeWith(x, t).value;
        assert bytes[3..] == DecodeWith(x, t[4..]).value;
        assert t == [t[0], t[1], t[2], t[3]] + t[4..];
      }
    }
  }

  function Encode(bytes: Octets): Text {
    EncodeWith(Standard(), bytes)
  }

  function Decode(t: Text): Option<Octets> {
    DecodeWith(Standard(), t)
  }

  /** Decoding undoes encoding. */
  lemma DecodeEncode(bytes: Octets)
    ensures Decode(Encode(bytes)) == Some(bytes)
  {
    StandardLawful();
    DecodeEncodeWith(Standard(), bytes);
  }

  /** What the strict decoder reads is exactly what the encoder writes. */
  lemma EncodeDecode(t: Text)
    requires Decode(t).Some?
    ensures Encode(Decode(t).value) == t
  {
    StandardLawful();
    EncodeDecodeWith(Standard(), t);
  }

  // ----- The shape the evidence schema asks for

  /** How many symbols a text starts with. */
  function SymbolRun(x: Scheme, t: Text): (n: nat)
    ensures n <= |t|
  {
    if t != [] && x.sextet(t[0]).Some? then 1 + SymbolRun(x, t[1..]) else 0
  }

  predicate IsBase64With(x: Scheme, t: Text) {
    var n := SymbolRun(x, t);
    |t| <= n + 2 && forall i :: n <= i < |t| ==> t[i] == PAD
  }

  /** `/^[A-Za-z0-9+/]*={0,2}$/` */
  predicate IsBase64(t: Text) {
    IsBase64With(Standard(), t)
  }

  lemma {:induction false} SymbolsFirst(x: Scheme, front: Text, t: Text)
    requires (forall i :: 0 <= i < |front| ==> x.sextet(front[i]).Some?) && IsBase64With(x, t)
    ensures IsBase64With(x, front + t)
  {
    if front == [] {
      assert front + t == t;
    } else {
      SymbolsFirst(x, front[1..], t);
      assert (front + t)[1..] == front[1..] + t;
    }
  }

  lemma PaddedTail(x: Scheme, t: Text)
    requires Lawful(x) && (t == [] || t == [PAD] || t == [PAD, PAD])
    ensures IsBase64With(x, t)
  {
    assert SymbolRun(x, t) == 0;
  }

  lemma {:induction false} EncodeIsBase64With(x: Scheme, bytes: Octets)
    requires Lawful(x)
    ensures IsBase64With(x, EncodeWith(x, bytes))
  {
    var t := EncodeWith(x, bytes);
    if |bytes| == 0 {
      PaddedTail(x, t);
    } else if |bytes| == 1 {
      assert Sextets(x.split(Three(bytes[0], 0, 0)));
      PaddedTail(x, [PAD, PAD]);
      SymbolsFirst(x, t[..2], [PAD, PAD]);
      assert t == t[..2] + [PAD, PAD];
    } else if |bytes| == 2 {
      assert Sextets(x.split(Three(bytes[0], bytes[1], 0)));
      PaddedTail(x, [PAD]);
      SymbolsFirst(x, t[..3], [PAD]);
      assert t == t[..3] + [PAD];
    } else {
      assert Sextets(x.split(Three(bytes[0], bytes[1], bytes[2])));
      EncodeIsBase64With(x, bytes[3..]);
      SymbolsFirst(x, t[..4], EncodeWith(x, bytes[3..]));
      assert t == t[..4] + EncodeWith(x, bytes[3..]);
    }
  }

  lemma EncodeIsBase64(bytes: Octets)
    ensures IsBase64(Encode(bytes))
  {
    StandardLawful();
    EncodeIsBase64With(Standard(), bytes);
  }
}
