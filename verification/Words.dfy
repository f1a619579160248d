/** Big-endian 32-bit words in a byte string, as registers and as natural numbers. */
module Words {
  import opened Crc32

  // ----- Four bytes as a register

  function WordOf(a: bv8, b: bv8, c: bv8, d: bv8): bv32 {
    (a as bv32 << 24) | (b as bv32 << 16) | (c as bv32 << 8) | d as bv32
  }

  function WordBytes(w: bv32): (b: Bytes)
    ensures |b| == 4
  {
    [(w >> 24) as bv8, ((w >> 16) & 0xff) as bv8, ((w >> 8) & 0xff) as bv8, (w & 0xff) as bv8]
  }

  lemma WordOfBytes(w: bv32)
    ensures WordOf(WordBytes(w)[0], WordBytes(w)[1], WordBytes(w)[2], WordBytes(w)[3]) == w
  {
    JoinWord(w);
  }

  lemma JoinWord(w: bv32)
    ensures WordOf((w >> 24) as bv8, ((w >> 16) & 0xff) as bv8, ((w >> 8) & 0xff) as bv8, (w & 0xff) as bv8) == w
  {}

  lemma SplitHigh(a: bv8, b: bv8, c: bv8, d: bv8)
    ensures (WordOf(a, b, c, d) >> 24) as bv8 == a
    ensures ((WordOf(a, b, c, d) >> 16) & 0xff) as bv8 == b
  {}

  lemma SplitLow(a: bv8, b: bv8, c: bv8, d: bv8)
    ensures ((WordOf(a, b, c, d) >> 8) & 0xff) as bv8 == c
    ensures (WordOf(a, b, c, d) & 0xff) as bv8 == d
  {}

  lemma BytesOfWord(a: bv8, b: bv8, c: bv8, d: bv8)
    ensures WordBytes(WordOf(a, b, c, d)) == [a, b, c, d]
  {
    SplitHigh(a, b, c, d);
    SplitLow(a, b, c, d);
  }

  // ----- Four bytes as a natural number

  lemma PreviousByte(b: bv8)
    requires b != 0
    ensures (b - 1) as int + 1 == b as int
  {}

  lemma NextByte(b: bv8)
    requires b as int < 255
    ensures (b + 1) as int == b as int + 1
  {}

  /** The number a byte stands for, counted down so that proofs need no conversion. */
  function Value(b: bv8): nat
    decreases b as int
  {
    if b == 0 then 0
    else
      PreviousByte(b);
      1 + Value(b - 1)
  }

  function ByteOf(k: nat): bv8
    requires k < 0x100
  {
    if k == 0 then 0 else ByteOf(k - 1) + 1
  }

  lemma {:induction false} ValueIsConversion(b: bv8)
    ensures Value(b) == b as int
    decreases b as int
  {
    if b != 0 {
      PreviousByte(b);
      ValueIsConversion(b - 1);
    }
  }

  lemma ValueBound(b: bv8)
    ensures Value(b) < 0x100
  {
    ValueIsConversion(b);
  }

  lemma {:induction false} ByteOfValue(b: bv8)
    ensures Value(b) < 0x100 && ByteOf(Value(b)) == b
    decreases b as int
  {
    ValueBound(b);
    if b != 0 {
      PreviousByte(b);
      ByteOfValue(b - 1);
    }
  }

  lemma {:induction false} ValueOfByte(k: nat)
    requires k < 0x100
    ensures Value(ByteOf(k)) == k
  {
    if k > 0 {
      ValueOfByte(k - 1);
      ValueIsConversion(ByteOf(k - 1));
      NextByte(ByteOf(k - 1));
      ValueIsConversion(ByteOf(k));
    }
  }

  function IntOf(a: bv8, b: bv8, c: bv8, d: bv8): (n: nat)
    ensures n < 0x1_0000_0000
  {
    ValueBound(a);
    ValueBound(b);
    ValueBound(c);
    ValueBound(d);
    0x100_0000 * Value(a) + 0x1_0000 * Value(b) + 0x100 * Value(c) + Value(d)
  }

  function IntBytes(n: nat): (b: Bytes)
    requires n < 0x1_0000_0000
    ensures |b| == 4
  {
    [ByteOf(n / 0x100_0000), ByteOf(n / 0x1_0000 % 0x100), ByteOf(n / 0x100 % 0x100), ByteOf(n % 0x100)]
  }

  lemma IntOfBytes(n: nat)
    requires n < 0x1_0000_0000
    ensures IntOf(IntBytes(n)[0], IntBytes(n)[1], IntBytes(n)[2], IntBytes(n)[3]) == n
  {
    var p, q, r := n / 0x100, n / 0x1_0000, n / 0x100_0000;
    ValueOfByte(r);
    ValueOfByte(q % 0x100);
    ValueOfByte(p % 0x100);
    ValueOfByte(n % 0x100);
    assert p / 0x100 == q && q / 0x100 == r;
  }

  lemma BytesOfInt(a: bv8, b: bv8, c: bv8, d: bv8)
    ensures IntBytes(IntOf(a, b, c, d)) == [a, b, c, d]
  {
    ByteOfValue(a);
    ByteOfValue(b);
    ByteOfValue(c);
    ByteOfValue(d);
    IntDigits(Value(a), Value(b), Value(c), Value(d));
  }

  lemma IntDigits(a: int, b: int, c: int, d: int)
    requires 0 <= a < 0x100 && 0 <= b < 0x100 && 0 <= c < 0x100 && 0 <= d < 0x100
    ensures var n := 0x100_0000 * a + 0x1_0000 * b + 0x100 * c + d;
            n / 0x100_0000 == a && n / 0x1_0000 % 0x100 == b && n / 0x100 % 0x100 == c && n % 0x100 == d
  {
    var n := 0x100_0000 * a + 0x1_0000 * b + 0x100 * c + d;
    assert n == 0x100 * (0x1_0000 * a + 0x100 * b + c) + d;
    assert n / 0x100 == 0x1_0000 * a + 0x100 * b + c;
    assert n / 0x1_0000 == 0x100 * a + b;
  }

  // ----- Reading

  /** `readUInt32BE(at)` as an integer and as the register it is compared with. */
  function ReadInt(bytes: Bytes, at: nat): (n: nat)
    requires at + 4 <= |bytes|
    ensures n < 0x1_0000_0000
  {
    IntOf(bytes[at], bytes[at + 1], bytes[at + 2], bytes[at + 3])
  }

  function ReadWord(bytes: Bytes, at: nat): bv32
    requires at + 4 <= |bytes|
  {
    WordOf(bytes[at], bytes[at + 1], bytes[at + 2], bytes[at + 3])
  }

  lemma FourBytes(bytes: Bytes, at: nat)
    requires at + 4 <= |bytes|
    ensures bytes[at..at + 4] == [bytes[at], bytes[at + 1], bytes[at + 2], bytes[at + 3]]
  {}

  lemma JoinSlices<T>(s: seq<T>, i: nat, j: nat, k: nat, l: nat)
    requires i <= j <= k <= l <= |s|
    ensures s[i..j] + s[j..k] + s[k..l] == s[i..l]
  {}

  lemma CutSlice<T>(s: seq<T>, at: nat, a: seq<T>, b: seq<T>)
    requires at + |a| + |b| <= |s| && s[at..at + |a| + |b|] == a + b
    ensures s[at..at + |a|] == a
    ensures s[at + |a|..at + |a| + |b|] == b
  {
    assert s[at..at + |a| + |b|][..|a|] == s[at..at + |a|];
    assert s[at..at + |a| + |b|][|a|..] == s[at + |a|..at + |a| + |b|];
    assert (a + b)[..|a|] == a && (a + b)[|a|..] == b;
  }

  lemma IntSlice(bytes: Bytes, at: nat)
    requires at + 4 <= |bytes|
    ensures bytes[at..at + 4] == IntBytes(ReadInt(bytes, at))
  {
    FourBytes(bytes, at);
    BytesOfInt(bytes[at], bytes[at + 1], bytes[at + 2], bytes[at + 3]);
  }

  lemma WordSlice(bytes: Bytes, at: nat)
    requires at + 4 <= |bytes|
    ensures bytes[at..at + 4] == WordBytes(ReadWord(bytes, at))
  {
    FourBytes(bytes, at);
    BytesOfWord(bytes[at], bytes[at + 1], bytes[at + 2], bytes[at + 3]);
  }

  lemma ReadIntBytes(bytes: Bytes, at: nat, n: nat)
    requires at + 4 <= |bytes| && n < 0x1_0000_0000 && bytes[at..at + 4] == IntBytes(n)
    ensures ReadInt(bytes, at) == n
  {
    FourBytes(bytes, at);
    IntOfBytes(n);
  }

  lemma ReadWordBytes(bytes: Bytes, at: nat, w: bv32)
    requires at + 4 <= |bytes| && bytes[at..at + 4] == WordBytes(w)
    ensures ReadWord(bytes, at) == w
  {
    FourBytes(bytes, at);
    WordOfBytes(w);
  }
}
