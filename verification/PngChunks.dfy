/** PNG chunks and their place in a byte string (RFC 2083 section 3.2). */
module PngChunks {
  import opened JsText
  import opened Sequences
  import opened Crc32
  import opened Words

  /** The check value of a chunk; the scanner's is `Crc32.Crc`. */
  type Checksum = Bytes -> bv32

  /** A chunk: its four type bytes as they stand in the file, and its data. */
  datatype Chunk = Chunk(tag: Bytes, data: Bytes)

  predicate Shaped(c: Chunk) {
    |c.tag| == 4 && |c.data| < 0x1_0000_0000
  }

  function Encode(crc: Checksum, c: Chunk): (b: Bytes)
    ensures |b| == 4 + |c.tag| + |c.data| + 4
  {
    IntBytes(|c.data| % 0x1_0000_0000) + (c.tag + c.data) + WordBytes(crc(c.tag + c.data))
  }

  function Encoder(crc: Checksum): Chunk -> Bytes {
    (c: Chunk) => Encode(crc, c)
  }

  function Reader(crc: Checksum): (Bytes, nat) -> Option<Chunk> {
    (bytes: Bytes, offset: nat) => ChunkAt(crc, bytes, offset)
  }

  ghost predicate AllShaped(cs: seq<Chunk>) {
    forall i :: 0 <= i < |cs| ==> Shaped(cs[i])
  }

  function EncodeAll(crc: Checksum, cs: seq<Chunk>): Bytes {
    Concat(Encoder(crc), cs, |cs|)
  }

  /** The CRC-correct chunk that starts at `offset`, if the bytes hold one. */
  function ChunkAt(crc: Checksum, bytes: Bytes, offset: nat): (r: Option<Chunk>)
    ensures r.Some? ==> Shaped(r.value) && offset + 12 + |r.value.data| <= |bytes|
  {
    if offset + 12 > |bytes| then None
    else
      var length := ReadInt(bytes, offset);
      var dataEnd := offset + 8 + length;
      if dataEnd + 4 > |bytes| then None
      else if crc(bytes[offset + 4..dataEnd]) != ReadWord(bytes, dataEnd) then None
      else Some(Chunk(bytes[offset + 4..offset + 8], bytes[offset + 8..dataEnd]))
  }

  /** The four fields of a chunk inside a byte string. */
  lemma LayoutCut<T>(s: seq<T>, at: nat, length: seq<T>, tag: seq<T>, data: seq<T>, sum: seq<T>)
    requires |length| == |tag| == |sum| == 4 && at + 12 + |data| <= |s|
    requires s[at..at + 12 + |data|] == length + (tag + data) + sum
    ensures s[at..at + 4] == length
    ensures s[at + 4..at + 8] == tag
    ensures s[at + 8..at + 8 + |data|] == data
    ensures s[at + 4..at + 8 + |data|] == tag + data
    ensures s[at + 8 + |data|..at + 12 + |data|] == sum
  {
    CutSlice(s, at, length + (tag + data), sum);
    CutSlice(s, at, length, tag + data);
    CutSlice(s, at + 4, tag, data);
  }

  lemma LayoutJoin<T>(s: seq<T>, at: nat, n: nat)
    requires at + 12 + n <= |s|
    ensures s[at + 4..at + 8] + s[at + 8..at + 8 + n] == s[at + 4..at + 8 + n]
    ensures s[at..at + 4] + s[at + 4..at + 8 + n] + s[at + 8 + n..at + 12 + n] == s[at..at + 12 + n]
  {
    JoinSlices(s, at + 4, at + 8, at + 8 + n, at + 8 + n);
    JoinSlices(s, at, at + 4, at + 8 + n, at + 12 + n);
  }

  /** What is read is what the encoding of the chunk puts there. */
  lemma ChunkAtSound(crc: Checksum, bytes: Bytes, offset: nat)
    requires ChunkAt(crc, bytes, offset).Some?
    ensures var c := ChunkAt(crc, bytes, offset).value;
            bytes[offset..offset + 12 + |c.data|] == Encode(crc, c)
  {
    var n := ReadInt(bytes, offset);
    assert n % 0x1_0000_0000 == n;
    IntSlice(bytes, offset);
    WordSlice(bytes, offset + 8 + n);
    LayoutJoin(bytes, offset, n);
  }

  lemma ChunkOfFields(crc: Checksum, bytes: Bytes, offset: nat, c: Chunk)
    requires offset + 12 + |c.data| <= |bytes| && ReadInt(bytes, offset) == |c.data|
    requires bytes[offset + 4..offset + 8] == c.tag && bytes[offset + 8..offset + 8 + |c.data|] == c.data
    requires ReadWord(bytes, offset + 8 + |c.data|) == crc(bytes[offset + 4..offset + 8 + |c.data|])
    ensures ChunkAt(crc, bytes, offset) == Some(c)
  {}

  lemma ChunkAtComplete(crc: Checksum, bytes: Bytes, offset: nat, c: Chunk)
    requires Shaped(c) && offset + 12 + |c.data| <= |bytes|
    requires bytes[offset..offset + 12 + |c.data|] == Encode(crc, c)
    ensures ChunkAt(crc, bytes, offset) == Some(c)
  {
    var sum := crc(c.tag + c.data);
    assert |c.data| % 0x1_0000_0000 == |c.data|;
    LayoutCut(bytes, offset, IntBytes(|c.data|), c.tag, c.data, WordBytes(sum));
    ReadIntBytes(bytes, offset, |c.data|);
    ReadWordBytes(bytes, offset + 8 + |c.data|, sum);
    ChunkOfFields(crc, bytes, offset, c);
  }

  // ----- Chunk lists

  lemma {:induction false} ConcatPrefix<A, B>(f: A -> seq<B>, items: seq<A>, n: nat, m: nat)
    requires n <= m <= |items|
    ensures Concat(f, items, n) <= Concat(f, items, m)
  {
    if n < m {
      ConcatPrefix(f, items, n, m - 1);
    }
  }

  lemma {:induction false} ConcatAgrees<A, B>(f: A -> seq<B>, a: seq<A>, b: seq<A>, n: nat)
    requires n <= |a| && n <= |b| && forall i :: 0 <= i < n ==> a[i] == b[i]
    ensures Concat(f, a, n) == Concat(f, b, n)
  {
    if n > 0 {
      ConcatAgrees(f, a, b, n - 1);
    }
  }

  lemma MiddleSlice<T>(front: seq<T>, before: seq<T>, item: seq<T>, s: seq<T>)
    requires front <= s && before + item <= s[|front|..]
    ensures |front| + |before| + |item| <= |s|
    ensures s[|front| + |before|..|front| + |before| + |item|] == item
  {
    assert s[|front|..][|before|..|before| + |item|] == item;
  }

  lemma AfterFront<T>(front: seq<T>, rest: seq<T>)
    ensures front <= front + rest && (front + rest)[|front|..] == rest
  {}

  lemma ItemInConcat<A, B>(f: A -> seq<B>, items: seq<A>, n: nat, front: seq<B>)
    requires n < |items|
    ensures var at := |front| + |Concat(f, items, n)|; var s := front + Concat(f, items, |items|);
            at + |f(items[n])| == |front| + |Concat(f, items, n + 1)| <= |s| && s[at..at + |f(items[n])|] == f(items[n])
  {
    ConcatPrefix(f, items, n + 1, |items|);
    AfterFront(front, Concat(f, items, |items|));
    MiddleSlice(front, Concat(f, items, n), f(items[n]), front + Concat(f, items, |items|));
  }

  ghost predicate Holds<B>(s: seq<B>, at: nat, part: seq<B>) {
    at + |part| <= |s| && s[at..at + |part|] == part
  }

  /** `read` finds `x` at the offset exactly when `x` is well shaped and its encoding lies there. */
  ghost predicate ReadsAt(encode: Chunk -> Bytes, read: (Bytes, nat) -> Option<Chunk>, s: Bytes, at: nat, x: Chunk) {
    && (read(s, at) == Some(x) <==> Shaped(x) && Holds(s, at, encode(x)))
    && (at + 12 > |s| ==> read(s, at).None?)
    && |encode(x)| == 8 + |x.tag| + |x.data|
  }

  ghost predicate Codec(encode: Chunk -> Bytes, read: (Bytes, nat) -> Option<Chunk>) {
    forall s: Bytes, at: nat, x: Chunk :: ReadsAt(encode, read, s, at, x)
  }

  /** The scanner's own reading of a chunk is a codec, whatever the check value. */
  lemma ChunkCodec(crc: Checksum)
    ensures Codec(Encoder(crc), Reader(crc))
  {
    forall s: Bytes, at: nat, x: Chunk ensures ReadsAt(Encoder(crc), Reader(crc), s, at, x) {
      if ChunkAt(crc, s, at) == Some(x) {
        ChunkAtSound(crc, s, at);
      }
      if Shaped(x) && Holds(s, at, Encode(crc, x)) {
        ChunkAtComplete(crc, s, at, x);
      }
    }
  }

  /** At the offset of chunk `n` the bytes hold chunk `n`, and it ends where the next one starts. */
  lemma ChunkInList(encode: Chunk -> Bytes, read: (Bytes, nat) -> Option<Chunk>, cs: seq<Chunk>, n: nat, front: Bytes)
    requires Codec(encode, read) && AllShaped(cs) && n < |cs|
    ensures read(front + Concat(encode, cs, |cs|), |front| + |Concat(encode, cs, n)|) == Some(cs[n])
    ensures |Concat(encode, cs, n)| + 12 + |cs[n].data| == |Concat(encode, cs, n + 1)| <= |Concat(encode, cs, |cs|)|
  {
    ItemInConcat(encode, cs, n, front);
    assert ReadsAt(encode, read, front + Concat(encode, cs, |cs|), |front| + |Concat(encode, cs, n)|, cs[n]);
  }

  lemma {:induction false} SplitUniqueFrom(encode: Chunk -> Bytes, read: (Bytes, nat) -> Option<Chunk>,
                                           cs: seq<Chunk>, ds: seq<Chunk>, n: nat)
    requires Codec(encode, read) && AllShaped(cs) && AllShaped(ds)
    requires Concat(encode, cs, |cs|) == Concat(encode, ds, |ds|)
    requires n <= |cs| && n <= |ds| && forall i :: 0 <= i < n ==> cs[i] == ds[i]
    ensures cs == ds
    decreases |cs| - n
  {
    ConcatAgrees(encode, cs, ds, n);
    if n < |cs| {
      ChunkInList(encode, read, cs, n, []);
    }
    if n < |ds| {
      ChunkInList(encode, read, ds, n, []);
    }
    if n < |cs| && n < |ds| {
      SplitUniqueFrom(encode, read, cs, ds, n + 1);
    }
  }

  /** A byte string splits into chunks in at most one way. */
  lemma SplitUnique(crc: Checksum, cs: seq<Chunk>, ds: seq<Chunk>)
    requires AllShaped(cs) && AllShaped(ds) && EncodeAll(crc, cs) == EncodeAll(crc, ds)
    ensures cs == ds
  {
    ChunkCodec(crc);
    SplitUniqueFrom(Encoder(crc), Reader(crc), cs, ds, 0);
  }
}
