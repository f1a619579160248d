/** The byte-level scanning loop, the language it accepts and the damage it notices. */
module PngScanner {
  import opened JsText
  import opened Sequences
  import opened Crc32
  import opened Words
  import opened PngChunks
  import opened PngGrammar

  const SIGNATURE: Bytes := [137, 80, 78, 71, 13, 10, 26, 10]

  /** Reading a chunk at an offset; the scanner's own is `Reader(Crc)`. */
  type Read = (Bytes, nat) -> Option<Chunk>

  // ----- The loop as a function of its flags and offset

  function StepChunk(s: Flags, c: Chunk): Option<Flags> {
    Step(s, KindOf(c), c.data)
  }

  predicate IsEnd(c: Chunk) {
    KindOf(c).End?
  }

  ghost function Final(inflate: Inflate): Flags -> bool {
    (s: Flags) => Inflates(inflate, s.header, s.compressed)
  }

  /** The loop over any reading of chunks, flag step, end test and final test. */
  ghost predicate Scan<F>(read: Read, step: (F, Chunk) -> Option<F>, isEnd: Chunk -> bool, final: F -> bool,
                          bytes: Bytes, offset: nat, s: F)
    decreases |bytes| - offset
  {
    match read(bytes, offset)
    case None => false
    case Some(c) =>
      var next := offset + 12 + |c.data|;
      (match step(s, c)
       case None => false
       case Some(s') =>
         if isEnd(c) then next == |bytes| && final(s')
         else next <= |bytes| && Scan(read, step, isEnd, final, bytes, next, s'))
  }

  /** What the scanner accepts, for any check value. */
  ghost predicate AcceptsWith(crc: Checksum, inflate: Inflate, bytes: Bytes) {
    |bytes| >= 45 && bytes[..8] == SIGNATURE && ScansFrom(crc, inflate, bytes, 8, START)
  }

  ghost predicate ScansFrom(crc: Checksum, inflate: Inflate, bytes: Bytes, offset: nat, s: Flags) {
    Scan(Reader(crc), StepChunk, IsEnd, Final(inflate), bytes, offset, s)
  }

  ghost predicate Accepts(inflate: Inflate, bytes: Bytes) {
    AcceptsWith(Crc, inflate, bytes)
  }

  method ValidRows(rows: Bytes, height: nat, stride: nat) returns (ok: bool)
    requires 0 < stride
    ensures ok <==> LegalRows(rows, height, stride)
  {
    if |rows| != height * stride {
      return false;
    }
    for row := 0 to height
      invariant forall r :: 0 <= r < row ==> FilterByte(rows, r * stride) <= 4
    {
      RowInRange(row, height, stride);
      if rows[row * stride] > 4 {
        assert !(FilterByte(rows, row * stride) <= 4);
        return false;
      }
    }
    ok := true;
  }

  /** The chunk at the offset, with its CRC recomputed. */
  method ReadChunk(bytes: Bytes, offset: nat) returns (r: Option<Chunk>)
    ensures r == ChunkAt(Crc, bytes, offset)
  {
    if offset + 12 > |bytes| {
      return None;
    }
    var length := ReadInt(bytes, offset);
    var dataStart := offset + 8;
    var dataEnd := dataStart + length;
    if dataEnd + 4 > |bytes| {
      return None;
    }
    var crc := ComputeCrc(bytes[offset + 4..dataEnd]);
    if crc != ReadWord(bytes, dataEnd) {
      return None;
    }
    r := Some(Chunk(bytes[offset + 4..offset + 8], bytes[dataStart..dataEnd]));
  }

  /** One turn of the scanning loop: a branch for each kind of chunk, with its tests and flag updates. */
  method Turn(s: Flags, kind: Kind, data: Bytes) returns (r: Option<Flags>)
    requires s.seenImageData ==> s.seenHeader
    ensures r.Some? ==> r.value.seenHeader
    ensures r == Step(s, kind, data)
  {
    var seenHeader, seenImageData, imageDataEnded := s.seenHeader, s.seenImageData, s.imageDataEnded;
    var seenPalette, seenTransparency := s.seenPalette, s.seenTransparency;
    var header, paletteEntries, compressed := s.header, s.paletteEntries, s.compressed;
    var length := |data|;
    if kind.Unknown? {
      return None;
    }
    if !seenHeader {
      if !kind.Header? || !LegalHeader(data) {
        return None;
      }
      header := data;
      seenHeader := true;
    } else if kind.Header? {
      return None;
    }
    if kind.Palette? {
      if seenPalette || seenImageData || !LegalPalette(header, length) {
        return None;
      }
      seenPalette := true;
      paletteEntries := length / 3;
    }
    if kind.Transparency? {
      if seenTransparency || seenImageData || !LegalTransparency(header, seenPalette, paletteEntries, length) {
        return None;
      }
      seenTransparency := true;
    }
    if kind.Data? {
      if length == 0 || imageDataEnded || (ColorType(header) == 3 && !seenPalette) {
        return None;
      }
      seenImageData := true;
      compressed := compressed + [data];
    } else if seenImageData && !kind.End? {
      imageDataEnded := true;
    }
    if kind.End? && (length != 0 || !seenImageData) {
      return None;
    }
    r := Some(Flags(seenHeader, seenImageData, imageDataEnded, seenPalette, seenTransparency, header, paletteEntries,
                    compressed));
  }

  method ValidImage(inflate: Inflate, header: Bytes, compressed: seq<Bytes>) returns (ok: bool)
    ensures ok <==> Inflates(inflate, header, compressed)
  {
    var rows := inflate(Join(compressed), ExpectedBytes(header) + 1);
    if rows.None? {
      return false;
    }
    ok := ValidRows(rows.value, Height(header), RowBytes(header) + 1);
  }

  datatype Verdict<F> = Return(ok: bool) | Continue(offset: nat, flags: F)

  /** The end of one turn: return a verdict, or go on at a larger offset with new flags. */
  method Judge<F>(ghost read: Read, ghost step: (F, Chunk) -> Option<F>, ghost isEnd: Chunk -> bool,
                  ghost final: F -> bool,
                  bytes: Bytes, offset: nat, ghost s: F, chunk: Option<Chunk>, next: Option<F>, end: bool, image: bool)
    returns (v: Verdict<F>)
    requires chunk == read(bytes, offset)
    requires chunk.Some? ==>
               offset + 12 + |chunk.value.data| <= |bytes| && next == step(s, chunk.value) && end == isEnd(chunk.value)
    requires chunk.Some? && next.Some? && end ==> image == final(next.value)
    ensures v.Return? ==> (v.ok <==> Scan(read, step, isEnd, final, bytes, offset, s))
    ensures v.Continue? ==> offset < v.offset <= |bytes| && next == Some(v.flags)
    ensures v.Continue? ==>
              (Scan(read, step, isEnd, final, bytes, offset, s) <==>
               Scan(read, step, isEnd, final, bytes, v.offset, v.flags))
  {
    if chunk.None? || next.None? {
      return Return(false);
    }
    var chunkEnd := offset + 12 + |chunk.value.data|;
    if end {
      return Return(chunkEnd == |bytes| && image);
    }
    v := Continue(chunkEnd, next.value);
  }

  method ScanOne(inflate: Inflate, bytes: Bytes, offset: nat, s: Flags) returns (v: Verdict<Flags>)
    requires s.seenImageData ==> s.seenHeader
    ensures v.Return? ==> (v.ok <==> ScansFrom(Crc, inflate, bytes, offset, s))
    ensures v.Continue? ==> offset < v.offset <= |bytes| && (v.flags.seenImageData ==> v.flags.seenHeader)
    ensures v.Continue? ==>
              (ScansFrom(Crc, inflate, bytes, offset, s) <==> ScansFrom(Crc, inflate, bytes, v.offset, v.flags))
  {
    var chunk := ReadChunk(bytes, offset);
    var next, end, image := None, false, false;
    if chunk.Some? {
      next := Turn(s, KindOf(chunk.value), chunk.value.data);
      end := IsEnd(chunk.value);
      if next.Some? && end {
        image := ValidImage(inflate, next.value.header, next.value.compressed);
      }
    }
    v := Judge(Reader(Crc), StepChunk, IsEnd, Final(inflate), bytes, offset, s, chunk, next, end, image);
  }

  /** The scanning loop. */
  method ValidPng(inflate: Inflate, bytes: Bytes) returns (ok: bool)
    ensures ok <==> Accepts(inflate, bytes)
  {
    if |bytes| < 45 || bytes[..8] != SIGNATURE {
      return false;
    }
    var offset, flags := 8, START;
    while offset + 12 <= |bytes|
      invariant offset <= |bytes| && (flags.seenImageData ==> flags.seenHeader)
      invariant ScansFrom(Crc, inflate, bytes, 8, START) <==> ScansFrom(Crc, inflate, bytes, offset, flags)
      decreases |bytes| - offset
    {
      var v := ScanOne(inflate, bytes, offset, flags);
      if v.Return? {
        return v.ok;
      }
      offset, flags := v.offset, v.flags;
    }
    ok := false;
  }

  // ----- The bytes and the chunk list

  /** The same loop over a chunk list. */
  ghost predicate Run<F>(step: (F, Chunk) -> Option<F>, isEnd: Chunk -> bool, final: F -> bool, cs: seq<Chunk>, n: nat,
                         s: F)
    requires n <= |cs|
    decreases |cs| - n
  {
    n < |cs| &&
    match step(s, cs[n])
    case None => false
    case Some(s') => if isEnd(cs[n]) then n + 1 == |cs| && final(s') else Run(step, isEnd, final, cs, n + 1, s')
  }

  type Encode = Chunk -> Bytes

  /** Chunk `n` lies at `at`, ends at `next`, and only the last chunk ends with the bytes. */
  ghost predicate Placed(read: Read, bytes: Bytes, cs: seq<Chunk>, n: nat, at: nat, next: nat)
    requires n < |cs|
  {
    read(bytes, at) == Some(cs[n]) && next == at + 12 + |cs[n].data| <= |bytes| && (next == |bytes| <==> n + 1 == |cs|)
  }

  /** The list covers the bytes from `at(0)` to their end, chunk by chunk. */
  ghost predicate Layout(read: Read, bytes: Bytes, cs: seq<Chunk>, at: nat -> nat) {
    read(bytes, at(|cs|)).None? && forall n: nat :: n < |cs| ==> Placed(read, bytes, cs, n, at(n), at(n + 1))
  }

  ghost function Offsets(encode: Encode, front: Bytes, cs: seq<Chunk>): nat -> nat {
    (n: nat) => if n <= |cs| then |front| + |Concat(encode, cs, n)| else 0
  }

  lemma ChunkPlaced(encode: Encode, read: Read, front: Bytes, cs: seq<Chunk>, n: nat, at: nat, next: nat)
    requires Codec(encode, read) && AllShaped(cs) && n < |cs|
    requires at == |front| + |Concat(encode, cs, n)| && next == |front| + |Concat(encode, cs, n + 1)|
    ensures Placed(read, front + Concat(encode, cs, |cs|), cs, n, at, next)
  {
    ChunkInList(encode, read, cs, n, front);
    if n + 1 < |cs| {
      ChunkInList(encode, read, cs, n + 1, front);
    }
  }

  lemma OffsetsAt(encode: Encode, front: Bytes, cs: seq<Chunk>, n: nat)
    requires n <= |cs|
    ensures Offsets(encode, front, cs)(n) == |front| + |Concat(encode, cs, n)|
  {}

  lemma PlacedByOffsets(encode: Encode, read: Read, front: Bytes, cs: seq<Chunk>, n: nat)
    requires Codec(encode, read) && AllShaped(cs) && n < |cs|
    ensures Placed(read, front + Concat(encode, cs, |cs|), cs, n, Offsets(encode, front, cs)(n),
                   Offsets(encode, front, cs)(n + 1))
  {
    OffsetsAt(encode, front, cs, n);
    OffsetsAt(encode, front, cs, n + 1);
    ChunkPlaced(encode, read, front, cs, n, Offsets(encode, front, cs)(n), Offsets(encode, front, cs)(n + 1));
  }

  lemma NothingAfterList(encode: Encode, read: Read, front: Bytes, cs: seq<Chunk>)
    requires Codec(encode, read)
    ensures read(front + Concat(encode, cs, |cs|), Offsets(encode, front, cs)(|cs|)).None?
  {
    OffsetsAt(encode, front, cs, |cs|);
    assert ReadsAt(encode, read, front + Concat(encode, cs, |cs|), Offsets(encode, front, cs)(|cs|), Chunk([], []));
  }

  lemma LayoutOfList(encode: Encode, read: Read, front: Bytes, cs: seq<Chunk>)
    requires Codec(encode, read) && AllShaped(cs)
    ensures Layout(read, front + Concat(encode, cs, |cs|), cs, Offsets(encode, front, cs))
  {
    NothingAfterList(encode, read, front, cs);
    forall n: nat | n < |cs|
      ensures Placed(read, front + Concat(encode, cs, |cs|), cs, n, Offsets(encode, front, cs)(n),
                     Offsets(encode, front, cs)(n + 1))
    {
      PlacedByOffsets(encode, read, front, cs, n);
    }
  }

  lemma {:induction false} ScanIsRun<F>(read: Read, step: (F, Chunk) -> Option<F>, isEnd: Chunk -> bool,
                                        final: F -> bool,
                                        bytes: Bytes, cs: seq<Chunk>, at: nat -> nat, n: nat, s: F)
    requires Layout(read, bytes, cs, at) && n <= |cs|
    ensures Scan(read, step, isEnd, final, bytes, at(n), s) <==> Run(step, isEnd, final, cs, n, s)
    decreases |cs| - n
  {
    if n < |cs| {
      assert Placed(read, bytes, cs, n, at(n), at(n + 1));
      if step(s, cs[n]).Some? {
        ScanIsRun(read, step, isEnd, final, bytes, cs, at, n + 1, step(s, cs[n]).value);
      }
    }
  }

  /** Reading one more chunk extends the list that the bytes read so far encode. */
  lemma SplitExtends(encode: Encode, read: Read, front: Bytes, bytes: Bytes, done: seq<Chunk>, c: Chunk)
    requires Codec(encode, read) && AllShaped(done)
    requires SplitSoFar(encode, front, bytes, done)
    requires read(bytes, |front| + |Concat(encode, done, |done|)|) == Some(c)
    ensures AllShaped(done + [c]) && SplitSoFar(encode, front, bytes, done + [c])
    ensures |front| + |Concat(encode, done + [c], |done| + 1)| == |front| + |Concat(encode, done, |done|)| + 12
              + |c.data|
  {
    var at := |front| + |Concat(encode, done, |done|)|;
    assert ReadsAt(encode, read, bytes, at, c);
    ConcatAgrees(encode, done + [c], done, |done|);
    assert bytes[..at + |encode(c)|] == bytes[..at] + bytes[at..at + |encode(c)|];
  }

  ghost predicate SplitSoFar(encode: Encode, front: Bytes, bytes: Bytes, done: seq<Chunk>) {
    var part := front + Concat(encode, done, |done|);
    |part| <= |bytes| && bytes[..|part|] == part
  }

  /** A successful scan has split the bytes. */
  lemma {:induction false} ScanSplits<F>(encode: Encode, read: Read, step: (F, Chunk) -> Option<F>,
                                         isEnd: Chunk -> bool, final: F -> bool,
                                         front: Bytes, bytes: Bytes, done: seq<Chunk>, s: F) returns (cs: seq<Chunk>)
    requires Codec(encode, read) && AllShaped(done) && SplitSoFar(encode, front, bytes, done)
    requires Scan(read, step, isEnd, final, bytes, |front| + |Concat(encode, done, |done|)|, s)
    ensures AllShaped(cs) && bytes == front + Concat(encode, cs, |cs|)
    decreases |bytes| - |Concat(encode, done, |done|)|
  {
    var at := |front| + |Concat(encode, done, |done|)|;
    var c := read(bytes, at).value;
    assert read(bytes, at) == Some(c);
    cs := done + [c];
    SplitExtends(encode, read, front, bytes, done, c);
    if !isEnd(c) {
      cs := ScanSplits(encode, read, step, isEnd, final, front, bytes, cs, step(s, c).value);
    } else {
      assert bytes[..|bytes|] == bytes;
    }
  }

  // ----- The flags and the grammar

  /** One turn from `summary(m)` succeeds exactly when position `m` is legal, and leads to `summary(m + 1)`. */
  ghost predicate Tracks<F>(step: (F, Chunk) -> Option<F>, isEnd: Chunk -> bool, final: F -> bool,
                            cs: seq<Chunk>, m: nat, summary: nat -> F, legal: nat -> bool, ending: bool)
    requires m < |cs|
  {
    var next := step(summary(m), cs[m]);
    (legal(m) <==> next.Some? && (isEnd(cs[m]) ==> m == |cs| - 1)) &&
    (legal(m) && !isEnd(cs[m]) ==> next == Some(summary(m + 1))) &&
    (legal(m) && isEnd(cs[m]) ==> (final(next.value) <==> ending))
  }

  /** An automaton that tracks `summary` accepts exactly when every position is legal. */
  lemma {:induction false} RunIsLegal<F>(step: (F, Chunk) -> Option<F>, isEnd: Chunk -> bool, final: F -> bool,
                                         cs: seq<Chunk>, n: nat, summary: nat -> F, legal: nat -> bool, ending: bool)
    requires n <= |cs|
    requires forall m: nat :: m < |cs| ==> Tracks(step, isEnd, final, cs, m, summary, legal, ending)
    ensures Run(step, isEnd, final, cs, n, summary(n)) <==>
            n < |cs| && isEnd(cs[|cs| - 1]) && (forall m: nat :: n <= m < |cs| ==> legal(m)) && ending
    decreases |cs| - n
  {
    if n < |cs| {
      assert Tracks(step, isEnd, final, cs, n, summary, legal, ending);
      if legal(n) && !isEnd(cs[n]) {
        RunIsLegal(step, isEnd, final, cs, n + 1, summary, legal, ending);
      }
    }
  }

  ghost function SummaryOf(cs: seq<Chunk>): nat -> Flags {
    (n: nat) => if n <= |cs| then Summary(cs, n) else START
  }

  ghost function LegalIn(cs: seq<Chunk>): nat -> bool {
    (n: nat) => n < |cs| && Legal(cs, n)
  }

  lemma FlagsTrackLegality(inflate: Inflate, cs: seq<Chunk>, m: nat)
    requires m < |cs|
    ensures Tracks(StepChunk, IsEnd, Final(inflate), cs, m, SummaryOf(cs), LegalIn(cs),
                   Inflates(inflate, HeaderData(cs), Parts(cs, |cs|)))
  {
    assert SummaryOf(cs)(m) == Summary(cs, m) && SummaryOf(cs)(m + 1) == Summary(cs, m + 1);
    assert LegalIn(cs)(m) <==> Legal(cs, m);
    StepKeepsSummary(cs, m);
    if Legal(cs, m) && IsEnd(cs[m]) {
      assert m + 1 == |cs|;
    }
  }

  lemma RunIsGrammar(inflate: Inflate, cs: seq<Chunk>)
    ensures Run(StepChunk, IsEnd, Final(inflate), cs, 0, START) <==> Grammar(inflate, cs)
  {
    var ending := Inflates(inflate, HeaderData(cs), Parts(cs, |cs|));
    forall m: nat | m < |cs|
      ensures Tracks(StepChunk, IsEnd, Final(inflate), cs, m, SummaryOf(cs), LegalIn(cs), ending)
    {
      FlagsTrackLegality(inflate, cs, m);
    }
    StartIsSummary(cs);
    RunIsLegal(StepChunk, IsEnd, Final(inflate), cs, 0, SummaryOf(cs), LegalIn(cs), ending);
    assert forall m: nat :: m < |cs| ==> (LegalIn(cs)(m) <==> Legal(cs, m));
  }

  lemma GrammarLength(inflate: Inflate, encode: Encode, read: Read, cs: seq<Chunk>)
    requires Codec(encode, read) && AllShaped(cs) && Grammar(inflate, cs)
    ensures |Concat(encode, cs, |cs|)| >= 37
  {
    assert Legal(cs, 0);
    var i := GrammarHasData(inflate, cs);
    ChunkInList(encode, read, cs, 0, []);
    ConcatPrefix(encode, cs, 1, |cs| - 1);
    ChunkInList(encode, read, cs, |cs| - 1, []);
  }

  /** Encoding any grammatical chunk list gives accepted bytes. */
  lemma GrammarAccepted(crc: Checksum, inflate: Inflate, cs: seq<Chunk>)
    requires AllShaped(cs) && Grammar(inflate, cs)
    ensures AcceptsWith(crc, inflate, SIGNATURE + EncodeAll(crc, cs))
  {
    ChunkCodec(crc);
    GrammarLength(inflate, Encoder(crc), Reader(crc), cs);
    RunIsGrammar(inflate, cs);
    LayoutOfList(Encoder(crc), Reader(crc), SIGNATURE, cs);
    ScanIsRun(Reader(crc), StepChunk, IsEnd, Final(inflate), SIGNATURE + EncodeAll(crc, cs), cs,
              Offsets(Encoder(crc), SIGNATURE, cs), 0, START);
    assert (SIGNATURE + EncodeAll(crc, cs))[..8] == SIGNATURE;
  }

  /** Accepted bytes split into a grammatical chunk list; `SplitUnique` says there is only one. */
  lemma AcceptedSplit(crc: Checksum, inflate: Inflate, bytes: Bytes) returns (cs: seq<Chunk>)
    requires AcceptsWith(crc, inflate, bytes)
    ensures AllShaped(cs) && bytes == SIGNATURE + EncodeAll(crc, cs) && Grammar(inflate, cs)
  {
    ChunkCodec(crc);
    assert SIGNATURE + Concat(Encoder(crc), [], 0) == SIGNATURE;
    cs := ScanSplits(Encoder(crc), Reader(crc), StepChunk, IsEnd, Final(inflate), SIGNATURE, bytes, [], START);
    LayoutOfList(Encoder(crc), Reader(crc), SIGNATURE, cs);
    ScanIsRun(Reader(crc), StepChunk, IsEnd, Final(inflate), SIGNATURE + EncodeAll(crc, cs), cs,
              Offsets(Encoder(crc), SIGNATURE, cs), 0, START);
    RunIsGrammar(inflate, cs);
  }

  /** The scanner accepts exactly the byte strings that are the signature followed by a grammatical chunk list. */
  lemma AcceptsExactly(inflate: Inflate, bytes: Bytes)
    ensures Accepts(inflate, bytes) <==>
            exists cs: seq<Chunk> :: AllShaped(cs) && bytes == SIGNATURE + EncodeAll(Crc, cs) && Grammar(inflate, cs)
  {
    if Accepts(inflate, bytes) {
      var cs := AcceptedSplit(Crc, inflate, bytes);
    }
    if cs: seq<Chunk> :| AllShaped(cs) && bytes == SIGNATURE + EncodeAll(Crc, cs) && Grammar(inflate, cs) {
      GrammarAccepted(Crc, inflate, cs);
    }
  }
}
