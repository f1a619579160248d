/** Damage within four bytes of a chunk's type or data never goes unnoticed. */
module PngDamage {
  import opened JsText
  import opened Sequences
  import opened Crc32
  import opened Words
  import opened PngChunks
  import opened PngGrammar
  import opened PngScanner

  /** Position `i` is one of four bytes from `w` on, inside `[from, to)`. */
  predicate Touched(i: nat, from: nat, to: nat, w: nat) {
    from <= i < to && w <= i < w + 4
  }

  /** `damaged` differs from `bytes` at most in four neighbouring bytes inside `[from, to)`. */
  ghost predicate DamagedWithin(bytes: Bytes, damaged: Bytes, from: nat, to: nat, w: nat) {
    |damaged| == |bytes| && forall i: nat :: KeptAt(bytes, damaged, from, to, w, i)
  }

  ghost predicate KeptAt(bytes: Bytes, damaged: Bytes, from: nat, to: nat, w: nat, i: nat)
    requires |damaged| == |bytes|
  {
    i < |bytes| && !Touched(i, from, to, w) ==> damaged[i] == bytes[i]
  }

  lemma SliceKept(bytes: Bytes, damaged: Bytes, from: nat, to: nat, w: nat, lo: nat, hi: nat)
    requires DamagedWithin(bytes, damaged, from, to, w) && lo <= hi <= |bytes| && (hi <= from || to <= lo)
    ensures damaged[lo..hi] == bytes[lo..hi]
  {
    forall i | lo <= i < hi ensures damaged[i] == bytes[i] {
      assert KeptAt(bytes, damaged, from, to, w, i);
    }
  }

  /** The check value tells apart messages of one length that differ within four bytes. */
  ghost predicate Detects(crc: Checksum) {
    forall a, b, k :: DifferWithin(a, b, k) && crc(a) == crc(b) ==> a == b
  }

  lemma CrcDetects()
    ensures Detects(Crc)
  {
    forall a, b, k | DifferWithin(a, b, k) && Crc(a) == Crc(b) ensures a == b {
      BurstDetected(a, b, k);
    }
  }

  lemma BodyDamage(crc: Checksum, bytes: Bytes, damaged: Bytes, from: nat, to: nat, w: nat)
    requires Detects(crc) && DamagedWithin(bytes, damaged, from, to, w) && from <= to <= |bytes|
    requires crc(bytes[from..to]) == crc(damaged[from..to])
    ensures damaged == bytes
  {
    var k := if w < from then 0 else w - from;
    var a, b := bytes[from..to], damaged[from..to];
    forall i: nat | i < |a| && !(k <= i < k + 4) ensures a[i] == b[i] {
      assert KeptAt(bytes, damaged, from, to, w, from + i);
    }
    assert DifferWithin(a, b, k);
    forall i: nat | i < |bytes| ensures damaged[i] == bytes[i] {
      if from <= i < to {
        assert a[i - from] == b[i - from];
      } else {
        assert KeptAt(bytes, damaged, from, to, w, i);
      }
    }
  }

  /** Both files hold a CRC-correct chunk at the offset: then the damage is none. */
  lemma ChunkDamage(crc: Checksum, bytes: Bytes, damaged: Bytes, at: nat, from: nat, to: nat, w: nat)
    requires Detects(crc) && from == at + 4 <= to && to + 4 <= |bytes| && DamagedWithin(bytes, damaged, from, to, w)
    requires ChunkAt(crc, bytes, at).Some? && at + 8 + ReadInt(bytes, at) == to
    requires ChunkAt(crc, damaged, at).Some?
    ensures damaged == bytes
  {
    SliceKept(bytes, damaged, from, to, w, at, from);
    SliceKept(bytes, damaged, from, to, w, to, to + 4);
    ReadsAgree(bytes, damaged, at);
    ReadsAgree(bytes, damaged, to);
    BodyDamage(crc, bytes, damaged, from, to, w);
  }

  lemma ReadsAgree(bytes: Bytes, damaged: Bytes, at: nat)
    requires at + 4 <= |bytes| == |damaged| && damaged[at..at + 4] == bytes[at..at + 4]
    ensures ReadInt(damaged, at) == ReadInt(bytes, at) && ReadWord(damaged, at) == ReadWord(bytes, at)
  {
    FourBytes(bytes, at);
    FourBytes(damaged, at);
    assert bytes[at..at + 4][0] == bytes[at] && damaged[at..at + 4][0] == damaged[at];
    assert bytes[at..at + 4][1] == bytes[at + 1] && damaged[at..at + 4][1] == damaged[at + 1];
    assert bytes[at..at + 4][2] == bytes[at + 2] && damaged[at..at + 4][2] == damaged[at + 2];
    assert bytes[at..at + 4][3] == bytes[at + 3] && damaged[at..at + 4][3] == damaged[at + 3];
  }

  /** A scan that succeeds reads every chunk on its way. */
  lemma {:induction false} ScanReaches<F>(read: Read, step: (F, Chunk) -> Option<F>, isEnd: Chunk -> bool,
                                          final: F -> bool,
                                          bytes: Bytes, cs: seq<Chunk>, at: nat -> nat, k: nat, n: nat, s: F)
    requires n <= k <= |cs| && Scan(read, step, isEnd, final, bytes, at(n), s)
    requires forall i: nat :: i < k ==> OnWay(read, isEnd, bytes, cs, at, i)
    ensures read(bytes, at(k)).Some?
    decreases k - n
  {
    if n < k {
      assert OnWay(read, isEnd, bytes, cs, at, n);
      ScanReaches(read, step, isEnd, final, bytes, cs, at, k, n + 1, step(s, cs[n]).value);
    }
  }

  /** Chunk `i` is read at `at(i)`, leads to `at(i + 1)` and does not end the scan. */
  ghost predicate OnWay(read: Read, isEnd: Chunk -> bool, bytes: Bytes, cs: seq<Chunk>, at: nat -> nat, i: nat) {
    i < |cs| && read(bytes, at(i)) == Some(cs[i]) && at(i + 1) == at(i) + 12 + |cs[i].data| && !isEnd(cs[i])
  }

  /** The chunks before the damage are read as before. */
  lemma ReadAsBefore(encode: Encode, read: Read, bytes: Bytes, damaged: Bytes, at: nat, from: nat, to: nat, w: nat,
                     c: Chunk)
    requires Codec(encode, read) && DamagedWithin(bytes, damaged, from, to, w)
    requires read(bytes, at) == Some(c) && at + 12 + |c.data| <= from
    ensures read(damaged, at) == Some(c)
  {
    assert ReadsAt(encode, read, bytes, at, c);
    assert ReadsAt(encode, read, damaged, at, c);
    SliceKept(bytes, damaged, from, to, w, at, at + |encode(c)|);
  }

  /** None of the first `k` chunks ends the file. */
  ghost predicate NoEndBefore(isEnd: Chunk -> bool, cs: seq<Chunk>, k: nat) {
    forall i :: 0 <= i < k && i < |cs| ==> !isEnd(cs[i])
  }

  lemma BeforeDamage(encode: Encode, read: Read, isEnd: Chunk -> bool, front: Bytes, cs: seq<Chunk>, k: nat,
                     damaged: Bytes, from: nat, to: nat, w: nat, at: nat -> nat, i: nat)
    requires Codec(encode, read) && AllShaped(cs) && i < k < |cs| && !isEnd(cs[i])
    requires DamagedWithin(front + Concat(encode, cs, |cs|), damaged, from, to, w)
    requires from >= |front| + |Concat(encode, cs, k)| && at == Offsets(encode, front, cs)
    ensures OnWay(read, isEnd, damaged, cs, at, i)
  {
    ChunkInList(encode, read, cs, i, front);
    ConcatPrefix(encode, cs, i + 1, k);
    OffsetsAt(encode, front, cs, i);
    OffsetsAt(encode, front, cs, i + 1);
    ReadAsBefore(encode, read, front + Concat(encode, cs, |cs|), damaged, at(i), from, to, w, cs[i]);
  }

  lemma DamagedScanReads<F>(encode: Encode, read: Read, step: (F, Chunk) -> Option<F>, isEnd: Chunk -> bool,
                            final: F -> bool,
                            front: Bytes, cs: seq<Chunk>, k: nat, damaged: Bytes, from: nat, to: nat, w: nat, s: F)
    requires Codec(encode, read) && AllShaped(cs) && k < |cs|
    requires NoEndBefore(isEnd, cs, k) && DamagedWithin(front + Concat(encode, cs, |cs|), damaged, from, to, w)
    requires from >= |front| + |Concat(encode, cs, k)| && Scan(read, step, isEnd, final, damaged, |front|, s)
    ensures read(damaged, |front| + |Concat(encode, cs, k)|).Some?
  {
    var at := Offsets(encode, front, cs);
    forall i: nat | i < k ensures OnWay(read, isEnd, damaged, cs, at, i) {
      BeforeDamage(encode, read, isEnd, front, cs, k, damaged, from, to, w, at, i);
    }
    OffsetsAt(encode, front, cs, 0);
    OffsetsAt(encode, front, cs, k);
    ScanReaches(read, step, isEnd, final, damaged, cs, at, k, 0, s);
  }

  lemma EndIsLast(inflate: Inflate, cs: seq<Chunk>, k: nat)
    requires Grammar(inflate, cs) && k < |cs|
    ensures NoEndBefore(IsEnd, cs, k)
  {
    forall i | 0 <= i < k ensures !IsEnd(cs[i]) {
      GrammarOnce(inflate, cs, i, k);
    }
  }

  lemma AcceptedScanReads(crc: Checksum, inflate: Inflate, cs: seq<Chunk>, k: nat, damaged: Bytes, from: nat, to: nat,
                          w: nat)
    requires AllShaped(cs) && Grammar(inflate, cs) && k < |cs| && AcceptsWith(crc, inflate, damaged)
    requires DamagedWithin(SIGNATURE + EncodeAll(crc, cs), damaged, from, to, w)
    requires from >= 8 + |Concat(Encoder(crc), cs, k)|
    ensures Reader(crc)(damaged, 8 + |Concat(Encoder(crc), cs, k)|).Some?
  {
    ChunkCodec(crc);
    EndIsLast(inflate, cs, k);
    DamagedScanReads(Encoder(crc), Reader(crc), StepChunk, IsEnd, Final(inflate), SIGNATURE, cs, k, damaged, from, to,
                     w, START);
  }

  lemma ReadAsChunk(crc: Checksum, bytes: Bytes, at: nat)
    ensures Reader(crc)(bytes, at) == ChunkAt(crc, bytes, at)
    ensures ChunkAt(crc, bytes, at).Some? ==>
              at + 12 + |ChunkAt(crc, bytes, at).value.data| <= |bytes|
              && ReadInt(bytes, at) == |ChunkAt(crc, bytes, at).value.data|
  {}

  /** Where chunk `k` of an encoded list stands. */
  lemma OriginalChunk(crc: Checksum, cs: seq<Chunk>, k: nat, bytes: Bytes, at: nat, to: nat)
    requires AllShaped(cs) && k < |cs| && bytes == SIGNATURE + EncodeAll(crc, cs)
    requires at == 8 + |Concat(Encoder(crc), cs, k)| && to == at + 8 + |cs[k].data|
    ensures to + 4 <= |bytes| && ChunkAt(crc, bytes, at).Some? && at + 8 + ReadInt(bytes, at) == to
  {
    ChunkCodec(crc);
    ChunkInList(Encoder(crc), Reader(crc), cs, k, SIGNATURE);
    ReadAsChunk(crc, bytes, at);
  }

  /** A damaged file with a CRC-correct chunk at the offset is not damaged at all. */
  lemma DamageSeen(crc: Checksum, bytes: Bytes, damaged: Bytes, at: nat, from: nat, to: nat, w: nat)
    requires Detects(crc) && from == at + 4 <= to && to + 4 <= |bytes| && DamagedWithin(bytes, damaged, from, to, w)
    requires ChunkAt(crc, bytes, at).Some? && at + 8 + ReadInt(bytes, at) == to
    ensures Reader(crc)(damaged, at).Some? ==> damaged == bytes
  {
    ReadAsChunk(crc, damaged, at);
    if Reader(crc)(damaged, at).Some? {
      ChunkDamage(crc, bytes, damaged, at, from, to, w);
    }
  }

  lemma DamageRejectedWith(crc: Checksum, inflate: Inflate, cs: seq<Chunk>, k: nat, bytes: Bytes, at: nat,
                           damaged: Bytes, from: nat, to: nat, w: nat)
    requires Detects(crc) && AllShaped(cs) && Grammar(inflate, cs) && k < |cs|
             && bytes == SIGNATURE + EncodeAll(crc, cs)
    requires at == 8 + |Concat(Encoder(crc), cs, k)| && from == at + 4 && to == at + 8 + |cs[k].data|
    requires DamagedWithin(bytes, damaged, from, to, w)
    ensures AcceptsWith(crc, inflate, damaged) ==> damaged == bytes
  {
    OriginalChunk(crc, cs, k, bytes, at, to);
    DamageSeen(crc, bytes, damaged, at, from, to, w);
    if AcceptsWith(crc, inflate, damaged) {
      AcceptedScanReads(crc, inflate, cs, k, damaged, from, to, w);
    }
  }

  /**
   * Altering an accepted image anywhere within four neighbouring bytes of the type or data of any
   * of its chunks makes the scanner reject it: an accepted altered file is the original.
   */
  lemma DamageRejected(inflate: Inflate, cs: seq<Chunk>, k: nat, bytes: Bytes, at: nat,
                       damaged: Bytes, from: nat, to: nat, w: nat)
    requires AllShaped(cs) && Grammar(inflate, cs) && k < |cs| && bytes == SIGNATURE + EncodeAll(Crc, cs)
    requires at == 8 + |Concat(Encoder(Crc), cs, k)| && from == at + 4 && to == at + 8 + |cs[k].data|
    requires DamagedWithin(bytes, damaged, from, to, w)
    ensures Accepts(inflate, damaged) ==> damaged == bytes
  {
    CrcDetects();
    DamageRejectedWith(Crc, inflate, cs, k, bytes, at, damaged, from, to, w);
  }
}
