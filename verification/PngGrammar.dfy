/** Which chunk lists are acceptable screenshots, and the flag automaton that decides it (RFC 2083 section 4.3). */
module PngGrammar {
  import opened JsText
  import opened Crc32
  import opened Words
  import opened PngChunks

  /** `inflateSync(data, { maxOutputLength })`; `None` when it throws. */
  type Inflate = (Bytes, nat) -> Option<Bytes>

  datatype Kind = Header | Palette | Transparency | Data | End | Ancillary | Unknown

  /** The ASCII reading of a type clears the high bit of each byte. */
  function Masked(tag: Bytes): Bytes
    requires |tag| == 4
  {
    [tag[0] & 0x7f, tag[1] & 0x7f, tag[2] & 0x7f, tag[3] & 0x7f]
  }

  function KindOfName(name: Bytes): Kind {
    if name == [73, 72, 68, 82] then Header
    else if name == [80, 76, 84, 69] then Palette
    else if name == [73, 68, 65, 84] then Data
    else if name == [73, 69, 78, 68] then End
    else if name == [116, 82, 78, 83] then Transparency
    else if name == [103, 65, 77, 65] || name == [99, 72, 82, 77] || name == [115, 82, 71, 66]
            || name == [112, 72, 89, 115] then Ancillary
    else Unknown
  }

  function KindOf(c: Chunk): Kind {
    if |c.tag| != 4 then Unknown else KindOfName(Masked(c.tag))
  }

  // ----- Header fields

  function Width(data: Bytes): nat { if |data| == 13 then ReadInt(data, 0) else 0 }

  function Height(data: Bytes): nat { if |data| == 13 then ReadInt(data, 4) else 0 }

  function BitDepth(data: Bytes): nat { if |data| == 13 then Value(data[8]) else 0 }

  function ColorType(data: Bytes): nat { if |data| == 13 then Value(data[9]) else 0 }

  function Channels(colorType: nat): nat {
    if colorType == 0 then 1
    else if colorType == 2 then 3
    else if colorType == 3 then 1
    else if colorType == 4 then 2
    else if colorType == 6 then 4
    else 0
  }

  function LegalDepths(colorType: nat): seq<nat> {
    if colorType == 0 then [1, 2, 4, 8, 16]
    else if colorType == 3 then [1, 2, 4, 8]
    else if colorType == 2 || colorType == 4 || colorType == 6 then [8, 16]
    else []
  }

  predicate LegalHeader(data: Bytes) {
    && |data| == 13
    && 0 < Width(data) <= 8192 && 0 < Height(data) <= 8192
    && Width(data) * Height(data) <= 16_777_216
    && Channels(ColorType(data)) != 0
    && BitDepth(data) in LegalDepths(ColorType(data))
    && data[10] == 0 && data[11] == 0 && data[12] == 0
  }

  function Power2(n: nat): nat {
    if n == 0 then 1 else 2 * Power2(n - 1)
  }

  /**
   * A palette holds 1 to 256 entries of three bytes, is not for greyscale, and indexes no more than the depth allows.
   */
  predicate LegalPalette(header: Bytes, length: nat) {
    && 0 < length <= 768 && length % 3 == 0
    && ColorType(header) != 0 && ColorType(header) != 4
    && (ColorType(header) == 3 ==> length / 3 <= Power2(BitDepth(header)))
  }

  /** Transparency by colour type; for indexed colour it follows the palette and is no longer than it. */
  predicate LegalTransparency(header: Bytes, seenPalette: bool, paletteEntries: nat, length: nat) {
    && ColorType(header) != 4 && ColorType(header) != 6
    && (ColorType(header) == 0 ==> length == 2)
    && (ColorType(header) == 2 ==> length == 6)
    && (ColorType(header) == 3 ==> seenPalette && 0 < length <= paletteEntries)
  }

  // ----- The image rows

  function RowBytes(header: Bytes): nat {
    (Width(header) * (Channels(ColorType(header)) * BitDepth(header)) + 7) / 8
  }

  function ExpectedBytes(header: Bytes): nat {
    Height(header) * (RowBytes(header) + 1)
  }

  function Join(parts: seq<Bytes>): Bytes {
    if parts == [] then [] else Join(parts[..|parts| - 1]) + parts[|parts| - 1]
  }

  lemma RowInRange(row: nat, height: nat, stride: nat)
    requires row < height && 0 < stride
    ensures row * stride < height * stride
  {
    assert (row + 1) * stride <= height * stride;
    assert (row + 1) * stride == row * stride + stride;
  }

  /** Rows of the declared size, each starting with a filter byte of at most four. */
  ghost predicate LegalRows(rows: Bytes, height: nat, stride: nat)
    requires 0 < stride
  {
    |rows| == height * stride &&
    forall row :: 0 <= row < height ==> FilterByte(rows, row * stride) <= 4
  }

  function FilterByte(rows: Bytes, at: nat): bv8 {
    if at < |rows| then rows[at] else 0
  }

  /** The image data inflates to exactly the rows the header declares. */
  ghost predicate Inflates(inflate: Inflate, header: Bytes, parts: seq<Bytes>) {
    var rows := inflate(Join(parts), ExpectedBytes(header) + 1);
    rows.Some? && LegalRows(rows.value, Height(header), RowBytes(header) + 1)
  }

  // ----- The grammar

  /** A chunk of the kind occurs before position `n`. */
  predicate Seen(cs: seq<Chunk>, n: nat, kind: Kind)
    requires n <= |cs|
  {
    n > 0 && (KindOf(cs[n - 1]) == kind || Seen(cs, n - 1, kind))
  }

  /** The number of entries of the last palette before position `n`. */
  function Entries(cs: seq<Chunk>, n: nat): nat
    requires n <= |cs|
  {
    if n == 0 then 0
    else if KindOf(cs[n - 1]).Palette? then |cs[n - 1].data| / 3
    else Entries(cs, n - 1)
  }

  /** The image data before position `n`. */
  function Parts(cs: seq<Chunk>, n: nat): seq<Bytes>
    requires n <= |cs|
  {
    if n == 0 then []
    else if KindOf(cs[n - 1]).Data? then Parts(cs, n - 1) + [cs[n - 1].data]
    else Parts(cs, n - 1)
  }

  function HeaderData(cs: seq<Chunk>): Bytes {
    if cs == [] then [] else cs[0].data
  }

  /** Chunk `n` may follow the chunks before it. */
  predicate Legal(cs: seq<Chunk>, n: nat)
    requires n < |cs|
  {
    var c, header := cs[n], HeaderData(cs);
    (KindOf(c).Header? <==> n == 0) &&
    match KindOf(c)
    case Header => LegalHeader(c.data)
    case Palette => !Seen(cs, n, Palette) && !Seen(cs, n, Data) && LegalPalette(header, |c.data|)
    case Transparency =>
      !Seen(cs, n, Transparency) && !Seen(cs, n, Data) &&
      LegalTransparency(header, Seen(cs, n, Palette), Entries(cs, n), |c.data|)
    case Data =>
      c.data != [] && (Seen(cs, n, Data) ==> KindOf(cs[n - 1]).Data?) &&
      (ColorType(header) == 3 ==> Seen(cs, n, Palette))
    case End => c.data == [] && Seen(cs, n, Data) && n == |cs| - 1
    case Ancillary => true
    case Unknown => false
  }

  /** A chunk list that is an acceptable image. */
  ghost predicate Grammar(inflate: Inflate, cs: seq<Chunk>) {
    && cs != [] && KindOf(cs[|cs| - 1]).End?
    && (forall n :: 0 <= n < |cs| ==> Legal(cs, n))
    && Inflates(inflate, HeaderData(cs), Parts(cs, |cs|))
  }

  // ----- The grammar read over the whole list

  lemma {:induction false} SeenAt(cs: seq<Chunk>, n: nat, i: nat)
    requires i < n <= |cs|
    ensures Seen(cs, n, KindOf(cs[i]))
  {
    if i < n - 1 {
      SeenAt(cs, n - 1, i);
    }
  }

  lemma {:induction false} SeenWhere(cs: seq<Chunk>, n: nat, kind: Kind) returns (i: nat)
    requires n <= |cs| && Seen(cs, n, kind)
    ensures i < n && KindOf(cs[i]) == kind
  {
    if KindOf(cs[n - 1]) == kind {
      i := n - 1;
    } else {
      i := SeenWhere(cs, n - 1, kind);
    }
  }

  /** One header, first; at most one palette and one transparency chunk; one end, last. */
  lemma GrammarOnce(inflate: Inflate, cs: seq<Chunk>, i: nat, j: nat)
    requires Grammar(inflate, cs) && i < j < |cs|
    ensures !KindOf(cs[j]).Header? && KindOf(cs[0]).Header?
    ensures !KindOf(cs[i]).End?
    ensures !(KindOf(cs[i]).Palette? && KindOf(cs[j]).Palette?)
    ensures !(KindOf(cs[i]).Transparency? && KindOf(cs[j]).Transparency?)
    ensures KindOf(cs[i]).Data? ==> !KindOf(cs[j]).Palette? && !KindOf(cs[j]).Transparency?
  {
    assert Legal(cs, 0) && Legal(cs, i) && Legal(cs, j);
    SeenAt(cs, j, i);
  }

  /** The image data is one consecutive, non-empty group. */
  lemma {:induction false} GrammarConsecutive(inflate: Inflate, cs: seq<Chunk>, i: nat, j: nat, k: nat)
    requires Grammar(inflate, cs) && i <= j <= k < |cs|
    requires KindOf(cs[i]).Data? && KindOf(cs[k]).Data?
    ensures KindOf(cs[j]).Data? && cs[j].data != []
    decreases k - j
  {
    assert Legal(cs, k);
    if j < k {
      SeenAt(cs, k, i);
      GrammarConsecutive(inflate, cs, i, j, k - 1);
    }
  }

  lemma GrammarHasData(inflate: Inflate, cs: seq<Chunk>) returns (i: nat)
    requires Grammar(inflate, cs)
    ensures 0 < i < |cs| - 1 && KindOf(cs[i]).Data?
  {
    assert Legal(cs, |cs| - 1) && Legal(cs, 0);
    i := SeenWhere(cs, |cs| - 1, Data);
  }

  // ----- The scanner's flags

  datatype Flags = Flags(
    seenHeader: bool, seenImageData: bool, imageDataEnded: bool, seenPalette: bool, seenTransparency: bool,
    header: Bytes, paletteEntries: nat, compressed: seq<Bytes>)

  const START := Flags(false, false, false, false, false, [], 0, [])

  /** What one turn of the scanning loop does to its flags, or `None` when it returns false. */
  function Step(s: Flags, kind: Kind, data: Bytes): Option<Flags> {
    if kind.Unknown? then None
    else if !s.seenHeader then
      if kind.Header? && LegalHeader(data) then Some(s.(seenHeader := true, header := data)) else None
    else
      match kind
      case Header => None
      case Palette =>
        if s.seenPalette || s.seenImageData || !LegalPalette(s.header, |data|) then None
        else Some(s.(seenPalette := true, paletteEntries := |data| / 3))
      case Transparency =>
        if s.seenTransparency || s.seenImageData
           || !LegalTransparency(s.header, s.seenPalette, s.paletteEntries, |data|) then None
        else Some(s.(seenTransparency := true))
      case Data =>
        if data == [] || s.imageDataEnded || (ColorType(s.header) == 3 && !s.seenPalette) then None
        else Some(s.(seenImageData := true, compressed := s.compressed + [data]))
      case End => if data != [] || !s.seenImageData then None else Some(s)
      case Ancillary => Some(s.(imageDataEnded := s.imageDataEnded || s.seenImageData))
  }

  /** The flags as facts about the chunks read so far. */
  function Summary(cs: seq<Chunk>, n: nat): Flags
    requires n <= |cs|
  {
    Flags(n > 0, Seen(cs, n, Data), Seen(cs, n, Data) && !KindOf(cs[n - 1]).Data?,
          Seen(cs, n, Palette), Seen(cs, n, Transparency),
          if n == 0 then [] else HeaderData(cs), Entries(cs, n), Parts(cs, n))
  }

  lemma StartIsSummary(cs: seq<Chunk>)
    ensures Summary(cs, 0) == START
  {}

  /** One turn accepts chunk `n` exactly when it may stand there, and keeps the flags' meaning. */
  lemma StepKeepsSummary(cs: seq<Chunk>, n: nat)
    requires n < |cs|
    ensures var step := Step(Summary(cs, n), KindOf(cs[n]), cs[n].data);
            (step.Some? && (KindOf(cs[n]).End? ==> n == |cs| - 1) <==> Legal(cs, n)) &&
            (step.Some? && !KindOf(cs[n]).End? ==> step.value == Summary(cs, n + 1)) &&
            (step.Some? && KindOf(cs[n]).End? ==>
             step.value.header == HeaderData(cs) && step.value.compressed == Parts(cs, n + 1))
  {
  }
}
