/** The hash-chained event ledger and what its head hash pins down. */
module EventLedger {
  import opened JsText
  import opened Json
  import opened CanonicalJson

  datatype Entry = Entry(sequence: int, previousHash: Text, event: Json, hash: Text)

  /** What reading the file can do: succeed, or throw at a one-based sequence number. */
  datatype Outcome<+V> = Done(value: V) | Mismatch(sequence: nat)

  function Genesis(): Text {
    seq(64, _ => 48)
  }

  /** The object whose canonical text is hashed. */
  function Body(e: Entry): Json {
    Obj([Member(T("sequence"), Num(e.sequence)), Member(T("previousHash"), Str(e.previousHash)),
         Member(T("event"), e.event)])
  }

  function BodyText(e: Entry): Text {
    Canonical(Body(e))
  }

  function PreviousHash(es: seq<Entry>, i: nat): Text
    requires i <= |es|
  {
    if i == 0 then Genesis() else es[i - 1].hash
  }

  /** Entry `i` is numbered `i + 1`, points at its predecessor and carries the digest of its own text. */
  predicate Linked(sha: Text -> Text, text: Entry -> Text, es: seq<Entry>, i: nat)
    requires i < |es|
  {
    es[i].sequence == i + 1 && es[i].previousHash == PreviousHash(es, i) && es[i].hash == sha(text(es[i]))
  }

  ghost predicate Chain(sha: Text -> Text, text: Entry -> Text, es: seq<Entry>) {
    forall i :: 0 <= i < |es| ==> Linked(sha, text, es, i)
  }

  ghost predicate Verified(sha: Text -> Text, es: seq<Entry>) {
    Chain(sha, BodyText, es)
  }

  /** The entry for an event, carrying the digest of its own text. */
  function Sealed(sha: Text -> Text, sequence: int, previousHash: Text, event: Json): Entry {
    var bare := Entry(sequence, previousHash, event, []);
    bare.(hash := sha(BodyText(bare)))
  }

  function NextEntry(sha: Text -> Text, es: seq<Entry>, event: Json): Entry {
    Sealed(sha, |es| + 1, PreviousHash(es, |es|), event)
  }

  /** The loop shared by the ledger and by the evidence verifier. */
  method VerifyEntries(sha: Text -> Text, entries: seq<Entry>) returns (r: Outcome<bool>)
    ensures r.Done? <==> Verified(sha, entries)
    ensures r.Done? ==> r.value
    ensures r.Mismatch? ==>
              1 <= r.sequence <= |entries| && Verified(sha, entries[..r.sequence - 1])
              && !Verified(sha, entries[..r.sequence])
  {
    var previousHash := Genesis();
    for index := 0 to |entries|
      invariant previousHash == PreviousHash(entries, index)
      invariant forall i :: 0 <= i < index ==> Linked(sha, BodyText, entries, i)
    {
      var entry := entries[index];
      if entry.sequence != index + 1 || entry.previousHash != previousHash || entry.hash != sha(BodyText(entry)) {
        PrefixVerified(sha, entries, index);
        assert !Linked(sha, BodyText, entries, index);
        assert !Linked(sha, BodyText, entries[..index + 1], index);
        return Mismatch(index + 1);
      }
      previousHash := entry.hash;
    }
    r := Done(true);
  }

  lemma PrefixVerified(sha: Text -> Text, es: seq<Entry>, n: nat)
    requires n <= |es|
    requires forall i :: 0 <= i < n ==> Linked(sha, BodyText, es, i)
    ensures Verified(sha, es[..n])
  {
    forall i | 0 <= i < n ensures Linked(sha, BodyText, es[..n], i) {
      assert Linked(sha, BodyText, es, i);
    }
  }

  class EventLedger {
    const sha: Text -> Text
    /** The entries of the ledger file, one per line. */
    var entries: seq<Entry>

    constructor (sha: Text -> Text, entries: seq<Entry>)
      ensures this.sha == sha && this.entries == entries
    {
      this.sha := sha;
      this.entries := entries;
    }

    method Verify() returns (r: Outcome<bool>)
      ensures r.Done? <==> Verified(sha, entries)
      ensures r.Mismatch? ==> 1 <= r.sequence <= |entries| && Verified(sha, entries[..r.sequence - 1])
    {
      r := VerifyEntries(sha, entries);
    }

    /** Appends to a ledger that verifies; refuses, and leaves the file alone, when it does not. */
    method Append(event: Json) returns (r: Outcome<Entry>)
      modifies this`entries
      ensures r.Done? <==> old(Verified(sha, entries))
      ensures r.Done? ==> entries == old(entries) + [r.value] && r.value.event == event && Verified(sha, entries)
      ensures r.Mismatch? ==> entries == old(entries)
    {
      if |entries| > 0 {
        var ok := Verify();
        if ok.Mismatch? {
          return Mismatch(ok.sequence);
        }
      }
      var entry := NextEntry(sha, entries, event);
      AppendVerified(sha, entries, event);
      entries := entries + [entry];
      r := Done(entry);
    }
  }

  lemma AppendVerified(sha: Text -> Text, es: seq<Entry>, event: Json)
    requires Verified(sha, es)
    ensures Verified(sha, es + [NextEntry(sha, es, event)])
  {
    var entry := NextEntry(sha, es, event);
    var more := es + [entry];
    assert BodyText(entry) == BodyText(entry.(hash := []));
    forall i | 0 <= i < |more| ensures Linked(sha, BodyText, more, i) {
      if i < |es| {
        assert Linked(sha, BodyText, es, i);
      }
    }
  }

  /** The ledger a fresh file holds after a list of appends. */
  function AppendAll(sha: Text -> Text, events: seq<Json>): (es: seq<Entry>)
    ensures |es| == |events|
  {
    AppendAllWith(Sealing(sha), events)
  }

  function Sealing(sha: Text -> Text): (int, Text, Json) -> Entry {
    (sequence, previousHash, event) => Sealed(sha, sequence, previousHash, event)
  }

  /** The chain under any way of sealing an entry. */
  function AppendAllWith(seal: (int, Text, Json) -> Entry, events: seq<Json>): (es: seq<Entry>)
    ensures |es| == |events|
  {
    if events == [] then []
    else
      var es := AppendAllWith(seal, events[..|events| - 1]);
      es + [seal(|es| + 1, PreviousHash(es, |es|), events[|events| - 1])]
  }

  /** Every list of appends leaves a ledger that verifies and holds exactly the events appended. */
  lemma {:induction false} AppendAllVerified(sha: Text -> Text, events: seq<Json>)
    ensures Verified(sha, AppendAll(sha, events))
    ensures forall i :: 0 <= i < |events| ==> AppendAll(sha, events)[i].event == events[i]
  {
    if events != [] {
      var front := events[..|events| - 1];
      AppendAllVerified(sha, front);
      AppendVerified(sha, AppendAll(sha, front), events[|events| - 1]);
      assert AppendAll(sha, events) == AppendAll(sha, front)
               + [NextEntry(sha, AppendAll(sha, front), events[|events| - 1])];
    }
  }

  // ----- Tamper evidence

  /** Two different texts with one digest. */
  ghost predicate Collides(sha: Text -> Text, text: Entry -> Text, e: Entry, f: Entry) {
    text(e) != text(f) && sha(text(e)) == sha(text(f))
  }

  /** The same entry, up to the key order of the objects inside its event. */
  ghost predicate SameEntry(e: Entry, f: Entry) {
    SameBody(e, f) && e.hash == f.hash
  }

  ghost predicate WellFormedEvents(es: seq<Entry>) {
    forall i :: 0 <= i < |es| ==> WellFormed(es[i].event)
  }

  lemma BodyKeysDistinct(e: Entry)
    requires WellFormed(e.event)
    ensures WellFormed(Body(e))
    ensures DistinctKeys(Body(e).members)
  {
    var ms := Body(e).members;
    assert |ms[0].key| == 8 && |ms[1].key| == 12 && |ms[2].key| == 5;
  }

  /** The hashed parts of two entries agree, up to key order in the event. */
  ghost predicate SameBody(e: Entry, f: Entry) {
    e.sequence == f.sequence && e.previousHash == f.previousHash && Same(e.event, f.event)
  }

  lemma BodiesAgree(e: Entry, f: Entry, a: seq<Member>, b: seq<Member>)
    requires a == Body(e).members && b == Body(f).members && DistinctKeys(a)
    ensures Same(Obj(a), Obj(b)) <==> SameBody(e, f)
  {
    RecordsAgree(a, b);
    assert a[0].value == Num(e.sequence) && b[0].value == Num(f.sequence);
    assert a[1].value == Str(e.previousHash) && b[1].value == Str(f.previousHash);
    assert a[2].value == e.event && b[2].value == f.event;
  }

  lemma BodyTextDetermines(e: Entry, f: Entry)
    requires WellFormed(e.event) && WellFormed(f.event)
    ensures BodyText(e) == BodyText(f) <==> SameBody(e, f)
  {
    BodyKeysDistinct(e);
    BodyKeysDistinct(f);
    CanonicalUnambiguous(Body(e), Body(f));
    BodiesAgree(e, f, Body(e).members, Body(f).members);
  }

  ghost predicate SameLedger(a: seq<Entry>, b: seq<Entry>) {
    |a| == |b| && forall i :: 0 <= i < |a| ==> SameEntry(a[i], b[i])
  }

  /** Equal texts come from entries that agree, up to key order in the event. */
  ghost predicate Determines(text: Entry -> Text, a: seq<Entry>, b: seq<Entry>) {
    forall i, j :: 0 <= i < |a| && 0 <= j < |b| && text(a[i]) == text(b[j]) ==> SameBody(a[i], b[j])
  }

  lemma EqualHashes(sha: Text -> Text, text: Entry -> Text, a: seq<Entry>, b: seq<Entry>, i: nat, j: nat)
    requires Chain(sha, text, a) && Chain(sha, text, b) && Determines(text, a, b)
    requires i < |a| && j < |b| && a[i].hash == b[j].hash
    ensures (i == j && SameEntry(a[i], b[j]) && PreviousHash(a, i) == PreviousHash(b, j))
            || Collides(sha, text, a[i], b[j])
  {
    assert Linked(sha, text, a, i) && Linked(sha, text, b, j);
  }

  lemma {:induction false} HashPinsPrefix(sha: Text -> Text, text: Entry -> Text, a: seq<Entry>, b: seq<Entry>, n: nat)
    returns (at: nat)
    requires Chain(sha, text, a) && Chain(sha, text, b) && Determines(text, a, b)
    requires n <= |a| && n <= |b| && PreviousHash(a, n) == PreviousHash(b, n)
    ensures (forall i :: 0 <= i < n ==> SameEntry(a[i], b[i])) || (at < n && Collides(sha, text, a[at], b[at]))
  {
    at := 0;
    if n > 0 {
      EqualHashes(sha, text, a, b, n - 1, n - 1);
      if Collides(sha, text, a[n - 1], b[n - 1]) {
        at := n - 1;
      } else {
        at := HashPinsPrefix(sha, text, a, b, n - 1);
      }
    }
  }

  lemma ChainHeadPins(sha: Text -> Text, text: Entry -> Text, a: seq<Entry>, b: seq<Entry>) returns (back: nat)
    requires Chain(sha, text, a) && Chain(sha, text, b) && Determines(text, a, b)
    requires a != [] && b != [] && a[|a| - 1].hash == b[|b| - 1].hash
    ensures SameLedger(a, b) || (back < |a| && back < |b| && Collides(sha, text, a[|a| - 1 - back], b[|b| - 1 - back]))
  {
    back := 0;
    EqualHashes(sha, text, a, b, |a| - 1, |b| - 1);
    if |a| == |b| {
      var at := HashPinsPrefix(sha, text, a, b, |a|);
      back := if at < |a| then |a| - 1 - at else 0;
    }
  }

  /**
   * Two verified ledgers with one head hash have the same length and the same entries,
   * or two of their entries, equally far from the head, have different bodies with one digest.
   */
  lemma HeadPinsLedger(sha: Text -> Text, a: seq<Entry>, b: seq<Entry>) returns (back: nat)
    requires Verified(sha, a) && Verified(sha, b) && WellFormedEvents(a) && WellFormedEvents(b)
    requires a != [] && b != [] && a[|a| - 1].hash == b[|b| - 1].hash
    ensures SameLedger(a, b)
         || (back < |a| && back < |b| && Collides(sha, BodyText, a[|a| - 1 - back], b[|b| - 1 - back]))
  {
    BodiesDetermine(a, b);
    back := ChainHeadPins(sha, BodyText, a, b);
  }

  lemma BodiesDetermine(a: seq<Entry>, b: seq<Entry>)
    requires WellFormedEvents(a) && WellFormedEvents(b)
    ensures Determines(BodyText, a, b)
  {
    forall i, j | 0 <= i < |a| && 0 <= j < |b| && BodyText(a[i]) == BodyText(b[j])
      ensures SameBody(a[i], b[j])
    {
      BodyTextDetermines(a[i], b[j]);
    }
  }

  /**
   * And conversely: verified ledgers of the same events, in the same order, are the same ledger, head hash included.
   */
  lemma {:induction false} EventsPinLedger(sha: Text -> Text, a: seq<Entry>, b: seq<Entry>)
    requires Verified(sha, a) && Verified(sha, b) && WellFormedEvents(a) && WellFormedEvents(b)
    requires |a| == |b| && forall i :: 0 <= i < |a| ==> Same(a[i].event, b[i].event)
    ensures SameLedger(a, b)
  {
    if a != [] {
      var n := |a| - 1;
      PrefixVerified(sha, a, n);
      PrefixVerified(sha, b, n);
      EventsPinLedger(sha, a[..n], b[..n]);
      assert forall i :: 0 <= i < n ==> a[..n][i] == a[i] && b[..n][i] == b[i];
      BodyTextDetermines(a[n], b[n]);
      LastPinned(sha, BodyText, a, b, n);
    }
  }

  lemma LastPinned(sha: Text -> Text, text: Entry -> Text, a: seq<Entry>, b: seq<Entry>, n: nat)
    requires Chain(sha, text, a) && Chain(sha, text, b) && n < |a| && n < |b| && Same(a[n].event, b[n].event)
    requires forall i :: 0 <= i < n ==> SameEntry(a[i], b[i])
    requires SameBody(a[n], b[n]) ==> text(a[n]) == text(b[n])
    ensures SameEntry(a[n], b[n])
  {
    assert Linked(sha, text, a, n) && Linked(sha, text, b, n);
    assert n > 0 ==> SameEntry(a[n - 1], b[n - 1]);
  }

  lemma SwappedMembers() returns (v: Json, w: Json)
    ensures WellFormed(v) && WellFormed(w) && Same(v, w) && v != w
  {
    var p, q := Member([97], Null), Member([98], Null);
    v, w := Obj([p, q]), Obj([q, p]);
    assert SameMember(p, [q, p]) by { assert [q, p][1] == p; }
    assert SameMember(q, [q, p]) by { assert [q, p][0] == q; }
    assert v.members[0] != w.members[0];
  }

  /** Key order inside an event is not pinned: two different ledgers with one head hash, whatever the digest. */
  lemma KeyOrderIsNotPinned(sha: Text -> Text) returns (a: seq<Entry>, b: seq<Entry>)
    ensures Verified(sha, a) && Verified(sha, b) && WellFormedEvents(a) && WellFormedEvents(b)
    ensures |a| == 1 && |b| == 1 && a[0].hash == b[0].hash && a != b
  {
    var v, w := SwappedMembers();
    a, b := AppendAll(sha, [v]), AppendAll(sha, [w]);
    AppendAllVerified(sha, [v]);
    AppendAllVerified(sha, [w]);
    assert Linked(sha, BodyText, a, 0) && Linked(sha, BodyText, b, 0);
    BodyTextDetermines(a[0], b[0]);
  }

  // ----- The file: one JSON text and a newline per entry

  function EntryJson(e: Entry): Json {
    Obj([Member(T("sequence"), Num(e.sequence)), Member(T("previousHash"), Str(e.previousHash)),
         Member(T("event"), e.event), Member(T("hash"), Str(e.hash))])
  }

  function EntryOf(v: Json): Option<Entry> {
    if !v.Obj? then None
    else
      match (Lookup(v.members, T("sequence")), Lookup(v.members, T("previousHash")), Lookup(v.members, T("event")),
             Lookup(v.members, T("hash")))
      case (Some(Num(sequence)), Some(Str(previousHash)), Some(event), Some(Str(hash))) =>
        Some(Entry(sequence, previousHash, event, hash))
      case _ => None
  }

  function FileText(es: seq<Entry>): Text {
    if es == [] then [] else Stringify(EntryJson(es[0])) + [10] + FileText(es[1..])
  }

  /** `content.split("\n")`. */
  function SplitLines(t: Text): (lines: seq<Text>)
    ensures lines != []
  {
    if t == [] then [[]]
    else if t[0] == 10 then [[]] + SplitLines(t[1..])
    else
      var lines := SplitLines(t[1..]);
      [[t[0]] + lines[0]] + lines[1..]
  }

  /** `filter(Boolean).map(JSON.parse)`, read as entries; `None` when a line is not an entry. */
  function ReadLines(lines: seq<Text>): Option<seq<Entry>> {
    if lines == [] then Some([])
    else if lines[0] == [] then ReadLines(lines[1..])
    else
      match Parse(lines[0])
      case None => None
      case Some(v) =>
        (match (EntryOf(v), ReadLines(lines[1..]))
         case (Some(e), Some(es)) => Some([e] + es)
         case _ => None)
  }

  ghost predicate Printable(t: Text) {
    forall i :: 0 <= i < |t| ==> t[i] >= 32
  }

  lemma {:induction false} QuoteBodyPrintable(s: Text)
    ensures Printable(QuoteBody(s))
  {
    if s == [] {
    } else if |s| >= 2 && IsHigh(s[0]) && IsLow(s[1]) {
      QuoteBodyPrintable(s[2..]);
    } else {
      QuoteBodyPrintable(s[1..]);
      assert Printable(EscapeUnit(s[0]));
    }
  }

  lemma DecimalPrintable(n: int)
    ensures Printable(Decimal(n))
  {
    var d := Digits(if n < 0 then -n else n);
    forall i | 0 <= i < |d| ensures d[i] >= 32 {
      assert IsDigit(d[i]);
    }
  }

  /** No printed JSON text contains a control character, so a newline ends a line and nothing else does. */
  lemma {:induction false} StringifyPrintable(v: Json)
    ensures Printable(Stringify(v))
    decreases v, 1
  {
    match v
    case Num(n) => DecimalPrintable(n);
    case Str(s) => QuoteBodyPrintable(s);
    case Arr(items) => StringifyItemsPrintable(items);
    case Obj(members) => StringifyMembersPrintable(members);
    case _ =>
  }

  lemma {:induction false} StringifyItemsPrintable(items: seq<Json>)
    ensures Printable(StringifyItems(items))
    decreases items, 0
  {
    if items != [] {
      StringifyPrintable(items[0]);
      StringifyItemsPrintable(items[1..]);
    }
  }

  lemma {:induction false} StringifyMembersPrintable(members: seq<Member>)
    ensures Printable(StringifyMembers(members))
    decreases members, 0
  {
    if members != [] {
      var m := members[0];
      StringifyPrintable(m.value);
      QuoteBodyPrintable(m.key);
      assert Printable(StringifyMember(m));
      StringifyMembersPrintable(members[1..]);
    }
  }

  lemma {:induction false} SplitFirstLine(line: Text, rest: Text)
    requires Printable(line)
    ensures SplitLines(line + ([10] + rest)) == [line] + SplitLines(rest)
  {
    var t := line + ([10] + rest);
    if line == [] {
      assert t == [10] + rest;
      assert t[1..] == rest;
    } else {
      assert t[1..] == line[1..] + ([10] + rest);
      SplitFirstLine(line[1..], rest);
      assert line == [line[0]] + line[1..];
    }
  }

  lemma EntryRoundTrip(e: Entry)
    ensures EntryOf(EntryJson(e)) == Some(e)
  {
    var ms := EntryJson(e).members;
    var m3, m2, m1 := ms[..3], ms[..2], ms[..1];
    assert |T("sequence")| == 8 && |T("previousHash")| == 12 && |T("event")| == 5 && |T("hash")| == 4;
    assert m3[..2] == m2 && m2[..1] == m1;
    assert Lookup(ms, T("hash")) == Some(Str(e.hash));
    assert Lookup(ms, T("event")) == Lookup(m3, T("event")) == Some(e.event);
    assert Lookup(ms, T("previousHash")) == Lookup(m3, T("previousHash")) == Lookup(m2, T("previousHash"))
             == Some(Str(e.previousHash));
    assert Lookup(ms, T("sequence")) == Lookup(m3, T("sequence")) == Lookup(m2, T("sequence"))
             == Lookup(m1, T("sequence")) == Some(Num(e.sequence));
  }

  /** Reading the file back gives the entries that were appended. */
  lemma {:induction false} FileRoundTrip(es: seq<Entry>)
    ensures ReadLines(SplitLines(FileText(es))) == Some(es)
  {
    if es == [] {
      assert SplitLines(FileText(es)) == [[]];
      assert ReadLines([[]]) == ReadLines([[]][1..]);
    } else {
      var line, rest := Stringify(EntryJson(es[0])), FileText(es[1..]);
      StringifyPrintable(EntryJson(es[0]));
      Associate(line, [10], rest);
      SplitFirstLine(line, rest);
      FileRoundTrip(es[1..]);
      ParseInverse(EntryJson(es[0]));
      EntryRoundTrip(es[0]);
      assert ([line] + SplitLines(rest))[1..] == SplitLines(rest);
      assert es == [es[0]] + es[1..];
    }
  }
}
