/** What the evidence packages take from the runtime: digests, text encodings, a JSON parser, privacy patterns. */
module Runtime {
  import opened JsText
  import opened Json
  import opened Sequences
  import opened Ordering
  import opened Manifests
  import opened Base64
  import opened CampaignPlan

  datatype Platform = Platform(
    sha: Octets -> Text,               // "sha256:" and the digest in hexadecimal
    utf8: Text -> Octets,              // Buffer.from(text)
    lossy: Octets -> Text,             // buffer.toString("utf8")
    strict: Octets -> Option<Text>,    // TextDecoder("utf-8", { fatal: true }); None when it throws
    decode64: Text -> Octets,          // Buffer.from(text, "base64"), which skips what it does not know
    parse: Text -> Option<Json>,       // JSON.parse
    prohibitedKey: Text -> bool,
    prohibitedValue: Text -> bool)

  /** No half of a surrogate pair stands alone. */
  predicate Paired(t: Text) {
    t == []
    || (if IsHigh(t[0]) then |t| >= 2 && IsLow(t[1]) && Paired(t[2..])
        else !IsLow(t[0]) && Paired(t[1..]))
  }

  const BYTE_ORDER_MARK: CodeUnit := 0xFEFF

  /** A text that UTF-8 carries unchanged. */
  predicate Portable(t: Text) {
    Paired(t) && (t == [] || t[0] != BYTE_ORDER_MARK)
  }

  /** An array index as a property key: a decimal below 2^32 - 1 without leading zero. */
  predicate IsIndexKey(t: Text) {
    1 <= |t| <= 10 && (forall i :: 0 <= i < |t| ==> IsDigit(t[i])) && (t[0] == 48 ==> |t| == 1)
    && DigitsValue(t) < 0xFFFF_FFFF
  }

  /** No key twice, and the order in which an object lists its properties: array indexes first, by value. */
  ghost predicate PropertyOrder(members: seq<Member>) {
    forall i, j :: 0 <= i < j < |members| ==>
      members[i].key != members[j].key
      && (IsIndexKey(members[j].key) ==>
            IsIndexKey(members[i].key) && DigitsValue(members[i].key) < DigitsValue(members[j].key))
  }

  const MAX_SAFE_INTEGER: int := 0x1F_FFFF_FFFF_FFFF
  const MAX_ARRAY_LENGTH: nat := 0xFFFF_FFFF

  /**
   * The value is one that a program can hold: its numbers are exact, and its objects list their properties in order.
   */
  ghost predicate Storable(v: Json) {
    match v
    case Num(n) => -MAX_SAFE_INTEGER <= n <= MAX_SAFE_INTEGER
    case Arr(items) => forall i :: 0 <= i < |items| ==> Storable(items[i])
    case Obj(members) => PropertyOrder(members) && forall i :: 0 <= i < |members| ==> Storable(members[i].value)
    case _ => true
  }

  ghost predicate AllStorable(values: seq<Json>) {
    forall i :: 0 <= i < |values| ==> Storable(values[i])
  }

  /** The assumptions about the libraries. */
  ghost predicate Faithful(p: Platform) {
    (forall b :: IsHash(p.sha(b)))
    && (forall t :: Portable(t) ==> p.lossy(p.utf8(t)) == t && p.strict(p.utf8(t)) == Some(t))
    && p.lossy([]) == []
    && (forall b :: b != [] && 128 <= b[0] < 192 ==> p.strict(b) == None)
    && (forall b :: p.decode64(Encode(b)) == b)
    && (forall v :: Storable(v) ==> p.parse(Stringify(v)) == Some(v))
  }

  // ----- `assertPublishable`

  predicate Publishable(p: Platform, v: Json)
    decreases v, 0
  {
    match v
    case Str(s) => !p.prohibitedValue(s)
    case Arr(items) => PublishableItems(p, items)
    case Obj(members) => PublishableMembers(p, members)
    case _ => true
  }

  predicate PublishableItems(p: Platform, items: seq<Json>)
    decreases items, 1
  {
    items == [] || (Publishable(p, items[0]) && PublishableItems(p, items[1..]))
  }

  predicate PublishableMembers(p: Platform, members: seq<Member>)
    decreases members, 1
  {
    members == []
    || (!p.prohibitedKey(members[0].key) && Publishable(p, members[0].value) && PublishableMembers(p, members[1..]))
  }

  // ----- Printed JSON is portable

  lemma {:induction false} PairedConcat(a: Text, b: Text)
    requires Paired(a) && Paired(b)
    ensures Paired(a + b)
  {
    if a == [] {
      assert a + b == b;
    } else if IsHigh(a[0]) {
      PairedConcat(a[2..], b);
      assert (a + b)[2..] == a[2..] + b;
    } else {
      PairedConcat(a[1..], b);
      assert (a + b)[1..] == a[1..] + b;
    }
  }

  /** Texts without surrogates are paired. */
  lemma {:induction false} PlainPaired(t: Text)
    requires forall i :: 0 <= i < |t| ==> t[i] < 0xD800
    ensures Paired(t)
  {
    if t != [] {
      PlainPaired(t[1..]);
    }
  }

  lemma PairPaired(high: CodeUnit, low: CodeUnit)
    requires IsHigh(high) && IsLow(low)
    ensures Paired([high, low])
  {
    assert [high, low][2..] == [];
  }

  lemma UnitPaired(u: CodeUnit)
    requires !IsHigh(u) && !IsLow(u)
    ensures Paired([u])
  {
    assert [u][1..] == [];
  }

  lemma EscapePaired(u: CodeUnit)
    ensures Paired(EscapeUnit(u))
  {
    var t := EscapeUnit(u);
    if t == [u] {
      UnitPaired(u);
    } else {
      PlainPaired(t);
    }
  }

  lemma {:induction false} QuoteBodyPaired(s: Text)
    ensures Paired(QuoteBody(s))
  {
    if s == [] {
    } else if |s| >= 2 && IsHigh(s[0]) && IsLow(s[1]) {
      QuoteBodyPaired(s[2..]);
      PairPaired(s[0], s[1]);
      assert s[..2] == [s[0], s[1]];
      PairedConcat(s[..2], QuoteBody(s[2..]));
    } else {
      QuoteBodyPaired(s[1..]);
      EscapePaired(s[0]);
      PairedConcat(EscapeUnit(s[0]), QuoteBody(s[1..]));
    }
  }

  lemma QuotePaired(s: Text)
    ensures Paired(Quote(s))
  {
    QuoteBodyPaired(s);
    UnitPaired(34);
    PairedConcat([34], QuoteBody(s));
    PairedConcat([34] + QuoteBody(s), [34]);
  }

  lemma DecimalPaired(n: int)
    ensures Paired(Decimal(n))
  {
    var ds := Digits(if n < 0 then -n else n);
    assert forall i :: 0 <= i < |ds| ==> IsDigit(ds[i]);
    PlainPaired(Decimal(n));
  }

  lemma {:induction false} StringifyPaired(v: Json)
    ensures Paired(Stringify(v))
    decreases v, 1
  {
    match v
    case Null => PlainPaired(NULL_TEXT);
    case Bool(b) =>
      PlainPaired(TRUE_TEXT);
      PlainPaired(FALSE_TEXT);
    case Num(n) => DecimalPaired(n);
    case Str(s) => QuotePaired(s);
    case Arr(items) =>
      StringifyItemsPaired(items);
      Bracketed(91, StringifyItems(items), 93);
    case Obj(members) =>
      StringifyMembersPaired(members);
      Bracketed(123, StringifyMembers(members), 125);
  }

  lemma Bracketed(open: CodeUnit, inner: Text, close: CodeUnit)
    requires open < 0xD800 && close < 0xD800 && Paired(inner)
    ensures Paired([open] + inner + [close])
  {
    UnitPaired(open);
    UnitPaired(close);
    PairedConcat([open], inner);
    PairedConcat([open] + inner, [close]);
  }

  /** Two paired texts around an ordinary unit. */
  lemma Between(a: Text, u: CodeUnit, b: Text)
    requires Paired(a) && u < 0xD800 && Paired(b)
    ensures Paired(a + [u] + b)
  {
    UnitPaired(u);
    PairedConcat(a, [u]);
    PairedConcat(a + [u], b);
  }

  lemma {:induction false} StringifyItemsPaired(items: seq<Json>)
    ensures Paired(StringifyItems(items))
    decreases items, 0
  {
    if items != [] {
      StringifyPaired(items[0]);
      StringifyItemsPaired(items[1..]);
      Between(Stringify(items[0]), 44, StringifyItems(items[1..]));
    }
  }

  lemma {:induction false} StringifyMemberPaired(m: Member)
    ensures Paired(StringifyMember(m))
    decreases m, 2
  {
    QuotePaired(m.key);
    StringifyPaired(m.value);
    Between(Quote(m.key), 58, Stringify(m.value));
  }

  lemma {:induction false} StringifyMembersPaired(members: seq<Member>)
    ensures Paired(StringifyMembers(members))
    decreases members, 0
  {
    if members != [] {
      StringifyMemberPaired(members[0]);
      StringifyMembersPaired(members[1..]);
      Between(StringifyMember(members[0]), 44, StringifyMembers(members[1..]));
    }
  }

  /** Every printed JSON text survives UTF-8: surrogates are paired or escaped, and no byte order mark leads. */
  lemma StringifyPortable(v: Json)
    ensures Portable(Stringify(v))
  {
    StringifyPaired(v);
    if v.Num? {
      assert IsDigit(Digits(if v.n < 0 then -v.n else v.n)[0]);
    }
  }

  // ----- JSON in buffers

  function JsonBytes(p: Platform, v: Json): Octets {
    p.utf8(Stringify(v))
  }

  /** A printed value is read back from its buffer, by either decoder. */
  lemma JsonRoundTrip(p: Platform, v: Json)
    requires Faithful(p) && Storable(v)
    ensures p.parse(p.lossy(JsonBytes(p, v))) == Some(v)
    ensures p.strict(JsonBytes(p, v)) == Some(Stringify(v)) && p.parse(Stringify(v)) == Some(v)
    ensures JsonBytes(p, v) != []
  {
    StringifyPortable(v);
    assert p.lossy(p.utf8(Stringify(v))) == Stringify(v);
  }

  /** No two values share their bytes. */
  lemma JsonBytesInjective(p: Platform, v: Json, w: Json)
    requires Faithful(p) && JsonBytes(p, v) == JsonBytes(p, w)
    ensures v == w
  {
    StringifyPortable(v);
    StringifyPortable(w);
    assert p.lossy(JsonBytes(p, v)) == Stringify(v) && p.lossy(JsonBytes(p, w)) == Stringify(w);
    StringifyInjective(v, w);
  }

  // ----- Records are storable

  /** The key starts with a letter, so it is no array index. */
  predicate Lettered(key: Text) {
    key != [] && key[0] > 57
  }

  lemma RecordStorable(keys: seq<Text>, values: seq<Json>)
    requires |keys| == |values| && Distinct(keys) && All(Lettered, keys) && AllStorable(values)
    ensures Storable(Record(keys, values))
  {
    var members := Fields(keys, values);
    forall i, j | 0 <= i < j < |members|
      ensures members[i].key != members[j].key && !IsIndexKey(members[j].key)
    {
      assert Lettered(keys[j]);
    }
    forall i | 0 <= i < |members| ensures Storable(members[i].value) {
      assert members[i].value == values[i];
    }
  }

  lemma MapStorable<A(!new)>(write: A -> Json, xs: seq<A>)
    requires forall i :: 0 <= i < |xs| ==> Storable(write(xs[i]))
    ensures Storable(Arr(Map(write, xs)))
  {
    var items := Map(write, xs);
    forall i | 0 <= i < |items| ensures Storable(items[i]) {
      assert items[i] == write(xs[i]);
    }
  }
}
