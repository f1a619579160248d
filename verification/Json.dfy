/** JSON values, the `JSON.stringify` printer and a parser that undoes it. */
module Json {
  import opened JsText

  /** A JSON value; numbers are restricted to integers. Object members are in insertion order. */
  datatype Json =
    | Null
    | Bool(b: bool)
    | Num(n: int)
    | Str(s: Text)
    | Arr(items: seq<Json>)
    | Obj(members: seq<Member>)

  datatype Member = Member(key: Text, value: Json)

  /** What one parsing step yields: a value and the text not yet read. */
  datatype Parsed<+V> = Fail | Ok(value: V, rest: Text)

  /** The value of a property; of a repeated key, the last one. */
  function Lookup(members: seq<Member>, key: Text): Option<Json> {
    if members == [] then None
    else if members[|members| - 1].key == key then Some(members[|members| - 1].value)
    else Lookup(members[..|members| - 1], key)
  }

  /** `v?.key` on a JSON value: only objects have properties. */
  function Property(v: Json, key: Text): Option<Json> {
    if v.Obj? then Lookup(v.members, key) else None
  }

  // ----- Strings

  predicate IsHigh(u: CodeUnit) { 0xD800 <= u <= 0xDBFF }

  predicate IsLow(u: CodeUnit) { 0xDC00 <= u <= 0xDFFF }

  function HexDigit(d: CodeUnit): (u: CodeUnit)
    requires 0 <= d < 16
  {
    if d < 10 then 48 + d else 87 + d
  }

  function HexValue(u: CodeUnit): (r: Option<CodeUnit>)
    ensures r.Some? ==> 0 <= r.value < 16
  {
    if 48 <= u <= 57 then Some(u - 48)
    else if 97 <= u <= 102 then Some(u - 87)
    else if 65 <= u <= 70 then Some(u - 55)
    else None
  }

  function UnicodeEscape(u: CodeUnit): (t: Text)
    ensures |t| == 6
  {
    [92, 117, HexDigit(u / 4096), HexDigit(u / 256 % 16), HexDigit(u / 16 % 16), HexDigit(u % 16)]
  }

  /** The printed form of one code unit that is not half of a surrogate pair. */
  function EscapeUnit(u: CodeUnit): (t: Text)
    ensures t != []
  {
    if u == 8 then [92, 98]
    else if u == 9 then [92, 116]
    else if u == 10 then [92, 110]
    else if u == 12 then [92, 102]
    else if u == 13 then [92, 114]
    else if u == 34 then [92, 34]
    else if u == 92 then [92, 92]
    else if u < 32 || IsHigh(u) || IsLow(u) then UnicodeEscape(u)
    else [u]
  }

  function QuoteBody(s: Text): Text {
    if s == [] then []
    else if |s| >= 2 && IsHigh(s[0]) && IsLow(s[1]) then s[..2] + QuoteBody(s[2..])
    else EscapeUnit(s[0]) + QuoteBody(s[1..])
  }

  function Quote(s: Text): Text {
    [34] + QuoteBody(s) + [34]
  }

  /** One escape sequence, after the backslash. */
  function ParseEscape(t: Text): (r: Parsed<CodeUnit>)
    ensures r.Ok? ==> |r.rest| < |t|
  {
    if t == [] then Fail
    else if t[0] == 34 || t[0] == 47 || t[0] == 92 then Ok(t[0], t[1..])
    else if t[0] == 98 then Ok(8, t[1..])
    else if t[0] == 102 then Ok(12, t[1..])
    else if t[0] == 110 then Ok(10, t[1..])
    else if t[0] == 114 then Ok(13, t[1..])
    else if t[0] == 116 then Ok(9, t[1..])
    else if t[0] == 117 && |t| >= 5 then
      (match (HexValue(t[1]), HexValue(t[2]), HexValue(t[3]), HexValue(t[4]))
       case (Some(a), Some(b), Some(c), Some(d)) => Ok(4096 * a + 256 * b + 16 * c + d, t[5..])
       case _ => Fail)
    else Fail
  }

  /** The characters of a string, after the opening quote and up to and including the closing one. */
  function ParseChars(t: Text): (r: Parsed<Text>)
    ensures r.Ok? ==> |r.rest| < |t|
    decreases |t|
  {
    if t == [] || t[0] < 32 then Fail
    else if t[0] == 34 then Ok([], t[1..])
    else if t[0] == 92 then
      match ParseEscape(t[1..])
      case Fail => Fail
      case Ok(u, rest) =>
        (match ParseChars(rest)
         case Fail => Fail
         case Ok(us, rest') => Ok([u] + us, rest'))
    else
      match ParseChars(t[1..])
      case Fail => Fail
      case Ok(us, rest) => Ok([t[0]] + us, rest)
  }

  // ----- Values

  const NULL_TEXT: Text := [110, 117, 108, 108]
  const TRUE_TEXT: Text := [116, 114, 117, 101]
  const FALSE_TEXT: Text := [102, 97, 108, 115, 101]

  /** `JSON.stringify` of a value: compact, members in insertion order. */
  function Stringify(v: Json): (t: Text)
    ensures t != []
    decreases v, 1
  {
    match v
    case Null => NULL_TEXT
    case Bool(b) => if b then TRUE_TEXT else FALSE_TEXT
    case Num(n) => Decimal(n)
    case Str(s) => Quote(s)
    case Arr(items) => [91] + StringifyItems(items) + [93]
    case Obj(members) => [123] + StringifyMembers(members) + [125]
  }

  function StringifyItems(items: seq<Json>): Text
    decreases items, 0
  {
    if items == [] then []
    else if |items| == 1 then Stringify(items[0])
    else Stringify(items[0]) + [44] + StringifyItems(items[1..])
  }

  function StringifyMember(m: Member): (t: Text)
    ensures t != []
    decreases m, 2
  {
    Quote(m.key) + [58] + Stringify(m.value)
  }

  function StringifyMembers(members: seq<Member>): Text
    decreases members, 0
  {
    if members == [] then []
    else if |members| == 1 then StringifyMember(members[0])
    else StringifyMember(members[0]) + [44] + StringifyMembers(members[1..])
  }

  // ----- The parser

  predicate Starts(t: Text, u: CodeUnit) {
    t != [] && t[0] == u
  }

  predicate StartsWithDigit(t: Text) {
    t != [] && IsDigit(t[0])
  }

  /** The length of the longest digit prefix. */
  function DigitRun(t: Text): (n: nat)
    ensures n <= |t|
    ensures forall i :: 0 <= i < n ==> IsDigit(t[i])
    ensures n < |t| ==> !IsDigit(t[n])
  {
    if StartsWithDigit(t) then 1 + DigitRun(t[1..]) else 0
  }

  /** An unsigned JSON integer: no leading zero. */
  function ParseNat(t: Text): (r: Parsed<nat>)
    ensures r.Ok? ==> |r.rest| < |t|
  {
    var n := DigitRun(t);
    if n == 0 || (n > 1 && t[0] == 48) then Fail
    else Ok(DigitsValue(t[..n]), t[n..])
  }

  function ParseNumber(t: Text): (r: Parsed<Json>)
    ensures r.Ok? ==> |r.rest| < |t|
  {
    if Starts(t, 45) then
      match ParseNat(t[1..])
      case Fail => Fail
      case Ok(n, rest) => Ok(Num(0 - n), rest)
    else
      match ParseNat(t)
      case Fail => Fail
      case Ok(n, rest) => Ok(Num(n), rest)
  }

  function ParseKeyword(word: Text, v: Json, t: Text): (r: Parsed<Json>)
    requires word != []
    ensures r.Ok? ==> |r.rest| < |t|
  {
    if word <= t then Ok(v, t[|word|..]) else Fail
  }

  function ParseValue(t: Text): (r: Parsed<Json>)
    ensures r.Ok? ==> |r.rest| < |t|
    decreases |t|, 0
  {
    if t == [] then Fail
    else if t[0] == 34 then
      (match ParseChars(t[1..])
       case Fail => Fail
       case Ok(s, rest) => Ok(Str(s), rest))
    else if t[0] == 91 then
      if Starts(t[1..], 93) then Ok(Arr([]), t[2..])
      else
        (match ParseItems(t[1..])
         case Fail => Fail
         case Ok(items, rest) => Ok(Arr(items), rest))
    else if t[0] == 123 then
      if Starts(t[1..], 125) then Ok(Obj([]), t[2..])
      else
        (match ParseMembers(t[1..])
         case Fail => Fail
         case Ok(members, rest) => Ok(Obj(members), rest))
    else if t[0] == 110 then ParseKeyword(NULL_TEXT, Null, t)
    else if t[0] == 116 then ParseKeyword(TRUE_TEXT, Bool(true), t)
    else if t[0] == 102 then ParseKeyword(FALSE_TEXT, Bool(false), t)
    else ParseNumber(t)
  }

  /** One or more items, up to and including the closing bracket. */
  function ParseItems(t: Text): (r: Parsed<seq<Json>>)
    ensures r.Ok? ==> |r.rest| < |t|
    decreases |t|, 1
  {
    match ParseValue(t)
    case Fail => Fail
    case Ok(v, rest) =>
      if Starts(rest, 93) then Ok([v], rest[1..])
      else if Starts(rest, 44) then
        (match ParseItems(rest[1..])
         case Fail => Fail
         case Ok(vs, rest') => Ok([v] + vs, rest'))
      else Fail
  }

  function ParseMember(t: Text): (r: Parsed<Member>)
    ensures r.Ok? ==> |r.rest| < |t|
    decreases |t|, 1
  {
    if !Starts(t, 34) then Fail
    else
      match ParseChars(t[1..])
      case Fail => Fail
      case Ok(key, rest) =>
        if !Starts(rest, 58) then Fail
        else
          (match ParseValue(rest[1..])
           case Fail => Fail
           case Ok(v, rest') => Ok(Member(key, v), rest'))
  }

  /** One or more members, up to and including the closing brace. */
  function ParseMembers(t: Text): (r: Parsed<seq<Member>>)
    ensures r.Ok? ==> |r.rest| < |t|
    decreases |t|, 2
  {
    match ParseMember(t)
    case Fail => Fail
    case Ok(m, rest) =>
      if Starts(rest, 125) then Ok([m], rest[1..])
      else if Starts(rest, 44) then
        (match ParseMembers(rest[1..])
         case Fail => Fail
         case Ok(ms, rest') => Ok([m] + ms, rest'))
      else Fail
  }

  /** A whole JSON text. */
  function Parse(t: Text): Option<Json> {
    match ParseValue(t)
    case Fail => None
    case Ok(v, rest) => if rest == [] then Some(v) else None
  }

  // ----- The printer with the text that follows it, which is what the parser reads

  ghost function QuoteBodyOnto(s: Text, r: Text): Text {
    if s == [] then r
    else if |s| >= 2 && IsHigh(s[0]) && IsLow(s[1]) then [s[0]] + ([s[1]] + QuoteBodyOnto(s[2..], r))
    else EscapeUnit(s[0]) + QuoteBodyOnto(s[1..], r)
  }

  ghost function QuoteOnto(s: Text, r: Text): Text {
    [34] + QuoteBodyOnto(s, [34] + r)
  }

  ghost function StringifyOnto(v: Json, r: Text): Text
    decreases v, 1
  {
    match v
    case Str(s) => QuoteOnto(s, r)
    case Arr(items) => [91] + StringifyItemsOnto(items, [93] + r)
    case Obj(members) => [123] + StringifyMembersOnto(members, [125] + r)
    case _ => Stringify(v) + r
  }

  ghost function StringifyItemsOnto(items: seq<Json>, r: Text): Text
    decreases items, 0
  {
    if items == [] then r
    else if |items| == 1 then StringifyOnto(items[0], r)
    else StringifyOnto(items[0], [44] + StringifyItemsOnto(items[1..], r))
  }

  ghost function StringifyMemberOnto(m: Member, r: Text): Text
    decreases m, 2
  {
    QuoteOnto(m.key, [58] + StringifyOnto(m.value, r))
  }

  ghost function StringifyMembersOnto(members: seq<Member>, r: Text): Text
    decreases members, 0
  {
    if members == [] then r
    else if |members| == 1 then StringifyMemberOnto(members[0], r)
    else StringifyMemberOnto(members[0], [44] + StringifyMembersOnto(members[1..], r))
  }

  lemma Associate(a: Text, b: Text, c: Text)
    ensures a + b + c == a + (b + c)
  {}

  lemma {:induction false} QuoteBodyOntoIsAppend(s: Text, r: Text)
    ensures QuoteBodyOnto(s, r) == QuoteBody(s) + r
  {
    if s == [] {
    } else if |s| >= 2 && IsHigh(s[0]) && IsLow(s[1]) {
      QuoteBodyOntoIsAppend(s[2..], r);
      assert s[..2] == [s[0]] + [s[1]];
      Associate([s[0]], [s[1]], QuoteBodyOnto(s[2..], r));
      Associate(s[..2], QuoteBody(s[2..]), r);
    } else {
      QuoteBodyOntoIsAppend(s[1..], r);
      Associate(EscapeUnit(s[0]), QuoteBody(s[1..]), r);
    }
  }

  lemma QuoteOntoIsAppend(s: Text, r: Text)
    ensures QuoteOnto(s, r) == Quote(s) + r
  {
    QuoteBodyOntoIsAppend(s, [34] + r);
  }

  lemma {:induction false} StringifyOntoIsAppend(v: Json, r: Text)
    ensures StringifyOnto(v, r) == Stringify(v) + r
    decreases v, 1
  {
    match v
    case Str(s) => QuoteOntoIsAppend(s, r);
    case Arr(items) => StringifyItemsOntoIsAppend(items, [93] + r);
    case Obj(members) => StringifyMembersOntoIsAppend(members, [125] + r);
    case _ =>
  }

  lemma {:induction false} StringifyItemsOntoIsAppend(items: seq<Json>, r: Text)
    ensures StringifyItemsOnto(items, r) == StringifyItems(items) + r
    decreases items, 0
  {
    if |items| == 1 {
      StringifyOntoIsAppend(items[0], r);
    } else if |items| > 1 {
      StringifyItemsOntoIsAppend(items[1..], r);
      StringifyOntoIsAppend(items[0], [44] + StringifyItemsOnto(items[1..], r));
    }
  }

  lemma {:induction false} StringifyMemberOntoIsAppend(m: Member, r: Text)
    ensures StringifyMemberOnto(m, r) == StringifyMember(m) + r
    decreases m, 2
  {
    StringifyOntoIsAppend(m.value, r);
    QuoteOntoIsAppend(m.key, [58] + StringifyOnto(m.value, r));
  }

  lemma {:induction false} StringifyMembersOntoIsAppend(members: seq<Member>, r: Text)
    ensures StringifyMembersOnto(members, r) == StringifyMembers(members) + r
    decreases members, 0
  {
    if |members| == 1 {
      StringifyMemberOntoIsAppend(members[0], r);
    } else if |members| > 1 {
      StringifyMembersOntoIsAppend(members[1..], r);
      StringifyMemberOntoIsAppend(members[0], [44] + StringifyMembersOnto(members[1..], r));
    }
  }

  // ----- The parser undoes the printer

  /** Dropping what was put in front. */
  lemma DropFront(u: CodeUnit, t: Text)
    ensures ([u] + t)[1..] == t
  {}

  lemma UnicodeEscapeInverse(u: CodeUnit, r: Text)
    ensures ParseEscape(UnicodeEscape(u)[1..] + r) == Ok(u, r)
  {
    var a, b, c := u / 16, u / 256, u / 4096;
    assert u == 16 * a + u % 16;
    assert a / 16 == b && b / 16 == c;
    assert a == 16 * b + a % 16;
    assert b == 16 * c + b % 16;
    assert (UnicodeEscape(u)[1..] + r)[5..] == r;
  }

  /** A two-character escape reads back as the unit it stands for. */
  lemma ShortEscapeInverse(u: CodeUnit, r: Text)
    requires |EscapeUnit(u)| == 2
    ensures EscapeUnit(u)[0] == 92
    ensures ParseEscape([EscapeUnit(u)[1]] + r) == Ok(u, r)
  {
    DropFront(EscapeUnit(u)[1], r);
  }

  lemma EscapeKinds(u: CodeUnit)
    ensures (EscapeUnit(u) == [u] && u >= 32 && u != 34 && u != 92) || |EscapeUnit(u)| == 2
            || EscapeUnit(u) == UnicodeEscape(u)
  {}

  lemma ParseEscapedUnit(u: CodeUnit, r: Text)
    requires ParseChars(r).Ok?
    ensures ParseChars(EscapeUnit(u) + r) == Ok([u] + ParseChars(r).value, ParseChars(r).rest)
  {
    var e := EscapeUnit(u);
    EscapeKinds(u);
    if e == UnicodeEscape(u) {
      UnicodeEscapeInverse(u, r);
      ParseAfterBackslash(UnicodeEscape(u)[1..], u, r);
      assert e == [92] + UnicodeEscape(u)[1..];
    } else if |e| == 2 {
      ShortEscapeInverse(u, r);
      ParseAfterBackslash([e[1]], u, r);
      assert e == [92] + [e[1]];
    } else {
      DropFront(u, r);
    }
  }

  lemma ParseAfterBackslash(e: Text, u: CodeUnit, r: Text)
    requires ParseChars(r).Ok?
    requires ParseEscape(e + r) == Ok(u, r)
    ensures ParseChars([92] + e + r) == Ok([u] + ParseChars(r).value, ParseChars(r).rest)
  {
    Associate([92], e, r);
    DropFront(92, e + r);
  }

  lemma {:induction false} ParseQuoted(s: Text, r: Text)
    ensures ParseChars(QuoteBodyOnto(s, [34] + r)) == Ok(s, r)
  {
    if s == [] {
      DropFront(34, r);
    } else if |s| >= 2 && IsHigh(s[0]) && IsLow(s[1]) {
      var tail := QuoteBodyOnto(s[2..], [34] + r);
      ParseQuoted(s[2..], r);
      DropFront(s[1], tail);
      assert ParseChars([s[1]] + tail) == Ok([s[1]] + s[2..], r);
      DropFront(s[0], [s[1]] + tail);
      assert s == [s[0]] + ([s[1]] + s[2..]);
    } else {
      ParseQuoted(s[1..], r);
      ParseEscapedUnit(s[0], QuoteBodyOnto(s[1..], [34] + r));
      assert s == [s[0]] + s[1..];
    }
  }

  lemma {:induction false} DigitRunExact(ds: Text, r: Text)
    requires forall i :: 0 <= i < |ds| ==> IsDigit(ds[i])
    requires !StartsWithDigit(r)
    ensures DigitRun(ds + r) == |ds|
  {
    if ds == [] {
      assert ds + r == r;
    } else {
      DigitRunExact(ds[1..], r);
      assert (ds + r)[1..] == ds[1..] + r;
    }
  }

  lemma ParseNatInverse(n: nat, r: Text)
    requires !StartsWithDigit(r)
    ensures ParseNat(Digits(n) + r) == Ok(n, r)
  {
    var t := Digits(n) + r;
    DigitRunExact(Digits(n), r);
    assert t[..|Digits(n)|] == Digits(n) && t[|Digits(n)|..] == r;
    DigitsValueInverse(n);
  }

  lemma ParseNumberInverse(n: int, r: Text)
    requires !StartsWithDigit(r)
    ensures ParseNumber(Decimal(n) + r) == Ok(Num(n), r)
  {
    if n < 0 {
      Associate([45], Digits(-n), r);
      DropFront(45, Digits(-n) + r);
      ParseNatInverse(-n, r);
    } else {
      ParseNatInverse(n, r);
    }
  }

  lemma ParseKeywordInverse(word: Text, v: Json, r: Text)
    requires word != []
    ensures ParseKeyword(word, v, word + r) == Ok(v, r)
  {
    assert (word + r)[|word|..] == r;
  }

  lemma StartsNumeric(n: int)
    ensures IsDigit(Decimal(n)[0]) || Decimal(n)[0] == 45
  {
    assert IsDigit(Digits(if n < 0 then -n else n)[0]);
  }

  lemma ParseScalar(v: Json, r: Text)
    requires v.Null? || v.Bool? || v.Num?
    requires !StartsWithDigit(r)
    ensures ParseValue(Stringify(v) + r) == Ok(v, r)
  {
    match v
    case Null => ParseKeywordInverse(NULL_TEXT, Null, r);
    case Bool(b) => ParseKeywordInverse(if b then TRUE_TEXT else FALSE_TEXT, v, r);
    case Num(n) =>
      StartsNumeric(n);
      ParseNumberInverse(n, r);
  }

  /** No printed value starts with the bracket that would close an empty array. */
  lemma StringifyStart(v: Json, r: Text)
    ensures StringifyOnto(v, r) != [] && StringifyOnto(v, r)[0] != 93
  {
    if v.Num? {
      StartsNumeric(v.n);
    }
  }

  lemma {:induction false} ParseStringified(v: Json, r: Text)
    requires !StartsWithDigit(r)
    ensures ParseValue(StringifyOnto(v, r)) == Ok(v, r)
    decreases v, 1
  {
    match v
    case Str(s) =>
      ParseQuoted(s, r);
      DropFront(34, QuoteBodyOnto(s, [34] + r));
    case Arr(items) =>
      var inner := StringifyItemsOnto(items, [93] + r);
      DropFront(91, inner);
      if items == [] {
        assert ([91] + inner)[2..] == r;
      } else {
        ParseStringifiedItems(items, r);
        StringifyStart(items[0], if |items| == 1 then [93] + r else [44] + StringifyItemsOnto(items[1..], [93] + r));
      }
    case Obj(members) =>
      var inner := StringifyMembersOnto(members, [125] + r);
      DropFront(123, inner);
      if members == [] {
        assert ([123] + inner)[2..] == r;
      } else {
        ParseStringifiedMembers(members, r);
      }
    case _ => ParseScalar(v, r);
  }

  lemma {:induction false} ParseStringifiedItems(items: seq<Json>, r: Text)
    requires items != []
    ensures ParseItems(StringifyItemsOnto(items, [93] + r)) == Ok(items, r)
    decreases items, 0
  {
    if |items| == 1 {
      ParseStringified(items[0], [93] + r);
      DropFront(93, r);
      assert items == [items[0]];
    } else {
      var tail := StringifyItemsOnto(items[1..], [93] + r);
      ParseStringified(items[0], [44] + tail);
      ParseStringifiedItems(items[1..], r);
      DropFront(44, tail);
      assert items == [items[0]] + items[1..];
    }
  }

  lemma {:induction false} ParseStringifiedMember(m: Member, r: Text)
    requires !StartsWithDigit(r)
    ensures ParseMember(StringifyMemberOnto(m, r)) == Ok(m, r)
    decreases m, 2
  {
    var value := StringifyOnto(m.value, r);
    ParseQuoted(m.key, [58] + value);
    DropFront(34, QuoteBodyOnto(m.key, [34] + ([58] + value)));
    DropFront(58, value);
    ParseStringified(m.value, r);
  }

  lemma {:induction false} ParseStringifiedMembers(members: seq<Member>, r: Text)
    requires members != []
    ensures ParseMembers(StringifyMembersOnto(members, [125] + r)) == Ok(members, r)
    decreases members, 0
  {
    if |members| == 1 {
      ParseStringifiedMember(members[0], [125] + r);
      DropFront(125, r);
      assert members == [members[0]];
    } else {
      var tail := StringifyMembersOnto(members[1..], [125] + r);
      ParseStringifiedMember(members[0], [44] + tail);
      ParseStringifiedMembers(members[1..], r);
      DropFront(44, tail);
      assert members == [members[0]] + members[1..];
    }
  }

  /** `JSON.parse(JSON.stringify(v))` is `v`, for every value. */
  lemma ParseInverse(v: Json)
    ensures Parse(Stringify(v)) == Some(v)
  {
    ParseStringified(v, []);
    StringifyOntoIsAppend(v, []);
    assert Stringify(v) + [] == Stringify(v);
  }

  lemma StringifyInjective(v: Json, w: Json)
    requires Stringify(v) == Stringify(w)
    ensures v == w
  {
    ParseInverse(v);
    ParseInverse(w);
  }
}
