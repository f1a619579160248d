/** The bounded rewrite that redacts evidence, with one counter shared by the whole recursion. */
module Redaction {
  import opened JsText
  import opened Json

  /** The limits, and the two key patterns as predicates. */
  datatype Config = Config(maxDepth: nat, maxItems: nat, maxString: nat, secret: Text -> bool, path: Text -> bool)

  const ESCAPE: CodeUnit := 27

  function TruncatedDepth(): Json { Str(T("[TRUNCATED_DEPTH]")) }

  function TruncatedItems(): Json { Str(T("[TRUNCATED_ITEMS]")) }

  function Redacted(): Json { Str(T("[REDACTED]")) }

  function RedactedPath(): Json { Str(T("[REDACTED_PATH]")) }

  // ----- Escape sequences

  /** The longest prefix of units within a range. */
  function RunLength(t: Text, lo: CodeUnit, hi: CodeUnit): (n: nat)
    ensures n <= |t|
  {
    if t != [] && lo <= t[0] <= hi then 1 + RunLength(t[1..], lo, hi) else 0
  }

  /**
   * The length of the terminal escape sequence (introducer, parameters, intermediates, final) at the start, or zero.
   */
  function SequenceLength(t: Text): (n: nat)
    ensures n <= |t|
    ensures t == [] || t[0] != ESCAPE ==> n == 0
  {
    if |t| < 3 || t[0] != ESCAPE || t[1] != 91 then 0
    else
      var p := 2 + RunLength(t[2..], 48, 63);
      var q := p + RunLength(t[p..], 32, 47);
      if q < |t| && 64 <= t[q] <= 126 then q + 1 else 0
  }

  /** `value.replace(ANSI, "")`. */
  function Strip(t: Text): (r: Text)
    ensures |r| <= |t|
    ensures r == t || |r| < |t|
    decreases |t|
  {
    if t == [] then []
    else
      var n := SequenceLength(t);
      if n > 0 then Strip(t[n..])
      else
        assert t == [t[0]] + t[1..];
        [t[0]] + Strip(t[1..])
  }

  lemma {:induction false} StripPlain(t: Text)
    requires forall i :: 0 <= i < |t| ==> t[i] != ESCAPE
    ensures Strip(t) == t
  {
    if t != [] {
      StripPlain(t[1..]);
      assert t == [t[0]] + t[1..];
    }
  }

  /** No escape sequence starts anywhere in the text. */
  predicate SequenceFree(t: Text) {
    forall i :: 0 <= i < |t| ==> SequenceLength(t[i..]) == 0
  }

  lemma SequenceFreeCons(t: Text)
    requires t != []
    ensures SequenceFree(t) <==> SequenceLength(t) == 0 && SequenceFree(t[1..])
  {
    assert t[0..] == t;
    assert forall i :: 0 <= i < |t[1..]| ==> t[1..][i..] == t[i + 1..];
    assert forall i :: 0 < i < |t| ==> t[i..] == t[1..][i - 1..];
  }

  lemma {:induction false} StripFree(t: Text)
    ensures Strip(t) == t <==> SequenceFree(t)
  {
    if t != [] {
      SequenceFreeCons(t);
      StripFree(t[1..]);
      assert t == [t[0]] + t[1..];
    }
  }

  function Take<A>(s: seq<A>, n: nat): (r: seq<A>)
    ensures |r| <= n && |r| <= |s|
    ensures |s| <= n ==> r == s
  {
    if |s| <= n then s else s[..n]
  }

  function Clean(c: Config, s: Text): Text {
    Take(Strip(s), c.maxString)
  }

  // ----- The rewrite and the count of items it leaves

  function Redact(c: Config, v: Json, depth: nat, items: nat): (r: (Json, nat))
    ensures r.1 >= items
    decreases v, 1
  {
    if depth > c.maxDepth then (TruncatedDepth(), items)
    else if items + 1 > c.maxItems then (TruncatedItems(), items + 1)
    else
      match v
      case Str(s) => (Str(Clean(c, s)), items + 1)
      case Arr(vs) =>
        var (out, n) := RedactItems(c, vs, c.maxItems, depth + 1, items + 1);
        (Arr(out), n)
      case Obj(ms) =>
        var (out, n) := RedactMembers(c, ms, c.maxItems, depth + 1, items + 1);
        (Obj(out), n)
      case _ => (v, items + 1)
  }

  /** The first `left` items, left to right. */
  function RedactItems(c: Config, vs: seq<Json>, left: nat, depth: nat, items: nat): (r: (seq<Json>, nat))
    ensures r.1 >= items && |r.0| <= left && |r.0| <= |vs|
    decreases vs, 0
  {
    if vs == [] || left == 0 then ([], items)
    else
      var (v, n) := Redact(c, vs[0], depth, items);
      var (rest, m) := RedactItems(c, vs[1..], left - 1, depth, n);
      ([v] + rest, m)
  }

  function RedactMember(c: Config, m: Member, depth: nat, items: nat): (r: (Member, nat))
    ensures r.1 >= items && r.0.key == m.key
    decreases m, 2
  {
    if c.secret(m.key) then (Member(m.key, Redacted()), items)
    else if c.path(m.key) then (Member(m.key, RedactedPath()), items)
    else
      var (v, n) := Redact(c, m.value, depth, items);
      (Member(m.key, v), n)
  }

  function RedactMembers(c: Config, ms: seq<Member>, left: nat, depth: nat, items: nat): (r: (seq<Member>, nat))
    ensures r.1 >= items && |r.0| <= left && |r.0| <= |ms|
    decreases ms, 0
  {
    if ms == [] || left == 0 then ([], items)
    else
      var (m, n) := RedactMember(c, ms[0], depth, items);
      var (rest, k) := RedactMembers(c, ms[1..], left - 1, depth, n);
      ([m] + rest, k)
  }

  // ----- The recursion with its counter in an object

  class State {
    var items: nat

    constructor ()
      ensures items == 0
    {
      items := 0;
    }
  }

  method RedactForEvidence(c: Config, v: Json, depth: nat, state: State) returns (r: Json)
    modifies state
    ensures (r, state.items) == Redact(c, v, depth, old(state.items))
    decreases v, 1
  {
    if depth > c.maxDepth {
      return TruncatedDepth();
    }
    state.items := state.items + 1;
    if state.items > c.maxItems {
      return TruncatedItems();
    }
    match v {
      case Str(s) => return Str(Clean(c, s));
      case Arr(vs) =>
        var out := RedactList(c, vs, depth + 1, state);
        return Arr(out);
      case Obj(ms) =>
        var out := RedactObject(c, ms, depth + 1, state);
        return Obj(out);
      case _ => return v;
    }
  }

  /** What is left to rewrite from index `i` on completes `out` to the whole list. */
  ghost predicate ListTracks(c: Config, vs: seq<Json>, depth: nat, i: nat, items: nat, out: seq<Json>,
                             whole: (seq<Json>, nat))
    requires i <= |vs| && i <= c.maxItems
  {
    var (rest, n) := RedactItems(c, vs[i..], c.maxItems - i, depth, items);
    whole == (out + rest, n)
  }

  lemma ListStep(c: Config, vs: seq<Json>, depth: nat, i: nat, items: nat, out: seq<Json>, whole: (seq<Json>, nat))
    requires i < |vs| && i < c.maxItems && ListTracks(c, vs, depth, i, items, out, whole)
    ensures var (v, n) := Redact(c, vs[i], depth, items); ListTracks(c, vs, depth, i + 1, n, out + [v], whole)
  {
    var (v, n) := Redact(c, vs[i], depth, items);
    var rest := RedactItems(c, vs[i + 1..], c.maxItems - (i + 1), depth, n).0;
    assert vs[i..][1..] == vs[i + 1..];
    assert out + ([v] + rest) == out + [v] + rest;
  }

  method RedactList(c: Config, vs: seq<Json>, depth: nat, state: State) returns (out: seq<Json>)
    modifies state
    ensures (out, state.items) == RedactItems(c, vs, c.maxItems, depth, old(state.items))
    decreases vs, 0
  {
    ghost var whole := RedactItems(c, vs, c.maxItems, depth, state.items);
    out := [];
    assert vs[0..] == vs && [] + whole.0 == whole.0;
    var i := 0;
    while i < |vs| && i < c.maxItems
      invariant i <= |vs| && i <= c.maxItems
      invariant ListTracks(c, vs, depth, i, state.items, out, whole)
      decreases |vs| - i
    {
      ListStep(c, vs, depth, i, state.items, out, whole);
      var v := RedactForEvidence(c, vs[i], depth, state);
      out := out + [v];
      i := i + 1;
    }
    assert out + [] == out;
  }

  ghost predicate ObjectTracks(c: Config, ms: seq<Member>, depth: nat, i: nat, items: nat, out: seq<Member>,
                               whole: (seq<Member>, nat))
    requires i <= |ms| && i <= c.maxItems
  {
    var (rest, n) := RedactMembers(c, ms[i..], c.maxItems - i, depth, items);
    whole == (out + rest, n)
  }

  lemma ObjectStep(c: Config, ms: seq<Member>, depth: nat, i: nat, items: nat, out: seq<Member>,
                   whole: (seq<Member>, nat))
    requires i < |ms| && i < c.maxItems && ObjectTracks(c, ms, depth, i, items, out, whole)
    ensures var (m, n) := RedactMember(c, ms[i], depth, items); ObjectTracks(c, ms, depth, i + 1, n, out + [m], whole)
  {
    var (m, n) := RedactMember(c, ms[i], depth, items);
    var rest := RedactMembers(c, ms[i + 1..], c.maxItems - (i + 1), depth, n).0;
    assert ms[i..][1..] == ms[i + 1..];
    assert out + ([m] + rest) == out + [m] + rest;
  }

  method RedactEntry(c: Config, m: Member, depth: nat, state: State) returns (r: Member)
    modifies state
    ensures (r, state.items) == RedactMember(c, m, depth, old(state.items))
    decreases m, 2
  {
    if c.secret(m.key) {
      return Member(m.key, Redacted());
    }
    if c.path(m.key) {
      return Member(m.key, RedactedPath());
    }
    var v := RedactForEvidence(c, m.value, depth, state);
    return Member(m.key, v);
  }

  method RedactObject(c: Config, ms: seq<Member>, depth: nat, state: State) returns (out: seq<Member>)
    modifies state
    ensures (out, state.items) == RedactMembers(c, ms, c.maxItems, depth, old(state.items))
    decreases ms, 0
  {
    ghost var whole := RedactMembers(c, ms, c.maxItems, depth, state.items);
    out := [];
    assert ms[0..] == ms && [] + whole.0 == whole.0;
    var i := 0;
    while i < |ms| && i < c.maxItems
      invariant i <= |ms| && i <= c.maxItems
      invariant ObjectTracks(c, ms, depth, i, state.items, out, whole)
      decreases |ms| - i
    {
      ObjectStep(c, ms, depth, i, state.items, out, whole);
      var m := RedactEntry(c, ms[i], depth, state);
      out := out + [m];
      i := i + 1;
    }
    assert out + [] == out;
  }

  // ----- Bounds

  function Nodes(v: Json): (n: nat)
    ensures n >= 1
    decreases v, 1
  {
    match v
    case Arr(vs) => 1 + ItemNodes(vs)
    case Obj(ms) => 1 + MemberNodes(ms)
    case _ => 1
  }

  function ItemNodes(vs: seq<Json>): nat
    decreases vs, 0
  {
    if vs == [] then 0 else Nodes(vs[0]) + ItemNodes(vs[1..])
  }

  function MemberNodes(ms: seq<Member>): nat
    decreases ms, 0
  {
    if ms == [] then 0 else Nodes(ms[0].value) + MemberNodes(ms[1..])
  }

  /** Items counted that were within the limit. */
  function Within(c: Config, items: nat): nat {
    if items <= c.maxItems then items else c.maxItems
  }

  /** `k` for each of `n` items: the product, kept away from the solver's arithmetic. */
  function Paid(k: nat, n: nat): nat {
    if n == 0 then 0 else k + Paid(k, n - 1)
  }

  lemma {:induction false} PaidTogether(k: nat, a: nat, b: nat)
    ensures Paid(k, a) + Paid(k, b) == Paid(k, a + b)
  {
    if b > 0 {
      PaidTogether(k, a, b - 1);
    }
  }

  lemma {:induction false} PaidProduct(k: nat, n: nat)
    ensures Paid(k, n) == k * n
  {
    if n > 0 {
      PaidProduct(k, n - 1);
    }
  }

  /** What the items counted between two values of the counter pay for. */
  function Allowance(c: Config, before: nat, after: nat): nat
    requires before <= after
  {
    Paid(c.maxItems, Within(c, after) - Within(c, before))
  }

  lemma AllowanceTogether(c: Config, before: nat, middle: nat, after: nat)
    requires before <= middle <= after
    ensures Allowance(c, before, middle) + Allowance(c, middle, after) == Allowance(c, before, after)
  {
    PaidTogether(c.maxItems, Within(c, middle) - Within(c, before), Within(c, after) - Within(c, middle));
  }

  /** Every item counted within the limit pays for at most `maxItems` children. */
  lemma {:induction false} NodesBounded(c: Config, v: Json, depth: nat, items: nat)
    ensures var (r, n) := Redact(c, v, depth, items);
            Nodes(r) <= 1 + Allowance(c, items, n)
    decreases v, 1
  {
    if depth <= c.maxDepth && items + 1 <= c.maxItems {
      AllowanceTogether(c, items, items + 1, Redact(c, v, depth, items).1);
      assert Allowance(c, items, items + 1) == c.maxItems;
      match v
      case Arr(vs) => ItemNodesBounded(c, vs, c.maxItems, depth + 1, items + 1);
      case Obj(ms) => MemberNodesBounded(c, ms, c.maxItems, depth + 1, items + 1);
      case _ =>
    }
  }

  lemma {:induction false} ItemNodesBounded(c: Config, vs: seq<Json>, left: nat, depth: nat, items: nat)
    ensures var (r, n) := RedactItems(c, vs, left, depth, items);
            ItemNodes(r) <= left + Allowance(c, items, n)
    decreases vs, 0
  {
    if vs != [] && left > 0 {
      var (v, n) := Redact(c, vs[0], depth, items);
      var (rest, m) := RedactItems(c, vs[1..], left - 1, depth, n);
      NodesBounded(c, vs[0], depth, items);
      ItemNodesBounded(c, vs[1..], left - 1, depth, n);
      AllowanceTogether(c, items, n, m);
      assert ([v] + rest)[1..] == rest;
    }
  }

  lemma {:induction false} MemberNodesBounded(c: Config, ms: seq<Member>, left: nat, depth: nat, items: nat)
    ensures var (r, n) := RedactMembers(c, ms, left, depth, items);
            MemberNodes(r) <= left + Allowance(c, items, n)
    decreases ms, 0
  {
    if ms != [] && left > 0 {
      var (m, n) := RedactMember(c, ms[0], depth, items);
      var (rest, k) := RedactMembers(c, ms[1..], left - 1, depth, n);
      if !c.secret(ms[0].key) && !c.path(ms[0].key) {
        NodesBounded(c, ms[0].value, depth, items);
      }
      MemberNodesBounded(c, ms[1..], left - 1, depth, n);
      AllowanceTogether(c, items, n, k);
      assert ([m] + rest)[1..] == rest;
    }
  }

  /** The whole output has at most one node more than the square of the item limit. */
  lemma OutputSize(c: Config, v: Json)
    ensures Nodes(Redact(c, v, 0, 0).0) <= 1 + c.maxItems * c.maxItems
  {
    NodesBounded(c, v, 0, 0);
    var n := Within(c, Redact(c, v, 0, 0).1);
    PaidTogether(c.maxItems, n, c.maxItems - n);
    PaidProduct(c.maxItems, c.maxItems);
  }

  // ----- Depth, strings and keys

  ghost predicate Fits(c: Config, v: Json, depth: nat)
    decreases v, 1
  {
    match v
    case Str(s) => |s| <= c.maxString || |s| <= 17
    case Arr(vs) => depth <= c.maxDepth && |vs| <= c.maxItems && FitsItems(c, vs, depth + 1)
    case Obj(ms) => depth <= c.maxDepth && |ms| <= c.maxItems && FitsMembers(c, ms, depth + 1)
    case _ => true
  }

  ghost predicate FitsItems(c: Config, vs: seq<Json>, depth: nat)
    decreases vs, 0
  {
    vs == [] || (Fits(c, vs[0], depth) && FitsItems(c, vs[1..], depth))
  }

  /** Under a secret key stands one constant, under any other path key another. */
  ghost predicate FitsMember(c: Config, m: Member, depth: nat)
    decreases m, 2
  {
    if c.secret(m.key) then m.value == Redacted()
    else if c.path(m.key) then m.value == RedactedPath()
    else Fits(c, m.value, depth)
  }

  ghost predicate FitsMembers(c: Config, ms: seq<Member>, depth: nat)
    decreases ms, 0
  {
    ms == [] || (FitsMember(c, ms[0], depth) && FitsMembers(c, ms[1..], depth))
  }

  /**
   * Nothing in the output lies deeper than one level below `maxDepth`, no string is longer than
   * `maxString` or seventeen, no list or object has more than `maxItems` entries, and every
   * secret or path key that survives holds its constant.
   */
  lemma {:induction false} OutputFits(c: Config, v: Json, depth: nat, items: nat)
    requires depth <= c.maxDepth + 1
    ensures Fits(c, Redact(c, v, depth, items).0, depth)
    decreases v, 1
  {
    if depth <= c.maxDepth && items + 1 <= c.maxItems {
      match v
      case Str(s) => assert Redact(c, v, depth, items).0 == Str(Clean(c, s));
      case Arr(vs) =>
        OutputItemsFit(c, vs, c.maxItems, depth + 1, items + 1);
        assert Redact(c, v, depth, items).0 == Arr(RedactItems(c, vs, c.maxItems, depth + 1, items + 1).0);
      case Obj(ms) =>
        OutputMembersFit(c, ms, c.maxItems, depth + 1, items + 1);
        assert Redact(c, v, depth, items).0 == Obj(RedactMembers(c, ms, c.maxItems, depth + 1, items + 1).0);
      case _ => assert Redact(c, v, depth, items).0 == v;
    }
  }

  lemma {:induction false} OutputItemsFit(c: Config, vs: seq<Json>, left: nat, depth: nat, items: nat)
    requires depth <= c.maxDepth + 1
    ensures FitsItems(c, RedactItems(c, vs, left, depth, items).0, depth)
    decreases vs, 0
  {
    if vs != [] && left > 0 {
      var (v, n) := Redact(c, vs[0], depth, items);
      OutputFits(c, vs[0], depth, items);
      OutputItemsFit(c, vs[1..], left - 1, depth, n);
      assert RedactItems(c, vs, left, depth, items).0[1..] == RedactItems(c, vs[1..], left - 1, depth, n).0;
    }
  }

  lemma {:induction false} OutputMembersFit(c: Config, ms: seq<Member>, left: nat, depth: nat, items: nat)
    requires depth <= c.maxDepth + 1
    ensures FitsMembers(c, RedactMembers(c, ms, left, depth, items).0, depth)
    decreases ms, 0
  {
    if ms != [] && left > 0 {
      var (m, n) := RedactMember(c, ms[0], depth, items);
      if !c.secret(ms[0].key) && !c.path(ms[0].key) {
        OutputFits(c, ms[0].value, depth, items);
      }
      OutputMembersFit(c, ms[1..], left - 1, depth, n);
      assert RedactMembers(c, ms, left, depth, items).0[1..] == RedactMembers(c, ms[1..], left - 1, depth, n).0;
    }
  }

  // ----- Redacting twice

  /** No string that the rewrite visits contains an escape sequence. */
  ghost predicate Plain(c: Config, v: Json)
    decreases v, 1
  {
    match v
    case Str(s) => Strip(s) == s
    case Arr(vs) => PlainItems(c, vs)
    case Obj(ms) => PlainMembers(c, ms)
    case _ => true
  }

  ghost predicate PlainItems(c: Config, vs: seq<Json>)
    decreases vs, 0
  {
    vs == [] || (Plain(c, vs[0]) && PlainItems(c, vs[1..]))
  }

  ghost predicate PlainMember(c: Config, m: Member)
    decreases m, 2
  {
    c.secret(m.key) || c.path(m.key) || Plain(c, m.value)
  }

  ghost predicate PlainMembers(c: Config, ms: seq<Member>)
    decreases ms, 0
  {
    ms == [] || (PlainMember(c, ms[0]) && PlainMembers(c, ms[1..]))
  }

  lemma ConstantsPlain(c: Config)
    ensures Plain(c, TruncatedDepth()) && Plain(c, TruncatedItems())
  {
    PlainLiteral("[TRUNCATED_DEPTH]");
    PlainLiteral("[TRUNCATED_ITEMS]");
  }

  lemma PlainLiteral(s: string)
    requires forall i :: 0 <= i < |s| ==> 32 <= s[i] as int < 0x1_0000
    ensures Strip(T(s)) == T(s)
  {
    StripPlain(T(s));
  }

  /** Cleaning a cleaned string changes it exactly when an escape sequence is left in it. */
  lemma CleanTwice(c: Config, s: Text)
    ensures Clean(c, Clean(c, s)) == Clean(c, s) <==> Strip(Clean(c, s)) == Clean(c, s)
  {}

  /** The value is truncated, whatever it is. */
  predicate Truncated(c: Config, depth: nat, items: nat) {
    depth > c.maxDepth || items + 1 > c.maxItems
  }

  lemma TruncatedTwice(c: Config, v: Json, depth: nat, items: nat)
    requires Truncated(c, depth, items)
    ensures var (r, n) := Redact(c, v, depth, items); Redact(c, r, depth, items) == (r, n) && Plain(c, r)
  {
    ConstantsPlain(c);
  }

  /**
   * A second pass counts exactly as the first did, and changes nothing exactly when the first
   * pass left no escape sequence behind.
   */
  lemma {:induction false} RedactTwice(c: Config, v: Json, depth: nat, items: nat)
    ensures var (r, n) := Redact(c, v, depth, items);
            Redact(c, r, depth, items).1 == n && (Redact(c, r, depth, items).0 == r <==> Plain(c, r))
    decreases v, 1
  {
    if Truncated(c, depth, items) {
      TruncatedTwice(c, v, depth, items);
    } else {
      match v
      case Str(s) => CleanTwice(c, s);
      case Arr(vs) => RedactItemsTwice(c, vs, c.maxItems, depth + 1, items + 1);
      case Obj(ms) => RedactMembersTwice(c, ms, c.maxItems, depth + 1, items + 1);
      case _ =>
    }
  }

  lemma {:induction false} RedactItemsTwice(c: Config, vs: seq<Json>, left: nat, depth: nat, items: nat)
    ensures var (r, n) := RedactItems(c, vs, left, depth, items);
            RedactItems(c, r, left, depth, items).1 == n
            && (RedactItems(c, r, left, depth, items).0 == r <==> PlainItems(c, r))
    decreases vs, 0
  {
    if vs != [] && left > 0 {
      var (v, n) := Redact(c, vs[0], depth, items);
      RedactTwice(c, vs[0], depth, items);
      RedactItemsTwice(c, vs[1..], left - 1, depth, n);
      ConsTwice(c, v, RedactItems(c, vs[1..], left - 1, depth, n).0, left, depth, items);
    }
  }

  lemma ConsTwice(c: Config, v: Json, rest: seq<Json>, left: nat, depth: nat, items: nat)
    requires left > 0
    ensures var n := Redact(c, v, depth, items).1; var r := [v] + rest;
            RedactItems(c, r, left, depth, items).1 == RedactItems(c, rest, left - 1, depth, n).1
            && (RedactItems(c, r, left, depth, items).0 == r <==>
                Redact(c, v, depth, items).0 == v && RedactItems(c, rest, left - 1, depth, n).0 == rest)
            && (PlainItems(c, r) <==> Plain(c, v) && PlainItems(c, rest))
  {
    var r := [v] + rest;
    assert r[1..] == rest && r[0] == v;
    assert RedactItems(c, r, left, depth, items).0[1..]
             == RedactItems(c, rest, left - 1, depth, Redact(c, v, depth, items).1).0;
  }

  lemma {:induction false} RedactMembersTwice(c: Config, ms: seq<Member>, left: nat, depth: nat, items: nat)
    ensures var (r, n) := RedactMembers(c, ms, left, depth, items);
            RedactMembers(c, r, left, depth, items).1 == n
            && (RedactMembers(c, r, left, depth, items).0 == r <==> PlainMembers(c, r))
    decreases ms, 0
  {
    if ms != [] && left > 0 {
      var (m, n) := RedactMember(c, ms[0], depth, items);
      if !c.secret(ms[0].key) && !c.path(ms[0].key) {
        RedactTwice(c, ms[0].value, depth, items);
      }
      RedactMembersTwice(c, ms[1..], left - 1, depth, n);
      ConsMemberTwice(c, m, RedactMembers(c, ms[1..], left - 1, depth, n).0, left, depth, items);
    }
  }

  lemma ConsMemberTwice(c: Config, m: Member, rest: seq<Member>, left: nat, depth: nat, items: nat)
    requires left > 0
    ensures var n := RedactMember(c, m, depth, items).1; var r := [m] + rest;
            RedactMembers(c, r, left, depth, items).1 == RedactMembers(c, rest, left - 1, depth, n).1
            && (RedactMembers(c, r, left, depth, items).0 == r <==>
                RedactMember(c, m, depth, items).0 == m && RedactMembers(c, rest, left - 1, depth, n).0 == rest)
            && (PlainMembers(c, r) <==> PlainMember(c, m) && PlainMembers(c, rest))
  {
    var r := [m] + rest;
    assert r[1..] == rest && r[0] == m;
    assert RedactMembers(c, r, left, depth, items).0[1..]
             == RedactMembers(c, rest, left - 1, depth, RedactMember(c, m, depth, items).1).0;
  }

  // ----- When redacting twice is redacting once

  /**
   * No string that the rewrite visits is left with an escape sequence: the input is walked with the depth, the
   * entries left and the counter that the rewrite would have there.
   */
  ghost predicate Stable(c: Config, v: Json, depth: nat, items: nat)
    decreases v, 1
  {
    Truncated(c, depth, items)
    || match v
       case Str(s) => SequenceFree(Clean(c, s))
       case Arr(vs) => StableItems(c, vs, c.maxItems, depth + 1, items + 1)
       case Obj(ms) => StableMembers(c, ms, c.maxItems, depth + 1, items + 1)
       case _ => true
  }

  ghost predicate StableItems(c: Config, vs: seq<Json>, left: nat, depth: nat, items: nat)
    decreases vs, 0
  {
    vs == [] || left == 0
    || (Stable(c, vs[0], depth, items) && StableItems(c, vs[1..], left - 1, depth, Redact(c, vs[0], depth, items).1))
  }

  ghost predicate StableMembers(c: Config, ms: seq<Member>, left: nat, depth: nat, items: nat)
    decreases ms, 0
  {
    ms == [] || left == 0
    || ((c.secret(ms[0].key) || c.path(ms[0].key) || Stable(c, ms[0].value, depth, items))
        && StableMembers(c, ms[1..], left - 1, depth, RedactMember(c, ms[0], depth, items).1))
  }

  lemma {:induction false} StableExactly(c: Config, v: Json, depth: nat, items: nat)
    ensures Plain(c, Redact(c, v, depth, items).0) <==> Stable(c, v, depth, items)
    decreases v, 1
  {
    if Truncated(c, depth, items) {
      TruncatedTwice(c, v, depth, items);
    } else {
      match v
      case Str(s) => StripFree(Clean(c, s));
      case Arr(vs) => StableItemsExactly(c, vs, c.maxItems, depth + 1, items + 1);
      case Obj(ms) => StableMembersExactly(c, ms, c.maxItems, depth + 1, items + 1);
      case _ =>
    }
  }

  lemma {:induction false} StableItemsExactly(c: Config, vs: seq<Json>, left: nat, depth: nat, items: nat)
    ensures PlainItems(c, RedactItems(c, vs, left, depth, items).0) <==> StableItems(c, vs, left, depth, items)
    decreases vs, 0
  {
    if vs != [] && left > 0 {
      var (v, n) := Redact(c, vs[0], depth, items);
      StableExactly(c, vs[0], depth, items);
      StableItemsExactly(c, vs[1..], left - 1, depth, n);
      ConsTwice(c, v, RedactItems(c, vs[1..], left - 1, depth, n).0, left, depth, items);
    }
  }

  lemma {:induction false} StableMembersExactly(c: Config, ms: seq<Member>, left: nat, depth: nat, items: nat)
    ensures PlainMembers(c, RedactMembers(c, ms, left, depth, items).0) <==> StableMembers(c, ms, left, depth, items)
    decreases ms, 0
  {
    if ms != [] && left > 0 {
      var (m, n) := RedactMember(c, ms[0], depth, items);
      if !c.secret(ms[0].key) && !c.path(ms[0].key) {
        StableExactly(c, ms[0].value, depth, items);
      }
      StableMembersExactly(c, ms[1..], left - 1, depth, n);
      ConsMemberTwice(c, m, RedactMembers(c, ms[1..], left - 1, depth, n).0, left, depth, items);
    }
  }

  /** Redacting twice is redacting once exactly for the inputs whose visited strings keep no escape sequence. */
  lemma IdempotentExactly(c: Config, v: Json)
    ensures var r := Redact(c, v, 0, 0).0; Redact(c, r, 0, 0).0 == r <==> Stable(c, v, 0, 0)
  {
    RedactTwice(c, v, 0, 0);
    StableExactly(c, v, 0, 0);
  }

  /** No string at all contains the escape character. */
  ghost predicate NoEscapes(v: Json)
    decreases v, 1
  {
    match v
    case Str(s) => forall i :: 0 <= i < |s| ==> s[i] != ESCAPE
    case Arr(vs) => forall i :: 0 <= i < |vs| ==> NoEscapes(vs[i])
    case Obj(ms) => forall i :: 0 <= i < |ms| ==> NoEscapes(ms[i].value)
    case _ => true
  }

  lemma CleanPlain(c: Config, s: Text)
    requires forall i :: 0 <= i < |s| ==> s[i] != ESCAPE
    ensures SequenceFree(Clean(c, s))
  {
    StripPlain(s);
  }

  lemma {:induction false} NoEscapesStable(c: Config, v: Json, depth: nat, items: nat)
    requires NoEscapes(v)
    ensures Stable(c, v, depth, items)
    decreases v, 1
  {
    match v
    case Str(s) => CleanPlain(c, s);
    case Arr(vs) => NoEscapesStableItems(c, vs, c.maxItems, depth + 1, items + 1);
    case Obj(ms) => NoEscapesStableMembers(c, ms, c.maxItems, depth + 1, items + 1);
    case _ =>
  }

  lemma {:induction false} NoEscapesStableItems(c: Config, vs: seq<Json>, left: nat, depth: nat, items: nat)
    requires forall i :: 0 <= i < |vs| ==> NoEscapes(vs[i])
    ensures StableItems(c, vs, left, depth, items)
    decreases vs, 0
  {
    if vs != [] && left > 0 {
      NoEscapesStable(c, vs[0], depth, items);
      NoEscapesStableItems(c, vs[1..], left - 1, depth, Redact(c, vs[0], depth, items).1);
    }
  }

  lemma {:induction false} NoEscapesStableMembers(c: Config, ms: seq<Member>, left: nat, depth: nat, items: nat)
    requires forall i :: 0 <= i < |ms| ==> NoEscapes(ms[i].value)
    ensures StableMembers(c, ms, left, depth, items)
    decreases ms, 0
  {
    if ms != [] && left > 0 {
      NoEscapesStable(c, ms[0].value, depth, items);
      NoEscapesStableMembers(c, ms[1..], left - 1, depth, RedactMember(c, ms[0], depth, items).1);
    }
  }

  /** So the rewrite is idempotent on every value free of the escape character. */
  lemma IdempotentWithoutEscapes(c: Config, v: Json)
    requires NoEscapes(v)
    ensures var r := Redact(c, v, 0, 0).0; Redact(c, r, 0, 0).0 == r
  {
    NoEscapesStable(c, v, 0, 0);
    IdempotentExactly(c, v);
  }

  /** It is not idempotent in general: taking one sequence out can put the next one together. */
  lemma NotIdempotent(c: Config) returns (v: Json)
    requires c.maxItems >= 1 && c.maxString >= 3
    ensures var r := Redact(c, v, 0, 0).0; Redact(c, r, 0, 0).0 != r
  {
    var inner: Text := [ESCAPE, 91, 109];
    var s: Text := [ESCAPE] + inner + [91, 109];
    v := Str(s);
    assert s == [ESCAPE, ESCAPE, 91, 109, 91, 109];
    assert s[1..] == [ESCAPE, 91, 109, 91, 109];
    assert SequenceLength(s) == 0;
    assert s[1..][2..] == [109, 91, 109];
    assert SequenceLength(s[1..]) == 3;
    assert s[1..][3..] == [91, 109];
    StripPlain([91, 109]);
    assert Strip(s[1..]) == [91, 109];
    assert Strip(s) == inner;
    assert inner[2..] == [109] && inner[0..] == inner;
    assert SequenceLength(inner) == 3;
    assert !SequenceFree(Clean(c, s));
    IdempotentExactly(c, v);
  }
}
