/** Budget sessions: consuming a granted budget, all of a usage or none of it. */
module Budget {
  import opened JsText

  /** A number as JavaScript hands it over. */
  datatype Amount = Finite(value: real) | NotFinite

  datatype Use = Use(dimension: Text, amount: Amount)

  datatype Session = Session(remaining: map<Text, real>, terminated: bool)

  datatype Outcome = Consumed(remaining: map<Text, real>) | Terminated | InvalidUsage(dimension: Text)
                   | Exhausted(dimension: Text)

  predicate ValidUse(remaining: map<Text, real>, u: Use) {
    u.dimension in remaining && u.amount.Finite? && u.amount.value >= 0.0
  }

  /** The loop over the usage, on a copy of the remainder. */
  function Spend(next: map<Text, real>, usage: seq<Use>): Outcome {
    if usage == [] then Consumed(next)
    else
      var u := usage[0];
      if !ValidUse(next, u) then InvalidUsage(u.dimension)
      else if u.amount.value > next[u.dimension] then Exhausted(u.dimension)
      else Spend(next[u.dimension := next[u.dimension] - u.amount.value], usage[1..])
  }

  /** A whole call: what it answers, and the session after it. */
  function AfterCall(s: Session, usage: seq<Use>): (Session, Outcome) {
    if s.terminated then (s, Terminated)
    else
      var o := Spend(s.remaining, usage);
      match o
      case Consumed(remaining) => (Session(remaining, false), o)
      case Exhausted(_) => (Session(s.remaining, true), o)
      case _ => (s, o)
  }

  class BudgetSession {
    var remaining: map<Text, real>
    var terminated: bool

    function State(): Session
      reads this
    {
      Session(remaining, terminated)
    }

    constructor (grant: map<Text, real>)
      ensures State() == Session(grant, false)
    {
      remaining, terminated := grant, false;
    }

    method Consume(usage: seq<Use>) returns (o: Outcome)
      modifies this
      ensures (State(), o) == AfterCall(old(State()), usage)
    {
      if terminated {
        return Terminated;
      }
      var next := remaining;
      assert usage[0..] == usage;
      for i := 0 to |usage|
        invariant remaining == old(remaining) && terminated == old(terminated)
        invariant Spend(next, usage[i..]) == Spend(remaining, usage)
      {
        var u := usage[i];
        assert usage[i..][0] == u && usage[i..][1..] == usage[i + 1..];
        if !ValidUse(next, u) {
          return InvalidUsage(u.dimension);
        }
        if u.amount.value > next[u.dimension] {
          terminated := true;
          return Exhausted(u.dimension);
        }
        next := next[u.dimension := next[u.dimension] - u.amount.value];
      }
      remaining := next;
      o := Consumed(next);
    }
  }

  // ----- The contract: `consumeBudget`

  function UsedOf(usage: map<Text, real>, dimension: Text): real {
    if dimension in usage then usage[dimension] else 0.0
  }

  /** Every dimension has enough left. */
  predicate Affordable(budget: map<Text, real>, usage: map<Text, real>) {
    forall d :: d in budget ==> UsedOf(usage, d) <= budget[d]
  }

  function Reduced(budget: map<Text, real>, usage: map<Text, real>): map<Text, real> {
    map d | d in budget :: budget[d] - UsedOf(usage, d)
  }

  /** The contract's loop over the budget's dimensions; `None` is the thrown exhaustion. */
  method ConsumeBudget(budget: map<Text, real>, usage: map<Text, real>) returns (r: Option<map<Text, real>>)
    ensures r.Some? <==> Affordable(budget, usage)
    ensures r.Some? ==> r.value == Reduced(budget, usage)
  {
    var result: map<Text, real> := map[];
    var left := budget.Keys;
    while left != {}
      invariant left <= budget.Keys && result.Keys == budget.Keys - left
      invariant forall d :: d in result ==> UsedOf(usage, d) <= budget[d] && result[d] == budget[d] - UsedOf(usage, d)
    {
      var d :| d in left;
      var consumed := UsedOf(usage, d);
      if consumed > budget[d] {
        return None;
      }
      result := result[d := budget[d] - consumed];
      left := left - {d};
    }
    r := Some(result);
  }

  // ----- A session refines the contract

  ghost predicate DistinctUses(usage: seq<Use>) {
    forall i, j :: 0 <= i < j < |usage| ==> usage[i].dimension != usage[j].dimension
  }

  /** The usage as an object, when its numbers are finite. */
  function Amounts(usage: seq<Use>): map<Text, real> {
    if usage == [] then map[]
    else
      var rest := Amounts(usage[..|usage| - 1]);
      var u := usage[|usage| - 1];
      if u.amount.Finite? then rest[u.dimension := u.amount.value] else rest
  }

  /** What a usage asks of one dimension. */
  function Asked(usage: seq<Use>, dimension: Text): real {
    if usage == [] then 0.0 else AskedBy(usage[0], dimension) + Asked(usage[1..], dimension)
  }

  function AskedBy(u: Use, dimension: Text): real {
    if u.dimension == dimension && u.amount.Finite? then u.amount.value else 0.0
  }

  lemma {:induction false} AskedElsewhere(usage: seq<Use>, dimension: Text)
    requires forall i :: 0 <= i < |usage| ==> usage[i].dimension != dimension
    ensures Asked(usage, dimension) == 0.0
  {
    if usage != [] {
      AskedElsewhere(usage[1..], dimension);
    }
  }

  lemma {:induction false} AskedSnoc(usage: seq<Use>, u: Use, dimension: Text)
    ensures Asked(usage + [u], dimension) == Asked(usage, dimension) + AskedBy(u, dimension)
  {
    if usage == [] {
      assert usage + [u] == [u];
    } else {
      assert (usage + [u])[1..] == usage[1..] + [u];
      AskedSnoc(usage[1..], u, dimension);
    }
  }

  lemma {:induction false} AmountsAsked(usage: seq<Use>, dimension: Text)
    requires DistinctUses(usage)
    ensures UsedOf(Amounts(usage), dimension) == Asked(usage, dimension)
  {
    if usage != [] {
      var front, u := usage[..|usage| - 1], usage[|usage| - 1];
      assert usage == front + [u];
      AmountsAsked(front, dimension);
      AskedSnoc(front, u, dimension);
      if u.dimension == dimension {
        forall i | 0 <= i < |front| ensures front[i].dimension != dimension {
          assert usage[i].dimension != usage[|front|].dimension;
        }
        AskedElsewhere(front, dimension);
      }
    }
  }

  /** All entries name a dimension of the budget and a finite amount that is not negative. */
  ghost predicate AllValid(remaining: map<Text, real>, usage: seq<Use>) {
    forall i :: 0 <= i < |usage| ==> ValidUse(remaining, usage[i])
  }

  /** Spending succeeds exactly when every entry is valid and no dimension is asked for more than it has left. */
  lemma {:induction false} SpendExactly(next: map<Text, real>, usage: seq<Use>)
    requires DistinctUses(usage)
    ensures Spend(next, usage).Consumed? <==>
              AllValid(next, usage)
              && forall i :: 0 <= i < |usage| ==> usage[i].amount.value <= next[usage[i].dimension]
    ensures Spend(next, usage).Consumed? ==>
              var left := Spend(next, usage).remaining;
              left.Keys == next.Keys && forall d :: d in next ==> left[d] == next[d] - Asked(usage, d)
  {
    if usage != [] {
      var u, rest := usage[0], usage[1..];
      if ValidUse(next, u) && u.amount.value <= next[u.dimension] {
        var later := next[u.dimension := next[u.dimension] - u.amount.value];
        SpendExactly(later, rest);
        forall i | 0 <= i < |rest|
          ensures rest[i] == usage[i + 1] && (ValidUse(later, rest[i]) <==> ValidUse(next, usage[i + 1]))
          ensures rest[i].dimension != u.dimension
        {
          assert usage[0].dimension != usage[i + 1].dimension;
        }
        AskedElsewhere(rest, u.dimension);
        assert forall i :: 0 < i < |usage| ==> usage[i] == rest[i - 1];
      }
    }
  }

  lemma AskedOfOne(usage: seq<Use>, i: nat)
    requires DistinctUses(usage) && i < |usage| && usage[i].amount.Finite?
    ensures Asked(usage, usage[i].dimension) == usage[i].amount.value
    decreases |usage|
  {
    if i == 0 {
      forall j | 0 <= j < |usage[1..]| ensures usage[1..][j].dimension != usage[0].dimension {
        assert usage[0].dimension != usage[j + 1].dimension;
      }
      AskedElsewhere(usage[1..], usage[0].dimension);
    } else {
      assert usage[0].dimension != usage[i].dimension;
      assert usage[1..][i - 1] == usage[i];
      AskedOfOne(usage[1..], i - 1);
    }
  }

  ghost predicate NonNegative(remaining: map<Text, real>) {
    forall d :: d in remaining ==> remaining[d] >= 0.0
  }

  /** A negative dimension is one the usage asks for. */
  ghost predicate UnaskedNonNegative(remaining: map<Text, real>, usage: seq<Use>) {
    forall d :: d in remaining && (forall i :: 0 <= i < |usage| ==> usage[i].dimension != d) ==> remaining[d] >= 0.0
  }

  /** No entry asks for more than its dimension has left. */
  ghost predicate EntriesFit(remaining: map<Text, real>, usage: seq<Use>)
    requires AllValid(remaining, usage)
  {
    forall i :: 0 <= i < |usage| ==> usage[i].amount.value <= remaining[usage[i].dimension]
  }

  /** Entry by entry or dimension by dimension: the difference is in the dimensions nobody asks for. */
  lemma AffordableExactly(remaining: map<Text, real>, usage: seq<Use>)
    requires DistinctUses(usage) && AllValid(remaining, usage)
    ensures EntriesFit(remaining, usage) && UnaskedNonNegative(remaining, usage) <==>
              Affordable(remaining, Amounts(usage))
  {
    forall d: Text
      ensures UsedOf(Amounts(usage), d) == Asked(usage, d)
    {
      AmountsAsked(usage, d);
    }
    forall i | 0 <= i < |usage|
      ensures usage[i].dimension in remaining && Asked(usage, usage[i].dimension) == usage[i].amount.value
    {
      AskedOfOne(usage, i);
    }
    forall d | forall i :: 0 <= i < |usage| ==> usage[i].dimension != d
      ensures Asked(usage, d) == 0.0
    {
      AskedElsewhere(usage, d);
    }
    if EntriesFit(remaining, usage) && UnaskedNonNegative(remaining, usage) {
      forall d | d in remaining ensures Asked(usage, d) <= remaining[d] {
        if i :| 0 <= i < |usage| && usage[i].dimension == d {
          assert usage[i].amount.value <= remaining[d];
        }
      }
    }
  }

  /**
   * The contract's `consumeBudget` succeeds on valid amounts exactly when the call succeeds and no dimension left out
   * of the usage is negative; a successful call leaves what the contract computes.
   */
  lemma CallRefines(s: Session, usage: seq<Use>)
    requires DistinctUses(usage)
    ensures AfterCall(s, usage).1.Consumed? && UnaskedNonNegative(s.remaining, usage) <==>
            !s.terminated && AllValid(s.remaining, usage) && Affordable(s.remaining, Amounts(usage))
    ensures AfterCall(s, usage).1.Consumed? ==>
              AfterCall(s, usage).0 == Session(Reduced(s.remaining, Amounts(usage)), false)
  {
    SpendExactly(s.remaining, usage);
    if AllValid(s.remaining, usage) {
      AffordableExactly(s.remaining, usage);
    }
    forall d: Text
      ensures UsedOf(Amounts(usage), d) == Asked(usage, d)
    {
      AmountsAsked(usage, d);
    }
  }

  /** Session and contract accept the same usage. */
  ghost predicate AgreeOn(s: Session, usage: seq<Use>) {
    AfterCall(s, usage).1.Consumed? <==> Affordable(s.remaining, Amounts(usage))
  }

  /**
   * A session that is not terminated agrees with the contract on all valid usages exactly when nothing in it is
   * negative.
   */
  lemma AgreeExactly(s: Session)
    requires !s.terminated
    ensures (forall usage :: DistinctUses(usage) && AllValid(s.remaining, usage) ==> AgreeOn(s, usage))
       <==> NonNegative(s.remaining)
  {
    if NonNegative(s.remaining) {
      forall usage | DistinctUses(usage) && AllValid(s.remaining, usage)
        ensures AgreeOn(s, usage)
      {
        CallRefines(s, usage);
      }
    } else {
      var d :| d in s.remaining && s.remaining[d] < 0.0;
      NegativeBudgetsDiffer(s, d);
    }
  }

  /** A negative dimension stops the contract and not the session when nothing is asked for. */
  lemma NegativeBudgetsDiffer(s: Session, d: Text)
    requires !s.terminated && d in s.remaining && s.remaining[d] < 0.0
    ensures DistinctUses([]) && AllValid(s.remaining, []) && !AgreeOn(s, [])
  {
    assert UsedOf(Amounts([]), d) == 0.0;
  }

  // ----- Runs

  function AfterCalls(s: Session, calls: seq<seq<Use>>): Session
    decreases |calls|
  {
    if calls == [] then s else AfterCalls(AfterCall(s, calls[0]).0, calls[1..])
  }

  /** What the successful calls of a run have taken from a dimension. */
  function Total(s: Session, calls: seq<seq<Use>>, dimension: Text): real
    decreases |calls|
  {
    if calls == [] then 0.0
    else
      var (after, o) := AfterCall(s, calls[0]);
      (if o.Consumed? then Asked(calls[0], dimension) else 0.0) + Total(after, calls[1..], dimension)
  }

  ghost predicate DistinctCalls(calls: seq<seq<Use>>) {
    forall i :: 0 <= i < |calls| ==> DistinctUses(calls[i])
  }

  /** One call: all of the usage is taken, or nothing. */
  lemma CallConserves(s: Session, usage: seq<Use>)
    requires DistinctUses(usage)
    ensures var (after, o) := AfterCall(s, usage);
            after.remaining.Keys == s.remaining.Keys
            && (forall d :: d in s.remaining ==>
                after.remaining[d] + (if o.Consumed? then Asked(usage, d) else 0.0) == s.remaining[d])
            && (!o.Consumed? ==> after.remaining == s.remaining)
            && (after.terminated <==> s.terminated || o.Exhausted?)
  {
    SpendExactly(s.remaining, usage);
  }

  /** Over any calls, what is left and what was successfully consumed make up the grant, in every dimension. */
  lemma {:induction false} Conservation(s: Session, calls: seq<seq<Use>>, dimension: Text)
    requires DistinctCalls(calls) && dimension in s.remaining
    ensures dimension in AfterCalls(s, calls).remaining
    ensures AfterCalls(s, calls).remaining[dimension] + Total(s, calls, dimension) == s.remaining[dimension]
    decreases |calls|
  {
    if calls != [] {
      CallConserves(s, calls[0]);
      assert DistinctCalls(calls[1..]) by {
        assert forall i :: 0 <= i < |calls[1..]| ==> calls[1..][i] == calls[i + 1];
      }
      Conservation(AfterCall(s, calls[0]).0, calls[1..], dimension);
    }
  }

  lemma CallNonNegative(s: Session, usage: seq<Use>)
    requires DistinctUses(usage) && NonNegative(s.remaining)
    ensures NonNegative(AfterCall(s, usage).0.remaining)
  {
    CallRefines(s, usage);
  }

  /** No dimension of a grant ever falls below zero. */
  lemma {:induction false} NeverNegative(s: Session, calls: seq<seq<Use>>)
    requires DistinctCalls(calls) && NonNegative(s.remaining)
    ensures NonNegative(AfterCalls(s, calls).remaining)
    decreases |calls|
  {
    if calls != [] {
      CallNonNegative(s, calls[0]);
      assert DistinctCalls(calls[1..]) by {
        assert forall i :: 0 <= i < |calls[1..]| ==> calls[1..][i] == calls[i + 1];
      }
      NeverNegative(AfterCall(s, calls[0]).0, calls[1..]);
    }
  }

  /** After an exhaustion nothing is ever consumed again. */
  lemma {:induction false} ExhaustionPermanent(s: Session, calls: seq<seq<Use>>, dimension: Text)
    requires s.terminated
    ensures AfterCalls(s, calls) == s && Total(s, calls, dimension) == 0.0
    decreases |calls|
  {
    if calls != [] {
      ExhaustionPermanent(s, calls[1..], dimension);
    }
  }
}
