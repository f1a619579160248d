/** The bounded event queue of a semantic world, and reading it page by page. */
module SemanticWorld {
  import opened JsText
  import opened Sequences

  datatype Event = Event(sequence: int, kind: Text, entityId: Text)

  const MAX_CAPACITY: nat := 100000
  const MAX_PAGE: nat := 1000

  function Min(a: int, b: int): int {
    if a <= b then a else b
  }

  function Max(a: int, b: int): int {
    if a >= b then a else b
  }

  /** The last `n` elements, or all of them. */
  function Last<A>(s: seq<A>, n: nat): (r: seq<A>)
    ensures |r| == Min(n, |s|)
  {
    s[|s| - Min(n, |s|)..]
  }

  /** Numbered one by one from `first + 1`. */
  ghost predicate Numbered(events: seq<Event>, first: int) {
    forall i :: 0 <= i < |events| ==> events[i].sequence == first + i + 1
  }

  predicate OpaqueId(entityId: Option<Text>) {
    entityId.Some? && |entityId.value| >= 4 && entityId.value[..4] == T("ent_")
  }

  /** `events.Where(x => x.Sequence > cursor)` */
  function After(cursor: int): Event -> bool {
    (e: Event) => e.sequence > cursor
  }

  /** `Take(limit)` */
  function Cut<A>(s: seq<A>, limit: nat): (r: seq<A>)
    ensures |r| == Min(limit, |s|)
  {
    s[..Min(limit, |s|)]
  }

  function Page(events: seq<Event>, cursor: int, limit: nat): seq<Event> {
    Cut(Filter(After(cursor), events), limit)
  }

  lemma LastTail<A>(s: seq<A>, n: nat)
    requires |s| > n
    ensures Last(s[1..], n) == Last(s, n)
  {}

  /** Keeping the last `n` of what was kept and one more is keeping the last `n` of everything. */
  lemma LastSnoc<A>(s: seq<A>, n: nat, x: A)
    ensures Last(Last(s, n) + [x], n) == Last(s + [x], n)
  {
    var kept := Last(s, n) + [x];
    if |s| < n {
      assert kept == s + [x];
    }
  }

  lemma NumberedSnoc(events: seq<Event>, first: int, e: Event)
    requires Numbered(events, first) && e.sequence == first + |events| + 1
    ensures Numbered(events + [e], first)
  {}

  /** The dequeue loop. */
  method Trim(queue: seq<Event>, capacity: nat) returns (kept: seq<Event>)
    ensures kept == Last(queue, capacity)
  {
    kept := queue;
    while |kept| > capacity
      invariant Last(kept, capacity) == Last(queue, capacity)
    {
      LastTail(kept, capacity);
      kept := kept[1..];
    }
  }

  class SemanticWorld {
    const eventCapacity: nat
    var entities: map<Text, map<Text, Text>>
    var events: seq<Event>
    var sequence: int
    /** Every event ever recorded. */
    ghost var history: seq<Event>

    ghost predicate Valid()
      reads this
    {
      1 <= eventCapacity && sequence == |history| && Numbered(history, 0) && events == Last(history, eventCapacity)
    }

    constructor (eventCapacity: nat)
      requires 1 <= eventCapacity <= MAX_CAPACITY
      ensures Valid() && history == [] && entities == map[] && this.eventCapacity == eventCapacity
    {
      this.eventCapacity := eventCapacity;
      entities, events, sequence, history := map[], [], 0, [];
    }

    /** A capacity out of range is an exception: no world. */
    static method Open(eventCapacity: int) returns (world: SemanticWorld?)
      ensures world != null <==> 1 <= eventCapacity <= MAX_CAPACITY
      ensures world != null ==>
                fresh(world) && world.Valid() && world.history == [] && world.eventCapacity == eventCapacity
    {
      if eventCapacity < 1 || eventCapacity > MAX_CAPACITY {
        return null;
      }
      world := new SemanticWorld(eventCapacity);
    }

    /** `false` is the exception for an identifier that is not opaque; nothing changes then. */
    method Upsert(entityId: Option<Text>, state: Option<map<Text, Text>>) returns (ok: bool)
      requires Valid()
      modifies this
      ensures Valid() && ok == OpaqueId(entityId)
      ensures ok ==> entities == old(entities)[entityId.value := if state.Some? then state.value else map[]]
      ensures ok ==> history == old(history) + [Event(|old(history)| + 1, T("entity.upserted"), entityId.value)]
      ensures !ok ==> entities == old(entities) && history == old(history) && events == old(events)
    {
      if !OpaqueId(entityId) {
        return false;
      }
      entities := entities[entityId.value := if state.Some? then state.value else map[]];
      Record(T("entity.upserted"), entityId.value);
      return true;
    }

    method Record(kind: Text, entityId: Text)
      requires Valid()
      modifies this`events, this`sequence, this`history
      ensures Valid() && history == old(history) + [Event(|old(history)| + 1, kind, entityId)]
    {
      sequence := sequence + 1;
      var event := Event(sequence, kind, entityId);
      LastSnoc(history, eventCapacity, event);
      NumberedSnoc(history, 0, event);
      var queue := Trim(events + [event], eventCapacity);
      events := queue;
      history := history + [event];
    }

    /** `None` is the exception for a limit out of range. */
    method EventsAfter(cursor: int, limit: int) returns (page: Option<seq<Event>>)
      requires Valid()
      ensures page.Some? <==> 1 <= limit <= MAX_PAGE
      ensures page.Some? ==> page.value == Retained(history, eventCapacity, cursor, limit)
    {
      if limit < 1 || limit > MAX_PAGE {
        return None;
      }
      PageExactly(history, eventCapacity, cursor, limit);
      page := Some(Page(events, cursor, limit));
    }
  }

  // ----- Pages as slices of the history

  /** Where reading after a cursor starts: behind the cursor, behind what has been dropped, and not past the end. */
  function Start(total: nat, capacity: nat, cursor: int): (start: nat)
    ensures start <= total
  {
    Min(Max(cursor, total - Min(capacity, total)), total)
  }

  /** At most `limit` events of the full history, from there on. */
  ghost function Retained(history: seq<Event>, capacity: nat, cursor: int, limit: nat): seq<Event> {
    Cut(history[Start(|history|, capacity, cursor)..], limit)
  }

  /** Of consecutively numbered events, those after a cursor are a suffix. */
  lemma {:induction false} AfterIsSuffix(events: seq<Event>, first: int, cursor: int)
    requires Numbered(events, first)
    ensures Filter(After(cursor), events) == events[Min(Max(cursor - first, 0), |events|)..]
  {
    if events != [] {
      AfterIsSuffix(events[1..], first + 1, cursor);
      assert events[0].sequence == first + 1;
      if cursor <= first {
        assert Filter(After(cursor), events[1..]) == events[1..];
        assert events == [events[0]] + events[1..];
      } else {
        var k := Min(cursor - first, |events|);
        assert events[1..][k - 1..] == events[k..];
      }
    }
  }

  lemma SuffixOfLast(history: seq<Event>, dropped: nat, k: nat)
    requires dropped + k <= |history|
    ensures history[dropped..][k..] == history[dropped + k..]
  {}

  /** Reading the bounded queue is reading a slice of the unbounded history. */
  lemma PageExactly(history: seq<Event>, capacity: nat, cursor: int, limit: nat)
    requires Numbered(history, 0)
    ensures Page(Last(history, capacity), cursor, limit) == Retained(history, capacity, cursor, limit)
  {
    var dropped := |history| - Min(capacity, |history|);
    SuffixNumbered(history, dropped);
    AfterIsSuffix(history[dropped..], dropped, cursor);
    SuffixOfLast(history, dropped, Min(Max(cursor - dropped, 0), |history| - dropped));
  }

  lemma SuffixNumbered(history: seq<Event>, dropped: nat)
    requires Numbered(history, 0) && dropped <= |history|
    ensures Numbered(history[dropped..], dropped)
  {}

  // ----- Following the cursor

  /** The cursor a reader holds after a page: the last number read, or the old one. */
  function NextCursor(page: seq<Event>, cursor: int): int {
    if page == [] then cursor else page[|page| - 1].sequence
  }

  /** Page after page, with any limits, until one is empty. */
  ghost function Follow(history: seq<Event>, capacity: nat, cursor: int, limits: nat -> nat, turn: nat): seq<Event>
    requires Numbered(history, 0) && forall k :: limits(k) >= 1
    decreases |history| - Start(|history|, capacity, cursor)
  {
    var page := Retained(history, capacity, cursor, limits(turn));
    if page == [] then []
    else
      CursorMoves(history, capacity, cursor, limits(turn));
      page + Follow(history, capacity, NextCursor(page, cursor), limits, turn + 1)
  }

  lemma CursorMoves(history: seq<Event>, capacity: nat, cursor: int, limit: nat)
    requires Numbered(history, 0) && limit >= 1
    ensures var page := Retained(history, capacity, cursor, limit); var start := Start(|history|, capacity, cursor);
            (page == [] <==> start == |history|)
            && (page != [] ==> Start(|history|, capacity, NextCursor(page, cursor)) == start + |page|)
  {}

  /** A reader who follows the cursor gets every retained later event exactly once, in order, and then stops. */
  lemma {:induction false} FollowExactly(history: seq<Event>, capacity: nat, cursor: int, limits: nat -> nat, turn: nat)
    requires Numbered(history, 0) && forall k :: limits(k) >= 1
    ensures Follow(history, capacity, cursor, limits, turn) == history[Start(|history|, capacity, cursor)..]
    decreases |history| - Start(|history|, capacity, cursor)
  {
    var page, start := Retained(history, capacity, cursor, limits(turn)), Start(|history|, capacity, cursor);
    CursorMoves(history, capacity, cursor, limits(turn));
    if page != [] {
      FollowExactly(history, capacity, NextCursor(page, cursor), limits, turn + 1);
      assert page + history[start + |page|..] == history[start..];
    }
  }

  // ----- Reading while events are recorded

  /** What has been read so far is the history up to the cursor, with nothing missing. */
  ghost predicate CaughtUp(read: seq<Event>, first: nat, history: seq<Event>, cursor: int) {
    first <= cursor <= |history| && read == history[first..cursor]
  }

  /**
   * Events may be recorded between pages: as long as the reader has not fallen behind by more than the
   * capacity, the next page continues without gap or repetition.
   */
  lemma ReadingWhileRecording(read: seq<Event>, first: nat, history: seq<Event>, later: seq<Event>, capacity: nat,
                              cursor: nat, limit: nat)
    requires CaughtUp(read, first, history, cursor) && history <= later && Numbered(later, 0) && limit >= 1
    requires |later| - cursor <= capacity
    ensures var page := Retained(later, capacity, cursor, limit);
            CaughtUp(read + page, first, later, NextCursor(page, cursor))
            && (NextCursor(page, cursor) > cursor || cursor == |later|)
  {
    var page := Retained(later, capacity, cursor, limit);
    assert history[first..cursor] == later[first..cursor];
    assert Start(|later|, capacity, cursor) == cursor;
    assert later[first..cursor] + page == later[first..cursor + |page|];
  }

  /** A reader who has fallen further behind skips exactly the events that were dropped. */
  lemma FallenBehind(history: seq<Event>, capacity: nat, cursor: nat, limit: nat)
    requires Numbered(history, 0) && limit >= 1 && capacity >= 1 && |history| - cursor > capacity
    ensures var page := Retained(history, capacity, cursor, limit);
            page != [] && page[0].sequence == |history| - capacity + 1
  {}
}
