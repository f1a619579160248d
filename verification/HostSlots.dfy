/** Choosing the slots that a host still has to run. */
module HostSlots {
  import opened JsText
  import opened Sequences
  import opened CampaignPlan
  import opened Campaign
  import opened CampaignProperties

  function Hosts(): set<Text> {
    {T("macos-arm64"), T("linux-x64"), T("windows-x64")}
  }

  /** The slot belongs to this host and, when one is given, this harness. */
  function Wanted(host: Text, harness: Option<Text>): Slot -> bool {
    (slot: Slot) => slot.host == host && (harness.None? || harness.value == [] || slot.harness == harness.value)
  }

  function Open(host: Text, harness: Option<Text>, completed: set<Text>): Slot -> bool {
    (slot: Slot) => Wanted(host, harness)(slot) && slot.slotId !in completed
  }

  /** A completed identity names a slot that was this host's to run. */
  predicate Owned(all: map<Text, Slot>, wanted: Slot -> bool, id: Text) {
    id in all && wanted(all[id])
  }

  ghost predicate AllOwned(all: map<Text, Slot>, wanted: Slot -> bool, completed: seq<Text>) {
    Distinct(completed) && forall id :: id in completed ==> Owned(all, wanted, id)
  }

  lemma AllOwnedNext(all: map<Text, Slot>, wanted: Slot -> bool, completed: seq<Text>, id: Text)
    ensures AllOwned(all, wanted, completed + [id]) <==>
              AllOwned(all, wanted, completed) && id !in completed && Owned(all, wanted, id)
  {
    DistinctSnoc(completed, id);
    assert forall x :: x in completed + [id] <==> x in completed || x == id;
  }

  lemma {:induction false} AllOwnedPrefix(all: map<Text, Slot>, wanted: Slot -> bool, completed: seq<Text>, n: nat)
    requires n <= |completed| && AllOwned(all, wanted, completed)
    ensures AllOwned(all, wanted, completed[..n])
    decreases |completed| - n
  {
    if n < |completed| {
      AllOwnedPrefix(all, wanted, completed, n + 1);
      assert completed[..n + 1] == completed[..n] + [completed[n]];
      AllOwnedNext(all, wanted, completed[..n], completed[n]);
    } else {
      assert completed[..n] == completed;
    }
  }

  /** The loop over the completed identities; `None` is the error for a duplicate or foreign one. */
  method CollectCompleted(all: map<Text, Slot>, wanted: Slot -> bool, completed: seq<Text>)
    returns (r: Option<set<Text>>)
    ensures r.Some? <==> AllOwned(all, wanted, completed)
    ensures r.Some? ==> r.value == Elements(completed)
  {
    var seen: set<Text> := {};
    for i := 0 to |completed|
      invariant AllOwned(all, wanted, completed[..i])
      invariant seen == Elements(completed[..i])
    {
      assert completed[..i + 1] == completed[..i] + [completed[i]];
      AllOwnedNext(all, wanted, completed[..i], completed[i]);
      if AllOwned(all, wanted, completed) {
        AllOwnedPrefix(all, wanted, completed, i + 1);
      }
      if completed[i] in seen || !Owned(all, wanted, completed[i]) {
        return None;
      }
      assert Elements(completed[..i + 1]) == Elements(completed[..i]) + {completed[i]};
      seen := seen + {completed[i]};
    }
    assert completed[..|completed|] == completed;
    r := Some(seen);
  }

  method SelectHostSlots(slots: seq<Slot>, host: Text, harness: Option<Text>, completed: seq<Text>)
    returns (r: Option<seq<Slot>>)
    ensures r.Some? <==> host in Hosts() && AllOwned(SlotMap(slots), Wanted(host, harness), completed)
    ensures r.Some? ==> r.value == Filter(Open(host, harness, Elements(completed)), slots)
  {
    if host !in Hosts() {
      return None;
    }
    var done := CollectCompleted(SlotMap(slots), Wanted(host, harness), completed);
    if done.None? {
      return None;
    }
    r := Some(Filter(Open(host, harness, done.value), slots));
  }

  lemma {:induction false} FilterSplit(p: Slot -> bool, q: Slot -> bool, r: Slot -> bool, s: seq<Slot>)
    requires forall x :: x in s ==> (p(x) <==> q(x) || r(x)) && !(q(x) && r(x))
    ensures |Filter(p, s)| == |Filter(q, s)| + |Filter(r, s)|
  {
    if s != [] {
      Take1(s);
      FilterSplit(p, q, r, s[1..]);
    }
  }

  function Done(host: Text, harness: Option<Text>, completed: seq<Text>): Slot -> bool {
    (slot: Slot) => Wanted(host, harness)(slot) && slot.slotId in completed
  }

  /** The completed slots of a plan with distinct identities are as many as the completed identities. */
  lemma DoneCount(slots: seq<Slot>, host: Text, harness: Option<Text>, completed: seq<Text>)
    requires SlotIdsDistinct(slots) && AllOwned(SlotMap(slots), Wanted(host, harness), completed)
    ensures |Filter(Done(host, harness, completed), slots)| == |completed|
  {
    var done := Filter(Done(host, harness, completed), slots);
    IdsDistinctSlots(slots);
    FilterDistinct(Done(host, harness, completed), slots);
    var ids := SlotIds(done);
    forall i, j | 0 <= i < j < |ids| ensures ids[i] != ids[j] {
      FilterMember(Done(host, harness, completed), slots, done[i]);
      FilterMember(Done(host, harness, completed), slots, done[j]);
      SlotMapDistinct(slots, done[i]);
      SlotMapDistinct(slots, done[j]);
      assert done[i] != done[j];
    }
    forall id
      ensures id in ids <==> id in Elements(completed)
    {
      if id in ids {
        var i :| 0 <= i < |ids| && ids[i] == id;
        FilterMember(Done(host, harness, completed), slots, done[i]);
      }
      if id in completed {
        SlotMapMember(slots, id);
        var slot := SlotMap(slots)[id];
        FilterMember(Done(host, harness, completed), slots, slot);
        var i :| 0 <= i < |done| && done[i] == slot;
        assert ids[i] == id;
      }
    }
    DistinctCount(ids, Elements(completed));
    DistinctSize(completed);
  }

  /** Completed and selected slots make up all that the host has to run, none of them twice. */
  lemma SelectionComplete(slots: seq<Slot>, host: Text, harness: Option<Text>, completed: seq<Text>)
    requires SlotIdsDistinct(slots) && AllOwned(SlotMap(slots), Wanted(host, harness), completed)
    ensures |Filter(Open(host, harness, Elements(completed)), slots)| + |completed|
         == |Filter(Wanted(host, harness), slots)|
  {
    FilterSplit(Wanted(host, harness), Open(host, harness, Elements(completed)), Done(host, harness, completed), slots);
    DoneCount(slots, host, harness, completed);
  }
}
