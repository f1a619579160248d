/** The dependency closure of a local Unity package: a breadth-first worklist over a graph that may have cycles. */
module PackageClosure {
  import opened JsText
  import opened Ordering

  datatype Dep = Dep(name: Text, version: Text)

  /** The packages found beside the root, by directory name, each with its declared dependencies in order. */
  type Locals = map<Text, seq<Dep>>

  /** One turn of the worklist: what was popped, and how far from the root it was declared. */
  datatype Visit = Visit(dep: Dep, depth: nat)

  function At(deps: seq<Dep>, depth: nat): seq<Visit> {
    Map((d: Dep) => Visit(d, depth), deps)
  }

  predicate Expands(locals: Locals, expanded: set<Text>, v: Visit) {
    v.dep.name in locals && v.dep.name !in expanded
  }

  /** The queue after its first element has been dealt with. */
  function Rest(locals: Locals, expanded: set<Text>, queue: seq<Visit>): seq<Visit>
    requires queue != []
  {
    if Expands(locals, expanded, queue[0]) then queue[1..] + At(locals[queue[0].dep.name], queue[0].depth + 1)
    else queue[1..]
  }

  function Grown(locals: Locals, expanded: set<Text>, v: Visit): set<Text> {
    if Expands(locals, expanded, v) then expanded + {v.dep.name} else expanded
  }

  lemma FewerUnexpanded(all: set<Text>, expanded: set<Text>, name: Text)
    requires name in all && name !in expanded
    ensures |all - (expanded + {name})| < |all - expanded|
  {
    assert all - (expanded + {name}) == (all - expanded) - {name};
  }

  /** Everything the worklist pops, in order. */
  function Visits(locals: Locals, expanded: set<Text>, queue: seq<Visit>): seq<Visit>
    decreases |locals.Keys - expanded|, |queue|
  {
    if queue == [] then []
    else
      if Expands(locals, expanded, queue[0]) then
        FewerUnexpanded(locals.Keys, expanded, queue[0].dep.name);
        [queue[0]] + Visits(locals, Grown(locals, expanded, queue[0]), Rest(locals, expanded, queue))
      else [queue[0]] + Visits(locals, expanded, Rest(locals, expanded, queue))
  }

  // ----- What becomes of the visits

  ghost predicate Named(visits: seq<Visit>, name: Text) {
    exists i :: 0 <= i < |visits| && visits[i].dep.name == name
  }

  /** The version of the first visit of a name. */
  function FirstVersion(visits: seq<Visit>, name: Text): Text {
    if visits == [] then []
    else if visits[0].dep.name == name then visits[0].dep.version
    else FirstVersion(visits[1..], name)
  }

  function FileEntry(name: Text): Text {
    T("file:") + name
  }

  function TestFramework(): Text {
    T("com.unity.test-framework")
  }

  /** Where a local package lives: the given directory, or the sibling of its name. */
  datatype Place = Given | Sibling(name: Text)

  /** The entry a visited or root name has. */
  function EntryOf(root: Text, locals: Locals, visits: seq<Visit>, name: Text): Text {
    if name == root || name in locals then FileEntry(name) else FirstVersion(visits, name)
  }

  lemma NamedNext(visits: seq<Visit>, v: Visit, name: Text)
    ensures Named(visits + [v], name) <==> Named(visits, name) || v.dep.name == name
  {
    var all := visits + [v];
    assert all[|visits|] == v;
    if i :| 0 <= i < |visits| && visits[i].dep.name == name {
      assert all[i].dep.name == name;
    }
  }

  lemma {:induction false} FirstVersionNext(visits: seq<Visit>, v: Visit, name: Text)
    ensures FirstVersion(visits + [v], name) ==
            if Named(visits, name) then FirstVersion(visits, name) else if v.dep.name == name then v.dep.version else []
  {
    if visits == [] {
      assert visits + [v] == [v];
    } else {
      assert (visits + [v])[1..] == visits[1..] + [v];
      FirstVersionNext(visits[1..], v, name);
      if Named(visits[1..], name) {
        var i :| 0 <= i < |visits[1..]| && visits[1..][i].dep.name == name;
        assert visits[i + 1].dep.name == name;
      }
      if i :| 0 <= i < |visits| && visits[i].dep.name == name {
        assert i > 0 ==> visits[1..][i - 1].dep.name == name;
      }
    }
  }

  /** One turn: a local name takes its file entry, any other keeps what it has or takes this version. */
  function TurnDependencies(locals: Locals, dependencies: map<Text, Text>, d: Dep): map<Text, Text> {
    if d.name in locals then dependencies[d.name := FileEntry(d.name)]
    else if d.name in dependencies then dependencies
    else dependencies[d.name := d.version]
  }

  function TurnPlaces(locals: Locals, places: map<Text, Place>, d: Dep): map<Text, Place> {
    if d.name in locals then places[d.name := Sibling(d.name)] else places
  }

  /** The two dictionaries after these visits. */
  datatype Outcome = Outcome(dependencies: map<Text, Text>, places: map<Text, Place>)

  function OutcomeOf(root: Text, locals: Locals, visits: seq<Visit>): Outcome {
    if visits == [] then Outcome(map[root := FileEntry(root)], map[root := Given])
    else Turn(locals, OutcomeOf(root, locals, visits[..|visits| - 1]), visits[|visits| - 1].dep)
  }

  function Turn(locals: Locals, o: Outcome, d: Dep): Outcome {
    Outcome(TurnDependencies(locals, o.dependencies, d), TurnPlaces(locals, o.places, d))
  }

  lemma {:induction false} OutcomeOfName(root: Text, locals: Locals, visits: seq<Visit>, name: Text)
    ensures var o := OutcomeOf(root, locals, visits);
            (name in o.dependencies <==> name == root || Named(visits, name))
            && (name in o.dependencies ==> o.dependencies[name] == EntryOf(root, locals, visits, name))
            && (name in o.places <==> name == root || (name in locals && Named(visits, name)))
            && (name in o.places ==>
                o.places[name] == if name in locals && Named(visits, name) then Sibling(name) else Given)
  {
    if visits != [] {
      var front, v := visits[..|visits| - 1], visits[|visits| - 1];
      OutcomeOfName(root, locals, front, name);
      assert visits == front + [v];
      NamedNext(front, v, name);
      FirstVersionNext(front, v, name);
    }
  }

  function DepOf(v: Visit): Dep {
    v.dep
  }

  /** What has been popped and what is still to come make up the whole run. */
  ghost predicate Tracks(locals: Locals, rootDeps: seq<Dep>, visits: seq<Visit>, expanded: set<Text>, queue: seq<Visit>)
  {
    visits + Visits(locals, expanded, queue) == Visits(locals, {}, At(rootDeps, 0))
  }

  lemma TracksNext(locals: Locals, rootDeps: seq<Dep>, visits: seq<Visit>, expanded: set<Text>, queue: seq<Visit>)
    requires queue != [] && Tracks(locals, rootDeps, visits, expanded, queue)
    ensures Tracks(locals, rootDeps, visits + [queue[0]], Grown(locals, expanded, queue[0]),
                   Rest(locals, expanded, queue))
  {
    var rest := Visits(locals, Grown(locals, expanded, queue[0]), Rest(locals, expanded, queue));
    assert Visits(locals, expanded, queue) == [queue[0]] + rest;
    assert visits + ([queue[0]] + rest) == visits + [queue[0]] + rest;
  }

  /** The worklist as the script runs it. */
  method DependenciesFor(root: Text, rootDeps: seq<Dep>, locals: Locals)
    returns (dependencies: map<Text, Text>, places: map<Text, Place>)
    ensures places == OutcomeOf(root, locals, Visits(locals, {}, At(rootDeps, 0))).places
    ensures dependencies == WithFramework(OutcomeOf(root, locals, Visits(locals, {}, At(rootDeps, 0))).dependencies)
  {
    dependencies := map[root := FileEntry(root)];
    places := map[root := Given];
    var pending := rootDeps;
    var expanded: set<Text> := {};
    ghost var visits: seq<Visit> := [];
    ghost var queue := At(rootDeps, 0);
    AtDeps(rootDeps, 0);
    assert Tracks(locals, rootDeps, visits, expanded, queue);
    while pending != []
      invariant pending == Map(DepOf, queue)
      invariant Tracks(locals, rootDeps, visits, expanded, queue)
      invariant Outcome(dependencies, places) == OutcomeOf(root, locals, visits)
      decreases |locals.Keys - expanded|, |pending|
    {
      var d := pending[0];
      PopQueue(locals, expanded, queue);
      TracksNext(locals, rootDeps, visits, expanded, queue);
      OutcomeNext(root, locals, visits, queue[0]);
      ghost var next := Turn(locals, Outcome(dependencies, places), d);
      visits := visits + [queue[0]];
      queue := Rest(locals, expanded, queue);
      pending := pending[1..];
      if d.name !in locals {
        if d.name !in dependencies {
          dependencies := dependencies[d.name := d.version];
        }
        assert Outcome(dependencies, places) == next;
        continue;
      }
      dependencies := dependencies[d.name := FileEntry(d.name)];
      places := places[d.name := Sibling(d.name)];
      assert Outcome(dependencies, places) == next;
      if d.name in expanded {
        continue;
      }
      FewerUnexpanded(locals.Keys, expanded, d.name);
      expanded := expanded + {d.name};
      pending := pending + locals[d.name];
    }
    assert visits + [] == visits;
    dependencies := WithFramework(dependencies);
  }

  lemma OutcomeNext(root: Text, locals: Locals, visits: seq<Visit>, v: Visit)
    ensures OutcomeOf(root, locals, visits + [v]) == Turn(locals, OutcomeOf(root, locals, visits), v.dep)
  {
    assert (visits + [v])[..|visits|] == visits;
  }

  /** `setdefault` of the test framework */
  function WithFramework(dependencies: map<Text, Text>): map<Text, Text> {
    if TestFramework() in dependencies then dependencies else dependencies[TestFramework() := T("1.6.0")]
  }

  lemma AtDeps(deps: seq<Dep>, depth: nat)
    ensures Map(DepOf, At(deps, depth)) == deps
  {
    var back := Map(DepOf, At(deps, depth));
    forall i | 0 <= i < |deps| ensures back[i] == deps[i] {
      assert At(deps, depth)[i] == Visit(deps[i], depth);
    }
  }

  lemma PopQueue(locals: Locals, expanded: set<Text>, queue: seq<Visit>)
    requires queue != []
    ensures Map(DepOf, queue)[0] == queue[0].dep
    ensures Visits(locals, expanded, queue) == [queue[0]]
              + Visits(locals, Grown(locals, expanded, queue[0]), Rest(locals, expanded, queue))
    ensures var pending := Map(DepOf, queue);
            Map(DepOf, Rest(locals, expanded, queue)) ==
            if Expands(locals, expanded, queue[0]) then pending[1..] + locals[queue[0].dep.name] else pending[1..]
  {
    var pending, rest := Map(DepOf, queue), Map(DepOf, Rest(locals, expanded, queue));
    if Expands(locals, expanded, queue[0]) {
      var more := locals[queue[0].dep.name];
      AtDeps(more, queue[0].depth + 1);
      MapConcat(DepOf, queue[1..], At(more, queue[0].depth + 1));
      assert Map(DepOf, queue[1..]) == pending[1..];
    } else {
      assert rest == pending[1..];
    }
  }

  lemma MapConcat<A, B>(f: A -> B, s: seq<A>, t: seq<A>)
    ensures Map(f, s + t) == Map(f, s) + Map(f, t)
  {}

  // ----- Reachability

  ghost predicate Declares(deps: seq<Dep>, name: Text) {
    exists i :: 0 <= i < |deps| && deps[i].name == name
  }

  /** A chain of declarations from the root: every package but the last is local and declares the next. */
  ghost predicate Path(rootDeps: seq<Dep>, locals: Locals, path: seq<Text>) {
    path != [] && Declares(rootDeps, path[0]) && forall i :: 0 < i < |path| ==> Linked(locals, path, i)
  }

  ghost predicate Linked(locals: Locals, path: seq<Text>, i: nat)
    requires 0 < i < |path|
  {
    path[i - 1] in locals && Declares(locals[path[i - 1]], path[i])
  }

  /** The visit's dependency is declared at the end of a chain as long as its depth says. */
  ghost predicate DeclaredAt(rootDeps: seq<Dep>, locals: Locals, v: Visit, path: seq<Text>) {
    Path(rootDeps, locals, path) && |path| == v.depth + 1 && path[v.depth] == v.dep.name
    && (if v.depth == 0 then v.dep in rootDeps else path[v.depth - 1] in locals && v.dep in locals[path[v.depth - 1]])
  }

  ghost predicate Founded(rootDeps: seq<Dep>, locals: Locals, visits: seq<Visit>) {
    forall v :: v in visits ==> exists path :: DeclaredAt(rootDeps, locals, v, path)
  }

  lemma DeclaredNext(rootDeps: seq<Dep>, locals: Locals, v: Visit, path: seq<Text>, d: Dep)
    requires DeclaredAt(rootDeps, locals, v, path) && v.dep.name in locals && d in locals[v.dep.name]
    ensures DeclaredAt(rootDeps, locals, Visit(d, v.depth + 1), path + [d.name])
  {
    var deps, longer := locals[v.dep.name], path + [d.name];
    var k :| 0 <= k < |deps| && deps[k] == d;
    assert longer[v.depth] == v.dep.name && longer[v.depth + 1] == d.name;
    forall i | 0 < i < |longer| ensures Linked(locals, longer, i) {
      if i < |path| {
        assert Linked(locals, path, i) && longer[i - 1] == path[i - 1] && longer[i] == path[i];
      } else {
        assert deps[k].name == longer[i];
      }
    }
  }

  lemma AtMember(deps: seq<Dep>, depth: nat, v: Visit)
    ensures v in At(deps, depth) <==> v.dep in deps && v.depth == depth
  {
    if v in At(deps, depth) {
      var i :| 0 <= i < |deps| && At(deps, depth)[i] == v;
    }
    if v.dep in deps && v.depth == depth {
      var i :| 0 <= i < |deps| && deps[i] == v.dep;
      assert At(deps, depth)[i] == v;
    }
  }

  lemma RestFounded(rootDeps: seq<Dep>, locals: Locals, expanded: set<Text>, queue: seq<Visit>)
    requires queue != [] && Founded(rootDeps, locals, queue)
    ensures Founded(rootDeps, locals, Rest(locals, expanded, queue))
  {
    var v := queue[0];
    assert v in queue;
    forall w | w in Rest(locals, expanded, queue)
      ensures exists path :: DeclaredAt(rootDeps, locals, w, path)
    {
      if w in queue[1..] {
        assert w in queue;
      } else {
        AtMember(locals[v.dep.name], v.depth + 1, w);
        var path :| DeclaredAt(rootDeps, locals, v, path);
        DeclaredNext(rootDeps, locals, v, path, w.dep);
      }
    }
  }

  /** Nothing is visited that no chain of local packages declares. */
  lemma {:induction false} VisitsFounded(rootDeps: seq<Dep>, locals: Locals, expanded: set<Text>, queue: seq<Visit>)
    requires Founded(rootDeps, locals, queue)
    ensures Founded(rootDeps, locals, Visits(locals, expanded, queue))
    decreases |locals.Keys - expanded|, |queue|
  {
    if queue != [] {
      RestFounded(rootDeps, locals, expanded, queue);
      if Expands(locals, expanded, queue[0]) {
        FewerUnexpanded(locals.Keys, expanded, queue[0].dep.name);
      }
      VisitsFounded(rootDeps, locals, Grown(locals, expanded, queue[0]), Rest(locals, expanded, queue));
      assert queue[0] in queue;
    }
  }

  /** Whatever is queued is visited. */
  lemma {:induction false} QueueVisited(locals: Locals, expanded: set<Text>, queue: seq<Visit>, v: Visit)
    requires v in queue
    ensures v in Visits(locals, expanded, queue)
    decreases |locals.Keys - expanded|, |queue|
  {
    if v != queue[0] {
      assert v in queue[1..];
      if Expands(locals, expanded, queue[0]) {
        FewerUnexpanded(locals.Keys, expanded, queue[0].dep.name);
      }
      QueueVisited(locals, Grown(locals, expanded, queue[0]), Rest(locals, expanded, queue), v);
    }
  }

  // ----- Nearest first

  /** The depth of the first visit of a name. */
  function FirstDepth(visits: seq<Visit>, name: Text): nat {
    if visits == [] then 0
    else if visits[0].dep.name == name then visits[0].depth
    else FirstDepth(visits[1..], name)
  }

  /** A queue as breadth-first search keeps it: depths never fall and span at most two values. */
  ghost predicate Layered(queue: seq<Visit>) {
    (forall i, j :: 0 <= i < j < |queue| ==> queue[i].depth <= queue[j].depth)
    && forall i :: 0 <= i < |queue| ==> queue[i].depth <= queue[0].depth + 1
  }

  ghost predicate AtLeast(visits: seq<Visit>, depth: nat) {
    forall v :: v in visits ==> v.depth >= depth
  }

  lemma RestLayered(locals: Locals, expanded: set<Text>, queue: seq<Visit>)
    requires queue != [] && Layered(queue)
    ensures Layered(Rest(locals, expanded, queue)) && AtLeast(Rest(locals, expanded, queue), queue[0].depth)
  {
    var rest := Rest(locals, expanded, queue);
    var n := |queue| - 1;
    forall i | 0 <= i < |rest|
      ensures queue[0].depth <= rest[i].depth <= queue[0].depth + 1 && (i >= n ==> rest[i].depth == queue[0].depth + 1)
    {
      if i < n {
        assert rest[i] == queue[i + 1];
      }
    }
    forall i, j | 0 <= i < j < |rest| ensures rest[i].depth <= rest[j].depth {
      if j < n {
        assert rest[i] == queue[i + 1] && rest[j] == queue[j + 1];
      }
    }
  }

  lemma {:induction false} VisitsAtLeast(locals: Locals, expanded: set<Text>, queue: seq<Visit>, depth: nat)
    requires Layered(queue) && AtLeast(queue, depth)
    ensures AtLeast(Visits(locals, expanded, queue), depth)
    decreases |locals.Keys - expanded|, |queue|
  {
    if queue != [] {
      assert queue[0] in queue;
      RestLayered(locals, expanded, queue);
      if Expands(locals, expanded, queue[0]) {
        FewerUnexpanded(locals.Keys, expanded, queue[0].dep.name);
      }
      VisitsAtLeast(locals, Grown(locals, expanded, queue[0]), Rest(locals, expanded, queue), depth);
    }
  }

  /** The first visit of a name is the nearest one. */
  lemma {:induction false} FirstIsLeast(locals: Locals, expanded: set<Text>, queue: seq<Visit>, v: Visit)
    requires Layered(queue) && v in Visits(locals, expanded, queue)
    ensures FirstDepth(Visits(locals, expanded, queue), v.dep.name) <= v.depth
    decreases |locals.Keys - expanded|, |queue|
  {
    var visits, rest := Visits(locals, expanded, queue),
      Visits(locals, Grown(locals, expanded, queue[0]), Rest(locals, expanded, queue));
    assert visits == [queue[0]] + rest && visits[1..] == rest;
    RestLayered(locals, expanded, queue);
    if v != queue[0] {
      if queue[0].dep.name == v.dep.name {
        VisitsAtLeast(locals, Grown(locals, expanded, queue[0]), Rest(locals, expanded, queue), queue[0].depth);
      } else {
        if Expands(locals, expanded, queue[0]) {
          FewerUnexpanded(locals.Keys, expanded, queue[0].dep.name);
        }
        FirstIsLeast(locals, Grown(locals, expanded, queue[0]), Rest(locals, expanded, queue), v);
      }
    }
  }

  lemma NamedTail(visits: seq<Visit>, name: Text)
    requires Named(visits, name) && visits[0].dep.name != name
    ensures Named(visits[1..], name) && FirstDepth(visits, name) == FirstDepth(visits[1..], name)
  {
    var i :| 0 <= i < |visits| && visits[i].dep.name == name;
    assert visits[1..][i - 1].dep.name == name;
  }

  lemma ExpandedNow(locals: Locals, expanded: set<Text>, queue: seq<Visit>, d: Dep)
    requires queue != [] && Expands(locals, expanded, queue[0]) && d in locals[queue[0].dep.name]
    ensures Visit(d, queue[0].depth + 1) in Visits(locals, expanded, queue)
  {
    var name, v := queue[0].dep.name, Visit(d, queue[0].depth + 1);
    AtMember(locals[name], queue[0].depth + 1, v);
    QueueVisited(locals, Grown(locals, expanded, queue[0]), Rest(locals, expanded, queue), v);
  }

  /** A local package is expanded at its first visit: all it declares is visited one step further out. */
  lemma {:induction false} FirstExpands(locals: Locals, expanded: set<Text>, queue: seq<Visit>, name: Text, d: Dep)
    requires name in locals && name !in expanded && Named(Visits(locals, expanded, queue), name) && d in locals[name]
    ensures var visits := Visits(locals, expanded, queue); Visit(d, FirstDepth(visits, name) + 1) in visits
    decreases |locals.Keys - expanded|, |queue|
  {
    if queue[0].dep.name == name {
      ExpandedNow(locals, expanded, queue, d);
    } else {
      var grown, rest := Grown(locals, expanded, queue[0]), Rest(locals, expanded, queue);
      var visits, later := Visits(locals, expanded, queue), Visits(locals, grown, rest);
      TurnTail(locals, expanded, queue, grown, rest);
      NamedTail(visits, name);
      assert visits[1..] == later && name !in grown;
      FirstExpands(locals, grown, rest, name, d);
      LaterVisit(visits, name, d);
    }
  }

  lemma LaterVisit(visits: seq<Visit>, name: Text, d: Dep)
    requires Named(visits, name) && visits[0].dep.name != name
    requires Visit(d, FirstDepth(visits[1..], name) + 1) in visits[1..]
    ensures Visit(d, FirstDepth(visits, name) + 1) in visits
  {
    NamedTail(visits, name);
  }

  /** One turn leaves the rest of the run, and something to count down. */
  lemma TurnTail(locals: Locals, expanded: set<Text>, queue: seq<Visit>, grown: set<Text>, rest: seq<Visit>)
    requires queue != [] && grown == Grown(locals, expanded, queue[0]) && rest == Rest(locals, expanded, queue)
    ensures Visits(locals, expanded, queue) == [queue[0]] + Visits(locals, grown, rest)
    ensures Visits(locals, expanded, queue)[1..] == Visits(locals, grown, rest)
    ensures |locals.Keys - grown| < |locals.Keys - expanded| || (grown == expanded && |rest| < |queue|)
  {
    if Expands(locals, expanded, queue[0]) {
      FewerUnexpanded(locals.Keys, expanded, queue[0].dep.name);
    }
  }

  lemma RootLayered(rootDeps: seq<Dep>)
    ensures Layered(At(rootDeps, 0))
  {}

  lemma VisitNames(visits: seq<Visit>, v: Visit)
    requires v in visits
    ensures Named(visits, v.dep.name)
  {
    var i :| 0 <= i < |visits| && visits[i] == v;
  }

  /** What is visited bounds the first visit of its name. */
  lemma VisitBounds(rootDeps: seq<Dep>, locals: Locals, v: Visit)
    requires v in Visits(locals, {}, At(rootDeps, 0))
    ensures var visits := Visits(locals, {}, At(rootDeps, 0));
            Named(visits, v.dep.name) && FirstDepth(visits, v.dep.name) <= v.depth
  {
    RootLayered(rootDeps);
    VisitNames(Visits(locals, {}, At(rootDeps, 0)), v);
    FirstIsLeast(locals, {}, At(rootDeps, 0), v);
  }

  lemma RootVisited(rootDeps: seq<Dep>, locals: Locals, name: Text)
    requires Declares(rootDeps, name)
    ensures var visits := Visits(locals, {}, At(rootDeps, 0)); Named(visits, name) && FirstDepth(visits, name) <= 0
  {
    var i :| 0 <= i < |rootDeps| && rootDeps[i].name == name;
    AtMember(rootDeps, 0, Visit(rootDeps[i], 0));
    QueueVisited(locals, {}, At(rootDeps, 0), Visit(rootDeps[i], 0));
    VisitBounds(rootDeps, locals, Visit(rootDeps[i], 0));
  }

  lemma DeclaredVisited(rootDeps: seq<Dep>, locals: Locals, parent: Text, name: Text)
    requires parent in locals && Declares(locals[parent], name) && Named(Visits(locals, {}, At(rootDeps, 0)), parent)
    ensures var visits := Visits(locals, {}, At(rootDeps, 0));
            Named(visits, name) && FirstDepth(visits, name) <= FirstDepth(visits, parent) + 1
  {
    var i :| 0 <= i < |locals[parent]| && locals[parent][i].name == name;
    FirstExpands(locals, {}, At(rootDeps, 0), parent, locals[parent][i]);
    VisitBounds(rootDeps, locals,
                Visit(locals[parent][i], FirstDepth(Visits(locals, {}, At(rootDeps, 0)), parent) + 1));
  }

  /** Every step of a chain is visited, no further out than the chain is long. */
  lemma {:induction false} PathVisited(rootDeps: seq<Dep>, locals: Locals, path: seq<Text>, k: nat)
    requires Path(rootDeps, locals, path) && k < |path|
    ensures var visits := Visits(locals, {}, At(rootDeps, 0));
            Named(visits, path[k]) && FirstDepth(visits, path[k]) <= k
  {
    if k == 0 {
      RootVisited(rootDeps, locals, path[0]);
    } else {
      PathVisited(rootDeps, locals, path, k - 1);
      assert Linked(locals, path, k);
      DeclaredVisited(rootDeps, locals, path[k - 1], path[k]);
    }
  }

  ghost predicate Reachable(rootDeps: seq<Dep>, locals: Locals, name: Text) {
    exists path :: Path(rootDeps, locals, path) && path[|path| - 1] == name
  }

  lemma RunFounded(rootDeps: seq<Dep>, locals: Locals)
    ensures Founded(rootDeps, locals, Visits(locals, {}, At(rootDeps, 0)))
  {
    forall v | v in At(rootDeps, 0)
      ensures exists path :: DeclaredAt(rootDeps, locals, v, path)
    {
      AtMember(rootDeps, 0, v);
      var i :| 0 <= i < |rootDeps| && rootDeps[i] == v.dep;
      assert rootDeps[i].name == v.dep.name;
      assert DeclaredAt(rootDeps, locals, v, [v.dep.name]);
    }
    VisitsFounded(rootDeps, locals, {}, At(rootDeps, 0));
  }

  /** A name is visited exactly when a chain of local packages from the root declares it. */
  lemma VisitedExactly(rootDeps: seq<Dep>, locals: Locals, name: Text)
    ensures Named(Visits(locals, {}, At(rootDeps, 0)), name) <==> Reachable(rootDeps, locals, name)
  {
    var visits := Visits(locals, {}, At(rootDeps, 0));
    RunFounded(rootDeps, locals);
    if Named(visits, name) {
      var i :| 0 <= i < |visits| && visits[i].dep.name == name;
      assert visits[i] in visits;
      var path :| DeclaredAt(rootDeps, locals, visits[i], path);
    }
    if Reachable(rootDeps, locals, name) {
      var path :| Path(rootDeps, locals, path) && path[|path| - 1] == name;
      PathVisited(rootDeps, locals, path, |path| - 1);
    }
  }

  /**
   * The result holds the root, every local package reachable through local packages under its file entry,
   * and every external name declared on the way under its first version; the test framework is added when absent.
   */
  lemma ClosureExactly(root: Text, rootDeps: seq<Dep>, locals: Locals, name: Text)
    ensures var visits := Visits(locals, {}, At(rootDeps, 0)); var o := OutcomeOf(root, locals, visits);
            (name in o.places <==> name == root || (name in locals && Reachable(rootDeps, locals, name)))
            && (name in WithFramework(o.dependencies) <==>
                name == root || name == TestFramework() || Reachable(rootDeps, locals, name))
            && (name == root || (name in locals && Reachable(rootDeps, locals, name)) ==>
                WithFramework(o.dependencies)[name] == FileEntry(name))
            && (name != root && name !in locals && Reachable(rootDeps, locals, name) ==>
                WithFramework(o.dependencies)[name] == FirstVersion(visits, name))
            && (name == TestFramework() && name != root && !Reachable(rootDeps, locals, name) ==>
                WithFramework(o.dependencies)[name] == T("1.6.0"))
  {
    VisitedExactly(rootDeps, locals, name);
    OutcomeOfName(root, locals, Visits(locals, {}, At(rootDeps, 0)), name);
    VisitedExactly(rootDeps, locals, TestFramework());
    OutcomeOfName(root, locals, Visits(locals, {}, At(rootDeps, 0)), TestFramework());
  }

  lemma {:induction false} FirstVisit(visits: seq<Visit>, name: Text) returns (v: Visit)
    requires Named(visits, name)
    ensures v in visits && v.dep == Dep(name, FirstVersion(visits, name)) && v.depth == FirstDepth(visits, name)
  {
    if visits[0].dep.name == name {
      v := visits[0];
    } else {
      var i :| 0 <= i < |visits| && visits[i].dep.name == name;
      assert visits[1..][i - 1].dep.name == name;
      v := FirstVisit(visits[1..], name);
      assert visits == [visits[0]] + visits[1..];
    }
  }

  lemma PathLength(rootDeps: seq<Dep>, locals: Locals, path: seq<Text>)
    requires Path(rootDeps, locals, path)
    ensures FirstDepth(Visits(locals, {}, At(rootDeps, 0)), path[|path| - 1]) + 1 <= |path|
  {
    PathVisited(rootDeps, locals, path, |path| - 1);
  }

  /** The version kept for a name is one declared at the least distance from the root. */
  lemma NearestVersion(rootDeps: seq<Dep>, locals: Locals, name: Text) returns (v: Visit, path: seq<Text>)
    requires Reachable(rootDeps, locals, name)
    ensures v.dep == Dep(name, FirstVersion(Visits(locals, {}, At(rootDeps, 0)), name))
            && DeclaredAt(rootDeps, locals, v, path)
    ensures forall other :: Path(rootDeps, locals, other) && other[|other| - 1] == name ==> |path| <= |other|
  {
    VisitedExactly(rootDeps, locals, name);
    v := FirstVisit(Visits(locals, {}, At(rootDeps, 0)), name);
    RunFounded(rootDeps, locals);
    path :| DeclaredAt(rootDeps, locals, v, path);
    forall other | Path(rootDeps, locals, other) && other[|other| - 1] == name
      ensures |path| <= |other|
    {
      PathLength(rootDeps, locals, other);
    }
  }
}
