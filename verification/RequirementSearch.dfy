/** How a scenario's feature is labelled: a breadth-first walk over the "requires" graph of scenarios,
    which may contain cycles, unknown names and duplicate definitions. */
module RequirementSearch {
  datatype FeatureReq = FeatureReq(feature: string, required: bool)

  datatype Scenario = Scenario(name: string, needs: seq<string>, features: seq<FeatureReq>)

  datatype Label = Required | RequiredVia(scenario: string) | Optional

  type Lookup = map<string, Scenario>

  /** When several scenarios share a name, the last one is meant. */
  function ByName(scenarios: seq<Scenario>): Lookup {
    if scenarios == [] then map[]
    else
      var last := scenarios[|scenarios| - 1];
      ByName(scenarios[..|scenarios| - 1])[last.name := last]
  }

  function Successors(m: Lookup, name: string): seq<string> {
    if name in m then m[name].needs else []
  }

  /** The named scenario exists and marks the feature as required. */
  predicate Marks(m: Lookup, feature: string, name: string) {
    name in m && exists i :: 0 <= i < |m[name].features| && m[name].features[i] == FeatureReq(feature, true)
  }

  /** A chain of "requires" links that starts at one of the roots. Its last name is |p| - 1 hops away. */
  predicate IsChain(m: Lookup, roots: seq<string>, p: seq<string>)
  {
    && p != []
    && if |p| == 1 then p[0] in roots
       else IsChain(m, roots, p[..|p| - 1]) && p[|p| - 1] in Successors(m, p[|p| - 2])
  }

  predicate ChainTo(m: Lookup, roots: seq<string>, p: seq<string>, name: string) {
    IsChain(m, roots, p) && p[|p| - 1] == name
  }

  /** "n" marks the feature, some chain leads to it, and no chain to a marking scenario is shorter. */
  ghost predicate Nearest(m: Lookup, roots: seq<string>, feature: string, n: string) {
    && Marks(m, feature, n)
    && exists p :: ChainTo(m, roots, p, n) &&
         forall q, o :: ChainTo(m, roots, q, o) && Marks(m, feature, o) ==> |p| <= |q|
  }

  ghost predicate Unreachable(m: Lookup, roots: seq<string>, feature: string) {
    forall q, o :: ChainTo(m, roots, q, o) ==> !Marks(m, feature, o)
  }

  // ---- The same, said of the list of scenarios ----

  /** Position "i" holds the scenario that a name stands for: no later one has this name. */
  predicate LastNamed(scenarios: seq<Scenario>, name: string, i: int) {
    && 0 <= i < |scenarios| && scenarios[i].name == name
    && forall j :: i < j < |scenarios| ==> scenarios[j].name != name
  }

  ghost predicate MarksIn(scenarios: seq<Scenario>, feature: string, name: string) {
    exists i :: LastNamed(scenarios, name, i) && FeatureReq(feature, true) in scenarios[i].features
  }

  ghost predicate Links(scenarios: seq<Scenario>, name: string, next: string) {
    exists i :: LastNamed(scenarios, name, i) && next in scenarios[i].needs
  }

  /** The names from one of the roots to the last, each required by the one before it. */
  ghost predicate IsPath(scenarios: seq<Scenario>, roots: seq<string>, p: seq<string>) {
    p != [] && p[0] in roots && forall i :: 0 <= i < |p| - 1 ==> Links(scenarios, p[i], p[i + 1])
  }

  ghost predicate PathTo(scenarios: seq<Scenario>, roots: seq<string>, p: seq<string>, name: string) {
    IsPath(scenarios, roots, p) && p[|p| - 1] == name
  }

  /** "n" marks the feature, and no path to a marking scenario is shorter than some path to it. */
  ghost predicate NearestIn(scenarios: seq<Scenario>, roots: seq<string>, feature: string, n: string) {
    && MarksIn(scenarios, feature, n)
    && exists p :: PathTo(scenarios, roots, p, n) &&
         forall q, o :: PathTo(scenarios, roots, q, o) && MarksIn(scenarios, feature, o) ==> |p| <= |q|
  }

  ghost predicate UnreachableIn(scenarios: seq<Scenario>, roots: seq<string>, feature: string) {
    forall q, o :: PathTo(scenarios, roots, q, o) ==> !MarksIn(scenarios, feature, o)
  }

  /** A name that some scenario has stands for the last one that has it. */
  lemma {:induction false} HasLast(scenarios: seq<Scenario>, name: string, i: nat) returns (k: nat)
    requires i < |scenarios| && scenarios[i].name == name
    ensures LastNamed(scenarios, name, k)
    decreases |scenarios| - i
  {
    if j :| i < j < |scenarios| && scenarios[j].name == name {
      k := HasLast(scenarios, name, j);
    } else {
      k := i;
    }
  }

  /** The lookup knows a name exactly when some scenario has it, and maps it to the last one. */
  lemma {:induction false} LookupFinds(scenarios: seq<Scenario>, name: string, i: int)
    requires LastNamed(scenarios, name, i)
    ensures name in ByName(scenarios) && ByName(scenarios)[name] == scenarios[i]
  {
    var n := |scenarios| - 1;
    if i < n {
      assert scenarios[..n][i] == scenarios[i];
      LookupFinds(scenarios[..n], name, i);
    }
  }

  lemma {:induction false} LookupNamed(scenarios: seq<Scenario>, name: string) returns (i: nat)
    requires name in ByName(scenarios)
    ensures i < |scenarios| && scenarios[i].name == name
  {
    var n := |scenarios| - 1;
    if scenarios[n].name == name {
      i := n;
    } else {
      i := LookupNamed(scenarios[..n], name);
    }
  }

  lemma LookupExactly(scenarios: seq<Scenario>, name: string)
    ensures name in ByName(scenarios) <==> exists i :: 0 <= i < |scenarios| && scenarios[i].name == name
    ensures name in ByName(scenarios) <==> exists i :: LastNamed(scenarios, name, i)
    ensures forall i :: LastNamed(scenarios, name, i) ==>
              name in ByName(scenarios) && ByName(scenarios)[name] == scenarios[i]
  {
    hide ByName;
    forall i | LastNamed(scenarios, name, i)
      ensures name in ByName(scenarios) && ByName(scenarios)[name] == scenarios[i]
    {
      LookupFinds(scenarios, name, i);
    }
    if name in ByName(scenarios) {
      var i := LookupNamed(scenarios, name);
      var k := HasLast(scenarios, name, i);
    }
    if i :| 0 <= i < |scenarios| && scenarios[i].name == name {
      var k := HasLast(scenarios, name, i);
    }
  }

  lemma SameMarks(scenarios: seq<Scenario>, feature: string, name: string)
    ensures Marks(ByName(scenarios), feature, name) <==> MarksIn(scenarios, feature, name)
  {
    LookupExactly(scenarios, name);
  }

  lemma SameLinks(scenarios: seq<Scenario>, name: string, next: string)
    ensures next in Successors(ByName(scenarios), name) <==> Links(scenarios, name, next)
  {
    LookupExactly(scenarios, name);
  }

  lemma {:induction false} SamePaths(scenarios: seq<Scenario>, roots: seq<string>, p: seq<string>)
    ensures IsChain(ByName(scenarios), roots, p) <==> IsPath(scenarios, roots, p)
    decreases |p|
  {
    hide ByName, Links, Successors;
    if |p| > 1 {
      var n := |p| - 1;
      var init := p[..n];
      SamePaths(scenarios, roots, init);
      SameLinks(scenarios, p[n - 1], p[n]);
      assert forall i :: 0 <= i < n ==> init[i] == p[i];
      if IsPath(scenarios, roots, init) && Links(scenarios, p[n - 1], p[n]) {
        forall i | 0 <= i < n
          ensures Links(scenarios, p[i], p[i + 1])
        {
          if i < n - 1 {
            assert Links(scenarios, init[i], init[i + 1]);
          }
        }
      }
    }
  }

  lemma SamePathsTo(scenarios: seq<Scenario>, roots: seq<string>)
    ensures forall p, n :: ChainTo(ByName(scenarios), roots, p, n) <==> PathTo(scenarios, roots, p, n)
  {
    hide ByName;
    forall p, n
      ensures ChainTo(ByName(scenarios), roots, p, n) <==> PathTo(scenarios, roots, p, n)
    {
      SamePaths(scenarios, roots, p);
    }
  }

  /** What is nearest, and what unreachable, through the lookup is so in the list. */
  lemma SameAnswers(scenarios: seq<Scenario>, roots: seq<string>, feature: string)
    ensures forall n :: Nearest(ByName(scenarios), roots, feature, n) <==> NearestIn(scenarios, roots, feature, n)
    ensures Unreachable(ByName(scenarios), roots, feature) <==> UnreachableIn(scenarios, roots, feature)
  {
    hide ByName, ChainTo, PathTo, Marks, MarksIn;
    SamePathsTo(scenarios, roots);
    forall n
      ensures Marks(ByName(scenarios), feature, n) <==> MarksIn(scenarios, feature, n)
    {
      SameMarks(scenarios, feature, n);
    }
  }

  // ---- The frontier of a breadth-first walk ----

  /** Some entry of the queue is "name" at depth at most "d". */
  predicate QueuedBy(queue: seq<string>, depth: seq<nat>, name: string, d: nat)
    requires |queue| == |depth|
  {
    exists i :: 0 <= i < |queue| && queue[i] == name && depth[i] <= d
  }

  /** "name" has been visited, or waits in the queue, at depth at most "d". */
  predicate SeenBy(queue: seq<string>, depth: seq<nat>, visited: map<string, nat>, name: string, d: nat)
    requires |queue| == |depth|
  {
    (name in visited && visited[name] <= d) || QueuedBy(queue, depth, name, d)
  }

  /** Every root has been seen at depth 0, and every successor of a visited name one level deeper. */
  ghost predicate Closed(m: Lookup, roots: seq<string>, queue: seq<string>, depth: seq<nat>, visited: map<string, nat>)
    requires |queue| == |depth|
  {
    && (forall r :: r in roots ==> SeenBy(queue, depth, visited, r, 0))
    && (forall v, w :: v in visited && w in Successors(m, v) ==> SeenBy(queue, depth, visited, w, visited[v] + 1))
  }

  /** Depths in the queue never decrease and span at most two levels; visited names are no deeper. */
  predicate Layered(depth: seq<nat>, visited: map<string, nat>) {
    && (forall i, j :: 0 <= i <= j < |depth| ==> depth[i] <= depth[j] <= depth[0] + 1)
    && (forall v :: v in visited && depth != [] ==> visited[v] <= depth[0])
  }

  /** A chain either ends in a visited name, or something in the queue is no deeper than its end. */
  lemma {:induction false} Frontier(m: Lookup, roots: seq<string>, queue: seq<string>, depth: seq<nat>,
                                    visited: map<string, nat>, p: seq<string>)
    requires |queue| == |depth| && Closed(m, roots, queue, depth, visited) && IsChain(m, roots, p)
    ensures || (p[|p| - 1] in visited && visited[p[|p| - 1]] <= |p| - 1)
            || exists i :: 0 <= i < |depth| && depth[i] <= |p| - 1
    decreases |p|
  {
    var last := p[|p| - 1];
    if |p| == 1 {
      assert SeenBy(queue, depth, visited, last, 0);
    } else {
      var init := p[..|p| - 1];
      Frontier(m, roots, queue, depth, visited, init);
      var v := init[|init| - 1];
      if v in visited && visited[v] <= |init| - 1 {
        assert SeenBy(queue, depth, visited, last, visited[v] + 1);
      }
    }
  }

  /** Taking the head off the queue: it is visited now, and its successors join at the back. */
  lemma ClosedAfterVisit(m: Lookup, roots: seq<string>, queue: seq<string>, depth: seq<nat>, visited: map<string, nat>)
    requires |queue| == |depth| > 0 && queue[0] !in visited
    requires Closed(m, roots, queue, depth, visited) && Layered(depth, visited)
    ensures var next := Successors(m, queue[0]);
            var depth' := depth[1..] + seq(|next|, _ => depth[0] + 1);
            var visited' := visited[queue[0] := depth[0]];
            Closed(m, roots, queue[1..] + next, depth', visited') && Layered(depth', visited')
  {
    var next := Successors(m, queue[0]);
    var queue', depth' := queue[1..] + next, depth[1..] + seq(|next|, _ => depth[0] + 1);
    var visited' := visited[queue[0] := depth[0]];
    forall name, d: nat | SeenBy(queue, depth, visited, name, d)
      ensures SeenBy(queue', depth', visited', name, d)
    {
      SeenAfter(queue, depth, visited, queue', depth', visited', name, d);
    }
    forall w | w in next
      ensures SeenBy(queue', depth', visited', w, depth[0] + 1)
    {
      var k :| 0 <= k < |next| && next[k] == w;
      assert queue'[|queue| - 1 + k] == w;
    }
  }

  lemma ClosedAfterSkip(m: Lookup, roots: seq<string>, queue: seq<string>, depth: seq<nat>, visited: map<string, nat>)
    requires |queue| == |depth| > 0 && queue[0] in visited
    requires Closed(m, roots, queue, depth, visited) && Layered(depth, visited)
    ensures Closed(m, roots, queue[1..], depth[1..], visited) && Layered(depth[1..], visited)
  {
    forall name, d: nat | SeenBy(queue, depth, visited, name, d)
      ensures SeenBy(queue[1..], depth[1..], visited, name, d)
    {
      SeenAfter(queue, depth, visited, queue[1..], depth[1..], visited, name, d);
    }
  }

  lemma SeenAfter(queue: seq<string>, depth: seq<nat>, visited: map<string, nat>,
                  queue': seq<string>, depth': seq<nat>, visited': map<string, nat>, name: string, d: nat)
    requires |queue| == |depth| > 0 && |queue'| == |depth'|
    requires queue[1..] <= queue' && depth[1..] <= depth'
    requires forall v :: v in visited ==> v in visited' && visited'[v] == visited[v]
    requires queue[0] in visited' && visited'[queue[0]] <= depth[0]
    requires SeenBy(queue, depth, visited, name, d)
    ensures SeenBy(queue', depth', visited', name, d)
  {
    if QueuedBy(queue, depth, name, d) {
      var i :| 0 <= i < |queue| && queue[i] == name && depth[i] <= d;
      if i > 0 {
        assert queue'[i - 1] == queue[1..][i - 1] && depth'[i - 1] == depth[1..][i - 1];
      }
    }
  }

  // ---- Termination: the names that can ever be queued ----

  function AllNames(roots: seq<string>, m: Lookup): set<string> {
    (set r | r in roots) + (set s, w | s in m && w in m[s].needs :: w)
  }

  /** What holds between two rounds of the walk. The ghost depths and chains run beside the queue;
      the levels record at which depth each name was visited. */
  ghost predicate Walk(m: Lookup, roots: seq<string>, feature: string, queue: seq<string>,
                       depth: seq<nat>, chains: seq<seq<string>>, visited: map<string, nat>)
  {
    && |queue| == |depth| == |chains|
    && (forall i :: 0 <= i < |queue| ==> ChainTo(m, roots, chains[i], queue[i]) && |chains[i]| == depth[i] + 1)
    && Closed(m, roots, queue, depth, visited) && Layered(depth, visited)
    && (forall v :: v in visited ==> !Marks(m, feature, v))
    && (forall i :: 0 <= i < |queue| ==> queue[i] in AllNames(roots, m))
    && visited.Keys <= AllNames(roots, m)
  }

  lemma WalkStarts(m: Lookup, roots: seq<string>, feature: string)
    ensures Walk(m, roots, feature, roots, seq(|roots|, _ => 0),
                 seq(|roots|, i requires 0 <= i < |roots| => [roots[i]]), map[])
  {
    var depth: seq<nat> := seq(|roots|, _ => 0);
    forall r | r in roots
      ensures SeenBy(roots, depth, map[], r, 0)
    {
      var i :| 0 <= i < |roots| && roots[i] == r;
      assert roots[i] == r && depth[i] == 0;
    }
  }

  lemma WalkSkips(m: Lookup, roots: seq<string>, feature: string, queue: seq<string>,
                  depth: seq<nat>, chains: seq<seq<string>>, visited: map<string, nat>)
    requires Walk(m, roots, feature, queue, depth, chains, visited) && queue != [] && queue[0] in visited
    ensures Walk(m, roots, feature, queue[1..], depth[1..], chains[1..], visited)
  {
    ClosedAfterSkip(m, roots, queue, depth, visited);
  }

  function Extended(chain: seq<string>, next: seq<string>): seq<seq<string>> {
    seq(|next|, i requires 0 <= i < |next| => chain + [next[i]])
  }

  lemma WalkVisits(m: Lookup, roots: seq<string>, feature: string, queue: seq<string>,
                   depth: seq<nat>, chains: seq<seq<string>>, visited: map<string, nat>)
    requires Walk(m, roots, feature, queue, depth, chains, visited) && queue != []
    requires queue[0] !in visited && !Marks(m, feature, queue[0])
    ensures var next := Successors(m, queue[0]);
            Walk(m, roots, feature, queue[1..] + next, depth[1..] + seq(|next|, _ => depth[0] + 1),
                 chains[1..] + Extended(chains[0], next), visited[queue[0] := depth[0]])
  {
    hide Closed, Layered, Marks, IsChain, ChainTo;
    ClosedAfterVisit(m, roots, queue, depth, visited);
    ExtendedChains(m, roots, chains[0], queue[0]);
  }

  lemma ExtendedChains(m: Lookup, roots: seq<string>, chain: seq<string>, name: string)
    requires ChainTo(m, roots, chain, name)
    ensures var next := Successors(m, name);
            forall i :: 0 <= i < |next| ==>
              ChainTo(m, roots, Extended(chain, next)[i], next[i]) && |Extended(chain, next)[i]| == |chain| + 1
    ensures forall w :: w in Successors(m, name) ==> w in AllNames(roots, m)
  {
    var next := Successors(m, name);
    forall i | 0 <= i < |next|
      ensures ChainTo(m, roots, Extended(chain, next)[i], next[i])
    {
      assert (chain + [next[i]])[..|chain|] == chain;
    }
  }

  method BuildLookup(scenarios: seq<Scenario>) returns (byName: Lookup)
    ensures byName == ByName(scenarios)
    ensures forall name :: name in byName <==> exists i :: 0 <= i < |scenarios| && scenarios[i].name == name
    ensures forall i :: 0 <= i < |scenarios| && LastNamed(scenarios, scenarios[i].name, i) ==>
              scenarios[i].name in byName && byName[scenarios[i].name] == scenarios[i]
  {
    byName := map[];
    for i := 0 to |scenarios|
      invariant byName == ByName(scenarios[..i])
    {
      assert scenarios[..i + 1][..i] == scenarios[..i];
      byName := byName[scenarios[i].name := scenarios[i]];
    }
    assert scenarios[..|scenarios|] == scenarios;
    forall name
      ensures name in byName <==> exists i :: 0 <= i < |scenarios| && scenarios[i].name == name
      ensures forall i :: LastNamed(scenarios, name, i) ==> name in byName && byName[name] == scenarios[i]
    {
      LookupExactly(scenarios, name);
    }
  }

  method HasRequired(features: seq<FeatureReq>, feature: string) returns (found: bool)
    ensures found <==> exists i :: 0 <= i < |features| && features[i] == FeatureReq(feature, true)
  {
    for k := 0 to |features|
      invariant forall i :: 0 <= i < k ==> features[i] != FeatureReq(feature, true)
    {
      if features[k].feature == feature && features[k].required {
        return true;
      }
    }
    return false;
  }

  /** The label of a scenario's feature, where "roots" are the names the scenario requires. */
  method EffectiveFeatureLabel(fr: FeatureReq, roots: seq<string>, scenarios: seq<Scenario>) returns (r: Label)
    ensures r.Required? <==> fr.required
    ensures r.RequiredVia? ==> NearestIn(scenarios, roots, fr.feature, r.scenario)
    ensures r.Optional? <==> !fr.required && UnreachableIn(scenarios, roots, fr.feature)
  {
    hide NearestIn, UnreachableIn;
    if fr.required {
      return Required;
    }
    var byName := BuildLookup(scenarios);
    var visited: set<string> := {};
    var queue := roots;
    ghost var depth: seq<nat> := seq(|roots|, _ => 0);
    ghost var chains: seq<seq<string>> := seq(|roots|, i requires 0 <= i < |roots| => [roots[i]]);
    ghost var level: map<string, nat> := map[];
    WalkStarts(byName, roots, fr.feature);
    while queue != []
      invariant Walk(byName, roots, fr.feature, queue, depth, chains, level) && level.Keys == visited
      decreases AllNames(roots, byName) - visited, |queue|
    {
      var name := queue[0];
      if name in visited {
        WalkSkips(byName, roots, fr.feature, queue, depth, chains, level);
        queue, depth, chains := queue[1..], depth[1..], chains[1..];
        continue;
      }
      var next := [];
      if name in byName {
        var found := HasRequired(byName[name].features, fr.feature);
        if found {
          NothingNearer(byName, roots, fr.feature, queue, depth, level, chains[0], name);
          SameAnswers(scenarios, roots, fr.feature);
          NearestIsReachable(scenarios, roots, fr.feature);
          return RequiredVia(name);
        }
        next := byName[name].needs;
      }
      WalkVisits(byName, roots, fr.feature, queue, depth, chains, level);
      visited, level := visited + {name}, level[name := depth[0]];
      queue, depth, chains :=
        queue[1..] + next, depth[1..] + seq(|next|, _ => depth[0] + 1), chains[1..] + Extended(chains[0], next);
    }
    NothingAnywhere(byName, roots, fr.feature, level);
    SameAnswers(scenarios, roots, fr.feature);
    return Optional;
  }

  /** When the head of the queue marks the feature and nothing visited did, no chain to a marking
      scenario is shorter than the one to the head. */
  lemma NothingNearer(m: Lookup, roots: seq<string>, feature: string, queue: seq<string>, depth: seq<nat>,
                      visited: map<string, nat>, chain: seq<string>, name: string)
    requires |queue| == |depth| > 0 && queue[0] == name && Marks(m, feature, name)
    requires ChainTo(m, roots, chain, name) && |chain| == depth[0] + 1
    requires Closed(m, roots, queue, depth, visited) && Layered(depth, visited)
    requires forall v :: v in visited ==> !Marks(m, feature, v)
    ensures Nearest(m, roots, feature, name)
  {
    forall q, o | ChainTo(m, roots, q, o) && Marks(m, feature, o)
      ensures |chain| <= |q|
    {
      Frontier(m, roots, queue, depth, visited, q);
    }
  }

  lemma NothingAnywhere(m: Lookup, roots: seq<string>, feature: string, visited: map<string, nat>)
    requires Closed(m, roots, [], [], visited)
    requires forall v :: v in visited ==> !Marks(m, feature, v)
    ensures Unreachable(m, roots, feature)
  {
    forall q, o | ChainTo(m, roots, q, o)
      ensures !Marks(m, feature, o)
    {
      Frontier(m, roots, [], [], visited, q);
    }
  }

  lemma NearestIsReachable(scenarios: seq<Scenario>, roots: seq<string>, feature: string)
    ensures forall n :: NearestIn(scenarios, roots, feature, n) ==> !UnreachableIn(scenarios, roots, feature)
  {
  }

  /** Some reachable scenario marks the feature exactly when a nearest one exists, so the contract above
      answers "required via" exactly when a marking scenario is reachable and "optional" otherwise. */
  lemma NearestIffReachable(m: Lookup, roots: seq<string>, feature: string)
    ensures (exists n :: Nearest(m, roots, feature, n)) <==> !Unreachable(m, roots, feature)
  {
    if q, o :| ChainTo(m, roots, q, o) && Marks(m, feature, o) {
      NearestExists(m, roots, feature, q, o);
    }
  }

  lemma {:induction false} NearestExists(m: Lookup, roots: seq<string>, feature: string, q: seq<string>, o: string)
    requires ChainTo(m, roots, q, o) && Marks(m, feature, o)
    ensures exists n :: Nearest(m, roots, feature, n)
    decreases |q|
  {
    if r, w :| ChainTo(m, roots, r, w) && Marks(m, feature, w) && |r| < |q| {
      NearestExists(m, roots, feature, r, w);
    } else {
      assert Nearest(m, roots, feature, o);
    }
  }
}
