/** Which regions of the program text an interrupt function reaches. */
module Reach {
  import opened Wrappers
  import opened Labels

  /** A stretch of code from a label on.  `next` is the label it falls into, or empty. */
  datatype Region = Region(unit: int, refs: seq<Label>, addrRefs: seq<Label>, indirect: bool, fallsThrough: bool,
                           next: Label, hasCode: bool)

  /** Unit 0 is the program; `unitTaken` lists the symbols in the address tables of a unit. */
  datatype Graph = Graph(regions: map<Label, Region>, unitTaken: map<int, seq<Label>>)

  predicate FallsInto(r: Region) { r.fallsThrough && r.next.text != "" }

  // ---- functions ---------------------------------------------------------------------------

  /** A label stands for the code that it falls into; `seen` are the labels gone through. */
  predicate HasCode(g: Graph, l: Label, seen: set<Label>)
    decreases |g.regions.Keys - seen|
  {
    l in g.regions &&
    var r := g.regions[l];
    if !r.hasCode && FallsInto(r) && l !in seen then
      Smaller(g.regions.Keys, seen, l);
      HasCode(g, r.next, seen + {l})
    else r.hasCode
  }

  predicate Local(l: Label) { l.text != "" && l.text[0] in ['@', '?'] }

  predicate IsFunction(g: Graph, l: Label) { HasCode(g, l, {}) && !Local(l) }

  method Function(g: Graph, name: Label) returns (yes: bool)
    ensures yes == IsFunction(g, name)
  {
    var seen: set<Label> := {};
    var l := name;
    while l in g.regions && !g.regions[l].hasCode && FallsInto(g.regions[l]) && l !in seen
      invariant HasCode(g, l, seen) == HasCode(g, name, {})
      decreases |g.regions.Keys - seen|
    {
      Smaller(g.regions.Keys, seen, l);
      seen, l := seen + {l}, g.regions[l].next;
    }
    yes := l in g.regions && g.regions[l].hasCode && !Local(name);
  }

  /** After falling through `n` regions that hold no code, label `l` comes to code. */
  predicate CodeAfter(g: Graph, l: Label, n: nat)
    decreases n
  {
    l in g.regions &&
    var r := g.regions[l];
    if n == 0 then r.hasCode
    else !r.hasCode && r.fallsThrough && r.next.text != "" && CodeAfter(g, r.next, n - 1)
  }

  /** A label is a function exactly when it comes to code so and is not one of the compiler's own. */
  lemma FunctionExact(g: Graph, l: Label)
    ensures IsFunction(g, l) <==>
      (exists n: nat :: CodeAfter(g, l, n)) && !(l.text != "" && (l.text[0] == '@' || l.text[0] == '?'))
  {
    assert Local(l) <==> l.text != "" && (l.text[0] == '@' || l.text[0] == '?');
    if HasCode(g, l, {}) {
      var n := CodeFound(g, l, {});
      assert CodeAfter(g, l, n);
    }
    if n: nat :| CodeAfter(g, l, n) {
      CodeThere(g, l, n, {});
      assert HasCode(g, l, {});
    }
  }

  lemma {:induction false} CodeFound(g: Graph, l: Label, seen: set<Label>) returns (n: nat)
    requires HasCode(g, l, seen)
    ensures CodeAfter(g, l, n)
    decreases |g.regions.Keys - seen|
  {
    n := 0;
    if !g.regions[l].hasCode {
      Smaller(g.regions.Keys, seen, l);
      n := CodeFound(g, g.regions[l].next, seen + {l});
      n := n + 1;
    }
  }

  lemma {:induction false} OneDistance(g: Graph, l: Label, m: nat, n: nat)
    requires CodeAfter(g, l, m) && CodeAfter(g, l, n)
    ensures m == n
    decreases m
  {
    if m > 0 && n > 0 { OneDistance(g, g.regions[l].next, m - 1, n - 1); }
  }

  ghost predicate Further(g: Graph, x: Label, n: nat) { exists m: nat :: m > n && CodeAfter(g, x, m) }

  /** Labels further away are not met again. */
  lemma {:induction false} CodeThere(g: Graph, l: Label, n: nat, seen: set<Label>)
    requires CodeAfter(g, l, n) && forall x :: x in seen ==> Further(g, x, n)
    ensures HasCode(g, l, seen)
    decreases n
  {
    if l in seen {
      var m: nat :| m > n && CodeAfter(g, l, m);
      OneDistance(g, l, m, n);
    }
    if n > 0 {
      Smaller(g.regions.Keys, seen, l);
      assert Further(g, l, n - 1);
      forall x | x in seen ensures Further(g, x, n - 1) {
        var m: nat :| m > n && CodeAfter(g, x, m);
      }
      hide Further;
      CodeThere(g, g.regions[l].next, n - 1, seen + {l});
    }
  }

  // ---- the edges ----------------------------------------------------------------------------

  /** `s` follows from `x` when an indirect call reaches `taken`. */
  predicate Follows(g: Graph, taken: set<Label>, x: Label, s: Label) {
    x in g.regions &&
    var r := g.regions[x];
    (s in r.refs && s in g.regions) || (r.indirect && s in taken) || (FallsInto(r) && s == r.next)
  }

  /** The functions whose address a region takes: those of a library region, and of its unit. */
  predicate Takes(g: Graph, x: Label, s: Label) {
    x in g.regions && g.regions[x].unit != 0 && IsFunction(g, s) &&
    (s in g.regions[x].addrRefs || s in UnitTaken(g, g.regions[x].unit))
  }

  function UnitTaken(g: Graph, unit: int): seq<Label> {
    if unit in g.unitTaken then g.unitTaken[unit] else []
  }

  predicate Indirect(g: Graph, s: set<Label>) {
    exists x :: x in s && x in g.regions && g.regions[x].indirect
  }

  /** `s` holds the start, what its regions refer to and fall into, and, with an indirect call,
      the functions taken at first and those its regions take. */
  ghost predicate Closed(g: Graph, start: Label, taken: set<Label>, s: set<Label>) {
    start in s &&
    (forall x, y :: x in s && Follows(g, {}, x, y) ==> y in s) &&
    (Indirect(g, s) ==> taken <= s && forall x, y :: x in s && Takes(g, x, y) ==> y in s)
  }

  // ---- one pass -----------------------------------------------------------------------------

  type Parents = map<Label, Option<Label>>

  type Distances = map<Label, nat>

  /** `parent` is a tree of edges from the start, `dist` the distances in it. */
  ghost predicate Tree(g: Graph, start: Label, taken: set<Label>, parent: Parents, dist: Distances) {
    parent.Keys == dist.Keys && start in parent && dist[start] == 0 &&
    forall x :: x in parent ==>
      if x == start then parent[x] == None
      else parent[x].Some? && parent[x].value in parent && Follows(g, taken, parent[x].value, x) &&
           dist[x] == dist[parent[x].value] + 1
  }

  /** What follows from `x` is found, and no further than one step. */
  ghost predicate Expanded(g: Graph, taken: set<Label>, dist: Distances, x: Label)
    requires x in dist
  {
    forall y :: Follows(g, taken, x, y) ==> y in dist && dist[y] <= dist[x] + 1
  }

  /** The functions that the regions in `done` take. */
  ghost predicate Collects(g: Graph, taken: set<Label>, done: set<Label>, seen: set<Label>) {
    forall s :: s in seen <==> s in taken || exists x :: x in done && Takes(g, x, s)
  }

  function Universe(g: Graph, start: Label, taken: set<Label>): set<Label> {
    {start} + taken + g.regions.Keys + set x | x in g.regions :: g.regions[x].next
  }

  lemma FollowsIn(g: Graph, start: Label, taken: set<Label>, x: Label, s: Label)
    requires Follows(g, taken, x, s)
    ensures s in Universe(g, start, taken)
  {
  }

  /** What follows from `x`, in the order in which it is looked at. */
  method Successors(g: Graph, taken: set<Label>, x: Label) returns (nxt: seq<Label>)
    requires x in g.regions
    ensures forall s :: s in nxt <==> Follows(g, taken, x, s)
  {
    var r := g.regions[x];
    nxt := [];
    for k := 0 to |r.refs|
      invariant forall s :: s in nxt <==> s in r.refs[..k] && s in g.regions
    {
      assert r.refs[..k + 1] == r.refs[..k] + [r.refs[k]];
      if r.refs[k] in g.regions { nxt := nxt + [r.refs[k]]; }
    }
    assert r.refs[..|r.refs|] == r.refs;
    if r.indirect {
      var ts := Listed(taken);
      nxt := nxt + ts;
    }
    if FallsInto(r) { nxt := nxt + [r.next]; }
  }

  /** The functions among `ls`. */
  method Functions(g: Graph, ls: seq<Label>) returns (fs: set<Label>)
    ensures forall s :: s in fs <==> s in ls && IsFunction(g, s)
  {
    fs := {};
    for k := 0 to |ls|
      invariant forall s :: s in fs <==> s in ls[..k] && IsFunction(g, s)
    {
      assert ls[..k + 1] == ls[..k] + [ls[k]];
      var f := Function(g, ls[k]);
      if f { fs := fs + {ls[k]}; }
    }
    assert ls[..|ls|] == ls;
  }

  /** Every label found is done or in the queue, which is in order of distance. */
  ghost predicate Frontier(dist: Distances, queue: seq<Label>, done: set<Label>) {
    (forall x :: x in dist ==> x in done || x in queue) && done <= dist.Keys &&
    (forall i :: 0 <= i < |queue| ==> queue[i] in dist) &&
    (forall i, j :: 0 <= i < j < |queue| ==> dist[queue[i]] <= dist[queue[j]]) &&
    (forall x, i :: x in dist && 0 <= i < |queue| ==> dist[x] <= dist[queue[i]] + 1)
  }

  ghost predicate Extends(a: Distances, b: Distances) { forall x :: x in a ==> x in b && b[x] == a[x] }

  /** The search so far. */
  ghost predicate Search(g: Graph, start: Label, taken: set<Label>, parent: Parents, dist: Distances) {
    Tree(g, start, taken, parent, dist) && parent.Keys <= Universe(g, start, taken)
  }

  /** Nothing was found, or fewer labels are left to find. */
  ghost predicate Grew(g: Graph, start: Label, taken: set<Label>, parent0: Parents, queue0: seq<Label>, parent: Parents,
                       queue: seq<Label>) {
    (queue == queue0 && parent == parent0) ||
    |Universe(g, start, taken) - parent.Keys| < |Universe(g, start, taken) - parent0.Keys|
  }

  /** Puts the new ones of `nxt` at the end of the queue. */
  method Enqueue(g: Graph, start: Label, taken: set<Label>, cur: Label, nxt: seq<Label>, parent0: Parents,
                 queue0: seq<Label>, ghost dist0: Distances, ghost done: set<Label>)
    returns (parent: Parents, queue: seq<Label>, ghost dist: Distances)
    requires Search(g, start, taken, parent0, dist0) && Frontier(dist0, [cur] + queue0, done)
    requires forall s :: s in nxt <==> Follows(g, taken, cur, s)
    ensures Search(g, start, taken, parent, dist) && Extends(dist0, dist) && Frontier(dist, queue, done + {cur})
    ensures cur in dist && Expanded(g, taken, dist, cur)
    ensures Grew(g, start, taken, parent0, queue0, parent, queue)
  {
    hide Search, Midway, Frontier, Expanded, Follows, Grew, Extends;
    parent, queue, dist := parent0, queue0, dist0;
    Opened(dist0, cur, queue0, done);
    GrewNone(g, start, taken, parent0, queue0);
    for k := 0 to |nxt|
      invariant Search(g, start, taken, parent, dist) && Midway(dist0, dist, cur, queue, done)
      invariant forall j :: 0 <= j < k ==> nxt[j] in dist
      invariant Grew(g, start, taken, parent0, queue0, parent, queue)
    {
      var s := nxt[k];
      SameKeys(g, start, taken, parent, dist);
      if s !in parent {
        Attach(g, start, taken, cur, s, parent, dist0, dist, queue, done, parent0, queue0);
        parent, queue := parent[s := Some(cur)], queue + [s];
        dist := dist[s := dist0[cur] + 1];
      }
    }
    Finished(g, taken, dist0, dist, cur, queue, done);
  }

  lemma SameKeys(g: Graph, start: Label, taken: set<Label>, parent: Parents, dist: Distances)
    requires Search(g, start, taken, parent, dist)
    ensures parent.Keys == dist.Keys && parent.Keys <= Universe(g, start, taken)
  {
  }

  lemma GrewNone(g: Graph, start: Label, taken: set<Label>, parent: Parents, queue: seq<Label>)
    ensures Grew(g, start, taken, parent, queue, parent, queue)
  {
  }

  /** While the successors of `cur` are put into the queue. */
  ghost predicate Midway(dist0: Distances, dist: Distances, cur: Label, queue: seq<Label>, done: set<Label>) {
    cur in dist0 && Extends(dist0, dist) && done <= dist.Keys &&
    (forall x :: x in dist ==> (x in done || x == cur || x in queue) && dist[x] <= dist0[cur] + 1) &&
    (forall i :: 0 <= i < |queue| ==> queue[i] in dist && dist0[cur] <= dist[queue[i]]) &&
    (forall i, j :: 0 <= i < j < |queue| ==> dist[queue[i]] <= dist[queue[j]])
  }

  lemma Opened(dist: Distances, cur: Label, queue: seq<Label>, done: set<Label>)
    requires Frontier(dist, [cur] + queue, done)
    ensures Midway(dist, dist, cur, queue, done)
  {
    assert ([cur] + queue)[0] == cur;
    assert forall i :: 0 <= i < |queue| ==> ([cur] + queue)[i + 1] == queue[i];
  }

  lemma Attach(g: Graph, start: Label, taken: set<Label>, cur: Label, s: Label, parent: Parents, dist0: Distances,
               dist: Distances, queue: seq<Label>, done: set<Label>, parent0: Parents, queue0: seq<Label>)
    requires Search(g, start, taken, parent, dist) && Midway(dist0, dist, cur, queue, done)
    requires s !in parent && Follows(g, taken, cur, s) && Grew(g, start, taken, parent0, queue0, parent, queue)
    ensures cur in dist0
    ensures Search(g, start, taken, parent[s := Some(cur)], dist[s := dist0[cur] + 1])
    ensures Midway(dist0, dist[s := dist0[cur] + 1], cur, queue + [s], done)
    ensures Grew(g, start, taken, parent0, queue0, parent[s := Some(cur)], queue + [s])
    ensures s in dist[s := dist0[cur] + 1]
  {
    hide Follows, Midway, Search, Grew;
    SameKeys(g, start, taken, parent, dist);
    AttachMidway(dist0, dist, cur, s, queue, done);
    AttachTree(g, start, taken, cur, s, parent, dist, dist0[cur]);
    AttachGrew(g, start, taken, cur, s, parent, parent0, queue0, queue);
  }

  lemma AttachTree(g: Graph, start: Label, taken: set<Label>, cur: Label, s: Label, parent: Parents, dist: Distances,
                   d: nat)
    requires Search(g, start, taken, parent, dist) && s !in parent && Follows(g, taken, cur, s)
    requires cur in dist && dist[cur] == d
    ensures Search(g, start, taken, parent[s := Some(cur)], dist[s := d + 1])
  {
    FollowsIn(g, start, taken, cur, s);
    hide Universe, Follows;
  }

  lemma AttachGrew(g: Graph, start: Label, taken: set<Label>, cur: Label, s: Label, parent: Parents, parent0: Parents,
                   queue0: seq<Label>, queue: seq<Label>)
    requires s !in parent && Follows(g, taken, cur, s) && parent.Keys <= Universe(g, start, taken)
    requires Grew(g, start, taken, parent0, queue0, parent, queue)
    ensures Grew(g, start, taken, parent0, queue0, parent[s := Some(cur)], queue + [s])
  {
    FollowsIn(g, start, taken, cur, s);
    hide Universe, Follows;
    assert parent[s := Some(cur)].Keys == parent.Keys + {s};
    Shrinks(Universe(g, start, taken), parent.Keys, parent[s := Some(cur)].Keys);
  }

  lemma AttachMidway(dist0: Distances, dist: Distances, cur: Label, s: Label, queue: seq<Label>, done: set<Label>)
    requires Midway(dist0, dist, cur, queue, done) && s !in dist
    ensures cur in dist0
    ensures Midway(dist0, dist[s := dist0[cur] + 1], cur, queue + [s], done)
    ensures cur in dist && dist[cur] == dist0[cur]
  {
  }

  lemma Finished(g: Graph, taken: set<Label>, dist0: Distances, dist: Distances, cur: Label, queue: seq<Label>,
                 done: set<Label>)
    requires Midway(dist0, dist, cur, queue, done) && forall s :: Follows(g, taken, cur, s) ==> s in dist
    ensures Extends(dist0, dist) && Frontier(dist, queue, done + {cur}) && cur in dist && Expanded(g, taken, dist, cur)
  {
  }

  /** Of every unit in `units` the functions in its tables are in `seen`. */
  ghost predicate UnitsDone(g: Graph, units: set<int>, seen: set<Label>) {
    forall u, s :: u in units && u != 0 && s in UnitTaken(g, u) && IsFunction(g, s) ==> s in seen
  }

  /** Adds the functions that region `cur` takes. */
  method Collect(g: Graph, taken: set<Label>, cur: Label, seen0: set<Label>, units0: set<int>, ghost done: set<Label>)
    returns (seen: set<Label>, units: set<int>)
    requires cur in g.regions && Collects(g, taken, done, seen0) && UnitsDone(g, units0, seen0) && 0 in units0
    ensures Collects(g, taken, done + {cur}, seen) && UnitsDone(g, units, seen) && 0 in units
  {
    hide IsFunction;
    seen, units := seen0, units0;
    var r := g.regions[cur];
    if r.unit !in units {
      units := units + {r.unit};
      var fs := Functions(g, UnitTaken(g, r.unit));
      seen := seen + fs;
    }
    if r.unit != 0 {
      var fs := Functions(g, r.addrRefs);
      seen := seen + fs;
    }
    forall s ensures s in seen <==> s in taken || exists x :: x in done + {cur} && Takes(g, x, s) {
      if s in seen {
        if s in seen0 {
        } else {
          assert Takes(g, cur, s);
        }
      }
      if s !in taken && exists x :: x in done + {cur} && Takes(g, x, s) {
        var x :| x in done + {cur} && Takes(g, x, s);
        if x in done { assert s in seen0; } else { assert s in seen; }
      }
    }
  }

  /** What is known of the regions in `done`. */
  ghost predicate Known(g: Graph, taken: set<Label>, dist: Distances, done: set<Label>, seen: set<Label>,
                        units: set<int>, indirect: bool) {
    (forall x :: x in done ==> x in dist && Expanded(g, taken, dist, x)) &&
    indirect == Indirect(g, done) && Collects(g, taken, done, seen) && UnitsDone(g, units, seen) && 0 in units
  }

  lemma KnownNext(g: Graph, taken: set<Label>, cur: Label, dist0: Distances, dist: Distances, done: set<Label>,
                  seen0: set<Label>, seen: set<Label>, units0: set<int>, units: set<int>, indirect: bool)
    requires Known(g, taken, dist0, done, seen0, units0, indirect) && Extends(dist0, dist)
    requires cur in dist && Expanded(g, taken, dist, cur)
    requires Collects(g, taken, done + {cur}, seen) && UnitsDone(g, units, seen) && 0 in units
    ensures Known(g, taken, dist, done + {cur}, seen, units, indirect || (cur in g.regions && g.regions[cur].indirect))
  {
    hide Expanded, Collects, UnitsDone, Extends;
    forall x | x in done ensures x in dist && Expanded(g, taken, dist, x) {
      ExpandedStays(g, taken, dist0, dist, x);
    }
  }

  /** The whole state of the search. */
  ghost predicate Searching(g: Graph, start: Label, taken: set<Label>, parent: Parents, dist: Distances,
                            queue: seq<Label>, done: set<Label>, seen: set<Label>, units: set<int>, indirect: bool)
  {
    Search(g, start, taken, parent, dist) && Frontier(dist, queue, done) &&
    Known(g, taken, dist, done, seen, units, indirect)
  }

  /** Goes through one region. */
  method Visit(g: Graph, start: Label, taken: set<Label>, cur: Label, parent0: Parents, queue0: seq<Label>,
               seen0: set<Label>, units0: set<int>, indirect0: bool, ghost dist0: Distances, ghost done: set<Label>)
    returns (parent: Parents, queue: seq<Label>, seen: set<Label>, units: set<int>, indirect: bool,
             ghost dist: Distances)
    requires Searching(g, start, taken, parent0, dist0, [cur] + queue0, done, seen0, units0, indirect0)
    ensures Searching(g, start, taken, parent, dist, queue, done + {cur}, seen, units, indirect)
    ensures Grew(g, start, taken, parent0, queue0, parent, queue)
  {
    hide IsFunction, Follows, Search, Frontier, Expanded, Collects, Extends, UnitsDone, Known, Grew;
    FrontierNext(dist0, cur, queue0, done);
    parent, queue, seen, units, indirect, dist := parent0, queue0, seen0, units0, indirect0, dist0;
    if cur in g.regions {
      KnownParts(g, taken, dist, done, seen, units, indirect);
      seen, units := Collect(g, taken, cur, seen, units, done);
      var nxt := Successors(g, taken, cur);
      parent, queue, dist := Enqueue(g, start, taken, cur, nxt, parent, queue, dist, done);
      KnownNext(g, taken, cur, dist0, dist, done, seen0, seen, units0, units, indirect);
      if g.regions[cur].indirect { indirect := true; }
    } else {
      NoRegion(g, taken, dist, cur, seen, units, done, indirect);
      GrewNone(g, start, taken, parent, queue);
    }
  }

  /** A breadth-first search from the start with a fixed set of taken functions. */
  method Pass(g: Graph, start: Label, taken: set<Label>)
    returns (parent: Parents, seen: set<Label>, indirect: bool, ghost dist: Distances)
    ensures Tree(g, start, taken, parent, dist)
    ensures forall x :: x in dist ==> Expanded(g, taken, dist, x)
    ensures Collects(g, taken, parent.Keys, seen)
    ensures indirect == Indirect(g, parent.Keys)
  {
    hide Searching, Grew, Universe;
    parent, dist := map[start := None], map[start := 0];
    var queue, units := [start], {0};
    seen, indirect := taken, false;
    ghost var done: set<Label> := {};
    BeginPass(g, start, taken);
    while queue != []
      invariant Searching(g, start, taken, parent, dist, queue, done, seen, units, indirect)
      decreases |Universe(g, start, taken) - parent.Keys|, |queue|
    {
      var cur, rest := queue[0], queue[1..];
      ghost var parent0 := parent;
      assert queue == [cur] + rest;
      parent, queue, seen, units, indirect, dist := Visit(g, start, taken, cur, parent, rest, seen, units, indirect,
                                                          dist, done);
      GrewLess(g, start, taken, parent0, rest, parent, queue);
      done := done + {cur};
    }
    AllDone(g, start, taken, parent, dist, done, seen, units, indirect);
  }

  lemma KnownParts(g: Graph, taken: set<Label>, dist: Distances, done: set<Label>, seen: set<Label>, units: set<int>,
                   indirect: bool)
    requires Known(g, taken, dist, done, seen, units, indirect)
    ensures Collects(g, taken, done, seen) && UnitsDone(g, units, seen) && 0 in units
  {
  }

  lemma GrewLess(g: Graph, start: Label, taken: set<Label>, parent0: Parents, queue0: seq<Label>, parent: Parents,
                 queue: seq<Label>)
    requires Grew(g, start, taken, parent0, queue0, parent, queue)
    ensures |Universe(g, start, taken) - parent.Keys| < |Universe(g, start, taken) - parent0.Keys| ||
      (parent == parent0 && queue == queue0)
  {
  }

  lemma BeginPass(g: Graph, start: Label, taken: set<Label>)
    ensures Searching(g, start, taken, map[start := None], map[start := 0], [start], {}, taken, {0}, false)
  {
    hide IsFunction;
  }

  lemma AllDone(g: Graph, start: Label, taken: set<Label>, parent: Parents, dist: Distances, done: set<Label>,
                seen: set<Label>, units: set<int>, indirect: bool)
    requires Searching(g, start, taken, parent, dist, [], done, seen, units, indirect)
    ensures Tree(g, start, taken, parent, dist) && indirect == Indirect(g, parent.Keys) &&
      Collects(g, taken, parent.Keys, seen)
    ensures forall x :: x in dist ==> Expanded(g, taken, dist, x)
  {
    hide Expanded, Collects, UnitsDone, Indirect;
    assert done == parent.Keys;
  }

  lemma NoRegion(g: Graph, taken: set<Label>, dist: Distances, cur: Label, seen: set<Label>, units: set<int>,
                 done: set<Label>, indirect: bool)
    requires cur !in g.regions && cur in dist && Known(g, taken, dist, done, seen, units, indirect)
    ensures Known(g, taken, dist, done + {cur}, seen, units, indirect)
  {
    hide IsFunction;
    assert forall x, s :: x in done + {cur} && Takes(g, x, s) ==> x in done;
  }

  lemma FrontierNext(dist: Distances, cur: Label, queue: seq<Label>, done: set<Label>)
    requires Frontier(dist, [cur] + queue, done)
    ensures Frontier(dist, queue, done + {cur}) && cur in dist
  {
    assert ([cur] + queue)[0] == cur;
    assert forall i :: 0 <= i < |queue| ==> ([cur] + queue)[i + 1] == queue[i];
  }

  lemma ExpandedStays(g: Graph, taken: set<Label>, a: Distances, b: Distances, x: Label)
    requires x in a && Expanded(g, taken, a, x) && (Extends(a, b) || a == b)
    ensures x in b && Expanded(g, taken, b, x)
  {
  }

  // ---- the fixpoint ---------------------------------------------------------------------------

  /** What a pass finds is in every closed set that holds the taken functions whenever it has an
      indirect call. */
  lemma {:induction false} PassSound(g: Graph, start: Label, taken0: set<Label>, taken: set<Label>, parent: Parents,
                                     dist: Distances, s: set<Label>, x: Label)
    requires Tree(g, start, taken, parent, dist) && Closed(g, start, taken0, s) && (Indirect(g, s) ==> taken <= s)
    requires x in parent
    ensures x in s
    decreases dist[x]
  {
    if x != start {
      var p := parent[x].value;
      PassSound(g, start, taken0, taken, parent, dist, s, p);
      if !Follows(g, {}, p, x) { assert g.regions[p].indirect && x in taken; }
    }
  }

  lemma SeenSound(g: Graph, start: Label, taken0: set<Label>, taken: set<Label>, parent: Parents, dist: Distances,
                  seen: set<Label>, s: set<Label>)
    requires Tree(g, start, taken, parent, dist) && Closed(g, start, taken0, s) && (Indirect(g, s) ==> taken <= s)
    requires Collects(g, taken, parent.Keys, seen)
    ensures parent.Keys <= s && (Indirect(g, s) ==> seen <= s)
  {
    hide Tree, Takes;
    forall x | x in parent ensures x in s { PassSound(g, start, taken0, taken, parent, dist, s, x); }
  }

  lemma PassClosed(g: Graph, start: Label, taken0: set<Label>, taken: set<Label>, parent: Parents, dist: Distances,
                   seen: set<Label>)
    requires Tree(g, start, taken, parent, dist) && (forall x :: x in dist ==> Expanded(g, taken, dist, x))
    requires Collects(g, taken, parent.Keys, seen) && taken0 <= taken && (Indirect(g, parent.Keys) ==> seen == taken)
    ensures Closed(g, start, taken0, parent.Keys)
  {
    hide Takes;
    forall x, y | x in parent.Keys && Follows(g, {}, x, y) ensures y in parent.Keys {
      assert Expanded(g, taken, dist, x) && Follows(g, taken, x, y);
    }
    if Indirect(g, parent.Keys) {
      var x :| x in parent.Keys && x in g.regions && g.regions[x].indirect;
      forall t | t in taken ensures t in parent.Keys {
        assert Expanded(g, taken, dist, x) && Follows(g, taken, x, t);
      }
    }
  }

  lemma SeenIn(g: Graph, taken: set<Label>, done: set<Label>, seen: set<Label>)
    requires Collects(g, taken, done, seen)
    ensures taken <= seen <= taken + g.regions.Keys
  {
    forall s | s in seen && s !in taken ensures s in g.regions {
      var x :| x in done && Takes(g, x, s);
      assert HasCode(g, s, {});
    }
  }

  /** The regions that the code from `start` on reaches: the least closed set.  A search is run
      again with the functions that the last one saw taken, until there are no new ones. */
  method Reach(g: Graph, start: Label, taken0: set<Label>)
    returns (parent: Parents, taken: set<Label>, ghost dist: Distances)
    ensures Closed(g, start, taken0, parent.Keys)
    ensures forall s :: Closed(g, start, taken0, s) ==> parent.Keys <= s
    ensures Tree(g, start, taken, parent, dist) && forall x :: x in dist ==> Expanded(g, taken, dist, x)
  {
    assert forall s :: Closed(g, start, taken0, s) && Indirect(g, s) ==> taken0 <= s;
    hide Closed, Tree, Expanded, Indirect, Collects;
    taken := taken0;
    ghost var all := taken0 + g.regions.Keys;
    while true
      invariant taken0 <= taken <= all
      invariant forall s :: Closed(g, start, taken0, s) && Indirect(g, s) ==> taken <= s
      decreases |all - taken|
    {
      var seen, indirect;
      parent, seen, indirect, dist := Pass(g, start, taken);
      SeenIn(g, taken, parent.Keys, seen);
      forall s | Closed(g, start, taken0, s) ensures parent.Keys <= s && (Indirect(g, s) ==> seen <= s) {
        SeenSound(g, start, taken0, taken, parent, dist, seen, s);
      }
      if !indirect || seen == taken {
        PassClosed(g, start, taken0, taken, parent, dist, seen);
        return;
      }
      Shrinks(all, taken, seen);
      taken := seen;
    }
  }

  // ---- chains -----------------------------------------------------------------------------------

  /** A path of edges from the start. */
  predicate Path(g: Graph, start: Label, taken: set<Label>, p: seq<Label>)
    decreases |p|
  {
    |p| >= 1 &&
    if |p| == 1 then p[0] == start
    else Path(g, start, taken, p[..|p| - 1]) && Follows(g, taken, p[|p| - 2], p[|p| - 1])
  }

  /** No path is shorter than the distance of its end. */
  lemma {:induction false} PathLength(g: Graph, start: Label, taken: set<Label>, parent: Parents, dist: Distances,
                                      p: seq<Label>)
    requires Tree(g, start, taken, parent, dist) && forall x :: x in dist ==> Expanded(g, taken, dist, x)
    requires Path(g, start, taken, p)
    ensures p[|p| - 1] in dist && dist[p[|p| - 1]] <= |p| - 1
    decreases |p|
  {
    hide Tree, Expanded, Follows;
    if |p| == 1 {
      TreeStart(g, start, taken, parent, dist);
    } else {
      var q := p[..|p| - 1];
      PathLength(g, start, taken, parent, dist, q);
      assert q[|q| - 1] == p[|p| - 2];
      OneStep(g, taken, dist, p[|p| - 2], p[|p| - 1]);
    }
  }

  lemma TreeStart(g: Graph, start: Label, taken: set<Label>, parent: Parents, dist: Distances)
    requires Tree(g, start, taken, parent, dist)
    ensures start in dist && dist[start] == 0
  {
  }

  lemma OneStep(g: Graph, taken: set<Label>, dist: Distances, x: Label, y: Label)
    requires x in dist && Expanded(g, taken, dist, x) && Follows(g, taken, x, y)
    ensures y in dist && dist[y] <= dist[x] + 1
  {
  }

  lemma ParentStep(g: Graph, start: Label, taken: set<Label>, parent: Parents, dist: Distances, x: Label)
    requires Tree(g, start, taken, parent, dist) && x in parent
    ensures x in dist && (parent[x].None? ==> x == start && dist[x] == 0)
    ensures parent[x].Some? ==>
      parent[x].value in parent && parent[x].value in dist && Follows(g, taken, parent[x].value, x) &&
      dist[x] == dist[parent[x].value] + 1
  {
  }

  lemma TailNext(g: Graph, taken: set<Label>, up: Label, p: seq<Label>)
    requires Tail(g, taken, p) && |p| >= 1 && Follows(g, taken, up, p[0])
    ensures Tail(g, taken, [up] + p)
  {
    hide Follows;
    var q := [up] + p;
    forall i, j | 0 <= i < |q| && j == i + 1 && j < |q| ensures Follows(g, taken, q[i], q[j]) {
      if i > 0 { assert q[i] == p[i - 1] && q[j] == p[j - 1]; }
    }
  }

  /** The rest of a path from `from` to `end`, as the parents give it. */
  predicate Tail(g: Graph, taken: set<Label>, p: seq<Label>) {
    forall i, j :: 0 <= i < |p| && j == i + 1 && j < |p| ==> Follows(g, taken, p[i], p[j])
  }

  lemma {:induction false} TailPath(g: Graph, start: Label, taken: set<Label>, p: seq<Label>)
    requires |p| >= 1 && p[0] == start && Tail(g, taken, p)
    ensures Path(g, start, taken, p)
    decreases |p|
  {
    hide Follows;
    if |p| > 1 {
      var q := p[..|p| - 1];
      assert forall i :: 0 <= i < |q| ==> q[i] == p[i];
      TailPath(g, start, taken, q);
    }
  }

  /** The chain of parents of a label leads back to the start, and no path is shorter. */
  method Chain(g: Graph, start: Label, taken: set<Label>, parent: Parents, end: Label, ghost dist: Distances)
    returns (path: seq<Label>)
    requires Tree(g, start, taken, parent, dist) && (forall x :: x in dist ==> Expanded(g, taken, dist, x)) &&
      end in parent
    ensures Path(g, start, taken, path) && |path| >= 1 && path[|path| - 1] == end
    ensures forall p :: Path(g, start, taken, p) && |p| >= 1 && p[|p| - 1] == end ==> |path| <= |p|
  {
    hide Tree, Tail, Expanded, Path;
    var back, cur := [end], end;
    ghost var forth := [end];
    TailOne(g, taken, end);
    ParentStep(g, start, taken, parent, dist, end);
    while parent[cur].Some?
      invariant cur in parent && cur in dist && end in dist && |forth| >= 1 && forth[0] == cur &&
        forth[|forth| - 1] == end
      invariant Reversed(back, forth) && Tail(g, taken, forth)
      invariant dist[cur] + |back| == dist[end] + 1
      decreases dist[cur]
    {
      ParentStep(g, start, taken, parent, dist, cur);
      var up := parent[cur].value;
      TailNext(g, taken, up, forth);
      back, forth, cur := back + [up], [up] + forth, up;
      ParentStep(g, start, taken, parent, dist, cur);
    }
    ParentStep(g, start, taken, parent, dist, cur);
    path := Reverse(back);
    assert path == forth;
    TailPath(g, start, taken, path);
    forall p | Path(g, start, taken, p) && |p| >= 1 && p[|p| - 1] == end ensures |path| <= |p| {
      PathLength(g, start, taken, parent, dist, p);
    }
  }

  lemma TailOne(g: Graph, taken: set<Label>, x: Label)
    ensures Tail(g, taken, [x])
  {
  }

  predicate Reversed(a: seq<Label>, b: seq<Label>) {
    |a| == |b| >= 1 && forall i :: 0 <= i < |a| ==> a[i] == b[|b| - 1 - i]
  }

  method Reverse(s: seq<Label>) returns (r: seq<Label>)
    ensures |r| == |s| && forall i :: 0 <= i < |s| ==> r[i] == s[|s| - 1 - i]
  {
    r := [];
    for k := 0 to |s|
      invariant |r| == k && forall i :: 0 <= i < k ==> r[i] == s[k - 1 - i]
    {
      r := [s[k]] + r;
    }
  }
}
