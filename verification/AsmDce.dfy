/** Dead code elimination of assembly text that is split into blocks at its labels. */
module AsmDce {
  import opened Wrappers
  import opened Labels

  /** A line of a block: a comment or nothing, or code that leaves the block for good or not. */
  datatype Line = Comment | Return | Jump | Code

  /** `succs` are the labels that the code names as targets; `region` marks assembly at file
      scope, and `asm` any hand-written assembly. */
  datatype Block = Block(lines: seq<Line>, succs: set<Label>, asm: bool, region: bool)

  // ---- the blocks -----------------------------------------------------------------------------

  /** The last line that is code leaves the block. */
  predicate Terminates(lines: seq<Line>) {
    lines != [] &&
    var l := lines[|lines| - 1];
    if l.Comment? then Terminates(lines[..|lines| - 1]) else l.Return? || l.Jump?
  }

  predicate Ends(b: Block) { !(b.asm && !b.region) && Terminates(b.lines) }

  method EndsWithTerminator(b: Block) returns (r: bool)
    ensures r == Ends(b)
  {
    if b.asm && !b.region { return false; }
    var k := |b.lines|;
    assert b.lines[..k] == b.lines;
    while k > 0
      invariant 0 <= k <= |b.lines| && Terminates(b.lines[..k]) == Terminates(b.lines)
    {
      var l := b.lines[k - 1];
      assert b.lines[..k][..k - 1] == b.lines[..k - 1];
      if !l.Comment? { return l.Return? || l.Jump?; }
      k := k - 1;
    }
    r := false;
  }

  /** After line `k`, which is an instruction or the start, come comments alone. */
  predicate LastAt(lines: seq<Line>, k: nat) {
    k <= |lines| && (k == 0 || !lines[k - 1].Comment?) && forall j :: k <= j < |lines| ==> lines[j].Comment?
  }

  /** A block ends with a terminator exactly when it is not hand-written inside a function and its last
      instruction returns or jumps. */
  lemma {:induction false} EndsExact(b: Block, k: nat)
    requires LastAt(b.lines, k)
    ensures Ends(b) <==> !(b.asm && !b.region) && k > 0 && !b.lines[k - 1].Code?
    decreases |b.lines|
  {
    if k < |b.lines| { EndsExact(b.(lines := b.lines[..|b.lines| - 1]), k); }
  }

  /** Control goes on to the block that follows. */
  predicate Falls(b: Block) { !b.region && !Ends(b) }

  predicate Distinct(order: seq<Label>) { forall i, j :: 0 <= i < j < |order| ==> order[i] != order[j] }

  /** The label after the first `a`. */
  function NextOf(order: seq<Label>, a: Label): Option<Label> {
    if |order| < 2 then None else if order[0] == a then Some(order[1]) else NextOf(order[1..], a)
  }

  /** Blocks in the order of the source. */
  datatype Text = Text(order: seq<Label>, blocks: map<Label, Block>) {
    ghost predicate Ok() { Distinct(order) && forall l :: l in order <==> l in blocks }

    /** Control can go from block `a` to block `b`. */
    predicate Goes(a: Label, b: Label) {
      a in blocks && b in blocks && (b in blocks[a].succs || (Falls(blocks[a]) && NextOf(order, a) == Some(b)))
    }
  }

  /** `s` keeps the entries and the file-scope assembly, goes where control goes, and has all of
      a group or nothing. */
  ghost predicate Closed(t: Text, entries: set<Label>, groups: seq<set<Label>>, s: set<Label>) {
    (forall l :: l in t.blocks && (l in entries || t.blocks[l].region) ==> l in s) &&
    (forall a, b :: a in s && t.Goes(a, b) ==> b in s) &&
    forall i :: 0 <= i < |groups| && !(groups[i] !! s) ==> groups[i] <= s
  }

  // ---- reachability -----------------------------------------------------------------------------

  /** What is found so far is in every closed set, with what is still to be looked at. */
  ghost predicate Sound(t: Text, entries: set<Label>, groups: seq<set<Label>>, reach: set<Label>, work: seq<Label>) {
    forall s :: Closed(t, entries, groups, s) ==> reach <= s && forall l :: l in work && l in t.blocks ==> l in s
  }

  /** Where control goes from what is found is found or still to be looked at. */
  ghost predicate Complete(t: Text, reach: set<Label>, work: seq<Label>) {
    forall a, b :: a in reach && t.Goes(a, b) ==> b in reach || b in work
  }

  /** Every block of `first` is found or still to be looked at. */
  ghost predicate Pending(t: Text, first: seq<Label>, reach: set<Label>, work: seq<Label>) {
    forall l :: l in first && l in t.blocks ==> l in reach || l in work
  }

  lemma AllPending(t: Text, first: seq<Label>, reach: set<Label>)
    ensures Pending(t, first, reach, first)
  {
  }

  lemma PendingSkip(t: Text, first: seq<Label>, reach: set<Label>, rest: seq<Label>, l: Label)
    requires Pending(t, first, reach, rest + [l]) && (l in reach || l !in t.blocks)
    ensures Pending(t, first, reach, rest)
  {
    assert forall x :: x in rest + [l] ==> x in rest || x == l;
  }

  lemma PendingTake(t: Text, first: seq<Label>, reach: set<Label>, rest: seq<Label>, l: Label, work: seq<Label>)
    requires Pending(t, first, reach, rest + [l]) && forall x :: x in rest ==> x in work
    ensures Pending(t, first, reach + {l}, work)
  {
    assert forall x :: x in rest + [l] ==> x in rest || x == l;
  }

  lemma AllReached(t: Text, first: seq<Label>, reach: set<Label>)
    requires Pending(t, first, reach, [])
    ensures forall l :: l in first && l in t.blocks ==> l in reach
  {
  }

  class AssemblyDCE {
    const t: Text
    const entries: set<Label>
    const groups: seq<set<Label>>
    var reachable: set<Label>

    constructor (text: Text, entryPoints: set<Label>, optnone: seq<set<Label>>)
      ensures t == text && entries == entryPoints && groups == optnone && reachable == {}
    {
      t, entries, groups, reachable := text, entryPoints, optnone, {};
    }

    ghost predicate Valid()
      reads this
    {
      t.Ok() && reachable <= t.blocks.Keys && forall i :: 0 <= i < |groups| ==> groups[i] <= t.blocks.Keys
    }

    method NextBlock(l: Label) returns (r: Option<Label>)
      ensures r == NextOf(t.order, l)
    {
      var labels := t.order;
      while |labels| >= 2
        invariant NextOf(labels, l) == NextOf(t.order, l)
        decreases |labels|
      {
        if labels[0] == l { return Some(labels[1]); }
        labels := labels[1..];
      }
      r := None;
    }

    /** What to look at after block `l`. */
    method Follow(l: Label) returns (more: seq<Label>)
      requires Valid() && l in t.blocks
      ensures forall b :: t.Goes(l, b) ==> b in reachable || b in more
      ensures forall b :: b in more && b in t.blocks ==> t.Goes(l, b)
    {
      var b := t.blocks[l];
      more := [];
      var left := b.succs;
      while left != {}
        invariant left <= b.succs
        invariant forall s :: s in b.succs ==> s in left || s in reachable || s in more
        invariant forall s :: s in more ==> s in b.succs
        decreases left
      {
        var s :| s in left;
        left := left - {s};
        if s !in reachable { more := more + [s]; }
      }
      var ends := EndsWithTerminator(b);
      if !b.region && !ends {
        var next := NextBlock(l);
        if next.Some? && next.value !in reachable { more := more + [next.value]; }
      }
    }

    /** Follows the jumps and the fall-through from `work`. */
    method Explore(work0: seq<Label>)
      requires Valid() && Sound(t, entries, groups, reachable, work0) && Complete(t, reachable, work0)
      modifies this
      ensures Valid() && Sound(t, entries, groups, reachable, []) && Complete(t, reachable, [])
      ensures old(reachable) <= reachable && forall l :: l in work0 && l in t.blocks ==> l in reachable
    {
      hide Sound, Complete, Text.Goes, AssemblyDCE.Valid, Pending;
      var work := work0;
      AllPending(t, work0, reachable);
      while work != []
        invariant Valid() && Sound(t, entries, groups, reachable, work) && Complete(t, reachable, work)
        invariant old(reachable) <= reachable && Pending(t, work0, reachable, work)
        decreases |t.blocks.Keys - reachable|, |work|
      {
        var l, rest := work[|work| - 1], work[..|work| - 1];
        assert work == rest + [l];
        if l in reachable || l !in t.blocks {
          Skip(t, entries, groups, reachable, rest, l);
          PendingSkip(t, work0, reachable, rest, l);
          work := rest;
        } else {
          Smaller(t.blocks.Keys, reachable, l);
          ghost var before := reachable;
          work := Reach(l, rest);
          PendingTake(t, work0, before, rest, l, work);
        }
      }
      AllReached(t, work0, reachable);
    }

    /** Keeps block `l`; what is left is `rest` and what follows from `l`. */
    method Reach(l: Label, rest: seq<Label>) returns (work: seq<Label>)
      requires Valid() && l in t.blocks && Sound(t, entries, groups, reachable, rest + [l]) &&
        Complete(t, reachable, rest + [l])
      modifies this
      ensures Valid() && reachable == old(reachable) + {l} && forall x :: x in rest ==> x in work
      ensures Sound(t, entries, groups, reachable, work) && Complete(t, reachable, work)
    {
      hide Sound, Complete, Text.Goes;
      reachable := reachable + {l};
      var more := Follow(l);
      Take(t, entries, groups, old(reachable), rest, l, more);
      work := rest + more;
    }

    /** The rest of the groups that have a kept block. */
    method Whole() returns (more: seq<Label>)
      requires Valid()
      ensures forall l :: l in more ==>
        l !in reachable && l in t.blocks && exists k :: 0 <= k < |groups| && !(groups[k] !! reachable) && l in groups[k]
      ensures more == [] ==> forall k :: 0 <= k < |groups| && !(groups[k] !! reachable) ==> groups[k] <= reachable
    {
      more := [];
      for i := 0 to |groups|
        invariant forall l :: l in more ==>
          l !in reachable && l in t.blocks &&
          exists k :: 0 <= k < |groups| && !(groups[k] !! reachable) && l in groups[k]
        invariant more == [] ==> forall k :: 0 <= k < i && !(groups[k] !! reachable) ==> groups[k] <= reachable
      {
        if groups[i] * reachable != {} {
          var ls := Listed(groups[i] - reachable);
          if ls == [] { Nothing(groups[i], reachable, ls); }
          more := more + ls;
        } else {
          Apart(groups[i], reachable);
        }
      }
    }

    /** The blocks to keep: the least closed set. */
    method FindReachable()
      requires Valid() && reachable == {}
      modifies this
      ensures Valid() && Closed(t, entries, groups, reachable)
      ensures forall s :: Closed(t, entries, groups, s) ==> reachable <= s
    {
      var pending := Listed(entries + set l | l in t.blocks && t.blocks[l].region);
      ghost var first := pending;
      StartSound(t, entries, groups, pending);
      hide Sound, Complete, Closed;
      Explore(pending);
      while true
        invariant Valid() && Sound(t, entries, groups, reachable, []) && Complete(t, reachable, [])
        invariant forall l :: l in first && l in t.blocks ==> l in reachable
        decreases |t.blocks.Keys - reachable|
      {
        var more := Whole();
        if more == [] {
          Done(t, entries, groups, first, reachable);
          return;
        }
        GroupSound(t, entries, groups, reachable, more);
        ghost var before := reachable;
        Explore(more);
        assert more[0] in reachable && more[0] !in before;
        Shrinks(t.blocks.Keys, before, reachable);
      }
    }

    /** The labels of the kept blocks, in the order of the source. */
    method Rebuild() returns (order: seq<Label>)
      ensures order == Filter(t.order, reachable)
    {
      order := [];
      for i := 0 to |t.order|
        invariant order + Filter(t.order[i..], reachable) == Filter(t.order, reachable)
      {
        assert t.order[i..][0] == t.order[i] && t.order[i..][1..] == t.order[i + 1..];
        ghost var before := order;
        if t.order[i] in reachable { order := order + [t.order[i]]; }
        assert order + Filter(t.order[i + 1..], reachable) == before + Filter(t.order[i..], reachable);
      }
    }

    /** The data that the kept code needs: the least set that has what the code names, the public
        data unless the entry points are given, and the data that the user keeps, and that has
        what its members name. */
    method FindReferencedData(code: map<Label, seq<Label>>, data: map<Label, seq<Label>>, publics: set<Label>,
                              keep: set<Label>, explicit: bool)
      returns (referenced: set<Label>)
      ensures DataClosed(code, data, publics, keep, explicit, reachable, referenced)
      ensures forall s :: DataClosed(code, data, publics, keep, explicit, reachable, s) ==> referenced <= s
    {
      hide DataClosed, DataOpen, DataSound, Named;
      ghost var base := Named(code, data, publics, keep, explicit, reachable);
      referenced := FollowData(data, Named(code, data, publics, keep, explicit, reachable));
      AllNamed(code, data, publics, keep, explicit, reachable, base, referenced);
    }
  }

  /** The data that the kept code names, the public data, and the data that the user keeps. */
  function Named(code: map<Label, seq<Label>>, data: map<Label, seq<Label>>, publics: set<Label>, keep: set<Label>,
                 explicit: bool, reach: set<Label>): (s: set<Label>)
    ensures s <= data.Keys
  {
    (set l, x | l in reach && l in code && x in code[l] && x in data :: x) +
    (if explicit then {} else set l | l in data && l in publics) + (keep * data.Keys)
  }

  /** Adds what the data found names, block by block. */
  method FollowData(data: map<Label, seq<Label>>, base: set<Label>) returns (referenced: set<Label>)
    requires base <= data.Keys
    ensures base <= referenced && DataOpen(data, referenced, []) && DataSound(data, base, referenced)
  {
    referenced := base;
    var work := Listed(referenced);
    BaseFound(data, base);
    hide DataOpen, DataSound;
    while work != []
      invariant base <= referenced <= data.Keys && (forall l :: l in work ==> l in referenced)
      invariant DataOpen(data, referenced, work) && DataSound(data, base, referenced)
      decreases |data.Keys - referenced|, |work|
    {
      var l, rest := work[|work| - 1], work[..|work| - 1];
      ghost var before := referenced;
      assert work == rest + [l];
      var more;
      referenced, more := AddNames(data.Keys, data[l], referenced);
      if referenced != before { Shrinks(data.Keys, before, referenced); }
      NamesAdded(data, base, before, referenced, rest, l, more);
      work := rest + more;
    }
  }

  /** Adds the data that the names are. */
  method AddNames(data: set<Label>, names: seq<Label>, found: set<Label>)
    returns (referenced: set<Label>, more: seq<Label>)
    requires found <= data
    ensures found <= referenced <= data && (referenced == found ==> more == [])
    ensures forall x :: x in referenced <==> x in found || (x in names && x in data)
    ensures forall x :: x in referenced ==> x in found || x in more
    ensures forall x :: x in more ==> x in referenced && x in names
  {
    referenced, more := found, [];
    for i := 0 to |names|
      invariant found <= referenced <= data && (referenced == found ==> more == [])
      invariant forall x :: x in referenced <==> x in found || (x in names[..i] && x in data)
      invariant forall x :: x in referenced ==> x in found || x in more
      invariant forall x :: x in more ==> x in referenced && x in names
    {
      var x := names[i];
      assert names[..i + 1] == names[..i] + [x];
      if x in data && x !in referenced {
        referenced := referenced + {x};
        more := more + [x];
      }
    }
    assert names[..|names|] == names;
  }

  /** What the data found names is found, except for the data still to be looked at. */
  ghost predicate DataOpen(data: map<Label, seq<Label>>, referenced: set<Label>, work: seq<Label>) {
    forall l, x :: l in referenced && l in data && x in data[l] && x in data ==> x in referenced || l in work
  }

  /** What is found is in every set that has the base and what its members name. */
  ghost predicate DataSound(data: map<Label, seq<Label>>, base: set<Label>, referenced: set<Label>) {
    forall s: set<Label> ::
      (base <= s && forall l, x :: l in s && l in data && x in data[l] && x in data ==> x in s) ==> referenced <= s
  }

  lemma BaseFound(data: map<Label, seq<Label>>, base: set<Label>)
    ensures DataSound(data, base, base) && forall work :: (forall l :: l in base ==> l in work) ==>
      DataOpen(data, base, work)
  {
  }

  lemma NamesAdded(data: map<Label, seq<Label>>, base: set<Label>, before: set<Label>, after: set<Label>,
                   rest: seq<Label>, l: Label, more: seq<Label>)
    requires DataOpen(data, before, rest + [l]) && DataSound(data, base, before) && l in before && l in data &&
      before <= after
    requires forall x :: x in after <==> x in before || (x in data[l] && x in data)
    requires forall x :: x in after ==> x in before || x in more
    ensures DataOpen(data, after, rest + more) && DataSound(data, base, after)
  {
  }

  lemma AllNamed(code: map<Label, seq<Label>>, data: map<Label, seq<Label>>, publics: set<Label>, keep: set<Label>,
                 explicit: bool, reach: set<Label>, base: set<Label>, referenced: set<Label>)
    requires base == Named(code, data, publics, keep, explicit, reach)
    requires base <= referenced && DataOpen(data, referenced, []) && DataSound(data, base, referenced)
    ensures DataClosed(code, data, publics, keep, explicit, reach, referenced)
    ensures forall s :: DataClosed(code, data, publics, keep, explicit, reach, s) ==> referenced <= s
  {
    forall s | DataClosed(code, data, publics, keep, explicit, reach, s) ensures referenced <= s {
      assert base <= s;
    }
  }

  /** The data to keep. */
  ghost predicate DataClosed(code: map<Label, seq<Label>>, data: map<Label, seq<Label>>, publics: set<Label>,
                             keep: set<Label>, explicit: bool, reach: set<Label>, s: set<Label>)
  {
    (forall l, x :: l in reach && l in code && x in code[l] && x in data ==> x in s) &&
    (forall l :: l in data && ((!explicit && l in publics) || l in keep) ==> l in s) &&
    forall l, x :: l in s && l in data && x in data[l] && x in data ==> x in s
  }

  function Filter(order: seq<Label>, keep: set<Label>): seq<Label> {
    if order == [] then [] else (if order[0] in keep then [order[0]] else []) + Filter(order[1..], keep)
  }

  lemma Skip(t: Text, entries: set<Label>, groups: seq<set<Label>>, reach: set<Label>, rest: seq<Label>, l: Label)
    requires Sound(t, entries, groups, reach, rest + [l]) && Complete(t, reach, rest + [l])
    requires l in reach || l !in t.blocks
    ensures Sound(t, entries, groups, reach, rest) && Complete(t, reach, rest)
  {
    hide Closed;
    assert forall x :: x in rest ==> x in rest + [l];
  }

  lemma Take(t: Text, entries: set<Label>, groups: seq<set<Label>>, reach: set<Label>, rest: seq<Label>, l: Label,
             more: seq<Label>)
    requires l in t.blocks && Sound(t, entries, groups, reach, rest + [l]) && Complete(t, reach, rest + [l])
    requires forall b :: b in more && b in t.blocks ==> t.Goes(l, b)
    requires forall b :: t.Goes(l, b) ==> b in reach + {l} || b in more
    ensures Sound(t, entries, groups, reach + {l}, rest + more) && Complete(t, reach + {l}, rest + more)
  {
    assert l in rest + [l] && forall x :: x in rest ==> x in rest + [l];
    hide Text.Goes;
    forall s | Closed(t, entries, groups, s)
      ensures reach + {l} <= s && forall x :: x in rest + more && x in t.blocks ==> x in s
    {
      assert l in s;
    }
  }

  lemma StartSound(t: Text, entries: set<Label>, groups: seq<set<Label>>, first: seq<Label>)
    requires forall l :: l in first ==> l in entries || (l in t.blocks && t.blocks[l].region)
    ensures Sound(t, entries, groups, {}, first) && Complete(t, {}, first)
  {
  }

  lemma GroupSound(t: Text, entries: set<Label>, groups: seq<set<Label>>, reach: set<Label>, more: seq<Label>)
    requires Sound(t, entries, groups, reach, []) && Complete(t, reach, [])
    requires forall l :: l in more ==> exists k :: 0 <= k < |groups| && !(groups[k] !! reach) && l in groups[k]
    ensures Sound(t, entries, groups, reach, more) && Complete(t, reach, more)
  {
    hide Text.Goes;
    forall s | Closed(t, entries, groups, s)
      ensures reach <= s && forall x :: x in more && x in t.blocks ==> x in s
    {
      forall x | x in more ensures x in s {
        var k :| 0 <= k < |groups| && !(groups[k] !! reach) && x in groups[k];
        assert !(groups[k] !! s);
      }
    }
  }

  lemma Done(t: Text, entries: set<Label>, groups: seq<set<Label>>, first: seq<Label>, reach: set<Label>)
    requires Sound(t, entries, groups, reach, []) && Complete(t, reach, [])
    requires forall l :: l in t.blocks && (l in entries || t.blocks[l].region) ==> l in first
    requires forall l :: l in first && l in t.blocks ==> l in reach
    requires forall k :: 0 <= k < |groups| && !(groups[k] !! reach) ==> groups[k] <= reach
    ensures Closed(t, entries, groups, reach)
    ensures forall s :: Closed(t, entries, groups, s) ==> reach <= s
  {
    hide Text.Goes;
  }

  lemma Nothing(g: set<Label>, reach: set<Label>, ls: seq<Label>)
    requires (forall x :: x in ls <==> x in g - reach) && ls == []
    ensures g <= reach
  {
    assert forall x :: x in g ==> x in reach || x in g - reach;
  }

  lemma Apart(g: set<Label>, reach: set<Label>)
    requires g * reach == {}
    ensures g !! reach
  {
    assert forall x :: x in g && x in reach ==> x in g * reach;
  }

  // ---- the rebuilt text ----------------------------------------------------------------------------

  function Kept(t: Text, keep: set<Label>): Text {
    Text(Filter(t.order, keep), map l | l in t.blocks && l in keep :: t.blocks[l])
  }

  lemma {:induction false} FilterIn(order: seq<Label>, keep: set<Label>, l: Label)
    ensures l in Filter(order, keep) <==> l in order && l in keep
    decreases |order|
  {
    if order != [] { FilterIn(order[1..], keep, l); }
  }

  lemma {:induction false} FilterDistinct(order: seq<Label>, keep: set<Label>)
    requires Distinct(order)
    ensures Distinct(Filter(order, keep))
    decreases |order|
  {
    if order != [] {
      var rest := order[1..];
      assert forall i :: 0 <= i < |rest| ==> rest[i] == order[i + 1];
      FilterDistinct(rest, keep);
      FilterIn(rest, keep, order[0]);
    }
  }

  /** In the rebuilt order a kept block whose old successor is kept is directly followed by it. */
  lemma {:induction false} NextKept(order: seq<Label>, keep: set<Label>, a: Label)
    requires a in keep && (NextOf(order, a).Some? ==> NextOf(order, a).value in keep)
    requires Distinct(order)
    ensures NextOf(order, a).Some? ==> NextOf(Filter(order, keep), a) == NextOf(order, a)
    ensures NextOf(order, a).None? && a in order ==> NextOf(Filter(order, keep), a).None?
    decreases |order|
  {
    if |order| >= 2 {
      var rest := order[1..];
      assert forall i :: 0 <= i < |rest| ==> rest[i] == order[i + 1];
      if order[0] == a {
        assert rest[0] == order[1] && Filter(order, keep) == [a] + Filter(rest, keep);
        assert Filter(rest, keep) == [order[1]] + Filter(rest[1..], keep);
      } else {
        NextKept(rest, keep, a);
        SkipFirst(order, keep, a);
      }
    } else if |order| == 1 {
      assert Filter(order[1..], keep) == [];
    }
  }

  lemma SkipFirst(order: seq<Label>, keep: set<Label>, a: Label)
    requires order != [] && order[0] != a
    ensures NextOf(Filter(order, keep), a) == NextOf(Filter(order[1..], keep), a)
  {
    var f := Filter(order[1..], keep);
    if order[0] in keep {
      assert Filter(order, keep) == [order[0]] + f && ([order[0]] + f)[1..] == f;
    } else {
      assert Filter(order, keep) == f;
    }
  }

  // ---- runs -----------------------------------------------------------------------------------------

  /** The block that runs, and the blocks whose calls have not returned. */
  datatype Config = Config(at: Label, stack: seq<Label>)

  /** A jump, a call, falling through, or a return into a block. */
  predicate Step(t: Text, c: Config, d: Config) {
    c.at in t.blocks &&
    ((d.stack == c.stack && t.Goes(c.at, d.at)) ||
     (d.stack == c.stack + [c.at] && d.at in t.blocks && d.at in t.blocks[c.at].succs) ||
     (c.stack != [] && d == Config(c.stack[|c.stack| - 1], c.stack[..|c.stack| - 1])))
  }

  predicate Run(t: Text, cs: seq<Config>)
    decreases |cs|
  {
    |cs| >= 1 && (|cs| == 1 || (Run(t, cs[..|cs| - 1]) && Step(t, cs[|cs| - 2], cs[|cs| - 1])))
  }

  /** A run from an entry, with nothing to return to. */
  predicate RunFrom(t: Text, entry: Label, cs: seq<Config>) {
    entry in t.blocks && cs != [] && cs[0] == Config(entry, []) && Run(t, cs)
  }

  predicate Inside(keep: set<Label>, c: Config) {
    c.at in keep && forall i :: 0 <= i < |c.stack| ==> c.stack[i] in keep
  }

  /** From a kept block control goes on as before. */
  lemma GoesSame(t: Text, entries: set<Label>, groups: seq<set<Label>>, keep: set<Label>, a: Label, b: Label)
    requires t.Ok() && Closed(t, entries, groups, keep) && a in keep && keep <= t.blocks.Keys
    ensures t.Goes(a, b) <==> Kept(t, keep).Goes(a, b)
  {
    var next := NextOf(t.order, a);
    if Falls(t.blocks[a]) {
      if next.Some? {
        NextIn(t.order, a);
        assert t.Goes(a, next.value);
      }
      NextKept(t.order, keep, a);
    }
    assert t.Goes(a, b) ==> b in keep;
  }

  lemma {:induction false} NextIn(order: seq<Label>, a: Label)
    requires NextOf(order, a).Some?
    ensures NextOf(order, a).value in order
    decreases |order|
  {
    if order[0] != a { NextIn(order[1..], a); }
  }

  lemma StepSame(t: Text, entries: set<Label>, groups: seq<set<Label>>, keep: set<Label>, c: Config, d: Config)
    requires t.Ok() && Closed(t, entries, groups, keep) && keep <= t.blocks.Keys && Inside(keep, c)
    ensures Step(t, c, d) <==> Step(Kept(t, keep), c, d)
    ensures Step(t, c, d) ==> Inside(keep, d)
  {
    GoesSame(t, entries, groups, keep, c.at, d.at);
    hide Closed;
    if t.Goes(c.at, d.at) { GoesIn(t, entries, groups, keep, c.at, d.at); }
    assert d.at in t.blocks && d.at in t.blocks[c.at].succs ==> t.Goes(c.at, d.at);
    assert d.at in Kept(t, keep).blocks && d.at in t.blocks[c.at].succs ==> t.Goes(c.at, d.at);
  }

  lemma GoesIn(t: Text, entries: set<Label>, groups: seq<set<Label>>, keep: set<Label>, a: Label, b: Label)
    requires Closed(t, entries, groups, keep) && a in keep && t.Goes(a, b)
    ensures b in keep
  {
  }

  /** Every run from an entry is a run of the rebuilt text, and the other way round. */
  lemma {:induction false} RunsSame(t: Text, entries: set<Label>, groups: seq<set<Label>>, keep: set<Label>,
                                    entry: Label, cs: seq<Config>)
    requires t.Ok() && Closed(t, entries, groups, keep) && keep <= t.blocks.Keys && entry in entries
    ensures RunFrom(t, entry, cs) <==> RunFrom(Kept(t, keep), entry, cs)
    ensures RunFrom(t, entry, cs) ==> Inside(keep, cs[|cs| - 1])
    decreases |cs|
  {
    if |cs| > 1 {
      var ds := cs[..|cs| - 1];
      RunsSame(t, entries, groups, keep, entry, ds);
      assert ds[|ds| - 1] == cs[|cs| - 2];
      if RunFrom(t, entry, ds) { StepSame(t, entries, groups, keep, cs[|cs| - 2], cs[|cs| - 1]); }
    }
  }

  // ---- runs line by line ------------------------------------------------------------------------------

  /** Line `k` of a block; the number of its lines stands for its end. */
  datatype Place = Place(at: Label, k: nat)

  /** The line that runs, and where the calls return to. */
  datatype LineConfig = LineConfig(p: Place, stack: seq<Place>)

  /** Hand-written assembly inside a function: its jumps may be computed. */
  predicate Hand(b: Block) { b.asm && !b.region }

  /** Control can go from a line to the one after it. */
  predicate Passes(b: Block, l: Line) { l.Comment? || l.Code? || Hand(b) }

  /** One line: on to the next, a jump, a call, or a return; at its end a block goes on to the block that
      follows, unless it is assembly at file scope. */
  predicate LineStep(t: Text, c: LineConfig, d: LineConfig) {
    c.p.at in t.blocks &&
    var b := t.blocks[c.p.at];
    if c.p.k >= |b.lines| then
      !b.region && d.stack == c.stack && d.p.k == 0 && NextOf(t.order, c.p.at) == Some(d.p.at)
    else
      var l := b.lines[c.p.k];
      (Passes(b, l) && d == c.(p := Place(c.p.at, c.p.k + 1))) ||
      (!l.Comment? && !l.Return? && Enters(t, b, d.p) && d.stack == c.stack) ||
      ((l.Code? || Hand(b)) && Enters(t, b, d.p) && d.stack == c.stack + [Place(c.p.at, c.p.k + 1)]
       && Passes(b, l)) ||
      ((l.Code? || l.Return? || Hand(b)) && c.stack != [] &&
       d == LineConfig(c.stack[|c.stack| - 1], c.stack[..|c.stack| - 1]))
  }

  /** `p` is the start of a block that the code of `b` names. */
  predicate Enters(t: Text, b: Block, p: Place) { p.k == 0 && p.at in t.blocks && p.at in b.succs }

  predicate LineRun(t: Text, entry: Label, cs: seq<LineConfig>)
    decreases |cs|
  {
    |cs| >= 1 &&
    if |cs| == 1 then entry in t.blocks && cs[0] == LineConfig(Place(entry, 0), [])
    else LineRun(t, entry, cs[..|cs| - 1]) && LineStep(t, cs[|cs| - 2], cs[|cs| - 1])
  }

  /** A kept place, before the last line of its block when that leaves it. */
  predicate Sensible(t: Text, keep: set<Label>, p: Place) {
    p.at in keep && p.at in t.blocks &&
    var b := t.blocks[p.at];
    p.k <= |b.lines| && (Ends(b) ==> Terminates(b.lines[p.k..]))
  }

  predicate AllSensible(t: Text, keep: set<Label>, c: LineConfig) {
    Sensible(t, keep, c.p) && forall i :: 0 <= i < |c.stack| ==> Sensible(t, keep, c.stack[i])
  }

  /** The last line is still ahead after a line that does not leave. */
  lemma {:induction false} StillAhead(lines: seq<Line>)
    requires Terminates(lines) && !lines[0].Return? && !lines[0].Jump?
    ensures Terminates(lines[1..])
    decreases |lines|
  {
    var n := |lines|;
    if lines[n - 1].Comment? {
      StillAhead(lines[..n - 1]);
      assert lines[..n - 1][1..] == lines[1..][..n - 2];
    }
  }

  lemma NextSensible(t: Text, keep: set<Label>, p: Place)
    requires Sensible(t, keep, p) && p.k < |t.blocks[p.at].lines| && Passes(t.blocks[p.at], t.blocks[p.at].lines[p.k])
    ensures Sensible(t, keep, Place(p.at, p.k + 1))
  {
    var b := t.blocks[p.at];
    if Ends(b) {
      StillAhead(b.lines[p.k..]);
      assert b.lines[p.k..][1..] == b.lines[p.k + 1..];
    }
  }

  lemma StartSensible(t: Text, keep: set<Label>, l: Label)
    requires l in keep && l in t.blocks
    ensures Sensible(t, keep, Place(l, 0))
  {
    assert t.blocks[l].lines[0..] == t.blocks[l].lines;
  }

  /** From a sensible line control goes on as before, and to a sensible line. */
  lemma LineStepSame(t: Text, entries: set<Label>, groups: seq<set<Label>>, keep: set<Label>, c: LineConfig,
                     d: LineConfig)
    requires t.Ok() && Closed(t, entries, groups, keep) && keep <= t.blocks.Keys && AllSensible(t, keep, c)
    ensures LineStep(t, c, d) <==> LineStep(Kept(t, keep), c, d)
    ensures LineStep(t, c, d) ==> AllSensible(t, keep, d)
  {
    var b := t.blocks[c.p.at];
    hide Closed, NextOf, Terminates, Text.Ok;
    if c.p.k >= |b.lines| {
      EndFalls(t, keep, c.p);
      if !b.region { EndSame(t, entries, groups, keep, c.p.at, d.p.at); }
    } else {
      EnterSame(t, entries, groups, keep, c.p.at, d.p);
      if Passes(b, b.lines[c.p.k]) { NextSensible(t, keep, c.p); }
    }
    if d.p.at in keep && d.p.k == 0 { StartSensible(t, keep, d.p.at); }
  }

  lemma EndFalls(t: Text, keep: set<Label>, p: Place)
    requires Sensible(t, keep, p) && p.k == |t.blocks[p.at].lines|
    ensures Falls(t.blocks[p.at]) <==> !t.blocks[p.at].region
  {
  }

  lemma EndSame(t: Text, entries: set<Label>, groups: seq<set<Label>>, keep: set<Label>, a: Label, b: Label)
    requires t.Ok() && Closed(t, entries, groups, keep) && keep <= t.blocks.Keys && a in keep && Falls(t.blocks[a])
    ensures NextOf(t.order, a) == Some(b) <==> NextOf(Kept(t, keep).order, a) == Some(b)
    ensures NextOf(t.order, a) == Some(b) ==> b in keep
  {
    var next := NextOf(t.order, a);
    if next.Some? {
      NextIn(t.order, a);
      assert t.Goes(a, next.value);
    }
    NextKept(t.order, keep, a);
  }

  lemma EnterSame(t: Text, entries: set<Label>, groups: seq<set<Label>>, keep: set<Label>, a: Label, p: Place)
    requires Closed(t, entries, groups, keep) && keep <= t.blocks.Keys && a in keep
    ensures Enters(t, t.blocks[a], p) <==> Enters(Kept(t, keep), t.blocks[a], p)
    ensures Enters(t, t.blocks[a], p) ==> p.at in keep
  {
    assert Enters(t, t.blocks[a], p) ==> t.Goes(a, p.at);
  }

  /** Line by line too, every run from an entry is a run of the rebuilt text, and the other way round. */
  lemma {:induction false} LineRunsSame(t: Text, entries: set<Label>, groups: seq<set<Label>>, keep: set<Label>,
                                        entry: Label, cs: seq<LineConfig>)
    requires t.Ok() && Closed(t, entries, groups, keep) && keep <= t.blocks.Keys && entry in entries
    ensures LineRun(t, entry, cs) <==> LineRun(Kept(t, keep), entry, cs)
    ensures LineRun(t, entry, cs) ==> AllSensible(t, keep, cs[|cs| - 1])
    decreases |cs|
  {
    if |cs| > 1 {
      hide Closed, LineStep, AllSensible;
      var ds := cs[..|cs| - 1];
      LineRunsSame(t, entries, groups, keep, entry, ds);
      assert |cs| > 1 && ds[|ds| - 1] == cs[|cs| - 2];
      if LineRun(t, entry, ds) { LineStepSame(t, entries, groups, keep, cs[|cs| - 2], cs[|cs| - 1]); }
    } else if entry in t.blocks {
      StartSensible(t, keep, entry);
    }
  }
}
