/** The dead-store pass over one function: candidates, counting, rewriting and the
    repetition to a fixpoint, in place, proved against DeadLocals and Overwrites. */
module DeadStore {
  import opened Wrappers
  import opened CLang
  import opened Frames
  import opened DeadLocals
  import opened Overwrites
  import opened DeadExact

  // ---- the declarations of a function -----------------------------------------

  /** (name, the pass may remove it) of each declarator, in source order. */
  function DeclEntries(ok: bool, ds: seq<Declr>): (r: seq<(Name, bool)>)
    ensures |r| == |ds| && forall i :: 0 <= i < |ds| ==> r[i] == (ds[i].name, ok && ds[i].simple)
  {
    if ds == [] then [] else [(ds[0].name, ok && ds[0].simple)] + DeclEntries(ok, ds[1..])
  }

  function Declared(s: Stmt): seq<(Name, bool)>
    decreases s, 1
  {
    match s
    case Block(items) => DeclaredIn(items)
    case DeclS(ok, ds) => DeclEntries(ok, ds)
    case If(_, thn, els) => Declared(thn) + (if els.Some? then Declared(els.value) else [])
    case While(_, body) => Declared(body)
    case DoWhile(body, _) => Declared(body)
    case For(init, _, _, body) =>
      (if init.FDecl? then DeclEntries(init.specsOk, init.ds) else []) + Declared(body)
    case Switch(_, body) => Declared(body)
    case LabelS(_, body) => Declared(body)
    case _ => []
  }

  function DeclaredIn(items: seq<Stmt>): seq<(Name, bool)>
    decreases items, 0
  {
    if items == [] then [] else Declared(items[0]) + DeclaredIn(items[1..])
  }

  /** A statement and all below it, in the order of the source. */
  function Subs(s: Stmt): seq<Stmt>
    decreases s, 1
  {
    [s] +
    match s
    case Block(items) => SubsIn(items)
    case If(_, thn, els) => Subs(thn) + if els.Some? then Subs(els.value) else []
    case While(_, body) => Subs(body)
    case DoWhile(body, _) => Subs(body)
    case For(_, _, _, body) => Subs(body)
    case Switch(_, body) => Subs(body)
    case LabelS(_, body) => Subs(body)
    case _ => []
  }

  function SubsIn(items: seq<Stmt>): seq<Stmt>
    decreases items, 0
  {
    if items == [] then [] else Subs(items[0]) + SubsIn(items[1..])
  }

  /** What the statements themselves declare, also at the start of a `for`. */
  function Own(ss: seq<Stmt>): seq<(Name, bool)> {
    if ss == [] then [] else OwnHere(ss[0]) + Own(ss[1..])
  }

  function OwnHere(s: Stmt): seq<(Name, bool)> {
    if s.DeclS? then DeclEntries(s.specsOk, s.ds)
    else if s.For? && s.init.FDecl? then DeclEntries(s.init.specsOk, s.init.ds)
    else []
  }

  lemma OwnFirst(s: Stmt, kids: seq<Stmt>)
    ensures Own([s] + kids) == OwnHere(s) + Own(kids)
  {
    assert ([s] + kids)[1..] == kids;
  }

  lemma {:induction false} OwnAppend(a: seq<Stmt>, b: seq<Stmt>)
    ensures Own(a + b) == Own(a) + Own(b)
    decreases |a|
  {
    if a == [] {
      assert a + b == b;
    } else {
      assert (a + b)[0] == a[0] && (a + b)[1..] == a[1..] + b;
      OwnAppend(a[1..], b);
    }
  }

  /** The declarations of a function are those of all its statements, however deep. */
  lemma {:induction false} DeclaredAll(s: Stmt)
    ensures Declared(s) == Own(Subs(s))
    decreases s, 1
  {
    OwnFirst(s, Subs(s)[1..]);
    hide DeclEntries, OwnHere;
    match s
    case Block(items) => DeclaredAllIn(items);
    case If(_, thn, els) =>
      DeclaredAll(thn);
      if els.Some? {
        DeclaredAll(els.value);
        OwnAppend(Subs(thn), Subs(els.value));
      } else {
        assert Subs(thn) + [] == Subs(thn) && Declared(thn) + [] == Declared(thn);
      }
    case While(_, body) => DeclaredAll(body);
    case DoWhile(body, _) => DeclaredAll(body);
    case For(_, _, _, body) => DeclaredAll(body);
    case Switch(_, body) => DeclaredAll(body);
    case LabelS(_, body) => DeclaredAll(body);
    case _ =>
  }

  lemma {:induction false} DeclaredAllIn(items: seq<Stmt>)
    ensures DeclaredIn(items) == Own(SubsIn(items))
    decreases items, 0
  {
    if items != [] {
      DeclaredAll(items[0]);
      DeclaredAllIn(items[1..]);
      OwnAppend(Subs(items[0]), SubsIn(items[1..]));
    }
  }

  function CountOf(entries: seq<(Name, bool)>, x: Name): nat {
    if entries == [] then 0 else (if entries[0].0 == x then 1 else 0) + CountOf(entries[1..], x)
  }

  lemma {:induction false} CountSnoc(entries: seq<(Name, bool)>, e: (Name, bool), x: Name)
    ensures CountOf(entries + [e], x) == CountOf(entries, x) + (if e.0 == x then 1 else 0)
    decreases entries
  {
    if entries == [] {
      assert [e][1..] == [];
    } else {
      assert (entries + [e])[1..] == entries[1..] + [e];
      CountSnoc(entries[1..], e, x);
    }
  }

  /** Names that may have an address or hold more than a plain local does. */
  function OddNames(entries: seq<(Name, bool)>): set<Name> {
    set e | e in entries && !e.1 :: e.0
  }

  /** An admissible world: only file-scope names, names with `&`, and locals that are no
      plain scalars have an address. */
  ghost predicate Admissible(w: World, vol: set<Name>, fileNames: set<Name>, addrTaken: set<Name>,
                             entries: seq<(Name, bool)>)
  {
    w.vol == vol && w.inMem + w.arrays <= fileNames + addrTaken + OddNames(entries)
  }

  /** Counting raises the count of every name of `S` and of no other name. */
  ghost predicate Bumped(a: map<Name, nat>, b: map<Name, nat>, S: set<Name>) {
    && a.Keys == b.Keys
    && forall x :: x in a ==> b[x] >= a[x] && (b[x] > a[x] <==> x in S)
  }

  /** For every fuel and start, the two bodies show the same end, memory and effects, in
      every world that keeps the candidates plain locals. */
  ghost predicate SameRuns(vol: set<Name>, cands: set<Name>, a: seq<Stmt>, b: seq<Stmt>) {
    forall w: World, fuel: nat, st: State :: w.vol == vol && Plain(w, cands) ==>
      Obs(RunBody(w, fuel, a, Run, st)) == Obs(RunBody(w, fuel, b, Run, st))
  }

  lemma SameRunsTrans(vol: set<Name>, cands: set<Name>, a: seq<Stmt>, b: seq<Stmt>, c: seq<Stmt>)
    requires SameRuns(vol, cands, a, b) && SameRuns(vol, cands, b, c)
    ensures SameRuns(vol, cands, a, c)
  {
    forall w: World, fuel: nat, st: State | w.vol == vol && Plain(w, cands)
      ensures Obs(RunBody(w, fuel, a, Run, st)) == Obs(RunBody(w, fuel, c, Run, st))
    {
      assert Obs(RunBody(w, fuel, a, Run, st)) == Obs(RunBody(w, fuel, b, Run, st));
    }
  }

  lemma RewriteSameRuns(vol: set<Name>, all: set<Name>, cands: set<Name>, dead: set<Name>, body: seq<Stmt>)
    requires dead <= cands <= all && ReadsList(cands, vol, body) !! dead
    ensures SameRuns(vol, all, body, RewriteList(Ctx(cands, vol, dead), body))
  {
    var c := Ctx(cands, vol, dead);
    forall w: World, fuel: nat, st: State | w.vol == vol && Plain(w, all)
      ensures Obs(RunBody(w, fuel, body, Run, st)) == Obs(RunBody(w, fuel, RewriteList(c, body), Run, st))
    {
      BodySame(w, fuel, c, body, Run, st, st);
    }
  }

  lemma OverSameRuns(vol: set<Name>, all: set<Name>, cands: set<Name>, body: seq<Stmt>)
    requires cands <= all
    ensures SameRuns(vol, all, body, OverList(cands, vol, body))
  {
    forall w: World, fuel: nat, st: State | w.vol == vol && Plain(w, all)
      ensures Obs(RunBody(w, fuel, body, Run, st)) == Obs(RunBody(w, fuel, OverList(cands, vol, body), Run, st))
    {
      OverBodySame(w, fuel, cands, body, Run, st, st);
    }
  }

  /** One step of `Overwritten`: `ys` stands for the item at `i`, and `rest` comes next;
      `tail` is what the rewriting makes of `rest`. */
  lemma Spliced(items: seq<Stmt>, i: nat, ys: seq<Stmt>, rest: seq<Stmt>, tail: seq<Stmt>)
    requires i < |items|
    ensures
      var next := items[..i] + ys + rest;
      && next[i + |ys|..] == rest
      && items[..i] + (ys + tail) == next[..i + |ys|] + tail
      && (ys + rest == items[i..] ==> next == items)
  {
    var next := items[..i] + ys + rest;
    assert next[..i + |ys|] == items[..i] + ys;
    assert items[..i] + (ys + rest) == next;
  }

  lemma OddSnoc(entries: seq<(Name, bool)>, e: (Name, bool))
    ensures OddNames(entries + [e]) == OddNames(entries) + if e.1 then {} else {e.0}
  {
    assert forall d :: d in entries + [e] <==> d in entries || d == e;
  }

  /** How often each name is declared, and whether a name declared once is a plain one. */
  ghost predicate Tallied(entries: seq<(Name, bool)>, counts: map<Name, nat>, ok: map<Name, bool>) {
    && counts.Keys == ok.Keys
    && (forall x :: CountOf(entries, x) == if x in counts then counts[x] else 0)
    && (forall x :: x in counts ==> counts[x] >= 1)
    && (forall x :: x in counts && counts[x] == 1 ==> (ok[x] <==> x !in OddNames(entries)))
    && forall x :: x in OddNames(entries) ==> x in counts
  }

  lemma TallyNext(entries: seq<(Name, bool)>, e: (Name, bool), counts: map<Name, nat>, ok: map<Name, bool>)
    requires Tallied(entries, counts, ok)
    ensures Tallied(entries + [e], counts[e.0 := if e.0 in counts then counts[e.0] + 1 else 1], ok[e.0 := e.1])
  {
    hide OddNames, CountOf;
    forall x ensures CountOf(entries + [e], x) == CountOf(entries, x) + (if e.0 == x then 1 else 0) {
      CountSnoc(entries, e, x);
    }
    OddSnoc(entries, e);
  }

  lemma TalliedOnce(entries: seq<(Name, bool)>, counts: map<Name, nat>, ok: map<Name, bool>)
    requires Tallied(entries, counts, ok)
    ensures counts.Keys == ok.Keys
    ensures forall x :: x in counts && counts[x] == 1 && ok[x] <==> CountOf(entries, x) == 1 && x !in OddNames(entries)
  {
    hide OddNames, CountOf;
  }

  class Pass {
    const vol: set<Name>
    const fileNames: set<Name>
    const addrTaken: set<Name>
    const params: seq<Name>
    var cands: set<Name>
    var readCount: map<Name, nat>
    var skipName: Option<Name>
    var body: seq<Stmt>

    constructor (vol: set<Name>, fileNames: set<Name>, addrTaken: set<Name>, params: seq<Name>, body: seq<Stmt>)
      ensures this.vol == vol && this.fileNames == fileNames && this.addrTaken == addrTaken
      ensures this.params == params && this.body == body
      ensures cands == {} && skipName == None
    {
      this.vol, this.fileNames, this.addrTaken := vol, fileNames, addrTaken;
      this.params, this.body := params, body;
      cands, readCount, skipName := {}, map[], None;
    }

    /** All declarations of the function; a parameter is never removable. */
    ghost function Entries(): seq<(Name, bool)>
      reads this`body
    {
      seq(|params|, i requires 0 <= i < |params| => (params[i], false)) + DeclaredIn(body)
    }

    /** A plain scalar or pointer local, declared once, whose name is not a file-scope
        name, not volatile and has no `&` on it. */
    ghost predicate IsCandidate(x: Name)
      reads this`body
    {
      && CountOf(Entries(), x) == 1
      && x !in OddNames(Entries())
      && x !in fileNames && x !in vol && x !in addrTaken
    }

    method FindCandidates()
      modifies this`cands
      ensures forall x :: x in cands <==> IsCandidate(x)
    {
      var counts: map<Name, nat>, ok: map<Name, bool> := map[], map[];
      var entries := seq(|params|, i requires 0 <= i < |params| => (params[i], false)) + DeclaredIn(body);
      var i := 0;
      assert Tallied(entries[..0], counts, ok);
      hide Tallied;
      while i < |entries|
        invariant 0 <= i <= |entries| && Tallied(entries[..i], counts, ok)
      {
        var e := entries[i];
        TallyNext(entries[..i], e, counts, ok);
        assert entries[..i + 1] == entries[..i] + [e];
        counts := counts[e.0 := if e.0 in counts then counts[e.0] + 1 else 1];
        ok := ok[e.0 := e.1];
        i := i + 1;
      }
      assert entries[..i] == entries;
      TalliedOnce(entries, counts, ok);
      cands := set x | x in counts && counts[x] == 1 && ok[x]
                       && x !in fileNames && x !in vol && x !in addrTaken;
    }

    // ---- counting ------------------------------------------------------------------

    method Visit(e: Expr)
      modifies this`readCount
      ensures Bumped(old(readCount), readCount, Vars(e) - if skipName.Some? then {skipName.value} else {})
      decreases e, 1
    {
      match e
      case Num(_) =>
      case Var(x) =>
        if x in readCount && Some(x) != skipName {
          readCount := readCount[x := readCount[x] + 1];
        }
      case Un(_, a) => Visit(a);
      case Bin(_, a, b) => VisitTwo(e, a, b);
      case Logic(_, a, b) => VisitTwo(e, a, b);
      case Cond(c, a, b) => Visit(c); VisitTwo(e, a, b);
      case Cast(_, a) => Visit(a);
      case Sizeof(a) => Visit(a);
      case Deref(a, _) => Visit(a);
      case AddrOf(a) => Visit(a);
      case Index(a, i, _, _, _) => VisitTwo(e, a, i);
      case Member(a, _, _, _) => Visit(a);
      case Assign(_, l, r) => VisitTwo(e, l, r);
      case IncDec(_, _, l) => Visit(l);
      case Comma(a, b) => VisitTwo(e, a, b);
      case Call(_, args) => VisitArgs(args);
    }

    /** Visits two parts of `e`. */
    method VisitTwo(ghost e: Expr, a: Expr, b: Expr)
      requires a < e && b < e
      modifies this`readCount
      ensures Bumped(old(readCount), readCount, Vars(a) + Vars(b) - if skipName.Some? then {skipName.value} else {})
      decreases e, 0
    {
      Visit(a);
      Visit(b);
    }

    method VisitArgs(es: seq<Expr>)
      modifies this`readCount
      ensures Bumped(old(readCount), readCount, VarsArgs(es) - if skipName.Some? then {skipName.value} else {})
      decreases es, 0
    {
      if es != [] {
        Visit(es[0]);
        VisitArgs(es[1..]);
      }
    }

    method VisitOpt(e: Option<Expr>)
      requires skipName == None
      modifies this`readCount
      ensures Bumped(old(readCount), readCount, VarsOpt(e))
    {
      if e.Some? { Visit(e.value); }
    }

    method Discarded(e: Expr)
      requires skipName == None
      modifies this`readCount, this`skipName
      ensures skipName == None
      ensures Bumped(old(readCount), readCount, ReadsDiscarded(readCount.Keys, vol, e))
      decreases e
    {
      if e.Comma? {
        Discarded(e.a);
        Discarded(e.b);
      } else {
        var x := Target(readCount.Keys, e);
        if x.None? {
          Visit(e);
        } else if e.Assign? {
          if Pure(vol, e.rhs) { skipName := x; }
          Visit(e.rhs);
          skipName := None;
        }
      }
    }

    method DiscardedOpt(e: Option<Expr>)
      requires skipName == None
      modifies this`readCount, this`skipName
      ensures skipName == None
      ensures Bumped(old(readCount), readCount, ReadsDiscardedOpt(readCount.Keys, vol, e))
    {
      if e.Some? { Discarded(e.value); }
    }

    /** A name read once more because the pass cannot move its initializer. */
    method Pin(x: Name)
      modifies this`readCount
      ensures Bumped(old(readCount), readCount, {x})
    {
      if x in readCount { readCount := readCount[x := readCount[x] + 1]; }
    }

    method VisitDecls(ds: seq<Declr>, multi: bool)
      requires skipName == None
      modifies this`readCount
      ensures Bumped(old(readCount), readCount, ReadsDecls(vol, ds, multi))
      decreases ds
    {
      if ds != [] {
        if Pinned(vol, ds[0], multi) { Pin(ds[0].name); }
        match ds[0].init {
          case NoInit =>
          case InitE(e) => Visit(e);
          case InitList(es) => VisitArgs(es);
        }
        VisitDecls(ds[1..], multi);
      }
    }

    method PinAll(ds: seq<Declr>)
      modifies this`readCount
      ensures Bumped(old(readCount), readCount, DeclNames(ds))
      decreases ds
    {
      if ds != [] {
        Pin(ds[0].name);
        PinAll(ds[1..]);
      }
    }

    method VisitInit(i: ForInit)
      requires skipName == None
      modifies this`readCount, this`skipName
      ensures skipName == None
      ensures Bumped(old(readCount), readCount, ReadsInit(readCount.Keys, vol, i))
    {
      match i
      case FNone =>
      case FExpr(e) => Discarded(e);
      case FDecl(_, ds) => PinAll(ds); VisitDecls(ds, |ds| > 1);
    }

    method VisitStmt(s: Stmt)
      requires skipName == None
      modifies this`readCount, this`skipName
      ensures skipName == None
      ensures Bumped(old(readCount), readCount, ReadsStmt(readCount.Keys, vol, s))
      decreases s, 1
    {
      match s
      case Empty =>
      case ExprS(e) => Discarded(e);
      case Block(items) => VisitList(items);
      case DeclS(_, ds) => VisitDecls(ds, |ds| > 1);
      case If(c, thn, els) =>
        Visit(c);
        VisitStmt(thn);
        if els.Some? { VisitStmt(els.value); }
      case While(c, b) => Visit(c); VisitStmt(b);
      case DoWhile(b, c) => VisitStmt(b); Visit(c);
      case For(init, cond, upd, b) =>
        VisitInit(init);
        VisitOpt(cond);
        DiscardedOpt(upd);
        VisitStmt(b);
      case Switch(e, b) => Visit(e); VisitStmt(b);
      case LabelS(_, b) => VisitStmt(b);
      case Goto(_) =>
      case Break =>
      case Continue =>
      case Return(r) => VisitOpt(r);
    }

    method VisitList(items: seq<Stmt>)
      requires skipName == None
      modifies this`readCount, this`skipName
      ensures skipName == None
      ensures Bumped(old(readCount), readCount, ReadsList(readCount.Keys, vol, items))
      decreases items, 0
    {
      if items != [] {
        VisitStmt(items[0]);
        VisitList(items[1..]);
      }
    }

    /** A candidate keeps a zero count exactly when nothing in the body reads it. */
    method Count()
      modifies this`readCount, this`skipName
      ensures readCount.Keys == cands && skipName == None
      ensures forall x :: x in cands ==> (readCount[x] == 0 <==> x !in ReadsList(cands, vol, body))
    {
      readCount := map x | x in cands :: 0;
      skipName := None;
      VisitList(body);
    }

    // ---- overwritten stores --------------------------------------------------------

    /** Is a store to `x` at `items[i]` overwritten before anything reads it? */
    method KillAt(items: seq<Stmt>, i: nat, x: Name) returns (r: bool)
      requires i < |items|
      ensures r == Kill(cands, items[i + 1..], x)
    {
      var k := i + 1;
      while k < |items|
        invariant i + 1 <= k <= |items|
        invariant Kill(cands, items[i + 1..], x) == Kill(cands, items[k..], x)
      {
        assert items[k..][0] == items[k] && items[k..][1..] == items[k + 1..];
        if OverwriteOf(cands, items[k]) == Some(x) { return true; }
        if x in Uses(items[k]) || Jumps(items[k]) { return false; }
        k := k + 1;
      }
      return false;
    }

    /** The declarators of the item at `i` without the overwritten initializers. */
    method OverwrittenDecls(items: seq<Stmt>, i: nat, ds: seq<Declr>) returns (r: seq<Declr>)
      requires i < |items|
      ensures r == OverDecls(cands, vol, ds, 0, items[i + 1..])
    {
      r := ds;
      var k := 0;
      while k < |r|
        invariant 0 <= k <= |r| == |ds|
        invariant OverDecls(cands, vol, r, k, items[i + 1..]) == OverDecls(cands, vol, ds, 0, items[i + 1..])
      {
        var d := r[k];
        if d.init.InitE? && d.name in cands && (|r| == 1 || Pure(vol, d.init.e))
           && d.name !in UsesDecls(r[k + 1..])
        {
          var gone := KillAt(items, i, d.name);
          if gone { r := r[k := d.(init := NoInit)]; }
        }
        k := k + 1;
      }
    }

    /** What stands for the item at `i`, and the items that come next. */
    method OverwriteItem(items: seq<Stmt>, i: nat) returns (ys: seq<Stmt>, rest: seq<Stmt>, changed: bool)
      requires i < |items|
      ensures OverList(cands, vol, items[i..]) == ys + OverList(cands, vol, rest)
      ensures SizeIn(rest) < SizeIn(items[i..])
      ensures if changed then WeightIn(ys) + WeightIn(rest) < WeightIn(items[i..]) else ys + rest == items[i..]
      decreases SizeIn(items[i..]), 1
    {
      ghost var here := items[i..];
      var it := items[i];
      rest := items[i + 1..];
      assert here[0] == it && here[1..] == rest && [it] + rest == here;
      match it {
        case ExprS(e) =>
          var x := PlainStore(cands, e);
          changed := false;
          if x.Some? { changed := KillAt(items, i, x.value); }
          ys := if !changed then [it] else if Pure(vol, e.rhs) then [] else [ExprS(e.rhs)];
          if ys != [] { WeightOne(ys[0]); }
        case DeclS(ok, ds) =>
          var ds2 := OverwrittenDecls(items, i, ds);
          var extra := OverExtra(cands, vol, ds, rest);
          ExtraSmaller(cands, vol, here);
          DeclWhole(cands, vol, ok, ds, rest);
          WeightAppend(extra, rest);
          ys, changed := [DeclS(ok, ds2)], ds2 != ds || extra != [];
          assert extra == [] ==> extra + rest == rest;
          rest := extra + rest;
        case _ =>
          var y;
          y, changed := OverwrittenIn(it);
          WeightOne(y);
          ys := [y];
      }
    }

    /** The list without the stores that a later store of the list overwrites. */
    method Overwritten(list: seq<Stmt>) returns (items: seq<Stmt>, changed: bool)
      ensures items == OverList(cands, vol, list)
      ensures if changed then WeightIn(items) < WeightIn(list) else items == list
      decreases SizeIn(list), 2
    {
      items, changed := list, false;
      var i := 0;
      while i < |items|
        invariant 0 <= i <= |items|
        invariant OverList(cands, vol, list) == items[..i] + OverList(cands, vol, items[i..])
        invariant if changed then WeightIn(items) < WeightIn(list) else items == list
        invariant SizeIn(items[i..]) <= SizeIn(list)
        decreases SizeIn(items[i..])
      {
        var ys, rest, c := OverwriteItem(items, i);
        Spliced(items, i, ys, rest, OverList(cands, vol, rest));
        assert items == items[..i] + items[i..];
        WeightAppend(items[..i], items[i..]);
        WeightAppend(items[..i] + ys, rest);
        WeightAppend(items[..i], ys);
        items, changed := items[..i] + ys + rest, changed || c;
        i := i + |ys|;
      }
      assert items[i..] == [];
    }

    /** A statement with the lists inside it rewritten. */
    method OverwrittenIn(s: Stmt) returns (r: Stmt, changed: bool)
      ensures r == OverIn(cands, vol, s)
      ensures if changed then Weight(r) < Weight(s) else r == s
      decreases Size(s), 0
    {
      r, changed := s, false;
      match s
      case Block(items) =>
        var out, c := Overwritten(items);
        r, changed := Block(out), c;
      case If(e, thn, els) =>
        var a, c := OverwrittenIn(thn);
        r, changed := If(e, a, els), c;
        if els.Some? {
          var b, d := OverwrittenIn(els.value);
          r, changed := If(e, a, Some(b)), c || d;
        }
      case While(e, b) =>
        var a, c := OverwrittenIn(b);
        r, changed := While(e, a), c;
      case DoWhile(b, e) =>
        var a, c := OverwrittenIn(b);
        r, changed := DoWhile(a, e), c;
      case For(init, cond, upd, b) =>
        var a, c := OverwrittenIn(b);
        r, changed := For(init, cond, upd, a), c;
      case Switch(e, b) =>
        var a, c := OverwrittenIn(b);
        r, changed := Switch(e, a), c;
      case LabelS(l, b) =>
        var a, c := OverwrittenIn(b);
        r, changed := LabelS(l, a), c;
      case _ =>
    }

    // ---- the driver ------------------------------------------------------------------

    /** The whole pass: 20 rounds of `PassFrom` at most, and the meaning of the function stays.  When
        it stops before the rounds are used up, each remaining candidate has an occurrence that is no
        store of its own, and no store is overwritten. */
    method RunPass() returns (rounds: nat)
      modifies this
      ensures rounds <= 20
      ensures exists all: set<Name> ::
        (forall x :: x in all <==> old(IsCandidate(x))) && (body, cands) == PassFrom(vol, all, old(body), 20)
      ensures forall w: World, fuel: nat, st: State ::
                Admissible(w, vol, fileNames, addrTaken, old(Entries())) ==>
                Obs(RunBody(w, fuel, old(body), Run, st)) == Obs(RunBody(w, fuel, body, Run, st))
      ensures rounds < 20 ==> NothingDead(cands, vol, body) && NoneOverwritten(cands, vol, body)
    {
      FindCandidates();
      ghost var all, start := cands, body;
      assert forall x :: x in all <==> old(IsCandidate(x));
      hide PassFrom, SameRuns, NoneOverwritten, NothingDead, Admissible;
      rounds := Rounds();
      SameForAll(all, start, old(Entries()));
    }

    /** Rounds until nothing changes, 20 at most. */
    method Rounds() returns (rounds: nat)
      modifies this`body, this`cands, this`readCount, this`skipName
      ensures rounds <= 20 && (body, cands) == PassFrom(vol, old(cands), old(body), 20)
      ensures SameRuns(vol, old(cands), old(body), body)
      ensures rounds < 20 ==> NothingDead(cands, vol, body) && NoneOverwritten(cands, vol, body)
    {
      ghost var all, start := cands, body;
      rounds := 0;
      hide PassFrom, SameRuns, NoneOverwritten, NothingDead, RoundOf, DeadOf;
      SameRunsSelf(vol, all, body);
      while rounds < 20
        invariant rounds <= 20 && cands <= all
        invariant SameRuns(vol, all, start, body)
        invariant PassFrom(vol, all, start, 20) == PassFrom(vol, cands, body, 20 - rounds)
      {
        PassStep(vol, cands, body, 20 - rounds);
        if cands == {} {
          NoCandidates(vol, body);
          break;
        }
        ghost var was, before := body, cands;
        RoundSame(vol, all, cands, body);
        var changed := Round();
        SameRunsTrans(vol, all, start, was, body);
        if !changed {
          assert cands == before;
          Settled(cands, vol, body);
          break;
        }
        rounds := rounds + 1;
      }
      PassStep(vol, cands, body, 0);
    }

    /** One round. */
    method Round() returns (changed: bool)
      modifies this`body, this`cands, this`readCount, this`skipName
      ensures cands == old(cands) - DeadOf(old(cands), vol, old(body)) && body == RoundOf(vol, old(cands), old(body))
      ensures !changed <==> DeadOf(old(cands), vol, old(body)) == {} && body == old(body)
    {
      changed := false;
      Count();
      var dead := set x | x in readCount && readCount[x] == 0;
      assert dead == DeadOf(cands, vol, body);
      if dead != {} {
        ghost var was := body;
        body := RewriteList(Ctx(cands, vol, dead), body);
        NamesGoneIn(Ctx(cands, vol, dead), was);
        assert NamesIn(body) !! dead;    // no store is left that would have to be undone
        cands := cands - dead;
        changed := true;
      }
      assert cands == old(cands) - dead;
      var out, c := Overwritten(body);
      body := out;
      changed := changed || c;
    }

    /** The candidates are plain locals in every admissible world. */
    lemma SameForAll(all: set<Name>, before: seq<Stmt>, entries: seq<(Name, bool)>)
      requires SameRuns(vol, all, before, body)
      requires forall x :: x in all ==> x !in OddNames(entries) && x !in fileNames && x !in vol && x !in addrTaken
      ensures forall w: World, fuel: nat, st: State :: Admissible(w, vol, fileNames, addrTaken, entries) ==>
        Obs(RunBody(w, fuel, before, Run, st)) == Obs(RunBody(w, fuel, body, Run, st))
    {
      forall w: World, fuel: nat, st: State | Admissible(w, vol, fileNames, addrTaken, entries)
        ensures Obs(RunBody(w, fuel, before, Run, st)) == Obs(RunBody(w, fuel, body, Run, st))
      {
        assert Plain(w, all);
      }
    }
  }

  // ---- the rounds ----------------------------------------------------------------------

  /** The candidates that nothing reads. */
  function DeadOf(cands: set<Name>, vol: set<Name>, body: seq<Stmt>): set<Name> {
    set x | x in cands && x !in ReadsList(cands, vol, body)
  }

  /** At most `n` rounds: dead candidates go, then overwritten stores, until a round changes nothing. */
  function PassFrom(vol: set<Name>, cands: set<Name>, body: seq<Stmt>, n: nat): (seq<Stmt>, set<Name>)
    decreases n
  {
    if n == 0 || cands == {} then (body, cands)
    else
      var dead, out := DeadOf(cands, vol, body), RoundOf(vol, cands, body);
      if dead == {} && out == body then (body, cands) else PassFrom(vol, cands - dead, out, n - 1)
  }

  /** What one round makes of the body. */
  function RoundOf(vol: set<Name>, cands: set<Name>, body: seq<Stmt>): seq<Stmt> {
    var dead := DeadOf(cands, vol, body);
    OverList(cands - dead, vol, if dead == {} then body else RewriteList(Ctx(cands, vol, dead), body))
  }

  lemma RoundSame(vol: set<Name>, all: set<Name>, cands: set<Name>, body: seq<Stmt>)
    requires cands <= all
    ensures SameRuns(vol, all, body, RoundOf(vol, cands, body))
  {
    hide SameRuns;
    var dead := DeadOf(cands, vol, body);
    var left := if dead == {} then body else RewriteList(Ctx(cands, vol, dead), body);
    SameRunsSelf(vol, all, body);
    RewriteSameRuns(vol, all, cands, dead, body);
    OverSameRuns(vol, all, cands - dead, left);
    SameRunsTrans(vol, all, body, left, OverList(cands - dead, vol, left));
  }

  lemma PassStep(vol: set<Name>, cands: set<Name>, body: seq<Stmt>, n: nat)
    ensures n == 0 || cands == {} ==> PassFrom(vol, cands, body, n) == (body, cands)
    ensures n > 0 && cands != {} ==>
      var dead, out := DeadOf(cands, vol, body), RoundOf(vol, cands, body);
      PassFrom(vol, cands, body, n) ==
        if dead == {} && out == body then (body, cands) else PassFrom(vol, cands - dead, out, n - 1)
  {
    hide DeadOf, RoundOf;
  }

  lemma SameRunsSelf(vol: set<Name>, cands: set<Name>, a: seq<Stmt>)
    ensures SameRuns(vol, cands, a, a)
  {
  }

  /** Each candidate would keep an occurrence without its stores, or a declaration holds it. */
  ghost predicate NothingDead(cands: set<Name>, vol: set<Name>, body: seq<Stmt>) {
    forall x :: x in cands ==> x in NamesIn(RewriteList(Ctx(cands, vol, {x}), body)) || HoldsAny(vol, x, body)
  }

  lemma NoCandidates(vol: set<Name>, body: seq<Stmt>)
    ensures NothingDead({}, vol, body) && NoneOverwritten({}, vol, body)
  {
    OverNothing(vol, body);
    OverNothingLeft({}, vol, body);
  }

  lemma Settled(cands: set<Name>, vol: set<Name>, body: seq<Stmt>)
    requires DeadOf(cands, vol, body) == {} && RoundOf(vol, cands, body) == body
    ensures NothingDead(cands, vol, body) && NoneOverwritten(cands, vol, body)
  {
    assert cands - {} == cands;
    OverNothingLeft(cands, vol, body);
    forall x | x in cands ensures x in NamesIn(RewriteList(Ctx(cands, vol, {x}), body)) || HoldsAny(vol, x, body) {
      ReadsListExact(cands, vol, x, body);
      assert x !in DeadOf(cands, vol, body);
    }
  }

  /** Without candidates no store is overwritten. */
  lemma {:induction false} OverNothing(vol: set<Name>, items: seq<Stmt>)
    ensures OverList({}, vol, items) == items
    decreases SizeIn(items), 1
  {
    hide Kill, Pure, Size, OverIn, Vars;
    if items != [] {
      var it, rest := items[0], items[1..];
      assert items == [it] + rest;
      OverNothing(vol, rest);
      if it.DeclS? {
        OverDeclsNothing(vol, it.ds, 0, rest);
        assert OverExtra({}, vol, it.ds, rest) == [];
        assert [] + rest == rest;
      } else if !it.ExprS? {
        OverInNothing(vol, it);
      }
    }
  }

  lemma {:induction false} OverDeclsNothing(vol: set<Name>, ds: seq<Declr>, k: nat, rest: seq<Stmt>)
    requires k <= |ds|
    ensures OverDecls({}, vol, ds, k, rest) == ds
    decreases |ds| - k
  {
    if k < |ds| { OverDeclsNothing(vol, ds, k + 1, rest); }
  }

  lemma {:induction false} OverInNothing(vol: set<Name>, s: Stmt)
    ensures OverIn({}, vol, s) == s
    decreases Size(s), 0
  {
    match s
    case Block(items) => OverNothing(vol, items);
    case If(_, thn, els) =>
      OverInNothing(vol, thn);
      if els.Some? { OverInNothing(vol, els.value); }
    case While(_, b) => OverInNothing(vol, b);
    case DoWhile(b, _) => OverInNothing(vol, b);
    case For(_, _, _, b) => OverInNothing(vol, b);
    case Switch(_, b) => OverInNothing(vol, b);
    case LabelS(_, b) => OverInNothing(vol, b);
    case _ =>
  }
}
