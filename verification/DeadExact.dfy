/** What the dead-store pass must find: which expressions are pure, which names count as read, and
    which stores count as overwritten, each in terms of the tree alone. */
module DeadExact {
  import opened Wrappers
  import opened CLang
  import opened Frames
  import opened DeadLocals
  import opened Overwrites

  // ---- pure expressions -----------------------------------------------------------------------

  /** Every node of an expression, itself included. */
  function Nodes(e: Expr): set<Expr>
    decreases e, 1
  {
    {e} +
    match e
    case Num(_) => {}
    case Var(_) => {}
    case Un(_, a) => Nodes(a)
    case Bin(_, a, b) => Nodes(a) + Nodes(b)
    case Logic(_, a, b) => Nodes(a) + Nodes(b)
    case Cond(c, a, b) => Nodes(c) + Nodes(a) + Nodes(b)
    case Cast(_, a) => Nodes(a)
    case Sizeof(a) => Nodes(a)
    case Deref(a, _) => Nodes(a)
    case AddrOf(a) => Nodes(a)
    case Index(a, i, _, _, _) => Nodes(a) + Nodes(i)
    case Member(a, _, _, _) => Nodes(a)
    case Assign(_, l, r) => Nodes(l) + Nodes(r)
    case IncDec(_, _, l) => Nodes(l)
    case Comma(a, b) => Nodes(a) + Nodes(b)
    case Call(_, args) => NodesArgs(args)
  }

  function NodesArgs(es: seq<Expr>): set<Expr>
    decreases es, 0
  {
    if es == [] then {} else Nodes(es[0]) + NodesArgs(es[1..])
  }

  /** The node stores, calls, or accesses something volatile. */
  predicate Acts(vol: set<Name>, n: Expr) {
    n.Assign? || n.IncDec? || n.Call? || (n.Var? && n.x in vol) ||
    (n.Deref? && n.vol) || (n.Index? && n.vol) || (n.Member? && n.vol)
  }

  ghost predicate Quiet(vol: set<Name>, ns: set<Expr>) { forall n :: n in ns ==> !Acts(vol, n) }

  lemma QuietSum(vol: set<Name>, e: Expr, a: set<Expr>, b: set<Expr>, c: set<Expr>)
    ensures Quiet(vol, {e} + {}) <==> !Acts(vol, e)
    ensures Quiet(vol, {e} + a) <==> !Acts(vol, e) && Quiet(vol, a)
    ensures Quiet(vol, {e} + (a + b)) <==> !Acts(vol, e) && Quiet(vol, a) && Quiet(vol, b)
    ensures Quiet(vol, {e} + (a + b + c)) <==> !Acts(vol, e) && Quiet(vol, a) && Quiet(vol, b) && Quiet(vol, c)
  {
    hide Acts;
    assert e in {e};
    assert forall n :: n in a + b + c <==> n in a || n in b || n in c;
    assert forall n :: n in a ==> n in {e} + a && n in {e} + (a + b) && n in {e} + (a + b + c);
    assert forall n :: n in b ==> n in {e} + (a + b) && n in {e} + (a + b + c);
    assert forall n :: n in c ==> n in {e} + (a + b + c);
  }

  lemma ActsLoud(vol: set<Name>, e: Expr)
    requires Acts(vol, e)
    ensures !Pure(vol, e) && !Quiet(vol, Nodes(e))
  {
    assert e in Nodes(e);
  }

  /** An expression is pure exactly when no node of it acts, wherever the node is. */
  lemma {:induction false} PureExact(vol: set<Name>, e: Expr)
    ensures Pure(vol, e) <==> Quiet(vol, Nodes(e))
    decreases e, 1
  {
    hide Quiet;
    if Acts(vol, e) {
      ActsLoud(vol, e);
    } else if e.Num? || e.Var? {
      QuietSum(vol, e, {}, {}, {});
    } else if e.Un? || e.Cast? || e.Sizeof? || e.Deref? || e.AddrOf? || e.Member? {
      OneOperand(vol, e);
    } else {
      MoreOperands(vol, e);
    }
  }

  lemma {:induction false} OneOperand(vol: set<Name>, e: Expr)
    requires !Acts(vol, e) && (e.Un? || e.Cast? || e.Sizeof? || e.Deref? || e.AddrOf? || e.Member?)
    ensures Pure(vol, e) <==> Quiet(vol, Nodes(e))
    decreases e, 0
  {
    hide Quiet;
    PureExact(vol, e.e);
    QuietSum(vol, e, Nodes(e.e), {}, {});
  }

  lemma {:induction false} MoreOperands(vol: set<Name>, e: Expr)
    requires !Acts(vol, e) && (e.Bin? || e.Logic? || e.Cond? || e.Index? || e.Comma?)
    ensures Pure(vol, e) <==> Quiet(vol, Nodes(e))
    decreases e, 0
  {
    hide Quiet;
    match e
    case Bin(_, a, b) => PureExact(vol, a); PureExact(vol, b); QuietSum(vol, e, Nodes(a), Nodes(b), {});
    case Logic(_, a, b) => PureExact(vol, a); PureExact(vol, b); QuietSum(vol, e, Nodes(a), Nodes(b), {});
    case Cond(c, a, b) =>
      PureExact(vol, c); PureExact(vol, a); PureExact(vol, b);
      QuietSum(vol, e, Nodes(c), Nodes(a), Nodes(b));
    case Index(a, i, _, _, _) => PureExact(vol, a); PureExact(vol, i); QuietSum(vol, e, Nodes(a), Nodes(i), {});
    case Comma(a, b) => PureExact(vol, a); PureExact(vol, b); QuietSum(vol, e, Nodes(a), Nodes(b), {});
  }

  // ---- names that count as read ---------------------------------------------------------------

  /** A declaration of `x` that cannot go as a store does: an initializer list, an effect between
      other declarators, or an initializer that reads `x` itself. */
  predicate Holds(vol: set<Name>, x: Name, d: Declr, multi: bool) {
    d.name == x &&
    match d.init
    case NoInit => false
    case InitE(e) => x in Vars(e) || (multi && !Pure(vol, e))
    case InitList(_) => true
  }

  predicate HoldsDecls(vol: set<Name>, x: Name, ds: seq<Declr>, multi: bool) {
    exists k :: 0 <= k < |ds| && Holds(vol, x, ds[k], multi)
  }

  /** A declaration statement anywhere below holds `x`. */
  predicate HoldsIn(vol: set<Name>, x: Name, s: Stmt)
    decreases s, 1
  {
    match s
    case Block(items) => HoldsAny(vol, x, items)
    case DeclS(_, ds) => HoldsDecls(vol, x, ds, |ds| > 1)
    case If(_, thn, els) => HoldsIn(vol, x, thn) || (els.Some? && HoldsIn(vol, x, els.value))
    case While(_, body) => HoldsIn(vol, x, body)
    case DoWhile(body, _) => HoldsIn(vol, x, body)
    case For(_, _, _, body) => HoldsIn(vol, x, body)
    case Switch(_, body) => HoldsIn(vol, x, body)
    case LabelS(_, body) => HoldsIn(vol, x, body)
    case _ => false
  }

  predicate HoldsAny(vol: set<Name>, x: Name, items: seq<Stmt>)
    decreases items, 0
  {
    items != [] && (HoldsIn(vol, x, items[0]) || HoldsAny(vol, x, items[1..]))
  }

  /** The operands of the commas at the top of a discarded expression. */
  function Leaves(e: Expr): set<Expr> { match e case Comma(a, b) => Leaves(a) + Leaves(b) case _ => {e} }

  /** A store to `x` alone: `++`, `--`, or an assignment whose right side goes too or does not read `x`. */
  predicate OnlyStores(vol: set<Name>, x: Name, e: Expr) {
    (e.IncDec? && e.lhs == Var(x)) || (e.Assign? && e.lhs == Var(x) && (Pure(vol, e.rhs) || x !in Vars(e.rhs)))
  }

  /** A discarded expression counts as reading a candidate exactly when an operand of its commas
      mentions it and does more than store into it. */
  lemma {:induction false} DiscardedReads(cands: set<Name>, vol: set<Name>, x: Name, e: Expr)
    requires x in cands
    ensures x in ReadsDiscarded(cands, vol, e) <==> exists l :: l in Leaves(e) && x in Vars(l) && !OnlyStores(vol, x, l)
  {
    hide Pure;
    if e.Comma? {
      DiscardedReads(cands, vol, x, e.a);
      DiscardedReads(cands, vol, x, e.b);
      assert Leaves(e) == Leaves(e.a) + Leaves(e.b);
    } else {
      LeafReads(cands, vol, x, e);
      assert Leaves(e) == {e};
      assert e in Leaves(e);
    }
  }

  lemma LeafReads(cands: set<Name>, vol: set<Name>, x: Name, e: Expr)
    requires x in cands && !e.Comma?
    ensures x in ReadsDiscarded(cands, vol, e) <==> x in Vars(e) && !OnlyStores(vol, x, e)
  {
    hide Pure;
    if Target(cands, e).Some? { assert Vars(e) == {e.lhs.x} + if e.Assign? then Vars(e.rhs) else {}; }
  }

  lemma {:induction false} DiscardedExact(cands: set<Name>, vol: set<Name>, x: Name, e: Expr)
    requires x in cands
    ensures x in ReadsDiscarded(cands, vol, e) <==> x in VarsOpt(Simplify(Ctx(cands, vol, {x}), e))
  {
    hide Pure;
    if e.Comma? {
      DiscardedExact(cands, vol, x, e.a);
      DiscardedExact(cands, vol, x, e.b);
    } else {
      var y := Target(cands, e);
      if y.Some? && y.value != x { assert Vars(e) == Vars(if e.Assign? then e.rhs else e.lhs) + {y.value}; }
    }
  }

  lemma {:induction false} DeclsExact(cands: set<Name>, vol: set<Name>, x: Name, ds: seq<Declr>, multi: bool)
    requires x in cands
    ensures
      var c := Ctx(cands, vol, {x});
      x in ReadsDecls(vol, ds, multi) <==>
        x in NamesDecls(KeepDecls(c, ds)) + NamesIn(ExtraStmts(c, ds)) || HoldsDecls(vol, x, ds, multi)
    ensures var c := Ctx(cands, vol, {x}); KeepDecls(c, ds) == ds ==> ExtraStmts(c, ds) == []
    ensures |KeepDecls(Ctx(cands, vol, {x}), ds)| <= |ds|
    decreases ds
  {
    hide Pure;
    var c := Ctx(cands, vol, {x});
    if ds == [] {
      assert !HoldsDecls(vol, x, ds, multi);
    } else {
      var d, rest := ds[0], ds[1..];
      DeclsExact(cands, vol, x, rest, multi);
      assert HoldsDecls(vol, x, ds, multi) <==> Holds(vol, x, d, multi) || HoldsDecls(vol, x, rest, multi) by {
        HoldsFirst(vol, x, ds, multi);
      }
      if d.name == x {
        if d.init.InitE? && !Pure(vol, d.init.e) {
          var extra := ExtraStmts(c, ds);
          assert extra[0] == ExprS(d.init.e) && extra[1..] == ExtraStmts(c, rest);
        }
      } else {
        var keep := KeepDecls(c, ds);
        assert keep[0] == d && keep[1..] == KeepDecls(c, rest);
      }
    }
  }

  lemma HoldsFirst(vol: set<Name>, x: Name, ds: seq<Declr>, multi: bool)
    requires ds != []
    ensures HoldsDecls(vol, x, ds, multi) <==> Holds(vol, x, ds[0], multi) || HoldsDecls(vol, x, ds[1..], multi)
  {
    hide Holds;
    if k :| 0 <= k < |ds| && Holds(vol, x, ds[k], multi) {
      if k > 0 { assert ds[1..][k - 1] == ds[k]; }
    }
    if k :| 0 <= k < |ds[1..]| && Holds(vol, x, ds[1..][k], multi) { assert ds[k + 1] == ds[1..][k]; }
  }

  lemma {:induction false} ForDeclsExact(vol: set<Name>, x: Name, ds: seq<Declr>, multi: bool)
    ensures x in DeclNames(ds) + ReadsDecls(vol, ds, multi) <==> x in NamesDecls(ds)
    decreases ds
  {
    if ds != [] { ForDeclsExact(vol, x, ds[1..], multi); }
  }

  lemma FitNames(ss: seq<Stmt>)
    ensures Names(Fit(ss)) == NamesIn(ss)
  {
    if |ss| == 1 { OneName(ss[0]); }
  }

  /** A candidate counts as read exactly when some occurrence would be left without its stores, or a
      declaration holds it. */
  lemma {:induction false} ReadsExact(cands: set<Name>, vol: set<Name>, x: Name, s: Stmt)
    requires x in cands
    ensures x in ReadsStmt(cands, vol, s) <==> x in NamesIn(Rewrite(Ctx(cands, vol, {x}), s)) || HoldsIn(vol, x, s)
    decreases s, 1
  {
    hide ReadsDiscarded, Simplify, HoldsDecls, KeepDecls, ExtraStmts, Pure, Fit;
    var c := Ctx(cands, vol, {x});
    if |Rewrite(c, s)| == 1 { OneName(Rewrite(c, s)[0]); }
    match s
    case ExprS(e) => DiscardedExact(cands, vol, x, e);
    case Block(items) => ReadsListExact(cands, vol, x, items);
    case DeclS(ok, ds) =>
      DeclsExact(cands, vol, x, ds, |ds| > 1);
      var keep := KeepDecls(c, ds);
      NamesAppend(if keep == [] then [] else [DeclS(ok, keep)], ExtraStmts(c, ds));
      OneName(DeclS(ok, keep));
    case If(_, thn, els) =>
      ReadsExact(cands, vol, x, thn);
      FitNames(Rewrite(c, thn));
      if els.Some? {
        ReadsExact(cands, vol, x, els.value);
        FitNames(Rewrite(c, els.value));
      }
    case While(_, body) => BodyExact(cands, vol, x, body);
    case DoWhile(body, _) => BodyExact(cands, vol, x, body);
    case For(init, _, upd, body) =>
      BodyExact(cands, vol, x, body);
      if upd.Some? { DiscardedExact(cands, vol, x, upd.value); }
      if init.FExpr? { DiscardedExact(cands, vol, x, init.e); }
      if init.FDecl? { ForDeclsExact(vol, x, init.ds, |init.ds| > 1); }
    case Switch(_, body) => BodyExact(cands, vol, x, body);
    case LabelS(_, body) => BodyExact(cands, vol, x, body);
    case _ =>
  }

  lemma {:induction false} BodyExact(cands: set<Name>, vol: set<Name>, x: Name, s: Stmt)
    requires x in cands
    ensures
      x in ReadsStmt(cands, vol, s) <==> x in Names(Fit(Rewrite(Ctx(cands, vol, {x}), s))) || HoldsIn(vol, x, s)
    decreases s, 2
  {
    ReadsExact(cands, vol, x, s);
    FitNames(Rewrite(Ctx(cands, vol, {x}), s));
  }

  lemma {:induction false} ReadsListExact(cands: set<Name>, vol: set<Name>, x: Name, items: seq<Stmt>)
    requires x in cands
    ensures
      x in ReadsList(cands, vol, items) <==>
        x in NamesIn(RewriteList(Ctx(cands, vol, {x}), items)) || HoldsAny(vol, x, items)
    decreases items, 0
  {
    if items != [] {
      hide ReadsStmt, Rewrite, HoldsIn;
      var c := Ctx(cands, vol, {x});
      ReadsExact(cands, vol, x, items[0]);
      ReadsListExact(cands, vol, x, items[1..]);
      NamesAppend(Rewrite(c, items[0]), RewriteList(c, items[1..]));
    }
  }

  // ---- overwritten stores ---------------------------------------------------------------------

  /** `e` is `x = r` where `r` does not read `x`. */
  predicate Sets(x: Name, e: Expr) { e.Assign? && e.aop == None && e.lhs == Var(x) && x !in Vars(e.rhs) }

  /** The statement is such a store, or a `for` that starts with one. */
  predicate SetsFirst(x: Name, s: Stmt) {
    (s.ExprS? && Sets(x, s.e)) || (s.For? && s.init.FExpr? && Sets(x, s.init.e))
  }

  /** Some item of `rest` sets `x` first, and no item before it mentions `x`, jumps or is a target. */
  predicate Overwritten(rest: seq<Stmt>, x: Name) {
    exists k ::
      0 <= k < |rest| && SetsFirst(x, rest[k]) && forall j :: 0 <= j < k ==> x !in Uses(rest[j]) && !Jumps(rest[j])
  }

  /** A store is judged overwritten exactly when it is. */
  lemma {:induction false} KillExact(cands: set<Name>, rest: seq<Stmt>, x: Name)
    requires x in cands
    ensures Kill(cands, rest, x) <==> Overwritten(rest, x)
    decreases rest
  {
    if rest == [] {
      assert !Overwritten(rest, x);
    } else {
      OverwriteExact(cands, rest[0], x);
      if OverwriteOf(cands, rest[0]) != Some(x) { KillExact(cands, rest[1..], x); }
      OverwrittenFirst(rest, x);
    }
  }

  lemma OverwriteExact(cands: set<Name>, s: Stmt, x: Name)
    requires x in cands
    ensures OverwriteOf(cands, s) == Some(x) <==> SetsFirst(x, s)
  {
  }

  lemma OverwrittenFirst(rest: seq<Stmt>, x: Name)
    requires rest != []
    ensures Overwritten(rest, x) <==>
      SetsFirst(x, rest[0]) || (x !in Uses(rest[0]) && !Jumps(rest[0]) && Overwritten(rest[1..], x))
  {
    hide SetsFirst, Uses, Jumps;
    var tail := rest[1..];
    if k :|
      0 <= k < |rest| && SetsFirst(x, rest[k]) && forall j :: 0 <= j < k ==> x !in Uses(rest[j]) && !Jumps(rest[j])
    {
      if k > 0 {
        assert SetsFirst(x, tail[k - 1]) && forall j :: 0 <= j < k - 1 ==> tail[j] == rest[j + 1];
        assert Overwritten(tail, x);
      }
    }
    if SetsFirst(x, rest[0]) {
      assert Overwritten(rest, x);
    } else if x !in Uses(rest[0]) && !Jumps(rest[0]) && Overwritten(tail, x) {
      var k :|
        0 <= k < |tail| && SetsFirst(x, tail[k]) && forall j :: 0 <= j < k ==> x !in Uses(tail[j]) && !Jumps(tail[j]);
      assert SetsFirst(x, rest[k + 1]);
      assert forall j :: 0 <= j < k + 1 ==> j == 0 || rest[j] == tail[j - 1];
      assert Overwritten(rest, x);
    }
  }

  /** The initializer of `ds[k]` can go: the name is overwritten, no later declarator reads it, and
      an effect can stay where it is. */
  predicate InitGoes(cands: set<Name>, vol: set<Name>, ds: seq<Declr>, k: nat, rest: seq<Stmt>)
    requires k < |ds|
  {
    && ds[k].init.InitE? && ds[k].name in cands && (|ds| == 1 || Pure(vol, ds[k].init.e))
    && (forall j :: k < j < |ds| ==> ds[k].name !in VarsInit(ds[j].init)) && Overwritten(rest, ds[k].name)
  }

  /** No store and no initializer of a candidate, in no list below, is overwritten. */
  predicate NoneOverwritten(cands: set<Name>, vol: set<Name>, items: seq<Stmt>)
    decreases items, 0
  {
    items == [] ||
    (NoneOverwritten(cands, vol, items[1..]) &&
     match items[0]
     case ExprS(e) =>
       !(e.Assign? && e.aop == None && e.lhs.Var? && e.lhs.x in cands && Overwritten(items[1..], e.lhs.x))
     case DeclS(_, ds) => forall k :: 0 <= k < |ds| ==> !InitGoes(cands, vol, ds, k, items[1..])
     case _ => NoneBelow(cands, vol, items[0]))
  }

  predicate NoneBelow(cands: set<Name>, vol: set<Name>, s: Stmt)
    decreases s, 1
  {
    match s
    case Block(items) => NoneOverwritten(cands, vol, items)
    case If(_, thn, els) => NoneBelow(cands, vol, thn) && (els.Some? ==> NoneBelow(cands, vol, els.value))
    case While(_, body) => NoneBelow(cands, vol, body)
    case DoWhile(body, _) => NoneBelow(cands, vol, body)
    case For(_, _, _, body) => NoneBelow(cands, vol, body)
    case Switch(_, body) => NoneBelow(cands, vol, body)
    case LabelS(_, body) => NoneBelow(cands, vol, body)
    case _ => true
  }

  // ---- every removal makes the function smaller -------------------------------------------------

  function Chain(e: Expr): nat { if e.Assign? then 1 + Chain(e.rhs) else 0 }

  function InitWeight(i: Init): nat { if i.InitE? then 4 + Chain(i.e) else 0 }

  function DeclsWeight(ds: seq<Declr>): nat { if ds == [] then 0 else InitWeight(ds[0].init) + DeclsWeight(ds[1..]) }

  /** Stores and initializers, one more for each assignment on the right of another. */
  function Weight(s: Stmt): nat
    decreases s, 1
  {
    match s
    case ExprS(e) => 2 + Chain(e)
    case DeclS(_, ds) => DeclsWeight(ds)
    case Block(items) => WeightIn(items)
    case If(_, thn, els) => Weight(thn) + if els.Some? then Weight(els.value) else 0
    case While(_, body) => Weight(body)
    case DoWhile(body, _) => Weight(body)
    case For(_, _, _, body) => Weight(body)
    case Switch(_, body) => Weight(body)
    case LabelS(_, body) => Weight(body)
    case _ => 0
  }

  function WeightIn(items: seq<Stmt>): nat
    decreases items, 0
  {
    if items == [] then 0 else Weight(items[0]) + WeightIn(items[1..])
  }

  lemma {:induction false} WeightAppend(a: seq<Stmt>, b: seq<Stmt>)
    ensures WeightIn(a + b) == WeightIn(a) + WeightIn(b)
    decreases a
  {
    if a == [] {
      assert a + b == b;
    } else {
      assert (a + b)[1..] == a[1..] + b;
      WeightAppend(a[1..], b);
    }
  }

  lemma WeightOne(x: Stmt)
    ensures WeightIn([x]) == Weight(x)
  {
    assert [x][1..] == [];
  }

  lemma {:induction false} DeclsUpdate(ds: seq<Declr>, k: nat, d: Declr)
    requires k < |ds|
    ensures DeclsWeight(ds[k := d]) + InitWeight(ds[k].init) == DeclsWeight(ds) + InitWeight(d.init)
    decreases ds
  {
    hide InitWeight;
    if k > 0 {
      DeclsUpdate(ds[1..], k - 1, d);
      assert ds[k := d][1..] == ds[1..][k - 1 := d];
    } else {
      assert ds[k := d][1..] == ds[1..];
    }
  }

  lemma {:induction false} UsesDeclsExact(ds: seq<Declr>, x: Name)
    ensures x in UsesDecls(ds) <==> exists j :: 0 <= j < |ds| && x in VarsInit(ds[j].init)
    decreases ds
  {
    hide VarsInit;
    if ds != [] {
      UsesDeclsExact(ds[1..], x);
      if j :| 0 <= j < |ds| && x in VarsInit(ds[j].init) {
        if j > 0 { assert ds[1..][j - 1] == ds[j]; }
      }
      if j :| 0 <= j < |ds[1..]| && x in VarsInit(ds[1..][j].init) { assert ds[j + 1] == ds[1..][j]; }
    }
  }

  lemma InitExact(cands: set<Name>, vol: set<Name>, ds: seq<Declr>, k: nat, rest: seq<Stmt>)
    requires k < |ds|
    ensures DropsInit(cands, vol, ds, k, rest) <==> InitGoes(cands, vol, ds, k, rest)
  {
    hide Pure, Kill, Overwritten, VarsInit, UsesDecls;
    var later := ds[k + 1..];
    UsesDeclsExact(later, ds[k].name);
    assert forall j :: 0 <= j < |later| ==> later[j] == ds[k + 1 + j];
    assert forall j :: k < j < |ds| ==> ds[j] == later[j - k - 1];
    if ds[k].name in cands { KillExact(cands, rest, ds[k].name); }
  }

  /** A declaration: nothing goes exactly when no initializer can, and what goes weighs more than the
      statement that may stay of it. */
  lemma {:induction false} DeclsLess(cands: set<Name>, vol: set<Name>, ds: seq<Declr>, k: nat, rest: seq<Stmt>)
    requires k <= |ds|
    ensures
      var r := OverDecls(cands, vol, ds, k, rest);
      if forall j :: k <= j < |ds| ==> !InitGoes(cands, vol, ds, j, rest) then r == ds
      else DeclsWeight(r) + 4 <= DeclsWeight(ds)
    decreases |ds| - k
  {
    if k < |ds| {
      hide Pure, Overwritten, DropsInit, InitGoes;
      InitExact(cands, vol, ds, k, rest);
      var ds2 := if DropsInit(cands, vol, ds, k, rest) then ds[k := ds[k].(init := NoInit)] else ds;
      DeclsLess(cands, vol, ds2, k + 1, rest);
      DeclsUpdate(ds, k, ds[k].(init := NoInit));
      assert DropsInit(cands, vol, ds, k, rest) ==> ds[k].init.InitE? by { DropsIsInit(cands, vol, ds, k, rest); }
      forall j | k < j < |ds| ensures InitGoes(cands, vol, ds2, j, rest) == InitGoes(cands, vol, ds, j, rest) {
        InitLater(cands, vol, ds, ds2, j, rest);
      }
    }
  }

  lemma DropsIsInit(cands: set<Name>, vol: set<Name>, ds: seq<Declr>, k: nat, rest: seq<Stmt>)
    requires k < |ds|
    ensures DropsInit(cands, vol, ds, k, rest) ==> ds[k].init.InitE?
  {
  }

  lemma InitLater(cands: set<Name>, vol: set<Name>, a: seq<Declr>, b: seq<Declr>, j: nat, rest: seq<Stmt>)
    requires j < |a| == |b| && forall i :: j <= i < |a| ==> a[i] == b[i]
    ensures InitGoes(cands, vol, a, j, rest) == InitGoes(cands, vol, b, j, rest)
  {
    hide Pure, Overwritten, VarsInit;
  }

  /** A list: it stays exactly when nothing in it is overwritten, and is smaller otherwise. */
  lemma {:induction false} OverExact(cands: set<Name>, vol: set<Name>, items: seq<Stmt>)
    ensures
      if NoneOverwritten(cands, vol, items) then OverList(cands, vol, items) == items
      else WeightIn(OverList(cands, vol, items)) < WeightIn(items)
    decreases SizeIn(items), 1
  {
    if items != [] {
      hide Pure, Overwritten, InitGoes, NoneBelow, OverIn, OverDecls, OverExtra, Kill, Chain;
      var it, rest := items[0], items[1..];
      assert items == [it] + rest;
      if it.ExprS? {
        StoreExact(cands, vol, items);
      } else if it.DeclS? {
        DeclExact(cands, vol, items);
      } else {
        OverInExact(cands, vol, it);
        OverExact(cands, vol, rest);
        WeightAppend([OverIn(cands, vol, it)], OverList(cands, vol, rest));
      }
    }
  }

  lemma {:induction false} StoreExact(cands: set<Name>, vol: set<Name>, items: seq<Stmt>)
    requires items != [] && items[0].ExprS?
    ensures
      if NoneOverwritten(cands, vol, items) then OverList(cands, vol, items) == items
      else WeightIn(OverList(cands, vol, items)) < WeightIn(items)
    decreases SizeIn(items), 0
  {
    hide Pure, Overwritten, InitGoes, NoneBelow, OverIn, OverDecls, OverExtra, Kill;
    var e, rest, x := items[0].e, items[1..], PlainStore(cands, items[0].e);
    assert items == [items[0]] + rest;
    OverExact(cands, vol, rest);
    if x.Some? { KillExact(cands, rest, x.value); }
    var gone := x.Some? && Kill(cands, rest, x.value);
    var ys := if !gone then [items[0]] else if Pure(vol, e.rhs) then [] else [ExprS(e.rhs)];
    WeightAppend(ys, OverList(cands, vol, rest));
    if ys != [] { assert ys[1..] == [] && WeightIn(ys) == Weight(ys[0]); }
  }

  lemma {:induction false} DeclExact(cands: set<Name>, vol: set<Name>, items: seq<Stmt>)
    requires items != [] && items[0].DeclS?
    ensures
      if NoneOverwritten(cands, vol, items) then OverList(cands, vol, items) == items
      else WeightIn(OverList(cands, vol, items)) < WeightIn(items)
    decreases SizeIn(items), 0
  {
    hide Pure, Overwritten, InitGoes, NoneBelow, OverIn, OverDecls, Kill, Chain, OverExtra, DropsInit;
    var ok, ds, rest := items[0].specsOk, items[0].ds, items[1..];
    var extra, ds2 := OverExtra(cands, vol, ds, rest), OverDecls(cands, vol, ds, 0, rest);
    assert items == [items[0]] + rest;
    ExtraSmaller(cands, vol, items);
    OverExact(cands, vol, extra + rest);
    WeightAppend(extra, rest);
    WeightAppend([DeclS(ok, ds2)], OverList(cands, vol, extra + rest));
    DeclWhole(cands, vol, ok, ds, rest);
    if extra == [] { assert extra + rest == rest; }
  }

  /** What one declaration becomes weighs less, or is the declaration. */
  lemma DeclWhole(cands: set<Name>, vol: set<Name>, ok: bool, ds: seq<Declr>, rest: seq<Stmt>)
    ensures
      var r, extra := OverDecls(cands, vol, ds, 0, rest), OverExtra(cands, vol, ds, rest);
      if forall k :: 0 <= k < |ds| ==> !InitGoes(cands, vol, ds, k, rest) then r == ds && extra == []
      else DeclsWeight(r) + WeightIn(extra) < DeclsWeight(ds)
    ensures forall r :: WeightIn([DeclS(ok, r)]) == DeclsWeight(r)
  {
    hide Pure, Overwritten, DropsInit, InitGoes;
    forall r ensures WeightIn([DeclS(ok, r)]) == DeclsWeight(r) { assert [DeclS(ok, r)][1..] == []; }
    DeclsLess(cands, vol, ds, 0, rest);
    if ds != [] { InitExact(cands, vol, ds, 0, rest); }
    var extra := OverExtra(cands, vol, ds, rest);
    if extra != [] {
      DropsIsInit(cands, vol, ds, 0, rest);
      var d := ds[0].(init := NoInit);
      assert extra[1..] == [] && ds[1..] == [] && ds[0 := d] == [d] && [d][1..] == [];
      assert OverDecls(cands, vol, ds, 0, rest) == OverDecls(cands, vol, [d], 1, rest) == [d];
    }
  }

  lemma {:induction false} OverInExact(cands: set<Name>, vol: set<Name>, s: Stmt)
    requires !s.ExprS? && !s.DeclS?
    ensures
      if NoneBelow(cands, vol, s) then OverIn(cands, vol, s) == s
      else Weight(OverIn(cands, vol, s)) < Weight(s)
    decreases Size(s), 0
  {
    hide NoneOverwritten, OverList;
    match s
    case Block(items) => OverExact(cands, vol, items);
    case If(_, thn, els) =>
      BelowExact(cands, vol, thn);
      if els.Some? { BelowExact(cands, vol, els.value); }
    case While(_, body) => BelowExact(cands, vol, body);
    case DoWhile(body, _) => BelowExact(cands, vol, body);
    case For(_, _, _, body) => BelowExact(cands, vol, body);
    case Switch(_, body) => BelowExact(cands, vol, body);
    case LabelS(_, body) => BelowExact(cands, vol, body);
    case _ =>
  }

  lemma {:induction false} BelowExact(cands: set<Name>, vol: set<Name>, s: Stmt)
    ensures
      if NoneBelow(cands, vol, s) then OverIn(cands, vol, s) == s
      else Weight(OverIn(cands, vol, s)) < Weight(s)
    decreases Size(s), 1
  {
    hide NoneOverwritten, OverList;
    if !s.ExprS? && !s.DeclS? { OverInExact(cands, vol, s); }
  }

  /** The rewriting finds nothing exactly when nothing is overwritten. */
  lemma OverNothingLeft(cands: set<Name>, vol: set<Name>, items: seq<Stmt>)
    ensures OverList(cands, vol, items) == items <==> NoneOverwritten(cands, vol, items)
  {
    OverExact(cands, vol, items);
  }
}
