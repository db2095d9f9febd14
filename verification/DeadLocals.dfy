/** Removal of the stores to locals that no expression reads: the rewriting of
    `simplify`, `stmt` and `decl`, and the proof that a run cannot tell. */
module DeadLocals {
  import opened Wrappers
  import opened CLang
  import opened Frames

  /** The candidate that the discarded expression `e` only stores into. */
  function Target(cands: set<Name>, e: Expr): Option<Name> {
    match e
    case Assign(_, Var(x), _) => if x in cands then Some(x) else None
    case IncDec(_, _, Var(x)) => if x in cands then Some(x) else None
    case _ => None
  }

  // ---- what counts as a read ----------------------------------------------

  /** The names read by an expression whose value is not used. */
  function ReadsDiscarded(cands: set<Name>, vol: set<Name>, e: Expr): set<Name> {
    match e
    case Comma(a, b) => ReadsDiscarded(cands, vol, a) + ReadsDiscarded(cands, vol, b)
    case _ =>
      var x := Target(cands, e);
      if x.None? then Vars(e)
      else if e.Assign? then (if Pure(vol, e.rhs) then Vars(e.rhs) - {x.value} else Vars(e.rhs))
      else {}
  }

  function ReadsDiscardedOpt(cands: set<Name>, vol: set<Name>, e: Option<Expr>): set<Name> {
    if e.Some? then ReadsDiscarded(cands, vol, e.value) else {}
  }

  function VarsInit(i: Init): set<Name> {
    match i
    case NoInit => {}
    case InitE(e) => Vars(e)
    case InitList(es) => VarsArgs(es)
  }

  /** A declarator whose initializer the pass cannot move keeps its name alive. */
  predicate Pinned(vol: set<Name>, d: Declr, multi: bool) {
    d.init.InitList? || (d.init.InitE? && multi && !Pure(vol, d.init.e))
  }

  function ReadsDecls(vol: set<Name>, ds: seq<Declr>, multi: bool): set<Name> {
    if ds == [] then {}
    else
      VarsInit(ds[0].init) + (if Pinned(vol, ds[0], multi) then {ds[0].name} else {})
      + ReadsDecls(vol, ds[1..], multi)
  }

  function DeclNames(ds: seq<Declr>): set<Name> {
    if ds == [] then {} else {ds[0].name} + DeclNames(ds[1..])
  }

  function ReadsInit(cands: set<Name>, vol: set<Name>, i: ForInit): set<Name> {
    match i
    case FNone => {}
    case FExpr(e) => ReadsDiscarded(cands, vol, e)
    case FDecl(_, ds) => DeclNames(ds) + ReadsDecls(vol, ds, |ds| > 1)
  }

  /** The names read in a statement. */
  function ReadsStmt(cands: set<Name>, vol: set<Name>, s: Stmt): set<Name>
    decreases s, 1
  {
    match s
    case Empty => {}
    case ExprS(e) => ReadsDiscarded(cands, vol, e)
    case Block(items) => ReadsList(cands, vol, items)
    case DeclS(_, ds) => ReadsDecls(vol, ds, |ds| > 1)
    case If(c, thn, els) =>
      Vars(c) + ReadsStmt(cands, vol, thn) + (if els.Some? then ReadsStmt(cands, vol, els.value) else {})
    case While(c, body) => Vars(c) + ReadsStmt(cands, vol, body)
    case DoWhile(body, c) => ReadsStmt(cands, vol, body) + Vars(c)
    case For(init, cond, upd, body) =>
      ReadsInit(cands, vol, init) + VarsOpt(cond) + ReadsDiscardedOpt(cands, vol, upd)
      + ReadsStmt(cands, vol, body)
    case Switch(e, body) => Vars(e) + ReadsStmt(cands, vol, body)
    case LabelS(_, body) => ReadsStmt(cands, vol, body)
    case Return(r) => VarsOpt(r)
    case _ => {}
  }

  function ReadsList(cands: set<Name>, vol: set<Name>, items: seq<Stmt>): set<Name>
    decreases items, 0
  {
    if items == [] then {} else ReadsStmt(cands, vol, items[0]) + ReadsList(cands, vol, items[1..])
  }

  // ---- the rewriting --------------------------------------------------------

  /** What the rewriting knows: the candidates, the volatile names, the dead names. */
  datatype Ctx = Ctx(cands: set<Name>, vol: set<Name>, dead: set<Name>)

  /** The discarded expression without its stores to the dead names. */
  function Simplify(c: Ctx, e: Expr): Option<Expr> {
    match e
    case Comma(a, b) =>
      var l, r := Simplify(c, a), Simplify(c, b);
      if l.None? then r else if r.None? then l else Some(Comma(l.value, r.value))
    case _ =>
      var x := Target(c.cands, e);
      if x.None? || x.value !in c.dead then Some(e)
      else if e.Assign? && !Pure(c.vol, e.rhs) then Some(e.rhs)
      else None
  }

  function SimplifyOpt(c: Ctx, e: Option<Expr>): Option<Expr> {
    if e.Some? then Simplify(c, e.value) else None
  }

  function SimplifyInit(c: Ctx, i: ForInit): ForInit {
    match i
    case FExpr(e) => var r := Simplify(c, e); if r.Some? then FExpr(r.value) else FNone
    case _ => i
  }

  /** The declarators that stay. */
  function KeepDecls(c: Ctx, ds: seq<Declr>): seq<Declr> {
    if ds == [] then []
    else if ds[0].name in c.dead then KeepDecls(c, ds[1..])
    else [ds[0]] + KeepDecls(c, ds[1..])
  }

  /** The initializers of dead declarators that stay as statements. */
  function ExtraStmts(c: Ctx, ds: seq<Declr>): seq<Stmt> {
    if ds == [] then []
    else if ds[0].name in c.dead && ds[0].init.InitE? && !Pure(c.vol, ds[0].init.e) then
      [ExprS(ds[0].init.e)] + ExtraStmts(c, ds[1..])
    else ExtraStmts(c, ds[1..])
  }

  function RewriteDecl(c: Ctx, s: Stmt): seq<Stmt>
    requires s.DeclS?
  {
    var keep := KeepDecls(c, s.ds);
    if keep == s.ds then [s]
    else (if keep == [] then [] else [DeclS(s.specsOk, keep)]) + ExtraStmts(c, s.ds)
  }

  /** Put a list of statements where one statement stood. */
  function Fit(ss: seq<Stmt>): Stmt {
    if |ss| == 1 then ss[0] else if ss == [] then Empty else Block(ss)
  }

  function Rewrite(c: Ctx, s: Stmt): seq<Stmt>
    decreases s, 1
  {
    match s
    case ExprS(e) => var r := Simplify(c, e); if r.None? then [] else [ExprS(r.value)]
    case Block(items) => [Block(RewriteList(c, items))]
    case DeclS(_, _) => RewriteDecl(c, s)
    case For(init, cond, upd, body) =>
      [For(SimplifyInit(c, init), cond, SimplifyOpt(c, upd), Fit(Rewrite(c, body)))]
    case If(e, thn, els) =>
      [If(e, Fit(Rewrite(c, thn)), if els.Some? then Some(Fit(Rewrite(c, els.value))) else None)]
    case While(e, body) => [While(e, Fit(Rewrite(c, body)))]
    case DoWhile(body, e) => [DoWhile(Fit(Rewrite(c, body)), e)]
    case Switch(e, body) => [Switch(e, Fit(Rewrite(c, body)))]
    case LabelS(l, body) => [LabelS(l, Fit(Rewrite(c, body)))]
    case _ => [s]
  }

  function RewriteList(c: Ctx, items: seq<Stmt>): seq<Stmt>
    decreases items, 0
  {
    if items == [] then [] else Rewrite(c, items[0]) + RewriteList(c, items[1..])
  }

  // ---- the runs are the same ------------------------------------------------

  /** The world treats the dead names as plain locals: no address, not volatile. */
  ghost predicate PlainLocals(w: World, c: Ctx) {
    c.dead <= c.cands && c.dead !! w.inMem && c.dead !! w.arrays && c.dead !! w.vol && w.vol == c.vol
  }

  lemma {:induction false} SimplifySame(w: World, c: Ctx, e: Expr, s: State, t: State)
    requires PlainLocals(w, c) && AgreeOff(c.dead, s, t)
    requires ReadsDiscarded(c.cands, c.vol, e) !! c.dead
    ensures AgreeOff(c.dead, Eval(w, e, s).1, EvalOpt(w, Simplify(c, e), t))
  {
    if e.Comma? {
      SimplifySame(w, c, e.a, s, t);
      SimplifySame(w, c, e.b, Eval(w, e.a, s).1, EvalOpt(w, Simplify(c, e.a), t));
    } else {
      var x := Target(c.cands, e);
      if x.Some? && x.value in c.dead {
        DeadStoreGone(w, c, e, x.value, s, t);
      } else {
        EvalAgree(w, c.dead, e, s, t);
      }
    }
  }

  lemma {:induction false} DeadStoreGone(w: World, c: Ctx, e: Expr, x: Name, s: State, t: State)
    requires PlainLocals(w, c) && AgreeOff(c.dead, s, t)
    requires Target(c.cands, e) == Some(x) && x in c.dead
    requires ReadsDiscarded(c.cands, c.vol, e) !! c.dead
    ensures AgreeOff(c.dead, Eval(w, e, s).1, EvalOpt(w, Simplify(c, e), t))
  {
    if e.Assign? {
      if Pure(c.vol, e.rhs) {
        PureEval(w, e.rhs, s);
      } else {
        EvalAgree(w, c.dead, e.rhs, s, t);
      }
    }
  }

  lemma {:induction false} DeclrSame(w: World, D: set<Name>, d: Declr, s: State, t: State)
    requires VarsInit(d.init) !! D && d.name !in D && AgreeOff(D, s, t)
    ensures AgreeOff(D, ExecDeclr(w, d, s), ExecDeclr(w, d, t))
  {
    match d.init
    case NoInit =>
    case InitE(e) => EvalAgree(w, D, e, s, t);
    case InitList(es) => InitsSame(w, D, d.name, es, 0, s, t);
  }

  lemma {:induction false} InitsSame(w: World, D: set<Name>, x: Name, es: seq<Expr>, k: int, s: State, t: State)
    requires VarsArgs(es) !! D && AgreeOff(D, s, t)
    ensures AgreeOff(D, EvalInits(w, x, es, k, s), EvalInits(w, x, es, k, t))
    decreases es
  {
    if es != [] {
      EvalAgree(w, D, es[0], s, t);
      var rs, rt := Eval(w, es[0], s), Eval(w, es[0], t);
      var p := PMem(x, k, false);
      InitsSame(w, D, x, es[1..], k + 1, Write(w, p, rs.0, rs.1).1, Write(w, p, rt.0, rt.1).1);
    }
  }

  /** Every dead declarator of the list has a pure initializer or none. */
  predicate DropsPure(c: Ctx, ds: seq<Declr>) {
    forall k :: 0 <= k < |ds| && ds[k].name in c.dead ==>
      ds[k].init.NoInit? || (ds[k].init.InitE? && Pure(c.vol, ds[k].init.e))
  }

  lemma {:induction false} KeepSame(w: World, c: Ctx, ds: seq<Declr>, multi: bool, s: State, t: State)
    requires PlainLocals(w, c) && AgreeOff(c.dead, s, t)
    requires ReadsDecls(c.vol, ds, multi) !! c.dead && DropsPure(c, ds)
    ensures AgreeOff(c.dead, ExecDecls(w, ds, s), ExecDecls(w, KeepDecls(c, ds), t))
    ensures ExtraStmts(c, ds) == []
    decreases ds
  {
    if ds != [] {
      var d, s1 := ds[0], ExecDeclr(w, ds[0], s);
      if d.name in c.dead {
        if d.init.InitE? {
          PureEval(w, d.init.e, s);
        }
        KeepSame(w, c, ds[1..], multi, s1, t);
      } else {
        DeclrSame(w, c.dead, d, s, t);
        var keep := KeepDecls(c, ds);
        assert keep[0] == d && keep[1..] == KeepDecls(c, ds[1..]);
        KeepSame(w, c, ds[1..], multi, s1, ExecDeclr(w, d, t));
      }
    }
  }

  lemma {:induction false} MultiDropsPure(c: Ctx, ds: seq<Declr>, multi: bool)
    requires ReadsDecls(c.vol, ds, multi) !! c.dead && multi
    ensures DropsPure(c, ds)
    decreases ds
  {
    if ds != [] {
      MultiDropsPure(c, ds[1..], multi);
      assert forall k :: 1 <= k < |ds| ==> ds[k] == ds[1..][k - 1];
    }
  }

  lemma {:induction false} DeclSame(w: World, fuel: nat, c: Ctx, st: Stmt, s: State, t: State)
    requires st.DeclS? && PlainLocals(w, c) && AgreeOff(c.dead, s, t)
    requires ReadsStmt(c.cands, c.vol, st) !! c.dead
    ensures
      var r := ExecList(w, fuel, RewriteDecl(c, st), Run, t);
      r.0 == Norm && AgreeOff(c.dead, ExecDecls(w, st.ds, s), r.1)
  {
    var ds := st.ds;
    if |ds| == 1 && ds[0].name in c.dead && ds[0].init.InitE? && !Pure(c.vol, ds[0].init.e) {
      var e := ds[0].init.e;
      assert Vars(e) <= ReadsDecls(c.vol, ds, false);
      EvalAgree(w, c.dead, e, s, t);
      assert ds[1..] == [] && KeepDecls(c, ds) == [];
      assert ExtraStmts(c, ds) == [ExprS(e)];
      assert ExecList(w, fuel, [ExprS(e)], Run, t) == (Norm, Eval(w, e, t).1);
      assert ExecDecls(w, ds, s) == ExecDeclr(w, ds[0], s);
    } else {
      if |ds| > 1 {
        MultiDropsPure(c, ds, true);
      } else if |ds| == 1 {
        assert ReadsDecls(c.vol, ds[1..], false) == {};
      }
      KeepSame(w, c, ds, |ds| > 1, s, t);
      var keep := KeepDecls(c, ds);
      if keep != [] {
        assert ExecList(w, fuel, [DeclS(st.specsOk, keep)], Run, t) == (Norm, ExecDecls(w, keep, t));
        assert RewriteDecl(c, st) == [DeclS(st.specsOk, keep)];
      }
    }
  }

  /** The rewriting keeps every label. */
  lemma {:induction false} LabelsStay(c: Ctx, s: Stmt, l: Label)
    ensures HasLabelIn(Rewrite(c, s), l) == HasLabel(s, l)
    ensures HasLabel(Fit(Rewrite(c, s)), l) == HasLabel(s, l)
    decreases s, 1
  {
    match s
    case Block(items) => LabelsStayIn(c, items, l);
    case DeclS(_, ds) => ExtraNoLabel(c, ds, l);
      var keep := KeepDecls(c, ds);
      LabelAppend(if keep == [] then [] else [DeclS(s.specsOk, keep)], ExtraStmts(c, ds), l);
    case For(_, _, _, body) => LabelsStay(c, body, l);
    case If(_, thn, els) =>
      LabelsStay(c, thn, l);
      if els.Some? { LabelsStay(c, els.value, l); }
    case While(_, body) => LabelsStay(c, body, l);
    case DoWhile(body, _) => LabelsStay(c, body, l);
    case Switch(_, body) => LabelsStay(c, body, l);
    case LabelS(_, body) => LabelsStay(c, body, l);
    case _ =>
  }

  lemma {:induction false} ExtraNoLabel(c: Ctx, ds: seq<Declr>, l: Label)
    ensures !HasLabelIn(ExtraStmts(c, ds), l)
    decreases ds
  {
    if ds != [] {
      ExtraNoLabel(c, ds[1..], l);
      var x := ExtraStmts(c, ds);
      assert x == ExtraStmts(c, ds[1..]) || (x != [] && x[0].ExprS? && x[1..] == ExtraStmts(c, ds[1..]));
    }
  }

  lemma {:induction false} LabelsStayIn(c: Ctx, items: seq<Stmt>, l: Label)
    ensures HasLabelIn(RewriteList(c, items), l) == HasLabelIn(items, l)
    decreases items, 0
  {
    if items != [] {
      LabelsStay(c, items[0], l);
      LabelsStayIn(c, items[1..], l);
      LabelAppend(Rewrite(c, items[0]), RewriteList(c, items[1..]), l);
    }
  }

  /** Two runs end in the same way, in states that agree outside `D`. */
  ghost predicate SameEnd(D: set<Name>, a: (Out, State), b: (Out, State)) {
    a.0 == b.0 && AgreeOff(D, a.1, b.1)
  }

  predicate Enters(s: Stmt, m: Mode) {
    m.Run? || HasLabel(s, m.lab)
  }

  lemma FitSame(w: World, fuel: nat, ss: seq<Stmt>, m: Mode, t: State)
    requires m.Run? || HasLabelIn(ss, m.lab)
    ensures Exec(w, fuel, Fit(ss), m, t) == ExecList(w, fuel, ss, m, t)
  {
    if |ss| == 1 {
      assert ss[1..] == [];
      var r := Exec(w, fuel, ss[0], m, t);
    }
  }

  /** The main simulation, for one statement: started in states that agree outside the
      dead names, the statement and its rewriting end alike, for every fuel. */
  lemma {:induction false} StmtSame(w: World, fuel: nat, c: Ctx, x: Stmt, m: Mode, s: State, t: State)
    requires PlainLocals(w, c) && AgreeOff(c.dead, s, t) && Enters(x, m)
    requires ReadsStmt(c.cands, c.vol, x) !! c.dead
    ensures SameEnd(c.dead, Exec(w, fuel, x, m, s), ExecList(w, fuel, Rewrite(c, x), m, t))
    ensures SameEnd(c.dead, Exec(w, fuel, x, m, s), Exec(w, fuel, Fit(Rewrite(c, x)), m, t))
    decreases fuel, x, 1
  {
    hide Eval, Loop, ExecDecls, Pure, Target;
    if m.Seek? { LabelsStay(c, x, m.lab); }
    FitSame(w, fuel, Rewrite(c, x), m, t);
    match x
    case ExprS(e) =>
      SimplifySame(w, c, e, s, t);
      var r := Simplify(c, e);
      if r.Some? { OneStmt(w, fuel, ExprS(r.value), m, t); }
    case Block(items) =>
      ListSame(w, fuel, c, items, m, s, t);
      OneStmt(w, fuel, Block(RewriteList(c, items)), m, t);
    case DeclS(_, _) => DeclSame(w, fuel, c, x, s, t);
    case For(init, cond, upd, body) =>
      var y := Rewrite(c, x)[0];
      OneStmt(w, fuel, y, m, t);
      if m.Seek? {
        LoopSame(w, fuel, c, cond, upd, body, m, true, s, t);
      } else {
        InitSame(w, c, init, s, t);
        LoopSame(w, fuel, c, cond, upd, body, Run, false, ExecInit(w, init, s), ExecInit(w, y.init, t));
      }
    case If(_, _, _) => IfSame(w, fuel, c, x, m, s, t);
    case While(e, body) =>
      OneStmt(w, fuel, Rewrite(c, x)[0], m, t);
      LoopSame(w, fuel, c, Some(e), None, body, m, m.Seek?, s, t);
    case DoWhile(body, e) =>
      OneStmt(w, fuel, Rewrite(c, x)[0], m, t);
      LoopSame(w, fuel, c, Some(e), None, body, m, true, s, t);
    case Switch(_, _) => SwitchSame(w, fuel, c, x, m, s, t);
    case LabelS(l, body) =>
      OneStmt(w, fuel, Rewrite(c, x)[0], m, t);
      StmtSame(w, fuel, c, body, if m == Seek(l) then Run else m, s, t);
    case Return(r) =>
      if r.Some? { EvalAgree(w, c.dead, r.value, s, t); }
      OneStmt(w, fuel, x, m, t);
    case _ => OneStmt(w, fuel, x, m, t);
  }

  lemma OneStmt(w: World, fuel: nat, y: Stmt, m: Mode, t: State)
    requires Enters(y, m)
    ensures ExecList(w, fuel, [y], m, t) == Exec(w, fuel, y, m, t)
  {
    assert [y][1..] == [];
  }

  lemma {:induction false} InitSame(w: World, c: Ctx, i: ForInit, s: State, t: State)
    requires PlainLocals(w, c) && AgreeOff(c.dead, s, t)
    requires ReadsInit(c.cands, c.vol, i) !! c.dead
    ensures AgreeOff(c.dead, ExecInit(w, i, s), ExecInit(w, SimplifyInit(c, i), t))
  {
    match i
    case FNone =>
    case FExpr(e) => SimplifySame(w, c, e, s, t);
    case FDecl(_, ds) => PinnedDecls(w, c, ds, |ds| > 1, s, t);
  }

  lemma {:induction false} PinnedDecls(w: World, c: Ctx, ds: seq<Declr>, multi: bool, s: State, t: State)
    requires AgreeOff(c.dead, s, t)
    requires DeclNames(ds) !! c.dead && ReadsDecls(c.vol, ds, multi) !! c.dead
    ensures AgreeOff(c.dead, ExecDecls(w, ds, s), ExecDecls(w, ds, t))
    decreases ds
  {
    if ds != [] {
      DeclrSame(w, c.dead, ds[0], s, t);
      PinnedDecls(w, c, ds[1..], multi, ExecDeclr(w, ds[0], s), ExecDeclr(w, ds[0], t));
    }
  }

  lemma {:induction false} IfSame(w: World, fuel: nat, c: Ctx, x: Stmt, m: Mode, s: State, t: State)
    requires x.If? && PlainLocals(w, c) && AgreeOff(c.dead, s, t) && Enters(x, m)
    requires ReadsStmt(c.cands, c.vol, x) !! c.dead
    ensures SameEnd(c.dead, Exec(w, fuel, x, m, s), ExecList(w, fuel, Rewrite(c, x), m, t))
    decreases fuel, x, 0
  {
    var y := Rewrite(c, x)[0];
    if m.Seek? {
      LabelsStay(c, x, m.lab);
      LabelsStay(c, x.thn, m.lab);
      if HasLabel(x.thn, m.lab) {
        StmtSame(w, fuel, c, x.thn, m, s, t);
      } else {
        StmtSame(w, fuel, c, x.els.value, m, s, t);
      }
    } else {
      EvalAgree(w, c.dead, x.c, s, t);
      var rs, rt := Eval(w, x.c, s), Eval(w, x.c, t);
      if w.truth(rs.0) {
        StmtSame(w, fuel, c, x.thn, Run, rs.1, rt.1);
      } else if x.els.Some? {
        StmtSame(w, fuel, c, x.els.value, Run, rs.1, rt.1);
      }
    }
    OneStmt(w, fuel, y, m, t);
  }

  lemma {:induction false} SwitchSame(w: World, fuel: nat, c: Ctx, x: Stmt, m: Mode, s: State, t: State)
    requires x.Switch? && PlainLocals(w, c) && AgreeOff(c.dead, s, t) && Enters(x, m)
    requires ReadsStmt(c.cands, c.vol, x) !! c.dead
    ensures SameEnd(c.dead, Exec(w, fuel, x, m, s), ExecList(w, fuel, Rewrite(c, x), m, t))
    decreases fuel, x, 0
  {
    var y := Rewrite(c, x)[0];
    if m.Seek? {
      LabelsStay(c, x, m.lab);
      StmtSame(w, fuel, c, x.body, m, s, t);
    } else {
      EvalAgree(w, c.dead, x.e, s, t);
      var rs, rt := Eval(w, x.e, s), Eval(w, x.e, t);
      var v := w.caseOf(rs.0);
      LabelsStay(c, x.body, CaseOf(v));
      LabelsStay(c, x.body, Default);
      var g := SwitchTarget(x.body, v);
      if g.Some? {
        StmtSame(w, fuel, c, x.body, Seek(g.value), rs.1, rt.1);
      }
    }
    OneStmt(w, fuel, y, m, t);
  }

  lemma {:induction false} TurnSame(w: World, fuel: nat, c: Ctx, cond: Option<Expr>,
                                    body: Stmt, m: Mode, enter: bool, s: State, t: State)
    requires PlainLocals(w, c) && AgreeOff(c.dead, s, t) && (m.Run? || (enter && HasLabel(body, m.lab)))
    requires VarsOpt(cond) !! c.dead && ReadsStmt(c.cands, c.vol, body) !! c.dead
    ensures
      var a, b := Turn(w, fuel, cond, body, m, enter, s), Turn(w, fuel, cond, Fit(Rewrite(c, body)), m, enter, t);
      a.0 == b.0 && AgreeOff(c.dead, a.1, b.1)
    decreases fuel, body, 2
  {
    hide Eval, Test, Exec, Rewrite, Fit, AgreeOff;
    TestAgree(w, c.dead, cond, enter, s, t);
    var ts, tt := Test(w, cond, enter, s), Test(w, cond, enter, t);
    if ts.0 {
      StmtSame(w, fuel, c, body, m, ts.1, tt.1);
    }
  }

  lemma {:induction false} LoopSame(w: World, fuel: nat, c: Ctx, cond: Option<Expr>, upd: Option<Expr>,
                                    body: Stmt, m: Mode, enter: bool, s: State, t: State)
    requires PlainLocals(w, c) && AgreeOff(c.dead, s, t) && (m.Run? || (enter && HasLabel(body, m.lab)))
    requires VarsOpt(cond) !! c.dead && ReadsDiscardedOpt(c.cands, c.vol, upd) !! c.dead
    requires ReadsStmt(c.cands, c.vol, body) !! c.dead
    ensures SameEnd(c.dead, Loop(w, fuel, cond, upd, body, m, enter, s),
                    Loop(w, fuel, cond, SimplifyOpt(c, upd), Fit(Rewrite(c, body)), m, enter, t))
    decreases fuel, body, 3
  {
    TurnSame(w, fuel, c, cond, body, m, enter, s, t);
    var a, b := Turn(w, fuel, cond, body, m, enter, s), Turn(w, fuel, cond, Fit(Rewrite(c, body)), m, enter, t);
    if a.0.None? && fuel > 0 {
      if upd.Some? { SimplifySame(w, c, upd.value, a.1, b.1); }
      LoopSame(w, fuel - 1, c, cond, upd, body, Run, false,
               EvalOpt(w, upd, a.1), EvalOpt(w, SimplifyOpt(c, upd), b.1));
    }
  }

  lemma {:induction false} ListSame(w: World, fuel: nat, c: Ctx, items: seq<Stmt>, m: Mode, s: State, t: State)
    requires PlainLocals(w, c) && AgreeOff(c.dead, s, t)
    requires ReadsList(c.cands, c.vol, items) !! c.dead
    ensures SameEnd(c.dead, ExecList(w, fuel, items, m, s), ExecList(w, fuel, RewriteList(c, items), m, t))
    decreases fuel, items, 0
  {
    if items != [] {
      var x, rest := items[0], items[1..];
      ExecAppend(w, fuel, Rewrite(c, x), RewriteList(c, rest), m, t);
      if m.Seek? { LabelsStay(c, x, m.lab); }
      if m.Seek? && !HasLabel(x, m.lab) {
        ListSame(w, fuel, c, rest, m, s, t);
      } else {
        StmtSame(w, fuel, c, x, m, s, t);
        var rs, rt := Exec(w, fuel, x, m, s), ExecList(w, fuel, Rewrite(c, x), m, t);
        if rs.0 == Norm {
          ListSame(w, fuel, c, rest, Run, rs.1, rt.1);
        }
      }
    }
  }

  // ---- no dead name is left ---------------------------------------------------

  function NamesDecls(ds: seq<Declr>): set<Name> {
    if ds == [] then {} else {ds[0].name} + VarsInit(ds[0].init) + NamesDecls(ds[1..])
  }

  function NamesInit(i: ForInit): set<Name> {
    match i
    case FNone => {}
    case FExpr(e) => Vars(e)
    case FDecl(_, ds) => NamesDecls(ds)
  }

  /** The names that occur in a statement, declared names too. */
  function Names(s: Stmt): set<Name>
    decreases s, 1
  {
    match s
    case ExprS(e) => Vars(e)
    case Block(items) => NamesIn(items)
    case DeclS(_, ds) => NamesDecls(ds)
    case If(c, thn, els) => Vars(c) + Names(thn) + (if els.Some? then Names(els.value) else {})
    case While(c, body) => Vars(c) + Names(body)
    case DoWhile(body, c) => Names(body) + Vars(c)
    case For(init, cond, upd, body) => NamesInit(init) + VarsOpt(cond) + VarsOpt(upd) + Names(body)
    case Switch(e, body) => Vars(e) + Names(body)
    case LabelS(_, body) => Names(body)
    case Return(r) => VarsOpt(r)
    case _ => {}
  }

  function NamesIn(items: seq<Stmt>): set<Name>
    decreases items, 0
  {
    if items == [] then {} else Names(items[0]) + NamesIn(items[1..])
  }

  lemma {:induction false} NamesAppend(a: seq<Stmt>, b: seq<Stmt>)
    ensures NamesIn(a + b) == NamesIn(a) + NamesIn(b)
    decreases a
  {
    if a == [] {
      assert a + b == b;
    } else {
      assert (a + b)[1..] == a[1..] + b;
      NamesAppend(a[1..], b);
    }
  }

  lemma {:induction false} SimplifyNames(c: Ctx, e: Expr)
    requires c.dead <= c.cands && ReadsDiscarded(c.cands, c.vol, e) !! c.dead
    ensures VarsOpt(Simplify(c, e)) !! c.dead
  {
    if e.Comma? {
      SimplifyNames(c, e.a);
      SimplifyNames(c, e.b);
    } else {
      var x := Target(c.cands, e);
      if x.Some? && x.value !in c.dead {
        assert Vars(e) <= ReadsDiscarded(c.cands, c.vol, e) + {x.value};
      }
    }
  }

  lemma {:induction false} DeclNamesGone(c: Ctx, ds: seq<Declr>, multi: bool)
    requires ReadsDecls(c.vol, ds, multi) !! c.dead
    ensures NamesDecls(KeepDecls(c, ds)) !! c.dead && NamesIn(ExtraStmts(c, ds)) !! c.dead
    ensures KeepDecls(c, ds) == ds ==> ExtraStmts(c, ds) == []
    ensures |KeepDecls(c, ds)| <= |ds|
    decreases ds
  {
    if ds != [] {
      DeclNamesGone(c, ds[1..], multi);
      var keep, extra := KeepDecls(c, ds), ExtraStmts(c, ds);
      if ds[0].name in c.dead {
        if ds[0].init.InitE? && !Pure(c.vol, ds[0].init.e) {
          assert extra[1..] == ExtraStmts(c, ds[1..]);
        }
      } else {
        assert keep[1..] == KeepDecls(c, ds[1..]);
      }
    }
  }

  lemma {:induction false} PinnedNames(c: Ctx, ds: seq<Declr>, multi: bool)
    requires ReadsDecls(c.vol, ds, multi) !! c.dead && DeclNames(ds) !! c.dead
    ensures NamesDecls(ds) !! c.dead
    decreases ds
  {
    if ds != [] {
      PinnedNames(c, ds[1..], multi);
    }
  }

  lemma OneName(s: Stmt)
    ensures NamesIn([s]) == Names(s)
  {
    assert [s][1..] == [];
  }

  /** No dead name is left in the rewritten tree, so the pass never has to give up. */
  lemma {:induction false} NamesGone(c: Ctx, s: Stmt)
    requires c.dead <= c.cands && ReadsStmt(c.cands, c.vol, s) !! c.dead
    ensures NamesIn(Rewrite(c, s)) !! c.dead && Names(Fit(Rewrite(c, s))) !! c.dead
    decreases s, 1
  {
    if |Rewrite(c, s)| == 1 { OneName(Rewrite(c, s)[0]); }
    match s
    case ExprS(e) =>
      SimplifyNames(c, e);
    case Block(items) =>
      NamesGoneIn(c, items);
    case DeclS(ok, ds) =>
      DeclNamesGone(c, ds, |ds| > 1);
      var keep := KeepDecls(c, ds);
      NamesAppend(if keep == [] then [] else [DeclS(ok, keep)], ExtraStmts(c, ds));
      OneName(DeclS(ok, keep));
    case If(_, thn, els) =>
      NamesGone(c, thn);
      if els.Some? { NamesGone(c, els.value); }
    case While(_, body) => NamesGone(c, body);
    case DoWhile(body, _) => NamesGone(c, body);
    case For(init, _, upd, body) =>
      NamesGone(c, body);
      if upd.Some? { SimplifyNames(c, upd.value); }
      if init.FExpr? { SimplifyNames(c, init.e); }
      if init.FDecl? { PinnedNames(c, init.ds, |init.ds| > 1); }
    case Switch(_, body) => NamesGone(c, body);
    case LabelS(_, body) => NamesGone(c, body);
    case _ =>
  }

  lemma {:induction false} NamesGoneIn(c: Ctx, items: seq<Stmt>)
    requires c.dead <= c.cands && ReadsList(c.cands, c.vol, items) !! c.dead
    ensures NamesIn(RewriteList(c, items)) !! c.dead
    decreases items, 0
  {
    if items != [] {
      NamesGone(c, items[0]);
      NamesGoneIn(c, items[1..]);
      NamesAppend(Rewrite(c, items[0]), RewriteList(c, items[1..]));
    }
  }

  // ---- the main result ----------------------------------------------------------

  /** Dead-local removal preserves meaning: with no read of a dead name in the body, the
      rewritten body has, for every fuel and every start, the same end, the same memory,
      the same effects and the same value of every variable that is not dead. */
  lemma {:induction false} BodySame(w: World, fuel: nat, c: Ctx, items: seq<Stmt>, m: Mode, s: State, t: State)
    requires PlainLocals(w, c) && AgreeOff(c.dead, s, t)
    requires ReadsList(c.cands, c.vol, items) !! c.dead
    ensures SameEnd(c.dead, RunBody(w, fuel, items, m, s), RunBody(w, fuel, RewriteList(c, items), m, t))
    decreases fuel
  {
    ListSame(w, fuel, c, items, m, s, t);
    var rs, rt := ExecList(w, fuel, items, m, s), ExecList(w, fuel, RewriteList(c, items), m, t);
    if rs.0.Jump? {
      LabelsStayIn(c, items, Named(rs.0.l));
      if HasLabelIn(items, Named(rs.0.l)) && fuel > 0 {
        BodySame(w, fuel - 1, c, items, Seek(Named(rs.0.l)), rs.1, rt.1);
      }
    }
  }
}
