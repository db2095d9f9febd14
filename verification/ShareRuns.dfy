/** The runs of a function with and without the shared pointer are the same. */
module ShareRuns {
  import opened Wrappers
  import opened CLang
  import opened Frames
  import opened DeadLocals
  import opened Overwrites
  import opened AddrShare

  // ---- expressions inside a run -------------------------------------------------------

  lemma {:induction false} RootPlace(w: World, T: Types, e: Expr, s: State)
    requires Knows(w, T) && RootOf(T, e).Some?
    ensures EvalPlace(w, e, s).0.PMem? ==> EvalPlace(w, e, s).0.obj in {RootOf(T, e).value, ""}
    ensures ArrayTyped(T, e) ==> Loc(Eval(w, e, s).0).0 in {RootOf(T, e).value, ""}
  {
    match e
    case Index(arr, _, _, _, _) => RootPlace(w, T, arr, s);
    case Member(e1, _, _, _) => RootPlace(w, T, e1, s);
    case _ =>
  }

  /** A store to this place cannot change the shared address. */
  ghost predicate Harmless(sh: Share, p: Place) {
    && (p.PVar? ==> p.x !in KeyNames(Addr(sh)) && p.x != sh.tmp)
    && (p.PMem? ==> p.obj !in Roots(Addr(sh)))
  }

  lemma StoreSafe(w: World, sh: Share, lv: Expr, s: State)
    requires Suits(w, sh) && sh.tmp !in Vars(lv) && Quiet(sh, NoteStore(sh.T, lv))
    ensures Harmless(sh, EvalPlace(w, lv, s).0)
  {
    RootsNamed(Addr(sh));
    if RootOf(sh.T, lv).Some? { RootPlace(w, sh.T, lv, s); }
  }

  lemma SameAddr(w: World, sh: Share, s: State, s1: State)
    requires Suits(w, sh)
    requires forall x :: x in KeyNames(Addr(sh)) ==> Get(s.env, x) == Get(s1.env, x)
    requires forall o: Name, f: int :: o in Roots(Addr(sh)) ==> Load(s.mem, (o, f)) == Load(s1.mem, (o, f))
    ensures KLoc(w, Addr(sh), s) == KLoc(w, Addr(sh), s1)
  {
    KeyFrame(w, Addr(sh), s, s1);
  }

  lemma WriteHolds(w: World, sh: Share, p: Place, v: Value, s: State, t: State)
    requires Suits(w, sh) && Holds(w, sh, s, t) && Harmless(sh, p)
    ensures Write(w, p, v, s).0 == Write(w, p, v, t).0
    ensures Holds(w, sh, Write(w, p, v, s).1, Write(w, p, v, t).1)
  {
    SameAddr(w, sh, s, Write(w, p, v, s).1);
  }

  lemma ReadHolds(w: World, sh: Share, p: Place, s: State, t: State)
    requires Suits(w, sh) && Holds(w, sh, s, t) && (p.PVar? ==> p.x != sh.tmp)
    ensures Read(w, p, s).0 == Read(w, p, t).0
    ensures Holds(w, sh, Read(w, p, s).1, Read(w, p, t).1)
  {
    SameAddr(w, sh, s, Read(w, p, s).1);
  }

  lemma ModifyHolds(w: World, sh: Share, p: Place, aop: Option<BinOp>, v: Value, s: State, t: State)
    requires Suits(w, sh) && Holds(w, sh, s, t) && Harmless(sh, p)
    ensures Modify(w, p, aop, v, s).0 == Modify(w, p, aop, v, t).0
    ensures Holds(w, sh, Modify(w, p, aop, v, s).1, Modify(w, p, aop, v, t).1)
  {
    if aop.None? {
      WriteHolds(w, sh, p, v, s, t);
    } else {
      ReadHolds(w, sh, p, s, t);
      var rs, rt := Read(w, p, s), Read(w, p, t);
      WriteHolds(w, sh, p, w.bin(aop.value, rs.0, v), rs.1, rt.1);
    }
  }

  ghost predicate SameUse(w: World, sh: Share, e: Expr, e2: Expr, s: State, t: State) {
    && Eval(w, e, s).0 == Eval(w, e2, t).0
    && Holds(w, sh, Eval(w, e, s).1, Eval(w, e2, t).1)
    && EvalPlace(w, e, s).0 == EvalPlace(w, e2, t).0
    && Holds(w, sh, EvalPlace(w, e, s).1, EvalPlace(w, e2, t).1)
    && (EvalPlace(w, e, s).0.PVar? ==> EvalPlace(w, e, s).0.x != sh.tmp)
  }

  /** What the lemmas of this section need of an expression and its rewriting. */
  ghost predicate Ready(w: World, sh: Share, e: Expr, e2: Expr, s: State, t: State) {
    && Suits(w, sh) && Holds(w, sh, s, t) && sh.tmp !in Vars(e)
    && Quiet(sh, InfoE(sh.T, e)) && Shared(sh, e, e2)
  }

  /** Inside a run, an expression and its rewriting have the same value and effect, and the
      pointer keeps holding the address. */
  lemma {:induction false} UseSame(w: World, sh: Share, e: Expr, e2: Expr, s: State, t: State)
    requires Ready(w, sh, e, e2, s, t)
    ensures SameUse(w, sh, e, e2, s, t)
    decreases e, 1
  {
    if Occurs(sh, e).Some? && e2 == UseOf(sh, Occurs(sh, e).value) {
      UseOccurrence(w, sh, e, s, t);
    } else {
      match e
      case Num(_) =>
      case Sizeof(_) =>
      case Var(_) => UseVar(w, sh, e, e2, s, t);
      case Un(_, _) => UseOne(w, sh, e, e2, s, t);
      case Cast(_, _) => UseOne(w, sh, e, e2, s, t);
      case AddrOf(_) => UseOne(w, sh, e, e2, s, t);
      case Deref(_, _) => UseInner(w, sh, e, e2, s, t);
      case Index(_, _, _, _, _) => UseIndex(w, sh, e, e2, s, t);
      case Member(_, _, _, _) => UseInner(w, sh, e, e2, s, t);
      case Bin(_, _, _) => UseTwo(w, sh, e, e2, s, t);
      case Logic(_, _, _) => UseTwo(w, sh, e, e2, s, t);
      case Comma(_, _) => UseTwo(w, sh, e, e2, s, t);
      case Cond(_, _, _) => UseCond(w, sh, e, e2, s, t);
      case Assign(_, _, _) => UseStore(w, sh, e, e2, s, t);
      case IncDec(_, _, _) => UseStep(w, sh, e, e2, s, t);
      case Call(_, _) => UseCall(w, sh, e, e2, s, t);
    }
  }

  lemma {:induction false} UseOne(w: World, sh: Share, e: Expr, e2: Expr, s: State, t: State)
    requires Ready(w, sh, e, e2, s, t) && (e.Un? || e.Cast? || e.AddrOf?)
    ensures SameUse(w, sh, e, e2, s, t)
    decreases e, 0
  {
    hide Suits, KeyNames, Roots, Holds;
    UseSame(w, sh, e.e, e2.e, s, t);
  }

  predicate IsPlace(e: Expr) { e.Deref? || e.Index? || e.Member? }

  predicate Decays(e: Expr) { (e.Index? && e.isArray) || (e.Member? && e.isArray) }

  /** Lvalues that denote one place have the same value and effect. */
  lemma FromPlace(w: World, sh: Share, e: Expr, e2: Expr, s: State, t: State)
    requires Suits(w, sh) && IsPlace(e) && IsPlace(e2) && Decays(e) == Decays(e2)
    requires
      var p, q := EvalPlace(w, e, s), EvalPlace(w, e2, t);
      p.0 == q.0 && Holds(w, sh, p.1, q.1) && (p.0.PVar? ==> p.0.x != sh.tmp)
    ensures SameUse(w, sh, e, e2, s, t)
  {
    var p, q := EvalPlace(w, e, s), EvalPlace(w, e2, t);
    if !Decays(e) {
      ReadHolds(w, sh, p.0, p.1, q.1);
      assert Eval(w, e, s) == Read(w, p.0, p.1);
      assert Eval(w, e2, t) == Read(w, q.0, q.1);
    }
  }

  lemma {:induction false} UseIndex(w: World, sh: Share, e: Expr, e2: Expr, s: State, t: State)
    requires Ready(w, sh, e, e2, s, t) && e.Index?
    requires !(Occurs(sh, e).Some? && e2 == UseOf(sh, Occurs(sh, e).value))
    ensures SameUse(w, sh, e, e2, s, t)
    decreases e, 0
  {
    hide Suits, KeyNames, Roots, Holds;
    UseSame(w, sh, e.arr, e2.arr, s, t);
    var ra, ra2 := Eval(w, e.arr, s), Eval(w, e2.arr, t);
    UseSame(w, sh, e.idx, e2.idx, ra.1, ra2.1);
    var ri, ri2 := Eval(w, e.idx, ra.1), Eval(w, e2.idx, ra2.1);
    assert EvalPlace(w, e, s) == (ElemPlace(ra.0, ri.0, e.size, e.vol), ri.1);
    assert EvalPlace(w, e2, t) == (ElemPlace(ra2.0, ri2.0, e.size, e.vol), ri2.1);
    FromPlace(w, sh, e, e2, s, t);
  }

  lemma {:induction false} UseInner(w: World, sh: Share, e: Expr, e2: Expr, s: State, t: State)
    requires Ready(w, sh, e, e2, s, t) && (e.Deref? || e.Member?)
    ensures SameUse(w, sh, e, e2, s, t)
    decreases e, 0
  {
    hide Suits, KeyNames, Roots, Holds;
    UseSame(w, sh, e.e, e2.e, s, t);
    FromPlace(w, sh, e, e2, s, t);
  }

  lemma UseVar(w: World, sh: Share, e: Expr, e2: Expr, s: State, t: State)
    requires Ready(w, sh, e, e2, s, t) && e.Var?
    ensures SameUse(w, sh, e, e2, s, t)
  {
    if e.x !in w.arrays { ReadHolds(w, sh, VarPlace(w, e.x), s, t); }
  }

  lemma UseOccurrence(w: World, sh: Share, e: Expr, s: State, t: State)
    requires Suits(w, sh) && Holds(w, sh, s, t) && Occurs(sh, e).Some?
    ensures SameUse(w, sh, e, UseOf(sh, Occurs(sh, e).value), s, t)
  {
    OccurrenceSame(w, sh, e, s, t);
    FromPlace(w, sh, e, UseOf(sh, Occurs(sh, e).value), s, t);
  }

  lemma {:induction false} UseTwo(w: World, sh: Share, e: Expr, e2: Expr, s: State, t: State)
    requires Ready(w, sh, e, e2, s, t) && (e.Bin? || e.Logic? || e.Comma?)
    ensures SameUse(w, sh, e, e2, s, t)
    decreases e, 0
  {
    hide Suits, KeyNames, Roots, Holds;
    UseSame(w, sh, e.a, e2.a, s, t);
    UseSame(w, sh, e.b, e2.b, Eval(w, e.a, s).1, Eval(w, e2.a, t).1);
  }

  lemma {:induction false} UseCond(w: World, sh: Share, e: Expr, e2: Expr, s: State, t: State)
    requires Ready(w, sh, e, e2, s, t) && e.Cond?
    ensures SameUse(w, sh, e, e2, s, t)
    decreases e, 0
  {
    hide Suits, KeyNames, Roots, Holds;
    UseSame(w, sh, e.c, e2.c, s, t);
    var s1, t1 := Eval(w, e.c, s), Eval(w, e2.c, t);
    if w.truth(s1.0) {
      UseSame(w, sh, e.a, e2.a, s1.1, t1.1);
    } else {
      UseSame(w, sh, e.b, e2.b, s1.1, t1.1);
    }
  }

  lemma {:induction false} UseStore(w: World, sh: Share, e: Expr, e2: Expr, s: State, t: State)
    requires Ready(w, sh, e, e2, s, t) && e.Assign?
    ensures SameUse(w, sh, e, e2, s, t)
    decreases e, 0
  {
    hide Suits, KeyNames, Roots, Holds, Modify;
    UseSame(w, sh, e.rhs, e2.rhs, s, t);
    var s1, t1 := Eval(w, e.rhs, s), Eval(w, e2.rhs, t);
    UseSame(w, sh, e.lhs, e2.lhs, s1.1, t1.1);
    var p, q := EvalPlace(w, e.lhs, s1.1), EvalPlace(w, e2.lhs, t1.1);
    StoreSafe(w, sh, e.lhs, s1.1);
    ModifyHolds(w, sh, p.0, e.aop, s1.0, p.1, q.1);
    assert Eval(w, e, s) == Modify(w, p.0, e.aop, s1.0, p.1);
    assert Eval(w, e2, t) == Modify(w, q.0, e.aop, t1.0, q.1);
  }

  lemma {:induction false} UseStep(w: World, sh: Share, e: Expr, e2: Expr, s: State, t: State)
    requires Ready(w, sh, e, e2, s, t) && e.IncDec?
    ensures SameUse(w, sh, e, e2, s, t)
    decreases e, 0
  {
    UseSame(w, sh, e.lhs, e2.lhs, s, t);
    StoreSafe(w, sh, e.lhs, s);
    var p, q := EvalPlace(w, e.lhs, s), EvalPlace(w, e2.lhs, t);
    ReadHolds(w, sh, p.0, p.1, q.1);
    var rs, rt := Read(w, p.0, p.1), Read(w, q.0, q.1);
    WriteHolds(w, sh, p.0, w.bin(if e.inc then Add else Sub, rs.0, I(1)), rs.1, rt.1);
  }

  lemma {:induction false} UseCall(w: World, sh: Share, e: Expr, e2: Expr, s: State, t: State)
    requires Ready(w, sh, e, e2, s, t) && e.Call?
    ensures SameUse(w, sh, e, e2, s, t)
    decreases e, 0
  {
    hide KeyNames, Roots, Suits, Holds, DoCall;
    UseArgs(w, sh, e.args, e2.args, s, t);
    var rs, rt := EvalArgs(w, e.args, s), EvalArgs(w, e2.args, t);
    CallHolds(w, sh, e.f, rs.0, rs.1, rt.1);
  }

  lemma CallHolds(w: World, sh: Share, f: Name, vs: seq<Value>, s: State, t: State)
    requires Suits(w, sh) && Holds(w, sh, s, t) && Roots(Addr(sh)) == {}
    ensures DoCall(w, f, vs, s).0 == DoCall(w, f, vs, t).0
    ensures Holds(w, sh, DoCall(w, f, vs, s).1, DoCall(w, f, vs, t).1)
  {
    SameAddr(w, sh, s, DoCall(w, f, vs, s).1);
  }

  lemma {:induction false} UseArgs(w: World, sh: Share, es: seq<Expr>, es2: seq<Expr>, s: State, t: State)
    requires Suits(w, sh) && Holds(w, sh, s, t) && sh.tmp !in VarsArgs(es)
    requires Quiet(sh, InfoArgs(sh.T, es)) && SharedArgs(sh, es, es2)
    ensures EvalArgs(w, es, s).0 == EvalArgs(w, es2, t).0
    ensures Holds(w, sh, EvalArgs(w, es, s).1, EvalArgs(w, es2, t).1)
    decreases es, 0
  {
    if es != [] {
      UseSame(w, sh, es[0], es2[0], s, t);
      UseArgs(w, sh, es[1..], es2[1..], Eval(w, es[0], s).1, Eval(w, es2[0], t).1);
    }
  }

  // ---- the rewritten statements ---------------------------------------------------------

  /** In a run (`act`) occurrences may be replaced; elsewhere nothing changes. */
  predicate RelE(sh: Share, act: bool, e: Expr, e2: Expr) {
    if act then Shared(sh, e, e2) else e2 == e
  }

  predicate RelOpt(sh: Share, act: bool, e: Option<Expr>, e2: Option<Expr>) {
    e.Some? == e2.Some? && (e.Some? ==> RelE(sh, act, e.value, e2.value))
  }

  predicate RelArgs(sh: Share, act: bool, es: seq<Expr>, es2: seq<Expr>) {
    if act then SharedArgs(sh, es, es2) else es2 == es
  }

  predicate RelDecls(sh: Share, act: bool, ds: seq<Declr>, ds2: seq<Declr>)
    decreases ds
  {
    && |ds| == |ds2|
    && (ds != [] ==>
          && ds2[0].name == ds[0].name && ds2[0].simple == ds[0].simple
          && (match ds[0].init
              case NoInit => ds2[0].init.NoInit?
              case InitE(e) => ds2[0].init.InitE? && RelE(sh, act, e, ds2[0].init.e)
              case InitList(es) => ds2[0].init.InitList? && RelArgs(sh, act, es, ds2[0].init.es))
          && RelDecls(sh, act, ds[1..], ds2[1..]))
  }

  predicate RelInit(sh: Share, act: bool, i: ForInit, i2: ForInit) {
    match i
    case FNone => i2.FNone?
    case FExpr(e) => i2.FExpr? && RelE(sh, act, e, i2.e)
    case FDecl(ok, ds) => i2.FDecl? && i2.specsOk == ok && RelDecls(sh, act, ds, i2.ds)
  }

  /** The declaration of the pointer: it takes the address of the key. */
  predicate IsPointerDecl(sh: Share, d: Stmt) {
    match d
    case DeclS(_, ds) =>
      |ds| == 1 && ds[0].name == sh.tmp && ds[0].init.InitE? &&
      (match ds[0].init.e
       case AddrOf(Index(arr, idx, size, isArray, vol)) =>
         !isArray && !vol && size == sh.size && PureBase(sh.T, arr) == Some(sh.base) &&
         PureInt(sh.T, idx) == Some(sh.core)
       case _ => false)
    case _ => false
  }

  /** Where the run lies in its block: the items from `i` up to, not including, `j`. */
  datatype Cut = Cut(i: nat, j: nat)

  /** The block with the pointer declared in front of a run without a bad item. */
  predicate IsCut(sh: Share, cut: Cut, items: seq<Stmt>, items2: seq<Stmt>)
    decreases items, 2
  {
    && cut.i < cut.j <= |items| && |items2| == |items| + 1
    && items2[..cut.i] == items[..cut.i]
    && IsPointerDecl(sh, items2[cut.i])
    && RelRun(sh, cut, items, items2, cut.i)
    && items2[cut.j + 1..] == items[cut.j..]
  }

  predicate RelRun(sh: Share, cut: Cut, items: seq<Stmt>, items2: seq<Stmt>, k: nat)
    requires k <= cut.j <= |items| && |items2| == |items| + 1
    decreases items, 1, cut.j - k
  {
    k < cut.j ==>
      !Bad(sh, items[k]) && RelS(sh, cut, true, items[k], items2[k + 1]) && RelRun(sh, cut, items, items2, k + 1)
  }

  /** `x2` is `x` with occurrences replaced (in a run), or with one run shared below. */
  predicate RelS(sh: Share, cut: Cut, act: bool, x: Stmt, x2: Stmt)
    decreases x, 3
  {
    match x
    case ExprS(e) => x2.ExprS? && RelE(sh, act, e, x2.e)
    case Block(items) =>
      x2.Block? && (RelList(sh, cut, act, items, x2.items) || (!act && IsCut(sh, cut, items, x2.items)))
    case DeclS(ok, ds) => x2.DeclS? && x2.specsOk == ok && RelDecls(sh, act, ds, x2.ds)
    case If(c, thn, els) =>
      x2.If? && RelE(sh, act, c, x2.c) && RelS(sh, cut, act, thn, x2.thn) && els.Some? == x2.els.Some?
      && (els.Some? ==> RelS(sh, cut, act, els.value, x2.els.value))
    case While(c, body) => x2.While? && RelE(sh, act, c, x2.c) && RelS(sh, cut, act, body, x2.body)
    case DoWhile(body, c) => x2.DoWhile? && RelE(sh, act, c, x2.c) && RelS(sh, cut, act, body, x2.body)
    case For(init, cond, upd, body) =>
      x2.For? && RelInit(sh, act, init, x2.init) && RelOpt(sh, act, cond, x2.cond)
      && RelOpt(sh, act, upd, x2.upd) && RelS(sh, cut, act, body, x2.body)
    case Switch(e, body) => x2.Switch? && RelE(sh, act, e, x2.e) && RelS(sh, cut, act, body, x2.body)
    case LabelS(l, body) => x2.LabelS? && x2.lab == l && RelS(sh, cut, act, body, x2.body)
    case Return(r) => x2.Return? && RelOpt(sh, act, r, x2.r)
    case _ => x2 == x
  }

  predicate RelList(sh: Share, cut: Cut, act: bool, items: seq<Stmt>, items2: seq<Stmt>)
    decreases items, 2
  {
    |items| == |items2| &&
    (items != [] ==> RelS(sh, cut, act, items[0], items2[0]) && RelList(sh, cut, act, items[1..], items2[1..]))
  }

  // ---- labels -----------------------------------------------------------------------------

  lemma {:induction false} RelLabels(sh: Share, cut: Cut, act: bool, x: Stmt, x2: Stmt, l: Label)
    requires RelS(sh, cut, act, x, x2)
    ensures HasLabel(x2, l) == HasLabel(x, l)
    decreases x, 3
  {
    match x
    case Block(items) =>
      if RelList(sh, cut, act, items, x2.items) {
        RelLabelsIn(sh, cut, act, items, x2.items, l);
      } else {
        CutLabels(sh, cut, items, x2.items, l);
      }
    case If(_, thn, els) =>
      RelLabels(sh, cut, act, thn, x2.thn, l);
      if els.Some? { RelLabels(sh, cut, act, els.value, x2.els.value, l); }
    case While(_, body) => RelLabels(sh, cut, act, body, x2.body, l);
    case DoWhile(body, _) => RelLabels(sh, cut, act, body, x2.body, l);
    case For(_, _, _, body) => RelLabels(sh, cut, act, body, x2.body, l);
    case Switch(_, body) => RelLabels(sh, cut, act, body, x2.body, l);
    case LabelS(_, body) => RelLabels(sh, cut, act, body, x2.body, l);
    case _ =>
  }

  lemma {:induction false} RelLabelsIn(sh: Share, cut: Cut, act: bool, items: seq<Stmt>, items2: seq<Stmt>, l: Label)
    requires RelList(sh, cut, act, items, items2)
    ensures HasLabelIn(items2, l) == HasLabelIn(items, l)
    decreases items, 2
  {
    if items != [] {
      RelLabels(sh, cut, act, items[0], items2[0], l);
      RelLabelsIn(sh, cut, act, items[1..], items2[1..], l);
    }
  }

  /** A run has no label, before and after the rewriting. */
  lemma {:induction false} RunLabels(sh: Share, cut: Cut, items: seq<Stmt>, items2: seq<Stmt>, k: nat, l: Label)
    requires k <= cut.j <= |items| && |items2| == |items| + 1
    requires RelRun(sh, cut, items, items2, k)
    ensures !HasLabelIn(items[k..cut.j], l) && !HasLabelIn(items2[k + 1..cut.j + 1], l)
    decreases items, 1, cut.j - k
  {
    if k < cut.j {
      RunLabels(sh, cut, items, items2, k + 1, l);
      NoLabel(items[k], false, l);
      RelLabels(sh, cut, true, items[k], items2[k + 1], l);
      assert items[k..cut.j][0] == items[k] && items[k..cut.j][1..] == items[k + 1..cut.j];
      assert items2[k + 1..cut.j + 1][0] == items2[k + 1];
      assert items2[k + 1..cut.j + 1][1..] == items2[k + 2..cut.j + 1];
    }
  }

  /** A cut block as its parts. */
  lemma CutParts(sh: Share, cut: Cut, items: seq<Stmt>, items2: seq<Stmt>)
    requires IsCut(sh, cut, items, items2)
    ensures items == items[..cut.i] + (items[cut.i..cut.j] + items[cut.j..])
    ensures items2 == items[..cut.i] + ([items2[cut.i]] + (items2[cut.i + 1..cut.j + 1] + items[cut.j..]))
  {
    hide RelRun, IsPointerDecl;
    Parted3(items, cut.i, cut.j);
    var rest := items2[cut.i + 1..];
    assert items2 == items2[..cut.i] + ([items2[cut.i]] + rest);
    assert rest == items2[cut.i + 1..cut.j + 1] + items2[cut.j + 1..];
  }

  lemma Parted3(s: seq<Stmt>, i: nat, j: nat)
    requires i <= j <= |s|
    ensures s == s[..i] + (s[i..j] + s[j..])
  {
  }

  lemma CutLabels(sh: Share, cut: Cut, items: seq<Stmt>, items2: seq<Stmt>, l: Label)
    requires IsCut(sh, cut, items, items2)
    ensures HasLabelIn(items2, l) == HasLabelIn(items, l)
    decreases items, 2
  {
    CutParts(sh, cut, items, items2);
    RunLabels(sh, cut, items, items2, cut.i, l);
    var pre, run, post := items[..cut.i], items[cut.i..cut.j], items[cut.j..];
    var d, run2 := [items2[cut.i]], items2[cut.i + 1..cut.j + 1];
    LabelAppend(pre, run + post, l);
    LabelAppend(run, post, l);
    LabelAppend(pre, d + (run2 + post), l);
    LabelAppend(d, run2 + post, l);
    LabelAppend(run2, post, l);
    assert d[1..] == [];
  }

  // ---- the runs are the same -----------------------------------------------------------------

  ghost predicate Inv(w: World, sh: Share, act: bool, s: State, t: State) {
    if act then Holds(w, sh, s, t) else AgreeOff({sh.tmp}, s, t)
  }

  lemma RelEval(w: World, sh: Share, act: bool, e: Expr, e2: Expr, s: State, t: State)
    requires Suits(w, sh) && Inv(w, sh, act, s, t) && sh.tmp !in Vars(e)
    requires (act ==> Quiet(sh, InfoE(sh.T, e))) && RelE(sh, act, e, e2)
    ensures Eval(w, e, s).0 == Eval(w, e2, t).0
    ensures Inv(w, sh, act, Eval(w, e, s).1, Eval(w, e2, t).1)
  {
    if act { UseSame(w, sh, e, e2, s, t); } else { EvalAgree(w, {sh.tmp}, e, s, t); }
  }

  lemma RelEvalOpt(w: World, sh: Share, act: bool, e: Option<Expr>, e2: Option<Expr>, s: State, t: State)
    requires Suits(w, sh) && Inv(w, sh, act, s, t) && sh.tmp !in VarsOpt(e)
    requires (act ==> Quiet(sh, InfoOpt(sh.T, e))) && RelOpt(sh, act, e, e2)
    ensures Inv(w, sh, act, EvalOpt(w, e, s), EvalOpt(w, e2, t))
  {
    if e.Some? { RelEval(w, sh, act, e.value, e2.value, s, t); }
  }

  lemma RelTest(w: World, sh: Share, act: bool, e: Option<Expr>, e2: Option<Expr>, enter: bool, s: State, t: State)
    requires Suits(w, sh) && Inv(w, sh, act, s, t) && sh.tmp !in VarsOpt(e)
    requires (act ==> Quiet(sh, InfoOpt(sh.T, e))) && RelOpt(sh, act, e, e2)
    ensures Test(w, e, enter, s).0 == Test(w, e2, enter, t).0
    ensures Inv(w, sh, act, Test(w, e, enter, s).1, Test(w, e2, enter, t).1)
  {
    if e.Some? { RelEval(w, sh, act, e.value, e2.value, s, t); }
  }

  lemma DeclWrite(w: World, sh: Share, act: bool, p: Place, v: Value, s: State, t: State)
    requires Suits(w, sh) && Inv(w, sh, act, s, t)
    requires act ==> Harmless(sh, p)
    ensures Inv(w, sh, act, Write(w, p, v, s).1, Write(w, p, v, t).1)
  {
    if act { WriteHolds(w, sh, p, v, s, t); }
  }

  lemma {:induction false} RelInits(w: World, sh: Share, act: bool, x: Name, es: seq<Expr>, es2: seq<Expr>, k: int,
                                    s: State, t: State)
    requires Suits(w, sh) && Inv(w, sh, act, s, t) && sh.tmp !in VarsArgs(es)
    requires (act ==> Quiet(sh, InfoArgs(sh.T, es)) && x !in Roots(Addr(sh))) && RelArgs(sh, act, es, es2)
    ensures Inv(w, sh, act, EvalInits(w, x, es, k, s), EvalInits(w, x, es2, k, t))
    decreases es
  {
    if es != [] {
      RelEval(w, sh, act, es[0], es2[0], s, t);
      var rs, rt := Eval(w, es[0], s), Eval(w, es2[0], t);
      var p := PMem(x, k, false);
      DeclWrite(w, sh, act, p, rs.0, rs.1, rt.1);
      RelInits(w, sh, act, x, es[1..], es2[1..], k + 1, Write(w, p, rs.0, rs.1).1, Write(w, p, rt.0, rt.1).1);
    }
  }

  lemma {:induction false} RelExecDecls(w: World, sh: Share, act: bool, ds: seq<Declr>, ds2: seq<Declr>, s: State,
                                        t: State)
    requires Suits(w, sh) && Inv(w, sh, act, s, t) && sh.tmp !in NamesDecls(ds)
    requires (act ==> Quiet(sh, InfoDecls(sh.T, ds))) && RelDecls(sh, act, ds, ds2)
    ensures Inv(w, sh, act, ExecDecls(w, ds, s), ExecDecls(w, ds2, t))
    decreases ds
  {
    if ds != [] {
      var d, d2 := ds[0], ds2[0];
      RootsNamed(Addr(sh));
      match d.init {
        case NoInit =>
        case InitE(e) =>
          RelEval(w, sh, act, e, d2.init.e, s, t);
          var rs, rt := Eval(w, e, s), Eval(w, d2.init.e, t);
          DeclWrite(w, sh, act, VarPlace(w, d.name), rs.0, rs.1, rt.1);
        case InitList(es) => RelInits(w, sh, act, d.name, es, d2.init.es, 0, s, t);
      }
      RelExecDecls(w, sh, act, ds[1..], ds2[1..], ExecDeclr(w, d, s), ExecDeclr(w, d2, t));
    }
  }

  ghost predicate SameEnds(w: World, sh: Share, act: bool, a: (Out, State), b: (Out, State)) {
    a.0 == b.0 && Inv(w, sh, act, a.1, b.1)
  }

  ghost predicate Fits(w: World, sh: Share, cut: Cut, act: bool, x: Stmt, x2: Stmt) {
    && Suits(w, sh) && sh.tmp !in Names(x)
    && (act ==> Quiet(sh, InfoS(sh.T, x))) && RelS(sh, cut, act, x, x2)
  }

  /** A statement and its rewriting end alike. */
  lemma {:induction false} RelSame(w: World, fuel: nat, sh: Share, cut: Cut, act: bool, x: Stmt, x2: Stmt, m: Mode,
                                   s: State, t: State)
    requires Fits(w, sh, cut, act, x, x2) && Inv(w, sh, act, s, t)
    ensures SameEnds(w, sh, act, Exec(w, fuel, x, m, s), Exec(w, fuel, x2, m, t))
    decreases fuel, x, 4
  {
    hide Eval, Suits, Loop, ExecList, ExecDecls, KeyNames, Roots, Holds, Shared, InfoE, IsCut;
    match x
    case ExprS(e) => RelEval(w, sh, act, e, x2.e, s, t);
    case Block(items) =>
      if RelList(sh, cut, act, items, x2.items) {
        RelListSame(w, fuel, sh, cut, act, items, x2.items, m, s, t);
      } else {
        CutSame(w, fuel, sh, cut, items, x2.items, m, s, t);
      }
    case DeclS(_, ds) => RelExecDecls(w, sh, act, ds, x2.ds, s, t);
    case If(_, _, _) => RelIf(w, fuel, sh, cut, act, x, x2, m, s, t);
    case While(c, body) =>
      RelLoop(w, fuel, sh, cut, act, Some(c), Some(x2.c), None, None, body, x2.body, m, m.Seek?, s, t);
    case DoWhile(body, c) =>
      RelLoop(w, fuel, sh, cut, act, Some(c), Some(x2.c), None, None, body, x2.body, m, true, s, t);
    case For(_, _, _, _) => RelFor(w, fuel, sh, cut, act, x, x2, m, s, t);
    case Switch(_, _) => RelSwitch(w, fuel, sh, cut, act, x, x2, m, s, t);
    case LabelS(l, body) => RelSame(w, fuel, sh, cut, act, body, x2.body, if m == Seek(l) then Run else m, s, t);
    case Return(r) => if r.Some? { RelEval(w, sh, act, r.value, x2.r.value, s, t); }
    case _ =>
  }

  lemma {:induction false} RelFor(w: World, fuel: nat, sh: Share, cut: Cut, act: bool, x: Stmt, x2: Stmt, m: Mode,
                                  s: State, t: State)
    requires x.For? && Fits(w, sh, cut, act, x, x2) && Inv(w, sh, act, s, t)
    ensures SameEnds(w, sh, act, Exec(w, fuel, x, m, s), Exec(w, fuel, x2, m, t))
    decreases fuel, x, 3
  {
    hide Suits, KeyNames, Roots, Inv, Shared, InfoE, Eval, Loop, ExecDecls;
    if m.Seek? {
      RelLoop(w, fuel, sh, cut, act, x.cond, x2.cond, x.upd, x2.upd, x.body, x2.body, m, true, s, t);
    } else {
      match x.init {
        case FNone =>
        case FExpr(e) => RelEval(w, sh, act, e, x2.init.e, s, t);
        case FDecl(_, ds) => RelExecDecls(w, sh, act, ds, x2.init.ds, s, t);
      }
      RelLoop(w, fuel, sh, cut, act, x.cond, x2.cond, x.upd, x2.upd, x.body, x2.body, Run, false,
              ExecInit(w, x.init, s), ExecInit(w, x2.init, t));
    }
  }

  lemma {:induction false} RelIf(w: World, fuel: nat, sh: Share, cut: Cut, act: bool, x: Stmt, x2: Stmt, m: Mode,
                                 s: State, t: State)
    requires x.If? && Fits(w, sh, cut, act, x, x2) && Inv(w, sh, act, s, t)
    ensures SameEnds(w, sh, act, Exec(w, fuel, x, m, s), Exec(w, fuel, x2, m, t))
    decreases fuel, x, 3
  {
    hide Suits, KeyNames, Roots, Inv, Shared, InfoE, Eval;
    if m.Seek? {
      RelLabels(sh, cut, act, x.thn, x2.thn, m.lab);
      RelSame(w, fuel, sh, cut, act, x.thn, x2.thn, m, s, t);
      if x.els.Some? { RelSame(w, fuel, sh, cut, act, x.els.value, x2.els.value, m, s, t); }
    } else {
      RelEval(w, sh, act, x.c, x2.c, s, t);
      var rs, rt := Eval(w, x.c, s), Eval(w, x2.c, t);
      RelSame(w, fuel, sh, cut, act, x.thn, x2.thn, Run, rs.1, rt.1);
      if x.els.Some? { RelSame(w, fuel, sh, cut, act, x.els.value, x2.els.value, Run, rs.1, rt.1); }
    }
  }

  lemma {:induction false} RelSwitch(w: World, fuel: nat, sh: Share, cut: Cut, act: bool, x: Stmt, x2: Stmt, m: Mode,
                                     s: State, t: State)
    requires x.Switch? && Fits(w, sh, cut, act, x, x2) && Inv(w, sh, act, s, t)
    ensures SameEnds(w, sh, act, Exec(w, fuel, x, m, s), Exec(w, fuel, x2, m, t))
    decreases fuel, x, 3
  {
    hide Suits, KeyNames, Roots, Inv, Shared, InfoE, Eval;
    if m.Seek? {
      RelSame(w, fuel, sh, cut, act, x.body, x2.body, m, s, t);
    } else {
      RelEval(w, sh, act, x.e, x2.e, s, t);
      var rs, rt := Eval(w, x.e, s), Eval(w, x2.e, t);
      var v := w.caseOf(rs.0);
      RelLabels(sh, cut, act, x.body, x2.body, CaseOf(v));
      RelLabels(sh, cut, act, x.body, x2.body, Default);
      var g := SwitchTarget(x.body, v);
      if g.Some? { RelSame(w, fuel, sh, cut, act, x.body, x2.body, Seek(g.value), rs.1, rt.1); }
    }
  }

  lemma {:induction false} RelTurn(w: World, fuel: nat, sh: Share, cut: Cut, act: bool, c: Option<Expr>,
                                   c2: Option<Expr>, body: Stmt, body2: Stmt, m: Mode, enter: bool, s: State, t: State)
    requires Fits(w, sh, cut, act, body, body2) && Inv(w, sh, act, s, t)
    requires sh.tmp !in VarsOpt(c) && RelOpt(sh, act, c, c2) && (act ==> Quiet(sh, InfoOpt(sh.T, c)))
    ensures
      var a, b := Turn(w, fuel, c, body, m, enter, s), Turn(w, fuel, c2, body2, m, enter, t);
      a.0 == b.0 && Inv(w, sh, act, a.1, b.1)
    decreases fuel, body, 5
  {
    hide Exec, Test, Eval, Suits, Quiet, RelS, RelOpt, Inv;
    RelTest(w, sh, act, c, c2, enter, s, t);
    var ts, tt := Test(w, c, enter, s), Test(w, c2, enter, t);
    if ts.0 {
      RelSame(w, fuel, sh, cut, act, body, body2, m, ts.1, tt.1);
    }
  }

  lemma {:induction false} RelLoop(w: World, fuel: nat, sh: Share, cut: Cut, act: bool, c: Option<Expr>,
                                   c2: Option<Expr>, u: Option<Expr>, u2: Option<Expr>, body: Stmt, body2: Stmt,
                                   m: Mode, enter: bool, s: State, t: State)
    requires Fits(w, sh, cut, act, body, body2) && Inv(w, sh, act, s, t)
    requires sh.tmp !in VarsOpt(c) && RelOpt(sh, act, c, c2) && (act ==> Quiet(sh, InfoOpt(sh.T, c)))
    requires sh.tmp !in VarsOpt(u) && RelOpt(sh, act, u, u2) && (act ==> Quiet(sh, InfoOpt(sh.T, u)))
    ensures SameEnds(w, sh, act, Loop(w, fuel, c, u, body, m, enter, s), Loop(w, fuel, c2, u2, body2, m, enter, t))
    decreases fuel, body, 6
  {
    hide Turn, Suits, Quiet, RelS, RelOpt, Inv;
    RelTurn(w, fuel, sh, cut, act, c, c2, body, body2, m, enter, s, t);
    var a, b := Turn(w, fuel, c, body, m, enter, s), Turn(w, fuel, c2, body2, m, enter, t);
    if a.0.None? && fuel > 0 {
      RelEvalOpt(w, sh, act, u, u2, a.1, b.1);
      RelLoop(w, fuel - 1, sh, cut, act, c, c2, u, u2, body, body2, Run, false, EvalOpt(w, u, a.1),
              EvalOpt(w, u2, b.1));
    }
  }

  lemma {:induction false} RelListSame(w: World, fuel: nat, sh: Share, cut: Cut, act: bool, items: seq<Stmt>,
                                       items2: seq<Stmt>, m: Mode, s: State, t: State)
    requires Suits(w, sh) && Inv(w, sh, act, s, t) && sh.tmp !in NamesIn(items)
    requires (act ==> Quiet(sh, InfoList(sh.T, items))) && RelList(sh, cut, act, items, items2)
    ensures SameEnds(w, sh, act, ExecList(w, fuel, items, m, s), ExecList(w, fuel, items2, m, t))
    decreases fuel, items, 2
  {
    hide Suits, KeyNames, Roots, Inv, Shared, InfoS, Exec, RelS;
    if items != [] {
      if m.Seek? { RelLabels(sh, cut, act, items[0], items2[0], m.lab); }
      if m.Seek? && !HasLabel(items[0], m.lab) {
        RelListSame(w, fuel, sh, cut, act, items[1..], items2[1..], m, s, t);
      } else {
        RelSame(w, fuel, sh, cut, act, items[0], items2[0], m, s, t);
        var rs, rt := Exec(w, fuel, items[0], m, s), Exec(w, fuel, items2[0], m, t);
        if rs.0 == Norm {
          RelListSame(w, fuel, sh, cut, act, items[1..], items2[1..], Run, rs.1, rt.1);
        }
      }
    }
  }

  /** The run itself, from its item `k` on. */
  lemma {:induction false} RunSame(w: World, fuel: nat, sh: Share, cut: Cut, items: seq<Stmt>, items2: seq<Stmt>,
                                   k: nat, s: State, t: State)
    requires k <= cut.j <= |items| && |items2| == |items| + 1
    requires Suits(w, sh) && Holds(w, sh, s, t) && (forall x :: x in items ==> sh.tmp !in Names(x))
    requires RelRun(sh, cut, items, items2, k)
    ensures SameEnds(w, sh, true, ExecList(w, fuel, items[k..cut.j], Run, s),
                     ExecList(w, fuel, items2[k + 1..cut.j + 1], Run, t))
    decreases fuel, items, 1, cut.j - k
  {
    if k < cut.j {
      var a, b := items[k..cut.j], items2[k + 1..cut.j + 1];
      assert a[0] == items[k] && a[1..] == items[k + 1..cut.j];
      assert b[0] == items2[k + 1] && b[1..] == items2[k + 2..cut.j + 1];
      assert items[k] in items;
      RelSame(w, fuel, sh, cut, true, items[k], items2[k + 1], Run, s, t);
      var rs, rt := Exec(w, fuel, items[k], Run, s), Exec(w, fuel, items2[k + 1], Run, t);
      if rs.0 == Norm { RunSame(w, fuel, sh, cut, items, items2, k + 1, rs.1, rt.1); }
    }
  }

  /** The declaration makes the pointer hold the address. */
  lemma DeclHolds(w: World, fuel: nat, sh: Share, d: Stmt, s: State, t: State)
    requires Suits(w, sh) && AgreeOff({sh.tmp}, s, t) && IsPointerDecl(sh, d)
    ensures ExecList(w, fuel, [d], Run, t).0 == Norm
    ensures Holds(w, sh, s, ExecList(w, fuel, [d], Run, t).1)
  {
    var e := d.ds[0].init.e;
    var ix := e.e;
    BaseSound(w, sh.T, ix.arr, t);
    IntSound(w, sh.T, ix.idx, t);
    KeyFrame(w, Addr(sh), s, t);
    var l := KLoc(w, Addr(sh), t);
    assert EvalPlace(w, ix, t) == (PMem(l.0, l.1, false), t);
    assert Eval(w, e, t) == (P(l.0, l.1), t);
    var t1 := t.(env := t.env[sh.tmp := P(l.0, l.1)]);
    assert ExecDeclr(w, d.ds[0], t) == t1;
    assert d.ds[1..] == [] && ExecDecls(w, d.ds, t) == t1;
    OneStmt(w, fuel, d, Run, t);
  }

  lemma {:induction false} NamesEach(items: seq<Stmt>, x: Name)
    requires x !in NamesIn(items)
    ensures forall y :: y in items ==> x !in Names(y)
    decreases items
  {
    if items != [] {
      NamesEach(items[1..], x);
      assert forall y :: y in items ==> y == items[0] || y in items[1..];
    }
  }

  lemma {:induction false} UsesAreNames(s: Stmt)
    ensures Uses(s) <= Names(s)
    decreases s, 1
  {
    match s
    case Block(items) => UsesAreNamesIn(items);
    case DeclS(_, ds) => UsesDeclsNamed(ds);
    case If(_, thn, els) => UsesAreNames(thn); if els.Some? { UsesAreNames(els.value); }
    case While(_, body) => UsesAreNames(body);
    case DoWhile(body, _) => UsesAreNames(body);
    case For(init, _, _, body) => UsesAreNames(body); if init.FDecl? { UsesDeclsNamed(init.ds); }
    case Switch(_, body) => UsesAreNames(body);
    case LabelS(_, body) => UsesAreNames(body);
    case _ =>
  }

  lemma {:induction false} UsesDeclsNamed(ds: seq<Declr>)
    ensures UsesDecls(ds) <= NamesDecls(ds)
  {
    if ds != [] { UsesDeclsNamed(ds[1..]); }
  }

  lemma {:induction false} UsesAreNamesIn(items: seq<Stmt>)
    ensures UsesIn(items) <= NamesIn(items)
    decreases items, 0
  {
    if items != [] {
      UsesAreNames(items[0]);
      UsesAreNamesIn(items[1..]);
    }
  }

  /** The block with the shared run ends like the original block: the address computed once
      in front of the run is the address at every occurrence, on every path, and a jump
      never enters the run. */
  lemma {:induction false} CutSame(w: World, fuel: nat, sh: Share, cut: Cut, items: seq<Stmt>, items2: seq<Stmt>,
                                   m: Mode, s: State, t: State)
    requires Suits(w, sh) && AgreeOff({sh.tmp}, s, t) && sh.tmp !in NamesIn(items)
    requires IsCut(sh, cut, items, items2)
    ensures SameEnds(w, sh, false, ExecList(w, fuel, items, m, s), ExecList(w, fuel, items2, m, t))
    decreases fuel, items, 2
  {
    hide Suits, Bad, RelS, RelRun, Exec;
    CutParts(sh, cut, items, items2);
    var pre, run, post := items[..cut.i], items[cut.i..cut.j], items[cut.j..];
    var d, run2 := [items2[cut.i]], items2[cut.i + 1..cut.j + 1];
    NamesAppend(pre, run + post);
    NamesAppend(run, post);
    UsesAreNamesIn(pre);
    UsesAreNamesIn(post);
    ExecAppend(w, fuel, pre, run + post, m, s);
    ExecAppend(w, fuel, pre, d + (run2 + post), m, t);
    if m.Seek? && !HasLabelIn(pre, m.lab) {
      RunLabels(sh, cut, items, items2, cut.i, m.lab);
      assert d[1..] == [] && !HasLabelIn(d, m.lab);
      ExecAppend(w, fuel, run, post, m, s);
      ExecAppend(w, fuel, d, run2 + post, m, t);
      ExecAppend(w, fuel, run2, post, m, t);
      ListAgree(w, fuel, {sh.tmp}, post, m, s, t);
    } else {
      ListAgree(w, fuel, {sh.tmp}, pre, m, s, t);
      var rs, rt := ExecList(w, fuel, pre, m, s), ExecList(w, fuel, pre, m, t);
      if rs.0 == Norm {
        CutTail(w, fuel, sh, cut, items, items2, rs.1, rt.1);
      }
    }
  }

  /** From the declaration of the pointer on. */
  lemma {:induction false} CutTail(w: World, fuel: nat, sh: Share, cut: Cut, items: seq<Stmt>, items2: seq<Stmt>,
                                   s: State, t: State)
    requires Suits(w, sh) && AgreeOff({sh.tmp}, s, t) && sh.tmp !in NamesIn(items)
    requires IsCut(sh, cut, items, items2)
    requires sh.tmp !in UsesIn(items[cut.j..])
    ensures SameEnds(w, sh, false, ExecList(w, fuel, items[cut.i..cut.j] + items[cut.j..], Run, s),
                     ExecList(w, fuel, [items2[cut.i]] + (items2[cut.i + 1..cut.j + 1] + items[cut.j..]), Run, t))
    decreases fuel, items, 1, cut.j - cut.i + 1
  {
    hide Suits, Bad, RelS, RelRun, Exec;
    var run, post := items[cut.i..cut.j], items[cut.j..];
    var d, run2 := [items2[cut.i]], items2[cut.i + 1..cut.j + 1];
    NamesEach(items, sh.tmp);
    DeclHolds(w, fuel, sh, d[0], s, t);
    var t1 := ExecList(w, fuel, d, Run, t).1;
    RunSame(w, fuel, sh, cut, items, items2, cut.i, s, t1);
    ExecAppend(w, fuel, run, post, Run, s);
    ExecAppend(w, fuel, d, run2 + post, Run, t);
    ExecAppend(w, fuel, run2, post, Run, t1);
    var rs, rt := ExecList(w, fuel, run, Run, s), ExecList(w, fuel, run2, Run, t1);
    if rs.0 == Norm { ListAgree(w, fuel, {sh.tmp}, post, Run, rs.1, rt.1); }
  }

  /** Address sharing preserves meaning: a function body in which one run of one block uses
      the pointer shows the same end, memory and effects, for every fuel and every start. */
  lemma {:induction false} ShareBodySame(w: World, fuel: nat, sh: Share, cut: Cut, items: seq<Stmt>, items2: seq<Stmt>,
                                         m: Mode, s: State, t: State)
    requires Suits(w, sh) && AgreeOff({sh.tmp}, s, t) && sh.tmp !in NamesIn(items)
    requires RelList(sh, cut, false, items, items2) || IsCut(sh, cut, items, items2)
    ensures SameEnd({sh.tmp}, RunBody(w, fuel, items, m, s), RunBody(w, fuel, items2, m, t))
    decreases fuel
  {
    var rs, rt := ExecList(w, fuel, items, m, s), ExecList(w, fuel, items2, m, t);
    if RelList(sh, cut, false, items, items2) {
      RelListSame(w, fuel, sh, cut, false, items, items2, m, s, t);
      if rs.0.Jump? { RelLabelsIn(sh, cut, false, items, items2, Named(rs.0.l)); }
    } else {
      CutSame(w, fuel, sh, cut, items, items2, m, s, t);
      if rs.0.Jump? { CutLabels(sh, cut, items, items2, Named(rs.0.l)); }
    }
    if rs.0.Jump? && HasLabelIn(items, Named(rs.0.l)) && fuel > 0 {
      ShareBodySame(w, fuel - 1, sh, cut, items, items2, Seek(Named(rs.0.l)), rs.1, rt.1);
    }
  }

  // ---- the runs of a block -----------------------------------------------------------------

  function Flatten(runs: seq<seq<nat>>): seq<nat> {
    if runs == [] then [] else Flatten(runs[..|runs| - 1]) + runs[|runs| - 1]
  }

  /** The positions whose item does not end a run. */
  function GoodOnes(bad: seq<bool>, members: seq<nat>): seq<nat> {
    if members == [] then []
    else
      var k := members[|members| - 1];
      GoodOnes(bad, members[..|members| - 1]) + (if k < |bad| && !bad[k] then [k] else [])
  }

  /** A run is not empty, and no item from its first to its last position is bad. */
  predicate GoodRun(bad: seq<bool>, run: seq<nat>) {
    && run != []
    && run[0] <= run[|run| - 1] < |bad|
    && forall j: nat :: run[0] <= j <= run[|run| - 1] ==> !bad[j]
  }

  /** A bad item lies between the last position of `a` and the first of `b`. */
  ghost predicate Parted(bad: seq<bool>, a: seq<nat>, b: seq<nat>) {
    a != [] && b != [] && exists j: nat :: a[|a| - 1] < j < b[0] && j < |bad| && bad[j]
  }

  /** A bad item lies after `a`, at `last` at the latest. */
  ghost predicate Closed(bad: seq<bool>, a: seq<nat>, last: nat) {
    a != [] && exists j: nat :: a[|a| - 1] < j <= last && j < |bad| && bad[j]
  }

  /** Every run is good, and a bad item parts each run from the next. */
  ghost predicate Chain(bad: seq<bool>, runs: seq<seq<nat>>) {
    var n := |runs|;
    n > 0 ==>
      && GoodRun(bad, runs[n - 1]) && Chain(bad, runs[..n - 1])
      && (n > 1 ==> Parted(bad, runs[n - 2], runs[n - 1]))
  }

  lemma ChainSnoc(bad: seq<bool>, runs: seq<seq<nat>>, cur: seq<nat>)
    requires Chain(bad, runs) && GoodRun(bad, cur)
    requires runs != [] ==> Parted(bad, runs[|runs| - 1], cur)
    ensures Chain(bad, runs + [cur]) && Flatten(runs + [cur]) == Flatten(runs) + cur
  {
    var all, n := runs + [cur], |runs|;
    assert all[..n] == runs && all[n] == cur && (n > 0 ==> all[n - 1] == runs[n - 1]);
  }

  /** The state of `RunsOf`: `good` are the good members so far, `last` the last member. */
  ghost predicate Split(bad: seq<bool>, good: seq<nat>, last: nat, runs: seq<seq<nat>>, cur: seq<nat>) {
    && Flatten(runs) + cur == good && Chain(bad, runs)
    && (cur != [] ==> GoodRun(bad, cur) && cur[|cur| - 1] == last)
    && (runs != [] && cur != [] ==> Parted(bad, runs[|runs| - 1], cur))
    && (runs != [] && cur == [] ==> Closed(bad, runs[|runs| - 1], last))
  }

  /** The member `k` is bad: the current run ends. */
  lemma StepBad(bad: seq<bool>, good: seq<nat>, last: nat, runs: seq<seq<nat>>, cur: seq<nat>, k: nat)
    requires Split(bad, good, last, runs, cur) && last <= k < |bad| && bad[k]
    ensures Split(bad, good, k, if cur == [] then runs else runs + [cur], [])
  {
    if cur != [] {
      ChainSnoc(bad, runs, cur);
      assert cur[|cur| - 1] != k;
      assert Closed(bad, cur, k);
    } else if runs != [] {
      assert Closed(bad, runs[|runs| - 1], k);
    }
  }

  /** The member `k` starts a run: none is open, or a bad item lies before `k`. */
  lemma StepStart(bad: seq<bool>, good: seq<nat>, last: nat, runs: seq<seq<nat>>, cur: seq<nat>, k: nat)
    requires Split(bad, good, last, runs, cur) && last <= k < |bad| && !bad[k]
    requires cur != [] ==> exists j: nat :: last < j < k && bad[j]
    ensures Split(bad, good + [k], k, if cur == [] then runs else runs + [cur], [k])
  {
    if cur != [] {
      ChainSnoc(bad, runs, cur);
      assert Parted(bad, cur, [k]);
    } else if runs != [] {
      var a := runs[|runs| - 1];
      var j: nat :| a[|a| - 1] < j <= last && j < |bad| && bad[j];
      assert j != k && Parted(bad, a, [k]);
    }
  }

  /** The member `k` continues the run. */
  lemma StepGrow(bad: seq<bool>, good: seq<nat>, last: nat, runs: seq<seq<nat>>, cur: seq<nat>, k: nat)
    requires Split(bad, good, last, runs, cur) && last <= k < |bad| && !bad[k] && cur != []
    requires forall j: nat :: last < j < k ==> !bad[j]
    ensures Split(bad, good + [k], k, runs, cur + [k])
  {
    assert Flatten(runs) + (cur + [k]) == good + [k];
  }

  /** The runs of the members, whose positions are in order: each occurrence in an item that
      is not bad is in one run, no item inside a run is bad, and a bad item parts two runs. */
  method RunsOf(bad: seq<bool>, members: seq<nat>) returns (runs: seq<seq<nat>>)
    requires forall i :: 0 <= i < |members| ==> members[i] < |bad|
    requires forall i, j :: 0 <= i < j < |members| ==> members[i] <= members[j]
    ensures Flatten(runs) == GoodOnes(bad, members)
    ensures Chain(bad, runs)
  {
    hide GoodRun, Parted, Closed;
    runs := [];
    var cur: seq<nat> := [];
    var last := 0;
    for n := 0 to |members|
      invariant last == if n > 0 then members[n - 1] else 0
      invariant Split(bad, GoodOnes(bad, members[..n]), last, runs, cur)
    {
      var k := members[n];
      ghost var good := GoodOnes(bad, members[..n]);
      assert GoodOnes(bad, members[..n + 1]) == good + (if bad[k] then [] else [k]) by {
        assert members[..n + 1][..n] == members[..n];
      }
      if bad[k] {
        StepBad(bad, good, last, runs, cur, k);
        if cur != [] { runs, cur := runs + [cur], []; }
      } else {
        var stop := cur == [];
        if cur != [] { stop := HasBad(bad, last + 1, k); }
        if stop {
          StepStart(bad, good, last, runs, cur, k);
          if cur != [] { runs := runs + [cur]; }
          cur := [k];
        } else {
          StepGrow(bad, good, last, runs, cur, k);
          cur := cur + [k];
        }
      }
      last := k;
    }
    assert members[..|members|] == members;
    if cur != [] {
      ChainSnoc(bad, runs, cur);
      runs := runs + [cur];
    }
  }

  method HasBad(bad: seq<bool>, lo: nat, hi: nat) returns (r: bool)
    requires hi <= |bad|
    ensures r <==> exists j: nat :: lo <= j < hi && bad[j]
  {
    if lo >= hi { return false; }
    for j := lo to hi
      invariant forall i: nat :: lo <= i < j ==> !bad[i]
    {
      if bad[j] { return true; }
    }
    return false;
  }

  /** Which items of the block end a run of the key. */
  function BadItems(sh: Share, items: seq<Stmt>): seq<bool> {
    seq(|items|, i requires 0 <= i < |items| => Bad(sh, items[i]))
  }

  /** A run that `RunsOf` finds can use one pointer: with the declaration in front of its
      first item, the block is a block with a shared run. */
  lemma RunIsCut(sh: Share, items: seq<Stmt>, items2: seq<Stmt>, run: seq<nat>)
    requires |items2| == |items| + 1 && GoodRun(BadItems(sh, items), run)
    requires
      var cut := Cut(run[0], run[|run| - 1] + 1);
      && items2[..cut.i] == items[..cut.i] && IsPointerDecl(sh, items2[cut.i])
      && items2[cut.j + 1..] == items[cut.j..]
      && forall k: nat :: cut.i <= k < cut.j ==> RelS(sh, cut, true, items[k], items2[k + 1])
    ensures IsCut(sh, Cut(run[0], run[|run| - 1] + 1), items, items2)
  {
    var cut := Cut(run[0], run[|run| - 1] + 1);
    var k := cut.j;
    while k > cut.i
      invariant cut.i <= k <= cut.j && RelRun(sh, cut, items, items2, k)
    {
      k := k - 1;
      assert !BadItems(sh, items)[k];
    }
  }
}
