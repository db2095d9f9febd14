/** Facts about the evaluation of expressions that every pass uses: which names an
    expression has, that evaluation depends on and changes nothing else, and that a
    pure expression changes nothing. */
module Frames {
  import opened Wrappers
  import opened CLang

  function Vars(e: Expr): set<Name>
    decreases e, 1
  {
    match e
    case Num(_) => {}
    case Var(x) => {x}
    case Un(_, a) => Vars(a)
    case Bin(_, a, b) => Vars(a) + Vars(b)
    case Logic(_, a, b) => Vars(a) + Vars(b)
    case Cond(c, a, b) => Vars(c) + Vars(a) + Vars(b)
    case Cast(_, a) => Vars(a)
    case Sizeof(a) => Vars(a)
    case Deref(a, _) => Vars(a)
    case AddrOf(a) => Vars(a)
    case Index(a, i, _, _, _) => Vars(a) + Vars(i)
    case Member(a, _, _, _) => Vars(a)
    case Assign(_, l, r) => Vars(l) + Vars(r)
    case IncDec(_, _, l) => Vars(l)
    case Comma(a, b) => Vars(a) + Vars(b)
    case Call(_, args) => VarsArgs(args)
  }

  function VarsArgs(es: seq<Expr>): set<Name>
    decreases es, 0
  {
    if es == [] then {} else Vars(es[0]) + VarsArgs(es[1..])
  }

  function VarsOpt(e: Option<Expr>): set<Name> {
    if e.Some? then Vars(e.value) else {}
  }

  /** No call, no `++` or `--` and no assignment anywhere in the tree. */
  predicate NoEffect(e: Expr) {
    match e
    case Num(_) => true
    case Var(_) => true
    case Un(_, a) => NoEffect(a)
    case Bin(_, a, b) => NoEffect(a) && NoEffect(b)
    case Logic(_, a, b) => NoEffect(a) && NoEffect(b)
    case Cond(c, a, b) => NoEffect(c) && NoEffect(a) && NoEffect(b)
    case Cast(_, a) => NoEffect(a)
    case Sizeof(a) => NoEffect(a)
    case Deref(a, _) => NoEffect(a)
    case AddrOf(a) => NoEffect(a)
    case Index(a, i, _, _, _) => NoEffect(a) && NoEffect(i)
    case Member(a, _, _, _) => NoEffect(a)
    case Comma(a, b) => NoEffect(a) && NoEffect(b)
    case _ => false
  }

  /** The tree has a volatile access (a volatile name, or an lvalue of volatile type). */
  predicate Touches(vol: set<Name>, e: Expr)
    decreases e, 1
  {
    match e
    case Num(_) => false
    case Var(x) => x in vol
    case Un(_, a) => Touches(vol, a)
    case Bin(_, a, b) => Touches(vol, a) || Touches(vol, b)
    case Logic(_, a, b) => Touches(vol, a) || Touches(vol, b)
    case Cond(c, a, b) => Touches(vol, c) || Touches(vol, a) || Touches(vol, b)
    case Cast(_, a) => Touches(vol, a)
    case Sizeof(a) => Touches(vol, a)
    case Deref(a, v) => v || Touches(vol, a)
    case AddrOf(a) => Touches(vol, a)
    case Index(a, i, _, _, v) => v || Touches(vol, a) || Touches(vol, i)
    case Member(a, _, _, v) => v || Touches(vol, a)
    case Assign(_, l, r) => Touches(vol, l) || Touches(vol, r)
    case IncDec(_, _, l) => Touches(vol, l)
    case Comma(a, b) => Touches(vol, a) || Touches(vol, b)
    case Call(_, args) => TouchesArgs(vol, args)
  }

  predicate TouchesArgs(vol: set<Name>, es: seq<Expr>)
    decreases es, 0
  {
    es != [] && (Touches(vol, es[0]) || TouchesArgs(vol, es[1..]))
  }

  predicate Pure(vol: set<Name>, e: Expr) {
    NoEffect(e) && !Touches(vol, e)
  }

  /** The evaluation of a pure expression changes nothing and causes no event. */
  lemma {:induction false} PureEval(w: World, e: Expr, s: State)
    requires Pure(w.vol, e)
    ensures Eval(w, e, s).1 == s && EvalPlace(w, e, s).1 == s
    ensures !EvalPlace(w, e, s).0.PNone? ==> !EvalPlace(w, e, s).0.vol
  {
    match e
    case Num(_) =>
    case Var(_) =>
    case Un(_, a) => PureEval(w, a, s);
    case Bin(_, a, b) => PureEval(w, a, s); PureEval(w, b, s);
    case Logic(_, a, b) => PureEval(w, a, s); PureEval(w, b, s);
    case Cond(c, a, b) => PureEval(w, c, s); PureEval(w, a, s); PureEval(w, b, s);
    case Cast(_, a) => PureEval(w, a, s);
    case Sizeof(_) =>
    case Deref(a, _) => PureEval(w, a, s);
    case AddrOf(a) => PureEval(w, a, s);
    case Index(a, i, _, _, _) => PureEval(w, a, s); PureEval(w, i, s);
    case Member(a, _, _, _) => PureEval(w, a, s);
    case Comma(a, b) => PureEval(w, a, s); PureEval(w, b, s);
  }

  /** The two states differ at most in the variables of `D`. */
  ghost predicate AgreeOff(D: set<Name>, s: State, t: State) {
    && s.mem == t.mem
    && s.trace == t.trace
    && forall x :: x !in D ==> Get(s.env, x) == Get(t.env, x)
  }

  lemma ModifyAgree(w: World, D: set<Name>, p: Place, aop: Option<BinOp>, v: Value, s: State, t: State)
    requires AgreeOff(D, s, t) && (p.PVar? ==> p.x !in D)
    ensures Modify(w, p, aop, v, s).0 == Modify(w, p, aop, v, t).0
    ensures AgreeOff(D, Modify(w, p, aop, v, s).1, Modify(w, p, aop, v, t).1)
  {
  }

  /** Evaluating `e` in `s` and in `t` gives equal results outside `D`. */
  ghost predicate SameEval(w: World, D: set<Name>, e: Expr, s: State, t: State) {
    && Eval(w, e, s).0 == Eval(w, e, t).0
    && AgreeOff(D, Eval(w, e, s).1, Eval(w, e, t).1)
    && EvalPlace(w, e, s).0 == EvalPlace(w, e, t).0
    && AgreeOff(D, EvalPlace(w, e, s).1, EvalPlace(w, e, t).1)
    && (EvalPlace(w, e, s).0.PVar? ==> EvalPlace(w, e, s).0.x !in D)
  }

  /** An expression without a name of `D` has the same value and the same effect in
      states that agree outside `D`. */
  lemma {:induction false} EvalAgree(w: World, D: set<Name>, e: Expr, s: State, t: State)
    requires Vars(e) !! D && AgreeOff(D, s, t)
    ensures SameEval(w, D, e, s, t)
    decreases e, 1
  {
    match e
    case Num(_) =>
    case Var(_) =>
    case Sizeof(_) =>
    case Un(_, _) => OneAgree(w, D, e, s, t);
    case Cast(_, _) => OneAgree(w, D, e, s, t);
    case AddrOf(_) => OneAgree(w, D, e, s, t);
    case Deref(_, _) => OneAgree(w, D, e, s, t);
    case Member(_, _, _, _) => OneAgree(w, D, e, s, t);
    case Bin(_, _, _) => TwoAgree(w, D, e, s, t);
    case Logic(_, _, _) => TwoAgree(w, D, e, s, t);
    case Comma(_, _) => TwoAgree(w, D, e, s, t);
    case Cond(_, _, _) => CondAgree(w, D, e, s, t);
    case Index(_, _, _, _, _) => IndexAgree(w, D, e, s, t);
    case Assign(_, _, _) => StoreAgree(w, D, e, s, t);
    case IncDec(_, _, _) => StepAgree(w, D, e, s, t);
    case Call(_, args) => ArgsAgree(w, D, args, s, t);
  }

  lemma {:induction false} OneAgree(w: World, D: set<Name>, e: Expr, s: State, t: State)
    requires e.Un? || e.Cast? || e.AddrOf? || e.Deref? || e.Member?
    requires Vars(e) !! D && AgreeOff(D, s, t)
    ensures SameEval(w, D, e, s, t)
    decreases e, 0
  {
    EvalAgree(w, D, e.e, s, t);
  }

  lemma {:induction false} StepAgree(w: World, D: set<Name>, e: Expr, s: State, t: State)
    requires e.IncDec?
    requires Vars(e) !! D && AgreeOff(D, s, t)
    ensures SameEval(w, D, e, s, t)
    decreases e, 0
  {
    EvalAgree(w, D, e.lhs, s, t);
  }

  lemma {:induction false} TwoAgree(w: World, D: set<Name>, e: Expr, s: State, t: State)
    requires e.Bin? || e.Logic? || e.Comma?
    requires Vars(e) !! D && AgreeOff(D, s, t)
    ensures SameEval(w, D, e, s, t)
    decreases e, 0
  {
    EvalAgree(w, D, e.a, s, t);
    EvalAgree(w, D, e.b, Eval(w, e.a, s).1, Eval(w, e.a, t).1);
  }

  lemma {:induction false} CondAgree(w: World, D: set<Name>, e: Expr, s: State, t: State)
    requires e.Cond?
    requires Vars(e) !! D && AgreeOff(D, s, t)
    ensures SameEval(w, D, e, s, t)
    decreases e, 0
  {
    EvalAgree(w, D, e.c, s, t);
    if w.truth(Eval(w, e.c, s).0) {
      EvalAgree(w, D, e.a, Eval(w, e.c, s).1, Eval(w, e.c, t).1);
    } else {
      EvalAgree(w, D, e.b, Eval(w, e.c, s).1, Eval(w, e.c, t).1);
    }
  }

  lemma {:induction false} IndexAgree(w: World, D: set<Name>, e: Expr, s: State, t: State)
    requires e.Index?
    requires Vars(e) !! D && AgreeOff(D, s, t)
    ensures SameEval(w, D, e, s, t)
    decreases e, 0
  {
    EvalAgree(w, D, e.arr, s, t);
    EvalAgree(w, D, e.idx, Eval(w, e.arr, s).1, Eval(w, e.arr, t).1);
  }

  lemma {:induction false} StoreAgree(w: World, D: set<Name>, e: Expr, s: State, t: State)
    requires e.Assign?
    requires Vars(e) !! D && AgreeOff(D, s, t)
    ensures SameEval(w, D, e, s, t)
    decreases e, 0
  {
    EvalAgree(w, D, e.rhs, s, t);
    var rs, rt := Eval(w, e.rhs, s), Eval(w, e.rhs, t);
    EvalAgree(w, D, e.lhs, rs.1, rt.1);
    var ls, lt := EvalPlace(w, e.lhs, rs.1), EvalPlace(w, e.lhs, rt.1);
    ModifyAgree(w, D, ls.0, e.aop, rs.0, ls.1, lt.1);
    assert Eval(w, e, s) == Modify(w, ls.0, e.aop, rs.0, ls.1);
    assert Eval(w, e, t) == Modify(w, lt.0, e.aop, rt.0, lt.1);
  }

  lemma {:induction false} ArgsAgree(w: World, D: set<Name>, es: seq<Expr>, s: State, t: State)
    requires VarsArgs(es) !! D && AgreeOff(D, s, t)
    ensures EvalArgs(w, es, s).0 == EvalArgs(w, es, t).0
    ensures AgreeOff(D, EvalArgs(w, es, s).1, EvalArgs(w, es, t).1)
    decreases es, 0
  {
    if es != [] {
      EvalAgree(w, D, es[0], s, t);
      ArgsAgree(w, D, es[1..], Eval(w, es[0], s).1, Eval(w, es[0], t).1);
    }
  }

  lemma TestAgree(w: World, D: set<Name>, c: Option<Expr>, enter: bool, s: State, t: State)
    requires VarsOpt(c) !! D && AgreeOff(D, s, t)
    ensures Test(w, c, enter, s).0 == Test(w, c, enter, t).0
    ensures AgreeOff(D, Test(w, c, enter, s).1, Test(w, c, enter, t).1)
  {
    if c.Some? { EvalAgree(w, D, c.value, s, t); }
  }

  /** `a + b` runs `a`, then `b`; a jump into `b` passes over `a`. */
  lemma {:induction false} ExecAppend(w: World, fuel: nat, a: seq<Stmt>, b: seq<Stmt>, m: Mode, st: State)
    ensures ExecList(w, fuel, a + b, m, st) ==
      if m.Seek? && !HasLabelIn(a, m.lab) then ExecList(w, fuel, b, m, st)
      else
        var r := ExecList(w, fuel, a, m, st);
        if r.0 == Norm then ExecList(w, fuel, b, Run, r.1) else r
    decreases a
  {
    if a == [] {
      assert a + b == b;
    } else {
      assert (a + b)[1..] == a[1..] + b;
      ExecAppend(w, fuel, a[1..], b, m, st);
      ExecAppend(w, fuel, a[1..], b, Run, Exec(w, fuel, a[0], m, st).1);
    }
  }

  lemma {:induction false} LabelAppend(a: seq<Stmt>, b: seq<Stmt>, l: Label)
    ensures HasLabelIn(a + b, l) == (HasLabelIn(a, l) || HasLabelIn(b, l))
    decreases a
  {
    if a == [] {
      assert a + b == b;
    } else {
      assert (a + b)[1..] == a[1..] + b;
      LabelAppend(a[1..], b, l);
    }
  }
}
