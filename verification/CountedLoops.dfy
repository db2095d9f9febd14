/** Short counted loops: an empty one becomes the assignment of the value that its counter is
    left with, and one of up to four passes becomes copies of its body. */
module CountedLoops {
  import opened Wrappers
  import opened CLang
  import opened Frames
  import IntFacts
  import CInt

  // ---- fuel ----------------------------------------------------------------------------------

  /** One turn of a loop. */
  lemma LoopStep(w: World, f: nat, c: Option<Expr>, u: Option<Expr>, body: Stmt, m: Mode, enter: bool, st: State)
    ensures
      var t := Test(w, c, enter, st);
      var r := Exec(w, f, body, m, t.1);
      Loop(w, f, c, u, body, m, enter, st) ==
        if !t.0 || r.0 == Brk then (Norm, if t.0 then r.1 else t.1)
        else if r.0 == Norm || r.0 == Cont then
          if f == 0 then (Timeout, r.1) else Loop(w, f - 1, c, u, body, Run, false, EvalOpt(w, u, r.1))
        else r
  {
    hide Exec, Test, EvalOpt;
  }

  /** A run that ends does the same with more fuel. */
  lemma {:induction false} MoreFuel(w: World, f: nat, g: nat, s: Stmt, m: Mode, st: State)
    requires f <= g && Exec(w, f, s, m, st).0 != Timeout
    ensures Exec(w, g, s, m, st) == Exec(w, f, s, m, st)
    decreases f, s, 1
  {
    hide Eval, ExecInit, Loop, HasLabel;
    match s
    case Block(items) => MoreFuelList(w, f, g, items, m, st);
    case If(c, thn, els) =>
      var st1 := if m.Run? then Eval(w, c, st).1 else st;
      if m.Seek? {
        if HasLabel(thn, m.lab) || els.None? {
          MoreFuel(w, f, g, thn, m, st);
        } else {
          MoreFuel(w, f, g, els.value, m, st);
        }
      } else if w.truth(Eval(w, c, st).0) {
        MoreFuel(w, f, g, thn, Run, st1);
      } else if els.Some? {
        MoreFuel(w, f, g, els.value, Run, st1);
      }
    case While(c, body) => MoreFuelLoop(w, f, g, Some(c), None, body, m, m.Seek?, st);
    case DoWhile(body, c) => MoreFuelLoop(w, f, g, Some(c), None, body, m, true, st);
    case For(init, c, u, body) =>
      MoreFuelLoop(w, f, g, c, u, body, m, m.Seek?, if m.Seek? then st else ExecInit(w, init, st));
    case Switch(e, body) => MoreFuelSwitch(w, f, g, e, body, m, st);
    case LabelS(lab, body) => MoreFuel(w, f, g, body, if m == Seek(lab) then Run else m, st);
    case _ =>
  }

  lemma {:induction false} MoreFuelSwitch(w: World, f: nat, g: nat, e: Expr, body: Stmt, m: Mode, st: State)
    requires f <= g && Exec(w, f, Switch(e, body), m, st).0 != Timeout
    ensures Exec(w, g, Switch(e, body), m, st) == Exec(w, f, Switch(e, body), m, st)
    decreases f, body, 2
  {
    hide Eval, HasLabel;
    if m.Seek? {
      MoreFuel(w, f, g, body, m, st);
    } else {
      var r := Eval(w, e, st);
      var t := SwitchTarget(body, w.caseOf(r.0));
      if t.Some? { MoreFuel(w, f, g, body, Seek(t.value), r.1); }
    }
  }

  lemma {:induction false} MoreFuelList(w: World, f: nat, g: nat, items: seq<Stmt>, m: Mode, st: State)
    requires f <= g && ExecList(w, f, items, m, st).0 != Timeout
    ensures ExecList(w, g, items, m, st) == ExecList(w, f, items, m, st)
    decreases f, items, 0
  {
    hide Exec, HasLabel;
    if items != [] {
      if m.Seek? && !HasLabel(items[0], m.lab) {
        MoreFuelList(w, f, g, items[1..], m, st);
      } else {
        MoreFuel(w, f, g, items[0], m, st);
        var r := Exec(w, f, items[0], m, st);
        if r.0 == Norm { MoreFuelList(w, f, g, items[1..], Run, r.1); }
      }
    }
  }

  lemma {:induction false} MoreFuelLoop(w: World, f: nat, g: nat, c: Option<Expr>, u: Option<Expr>, body: Stmt, m: Mode,
                                        enter: bool, st: State)
    requires f <= g && Loop(w, f, c, u, body, m, enter, st).0 != Timeout
    ensures Loop(w, g, c, u, body, m, enter, st) == Loop(w, f, c, u, body, m, enter, st)
    decreases f, body, 2
  {
    hide Exec, Test, EvalOpt, Loop;
    LoopStep(w, f, c, u, body, m, enter, st);
    LoopStep(w, g, c, u, body, m, enter, st);
    var t := Test(w, c, enter, st);
    if t.0 {
      var r := Exec(w, f, body, m, t.1);
      MoreFuel(w, f, g, body, m, t.1);
      if r.0 == Norm || r.0 == Cont { MoreFuelLoop(w, f - 1, g - 1, c, u, body, Run, false, EvalOpt(w, u, r.1)); }
    }
  }

  // ---- the copies of a body --------------------------------------------------------------------

  /** `e` with each use of `x` replaced by a literal, or, when the counter keeps its variable, as
      it is. */
  function Copy(lit: bool, x: Name, v: int, e: Expr): Expr
    decreases e, 1
  {
    match e
    case Num(_) => e
    case Var(y) => if lit && y == x then Num(v) else e
    case Un(op, a) => Un(op, Copy(lit, x, v, a))
    case Bin(op, a, b) => Bin(op, Copy(lit, x, v, a), Copy(lit, x, v, b))
    case Logic(k, a, b) => Logic(k, Copy(lit, x, v, a), Copy(lit, x, v, b))
    case Cond(c, a, b) => Cond(Copy(lit, x, v, c), Copy(lit, x, v, a), Copy(lit, x, v, b))
    case Cast(ty, a) => Cast(ty, Copy(lit, x, v, a))
    case Sizeof(_) => e
    case Deref(a, q) => Deref(Copy(lit, x, v, a), q)
    case AddrOf(a) => AddrOf(Copy(lit, x, v, a))
    case Index(a, i, n, k, q) => Index(Copy(lit, x, v, a), Copy(lit, x, v, i), n, k, q)
    case Member(a, o, k, q) => Member(Copy(lit, x, v, a), o, k, q)
    case Assign(op, l, r) => Assign(op, Copy(lit, x, v, l), Copy(lit, x, v, r))
    case IncDec(p, i, l) => IncDec(p, i, Copy(lit, x, v, l))
    case Comma(a, b) => Comma(Copy(lit, x, v, a), Copy(lit, x, v, b))
    case Call(f, args) => Call(f, CopyArgs(lit, x, v, args))
  }

  function CopyArgs(lit: bool, x: Name, v: int, es: seq<Expr>): seq<Expr>
    decreases es, 0
  {
    if es == [] then [] else [Copy(lit, x, v, es[0])] + CopyArgs(lit, x, v, es[1..])
  }

  /** `x` is not assigned, its address is not taken, and its type does not matter. */
  predicate Keeps(lit: bool, x: Name, e: Expr)
    decreases e, 1
  {
    match e
    case Num(_) => true
    case Var(_) => true
    case Un(_, a) => Keeps(lit, x, a)
    case Bin(_, a, b) => Keeps(lit, x, a) && Keeps(lit, x, b)
    case Logic(_, a, b) => Keeps(lit, x, a) && Keeps(lit, x, b)
    case Cond(c, a, b) => Keeps(lit, x, c) && Keeps(lit, x, a) && Keeps(lit, x, b)
    case Cast(_, a) => Keeps(lit, x, a)
    case Sizeof(_) => !lit
    case Deref(a, _) => Keeps(lit, x, a)
    case AddrOf(a) => a != Var(x) && Keeps(lit, x, a)
    case Index(a, i, _, _, _) => Keeps(lit, x, a) && Keeps(lit, x, i)
    case Member(a, _, _, _) => a != Var(x) && Keeps(lit, x, a)
    case Assign(_, l, r) => l != Var(x) && Keeps(lit, x, l) && Keeps(lit, x, r)
    case IncDec(_, _, l) => l != Var(x) && Keeps(lit, x, l)
    case Comma(a, b) => Keeps(lit, x, a) && Keeps(lit, x, b)
    case Call(_, args) => KeepsArgs(lit, x, args)
  }

  predicate KeepsArgs(lit: bool, x: Name, es: seq<Expr>)
    decreases es, 0
  {
    es == [] || (Keeps(lit, x, es[0]) && KeepsArgs(lit, x, es[1..]))
  }

  function CopyOpt(lit: bool, x: Name, v: int, e: Option<Expr>): Option<Expr> {
    if e.Some? then Some(Copy(lit, x, v, e.value)) else None
  }

  predicate KeepsOpt(lit: bool, x: Name, e: Option<Expr>) { e.Some? ==> Keeps(lit, x, e.value) }

  function CopyS(lit: bool, x: Name, v: int, s: Stmt): Stmt
    decreases s, 1
  {
    match s
    case ExprS(e) => ExprS(Copy(lit, x, v, e))
    case Block(items) => Block(CopyAll(lit, x, v, items))
    case If(c, thn, els) =>
      If(Copy(lit, x, v, c), CopyS(lit, x, v, thn), if els.Some? then Some(CopyS(lit, x, v, els.value)) else None)
    case While(c, body) => While(Copy(lit, x, v, c), CopyS(lit, x, v, body))
    case DoWhile(body, c) => DoWhile(CopyS(lit, x, v, body), Copy(lit, x, v, c))
    case For(FExpr(i), c, u, body) =>
      For(FExpr(Copy(lit, x, v, i)), CopyOpt(lit, x, v, c), CopyOpt(lit, x, v, u), CopyS(lit, x, v, body))
    case For(i, c, u, body) => For(i, CopyOpt(lit, x, v, c), CopyOpt(lit, x, v, u), CopyS(lit, x, v, body))
    case Return(r) => Return(CopyOpt(lit, x, v, r))
    case _ => s
  }

  function CopyAll(lit: bool, x: Name, v: int, items: seq<Stmt>): seq<Stmt>
    decreases items, 0
  {
    if items == [] then [] else [CopyS(lit, x, v, items[0])] + CopyAll(lit, x, v, items[1..])
  }

  /** A body that can be copied: no break, continue, goto, label or switch, no declaration, and
      it keeps `x`. */
  predicate Plain(lit: bool, x: Name, s: Stmt)
    decreases s, 1
  {
    match s
    case Empty => true
    case ExprS(e) => Keeps(lit, x, e)
    case Block(items) => PlainAll(lit, x, items)
    case If(c, thn, els) => Keeps(lit, x, c) && Plain(lit, x, thn) && (els.Some? ==> Plain(lit, x, els.value))
    case While(c, body) => Keeps(lit, x, c) && Plain(lit, x, body)
    case DoWhile(body, c) => Keeps(lit, x, c) && Plain(lit, x, body)
    case For(i, c, u, body) =>
      !i.FDecl? && (i.FExpr? ==> Keeps(lit, x, i.e)) && KeepsOpt(lit, x, c) && KeepsOpt(lit, x, u) &&
      Plain(lit, x, body)
    case Return(r) => KeepsOpt(lit, x, r)
    case _ => false
  }

  predicate PlainAll(lit: bool, x: Name, items: seq<Stmt>)
    decreases items, 0
  {
    items == [] || (Plain(lit, x, items[0]) && PlainAll(lit, x, items[1..]))
  }

  // ---- a copy does what the body does ----------------------------------------------------------------

  /** In `s` the counter has the value `v`; `t` agrees except that its counter may have another
      value when the copy does not use it. */
  ghost predicate Alike(lit: bool, x: Name, v: int, s: State, t: State) {
    s.mem == t.mem && s.trace == t.trace && (forall y :: y != x ==> Get(s.env, y) == Get(t.env, y)) &&
    Get(s.env, x) == I(v) && (!lit ==> Get(t.env, x) == I(v))
  }

  /** The counter is a variable without an address. */
  predicate Register(w: World, x: Name) { x !in w.inMem && x !in w.arrays && x !in w.vol }

  ghost predicate SameEffect(w: World, lit: bool, x: Name, v: int, e: Expr, s: State, t: State) {
    var c := Copy(lit, x, v, e);
    Eval(w, e, s).0 == Eval(w, c, t).0 && Alike(lit, x, v, Eval(w, e, s).1, Eval(w, c, t).1) &&
    (e != Var(x) ==>
      EvalPlace(w, e, s).0 == EvalPlace(w, c, t).0 && Alike(lit, x, v, EvalPlace(w, e, s).1, EvalPlace(w, c, t).1) &&
      (EvalPlace(w, e, s).0.PVar? ==> EvalPlace(w, e, s).0.x != x))
  }

  lemma {:induction false} CopyEval(w: World, lit: bool, x: Name, v: int, e: Expr, s: State, t: State)
    requires Register(w, x) && Keeps(lit, x, e) && Alike(lit, x, v, s, t)
    ensures SameEffect(w, lit, x, v, e, s, t)
    decreases e, 1
  {
    hide Eval, EvalPlace, Copy, Alike, SameEffect;
    match e
    case Num(_) => CopyLeaf(w, lit, x, v, e, s, t);
    case Var(_) => CopyLeaf(w, lit, x, v, e, s, t);
    case Sizeof(_) => CopyLeaf(w, lit, x, v, e, s, t);
    case Un(_, _) => CopyOne(w, lit, x, v, e, s, t);
    case Cast(_, _) => CopyOne(w, lit, x, v, e, s, t);
    case AddrOf(_) => CopyOne(w, lit, x, v, e, s, t);
    case Deref(_, _) => CopyOne(w, lit, x, v, e, s, t);
    case Member(_, _, _, _) => CopyOne(w, lit, x, v, e, s, t);
    case Bin(_, _, _) => CopyTwo(w, lit, x, v, e, s, t);
    case Logic(_, _, _) => CopyTwo(w, lit, x, v, e, s, t);
    case Comma(_, _) => CopyTwo(w, lit, x, v, e, s, t);
    case Cond(_, _, _) => CopyCond(w, lit, x, v, e, s, t);
    case Index(_, _, _, _, _) => CopyIndex(w, lit, x, v, e, s, t);
    case Assign(_, _, _) => CopyAssign(w, lit, x, v, e, s, t);
    case IncDec(_, _, _) => CopyStep(w, lit, x, v, e, s, t);
    case Call(_, _) => CopyCall(w, lit, x, v, e, s, t);
  }

  lemma CopyLeaf(w: World, lit: bool, x: Name, v: int, e: Expr, s: State, t: State)
    requires e.Num? || e.Var? || e.Sizeof?
    requires Register(w, x) && Keeps(lit, x, e) && Alike(lit, x, v, s, t)
    ensures SameEffect(w, lit, x, v, e, s, t)
  {
    if e.Var? { CopyVar(w, lit, x, v, e, s, t); }
  }

  lemma CopyVar(w: World, lit: bool, x: Name, v: int, e: Expr, s: State, t: State)
    requires e.Var? && Register(w, x) && Keeps(lit, x, e) && Alike(lit, x, v, s, t)
    ensures SameEffect(w, lit, x, v, e, s, t)
  {
  }

  lemma ReadAlike(w: World, lit: bool, x: Name, v: int, p: Place, s: State, t: State)
    requires Alike(lit, x, v, s, t) && (p.PVar? ==> p.x != x)
    ensures Read(w, p, s).0 == Read(w, p, t).0 && Alike(lit, x, v, Read(w, p, s).1, Read(w, p, t).1)
  {
  }

  lemma WriteAlike(w: World, lit: bool, x: Name, v: int, p: Place, k: Value, s: State, t: State)
    requires Alike(lit, x, v, s, t) && (p.PVar? ==> p.x != x)
    ensures Write(w, p, k, s).0 == Write(w, p, k, t).0 && Alike(lit, x, v, Write(w, p, k, s).1, Write(w, p, k, t).1)
  {
    var a, b := Write(w, p, k, s).1, Write(w, p, k, t).1;
    forall y ensures Get(a.env, y) == if p.PVar? && y == p.x then w.conv(p, k) else Get(s.env, y) {}
    forall y ensures Get(b.env, y) == if p.PVar? && y == p.x then w.conv(p, k) else Get(t.env, y) {}
  }

  lemma {:induction false} CopyCall(w: World, lit: bool, x: Name, v: int, e: Expr, s: State, t: State)
    requires e.Call?
    requires Register(w, x) && Keeps(lit, x, e) && Alike(lit, x, v, s, t)
    ensures SameEffect(w, lit, x, v, e, s, t)
    decreases e, 0
  {
    CopyEvalArgs(w, lit, x, v, e.args, s, t);
  }

  lemma {:induction false} CopyOne(w: World, lit: bool, x: Name, v: int, e: Expr, s: State, t: State)
    requires e.Un? || e.Cast? || e.AddrOf? || e.Deref? || e.Member?
    requires Register(w, x) && Keeps(lit, x, e) && Alike(lit, x, v, s, t)
    ensures SameEffect(w, lit, x, v, e, s, t)
    decreases e, 0
  {
    hide Alike, Read;
    CopyEval(w, lit, x, v, e.e, s, t);
    var p := EvalPlace(w, e, s);
    if e.Deref? || e.Member? { ReadAlike(w, lit, x, v, p.0, p.1, EvalPlace(w, Copy(lit, x, v, e), t).1); }
  }

  lemma {:induction false} CopyTwo(w: World, lit: bool, x: Name, v: int, e: Expr, s: State, t: State)
    requires e.Bin? || e.Logic? || e.Comma?
    requires Register(w, x) && Keeps(lit, x, e) && Alike(lit, x, v, s, t)
    ensures SameEffect(w, lit, x, v, e, s, t)
    decreases e, 0
  {
    hide Alike;
    CopyEval(w, lit, x, v, e.a, s, t);
    CopyEval(w, lit, x, v, e.b, Eval(w, e.a, s).1, Eval(w, Copy(lit, x, v, e.a), t).1);
  }

  lemma {:induction false} CopyCond(w: World, lit: bool, x: Name, v: int, e: Expr, s: State, t: State)
    requires e.Cond?
    requires Register(w, x) && Keeps(lit, x, e) && Alike(lit, x, v, s, t)
    ensures SameEffect(w, lit, x, v, e, s, t)
    decreases e, 0
  {
    hide Alike;
    CopyEval(w, lit, x, v, e.c, s, t);
    var s1, t1 := Eval(w, e.c, s).1, Eval(w, Copy(lit, x, v, e.c), t).1;
    if w.truth(Eval(w, e.c, s).0) { CopyEval(w, lit, x, v, e.a, s1, t1); } else { CopyEval(w, lit, x, v, e.b, s1, t1); }
  }

  lemma {:induction false} CopyIndex(w: World, lit: bool, x: Name, v: int, e: Expr, s: State, t: State)
    requires e.Index?
    requires Register(w, x) && Keeps(lit, x, e) && Alike(lit, x, v, s, t)
    ensures SameEffect(w, lit, x, v, e, s, t)
    decreases e, 0
  {
    hide Alike, Read;
    CopyEval(w, lit, x, v, e.arr, s, t);
    CopyEval(w, lit, x, v, e.idx, Eval(w, e.arr, s).1, Eval(w, Copy(lit, x, v, e.arr), t).1);
    var p := EvalPlace(w, e, s);
    ReadAlike(w, lit, x, v, p.0, p.1, EvalPlace(w, Copy(lit, x, v, e), t).1);
  }

  lemma ModifyAlike(w: World, lit: bool, x: Name, v: int, p: Place, aop: Option<BinOp>, k: Value, s: State, t: State)
    requires Alike(lit, x, v, s, t) && (p.PVar? ==> p.x != x)
    ensures Modify(w, p, aop, k, s).0 == Modify(w, p, aop, k, t).0
    ensures Alike(lit, x, v, Modify(w, p, aop, k, s).1, Modify(w, p, aop, k, t).1)
  {
    hide Alike, Read, Write;
    if aop.None? {
      WriteAlike(w, lit, x, v, p, k, s, t);
    } else {
      ReadAlike(w, lit, x, v, p, s, t);
      var ro := Read(w, p, s);
      WriteAlike(w, lit, x, v, p, w.bin(aop.value, ro.0, k), ro.1, Read(w, p, t).1);
    }
  }

  lemma {:induction false} CopyAssign(w: World, lit: bool, x: Name, v: int, e: Expr, s: State, t: State)
    requires e.Assign?
    requires Register(w, x) && Keeps(lit, x, e) && Alike(lit, x, v, s, t)
    ensures SameEffect(w, lit, x, v, e, s, t)
    decreases e, 0
  {
    hide Alike, Modify;
    CopyEval(w, lit, x, v, e.rhs, s, t);
    var rs, rt := Eval(w, e.rhs, s), Eval(w, Copy(lit, x, v, e.rhs), t);
    CopyEval(w, lit, x, v, e.lhs, rs.1, rt.1);
    var ls, lt := EvalPlace(w, e.lhs, rs.1), EvalPlace(w, Copy(lit, x, v, e.lhs), rt.1);
    ModifyAlike(w, lit, x, v, ls.0, e.aop, rs.0, ls.1, lt.1);
    assert Eval(w, e, s) == Modify(w, ls.0, e.aop, rs.0, ls.1);
    assert Eval(w, Copy(lit, x, v, e), t) == Modify(w, lt.0, e.aop, rt.0, lt.1);
  }

  lemma {:induction false} CopyStep(w: World, lit: bool, x: Name, v: int, e: Expr, s: State, t: State)
    requires e.IncDec?
    requires Register(w, x) && Keeps(lit, x, e) && Alike(lit, x, v, s, t)
    ensures SameEffect(w, lit, x, v, e, s, t)
    decreases e, 0
  {
    hide Alike, Read, Write;
    CopyEval(w, lit, x, v, e.lhs, s, t);
    var p, q := EvalPlace(w, e.lhs, s), EvalPlace(w, Copy(lit, x, v, e.lhs), t);
    ReadAlike(w, lit, x, v, p.0, p.1, q.1);
    var a, b := Read(w, p.0, p.1), Read(w, q.0, q.1);
    WriteAlike(w, lit, x, v, p.0, w.bin(if e.inc then Add else Sub, a.0, I(1)), a.1, b.1);
  }

  lemma {:induction false} CopyEvalArgs(w: World, lit: bool, x: Name, v: int, es: seq<Expr>, s: State, t: State)
    requires Register(w, x) && KeepsArgs(lit, x, es) && Alike(lit, x, v, s, t)
    ensures EvalArgs(w, es, s).0 == EvalArgs(w, CopyArgs(lit, x, v, es), t).0
    ensures Alike(lit, x, v, EvalArgs(w, es, s).1, EvalArgs(w, CopyArgs(lit, x, v, es), t).1)
    decreases es, 0
  {
    if es != [] {
      CopyEval(w, lit, x, v, es[0], s, t);
      CopyEvalArgs(w, lit, x, v, es[1..], Eval(w, es[0], s).1, Eval(w, Copy(lit, x, v, es[0]), t).1);
    }
  }

  /** Two runs end alike. */
  ghost predicate SameEnd(lit: bool, x: Name, v: int, a: (Out, State), b: (Out, State)) {
    a.0 == b.0 && (a.0 == Norm || a.0 == Timeout || a.0.Ret?) && Alike(lit, x, v, a.1, b.1)
  }

  lemma {:induction false} CopyExec(w: World, f: nat, lit: bool, x: Name, v: int, b: Stmt, s: State, t: State)
    requires Register(w, x) && Plain(lit, x, b) && Alike(lit, x, v, s, t)
    ensures SameEnd(lit, x, v, Exec(w, f, b, Run, s), Exec(w, f, CopyS(lit, x, v, b), Run, t))
    decreases f, b, 1
  {
    hide Eval, Copy, Keeps, Loop, Alike, HasLabel;
    match b
    case Empty =>
    case ExprS(e) => CopyEval(w, lit, x, v, e, s, t);
    case Block(items) => CopyList(w, f, lit, x, v, items, s, t);
    case If(c, thn, els) =>
      CopyEval(w, lit, x, v, c, s, t);
      var s1, t1 := Eval(w, c, s).1, Eval(w, Copy(lit, x, v, c), t).1;
      if w.truth(Eval(w, c, s).0) {
        CopyExec(w, f, lit, x, v, thn, s1, t1);
      } else if els.Some? {
        CopyExec(w, f, lit, x, v, els.value, s1, t1);
      }
    case While(c, body) => CopyLoop(w, f, lit, x, v, Some(c), None, body, false, s, t);
    case DoWhile(body, c) => CopyLoop(w, f, lit, x, v, Some(c), None, body, true, s, t);
    case For(i, c, u, body) =>
      if i.FExpr? {
        CopyEval(w, lit, x, v, i.e, s, t);
        CopyLoop(w, f, lit, x, v, c, u, body, false, Eval(w, i.e, s).1, Eval(w, Copy(lit, x, v, i.e), t).1);
      } else {
        CopyLoop(w, f, lit, x, v, c, u, body, false, s, t);
      }
    case Return(r) => if r.Some? { CopyEval(w, lit, x, v, r.value, s, t); }
  }

  lemma {:induction false} CopyList(w: World, f: nat, lit: bool, x: Name, v: int, items: seq<Stmt>, s: State, t: State)
    requires Register(w, x) && PlainAll(lit, x, items) && Alike(lit, x, v, s, t)
    ensures SameEnd(lit, x, v, ExecList(w, f, items, Run, s), ExecList(w, f, CopyAll(lit, x, v, items), Run, t))
    decreases f, items, 0
  {
    hide Exec, CopyS, Plain, Alike, HasLabel;
    if items != [] {
      CopyExec(w, f, lit, x, v, items[0], s, t);
      var r, q := Exec(w, f, items[0], Run, s), Exec(w, f, CopyS(lit, x, v, items[0]), Run, t);
      if r.0 == Norm { CopyList(w, f, lit, x, v, items[1..], r.1, q.1); }
    }
  }

  lemma CopyTest(w: World, lit: bool, x: Name, v: int, c: Option<Expr>, enter: bool, s: State, t: State)
    requires Register(w, x) && KeepsOpt(lit, x, c) && Alike(lit, x, v, s, t)
    ensures
      var a, b := Test(w, c, enter, s), Test(w, CopyOpt(lit, x, v, c), enter, t);
      a.0 == b.0 && Alike(lit, x, v, a.1, b.1)
  {
    hide Eval, EvalPlace, Copy, Keeps, Alike;
    if c.Some? { CopyEval(w, lit, x, v, c.value, s, t); }
  }

  lemma CopyEvalOpt(w: World, lit: bool, x: Name, v: int, u: Option<Expr>, s: State, t: State)
    requires Register(w, x) && KeepsOpt(lit, x, u) && Alike(lit, x, v, s, t)
    ensures Alike(lit, x, v, EvalOpt(w, u, s), EvalOpt(w, CopyOpt(lit, x, v, u), t))
  {
    hide Eval, EvalPlace, Copy, Keeps, Alike;
    if u.Some? { CopyEval(w, lit, x, v, u.value, s, t); }
  }

  lemma {:induction false} CopyLoop(w: World, f: nat, lit: bool, x: Name, v: int, c: Option<Expr>, u: Option<Expr>,
                                    body: Stmt, enter: bool, s: State, t: State)
    requires Register(w, x) && KeepsOpt(lit, x, c) && KeepsOpt(lit, x, u) && Plain(lit, x, body) &&
      Alike(lit, x, v, s, t)
    ensures SameEnd(lit, x, v, Loop(w, f, c, u, body, Run, enter, s),
                    Loop(w, f, CopyOpt(lit, x, v, c), CopyOpt(lit, x, v, u), CopyS(lit, x, v, body), Run, enter, t))
    decreases f, body, 2
  {
    hide Eval, Copy, Keeps, Exec, CopyS, Plain, Alike, Test, EvalOpt, CopyOpt, KeepsOpt, EvalPlace, Loop;
    LoopStep(w, f, c, u, body, Run, enter, s);
    LoopStep(w, f, CopyOpt(lit, x, v, c), CopyOpt(lit, x, v, u), CopyS(lit, x, v, body), Run, enter, t);
    CopyTest(w, lit, x, v, c, enter, s, t);
    var s1, t1 := Test(w, c, enter, s), Test(w, CopyOpt(lit, x, v, c), enter, t);
    if s1.0 {
      CopyExec(w, f, lit, x, v, body, s1.1, t1.1);
      var r, q := Exec(w, f, body, Run, s1.1), Exec(w, f, CopyS(lit, x, v, body), Run, t1.1);
      if r.0 == Norm {
        CopyEvalOpt(w, lit, x, v, u, r.1, q.1);
        if f > 0 {
          CopyLoop(w, f - 1, lit, x, v, c, u, body, false, EvalOpt(w, u, r.1), EvalOpt(w, CopyOpt(lit, x, v, u), q.1));
        }
      }
    }
  }

  // ---- counted loops ------------------------------------------------------------------------------

  datatype Cmp = Less | AtMost | Differs

  function CmpOp(c: Cmp): BinOp { match c case Less => Lt case AtMost => Le case Differs => Ne }

  predicate Holds(c: Cmp, a: int, b: int) { match c case Less => a < b case AtMost => a <= b case Differs => a != b }

  /** `for (x = start; x cmp end; x += step)`, or `x++`. */
  datatype Head = Head(x: Name, start: int, cmp: Cmp, end: int, step: int, inc: bool)

  predicate Bounds(h: Head) { 0 <= h.start <= 32767 && 0 <= h.end <= 32767 && h.step > 0 && (h.inc ==> h.step == 1) }

  function Set(x: Name, v: int): Expr { Assign(None, Var(x), Num(v)) }

  function CondOf(h: Head): Expr { Bin(CmpOp(h.cmp), Var(h.x), Num(h.end)) }

  function UpdateOf(h: Head): Expr {
    if h.inc then IncDec(true, true, Var(h.x)) else Assign(Some(Add), Var(h.x), Num(h.step))
  }

  function LoopOf(h: Head, body: Stmt): Stmt { For(FExpr(Set(h.x, h.start)), Some(CondOf(h)), Some(UpdateOf(h)), body) }

  /** How many passes the optimizer counts; `None` when it leaves the loop. */
  function Passes(h: Head): Option<nat>
    requires Bounds(h)
  {
    match h.cmp
    case Less => Some(if h.end <= h.start then 0 else (h.end - h.start + h.step - 1) / h.step)
    case AtMost => Some(if h.end < h.start then 0 else (h.end - h.start + h.step) / h.step)
    case Differs =>
      if h.end < h.start || (h.end - h.start) % h.step != 0 then None else Some((h.end - h.start) / h.step)
  }

  /** The value of the counter on pass `k`, over the integers. */
  function At(h: Head, k: nat): int { h.start + k * h.step }

  /** The passes are those with a true condition. */
  lemma PassesCount(h: Head)
    requires Bounds(h) && Passes(h).Some?
    ensures var n := Passes(h).value;
      (forall k: nat :: k < n ==> Holds(h.cmp, At(h, k), h.end)) && !Holds(h.cmp, At(h, n), h.end)
  {
    var n, d := Passes(h).value, h.end - h.start;
    DivBounds(if h.cmp.Less? then d + h.step - 1 else if h.cmp.AtMost? then d + h.step else d, h.step);
    forall k: nat | k < n ensures Holds(h.cmp, At(h, k), h.end) {
      Times(k, n, h.step);
    }
  }

  lemma Times(k: nat, n: nat, s: int)
    requires k < n && s > 0
    ensures k * s <= n * s - s
  {
    assert (n - 1 - k) * s >= 0;
    assert (n - 1 - k) * s == n * s - s - k * s;
  }

  lemma DivBounds(a: int, b: int)
    requires b > 0
    ensures a / b * b <= a < a / b * b + b && a == a / b * b + a % b
  {
  }

  // ---- the counter --------------------------------------------------------------------------------

  /** An integer type of the counter. */
  datatype IntType = IntType(bits: nat, sg: bool)

  function Fit(ct: IntType, v: int): int
    requires ct.bits >= 1
  {
    CInt.WrapBits(v, ct.bits, ct.sg)
  }

  /** A variable that holds what was last written to it. */
  predicate Scalar(w: World, x: Name) { x !in w.arrays && x !in w.vol }

  /** `x` is a variable of type `ct`, in a register or in memory, and arithmetic on it is that of
      two's complement integers. */
  ghost predicate Typed(w: World, x: Name, ct: IntType) {
    ct.bits >= 1 && Scalar(w, x) &&
    (forall v: int :: w.conv(VarPlace(w, x), I(v)) == I(Fit(ct, v))) &&
    (forall v: int :: w.truth(I(v)) == (v != 0)) &&
    (forall a: int, b: int :: w.bin(Lt, I(a), I(b)) == I(if a < b then 1 else 0)) &&
    (forall a: int, b: int :: w.bin(Le, I(a), I(b)) == I(if a <= b then 1 else 0)) &&
    (forall a: int, b: int :: w.bin(Ne, I(a), I(b)) == I(if a != b then 1 else 0)) &&
    (forall a: int, b: int :: w.conv(VarPlace(w, x), w.bin(Add, I(a), I(b))) == I(Fit(ct, a + b)))
  }

  /** The counter is such a variable without an address. */
  ghost predicate Counts(w: World, x: Name, ct: IntType) { Register(w, x) && Typed(w, x, ct) }

  /** The value of the variable, and the state with another. */
  function CellIn(w: World, x: Name, s: State): Value {
    if x in w.inMem then Load(s.mem, (x, 0)) else Get(s.env, x)
  }

  function PutIn(w: World, x: Name, v: int, s: State): State {
    if x in w.inMem then s.(mem := s.mem[(x, 0) := I(v)]) else s.(env := s.env[x := I(v)])
  }

  function Put(s: State, x: Name, v: int): State { s.(env := s.env[x := I(v)]) }

  lemma IsRegister(w: World, x: Name, ct: IntType)
    requires Counts(w, x, ct)
    ensures Register(w, x)
  {
    hide Typed;
  }

  lemma TypedFacts(w: World, x: Name, ct: IntType, c: Cmp, a: int, b: int)
    requires Typed(w, x, ct)
    ensures ct.bits >= 1 && Scalar(w, x) && w.conv(VarPlace(w, x), I(a)) == I(Fit(ct, a))
    ensures w.bin(CmpOp(c), I(a), I(b)) == I(if Holds(c, a, b) then 1 else 0)
    ensures w.truth(I(if Holds(c, a, b) then 1 else 0)) == Holds(c, a, b)
    ensures w.conv(VarPlace(w, x), w.bin(Add, I(a), I(b))) == I(Fit(ct, a + b))
  {
    hide Fit, VarPlace;
  }

  lemma ReadCell(w: World, x: Name, s: State)
    requires Scalar(w, x)
    ensures Eval(w, Var(x), s) == (CellIn(w, x, s), s) && EvalPlace(w, Var(x), s) == (VarPlace(w, x), s)
    ensures Read(w, VarPlace(w, x), s) == (CellIn(w, x, s), s)
  {
  }

  lemma ReadCounter(w: World, x: Name, s: State)
    requires Register(w, x)
    ensures Eval(w, Var(x), s) == (Get(s.env, x), s) && EvalPlace(w, Var(x), s) == (PVar(x, false), s)
    ensures Read(w, PVar(x, false), s) == (Get(s.env, x), s)
  {
    ReadCell(w, x, s);
  }

  lemma WriteCell(w: World, x: Name, v: Value, c: int, s: State)
    requires Scalar(w, x) && w.conv(VarPlace(w, x), v) == I(c)
    ensures Write(w, VarPlace(w, x), v, s) == (I(c), PutIn(w, x, c, s))
    ensures CellIn(w, x, PutIn(w, x, c, s)) == I(c)
  {
  }

  /** The last value written stays. */
  lemma PutTwice(w: World, x: Name, a: int, b: int, s: State)
    ensures PutIn(w, x, b, PutIn(w, x, a, s)) == PutIn(w, x, b, s)
  {
    assert s.mem[(x, 0) := I(a)][(x, 0) := I(b)] == s.mem[(x, 0) := I(b)];
    assert s.env[x := I(a)][x := I(b)] == s.env[x := I(b)];
  }

  lemma AssignIs(w: World, aop: Option<BinOp>, x: Name, v: int, s: State)
    requires Scalar(w, x)
    ensures Eval(w, Assign(aop, Var(x), Num(v)), s) == Modify(w, VarPlace(w, x), aop, I(v), s)
  {
    hide Modify, VarPlace;
    assert Eval(w, Num(v), s) == (I(v), s);
    ReadCell(w, x, s);
  }

  lemma SetIs(w: World, x: Name, ct: IntType, v: int, s: State)
    requires Typed(w, x, ct)
    ensures Eval(w, Set(x, v), s) == (I(Fit(ct, v)), PutIn(w, x, Fit(ct, v), s))
    ensures CellIn(w, x, PutIn(w, x, Fit(ct, v), s)) == I(Fit(ct, v))
  {
    hide Eval, Typed, Fit, Write, VarPlace, PutIn, CellIn;
    TypedFacts(w, x, ct, Less, v, 0);
    AssignIs(w, None, x, v, s);
    WriteCell(w, x, I(v), Fit(ct, v), s);
  }

  lemma SetRuns(w: World, x: Name, ct: IntType, v: int, s: State)
    requires Counts(w, x, ct)
    ensures Eval(w, Set(x, v), s) == (I(Fit(ct, v)), Put(s, x, Fit(ct, v)))
  {
    hide Eval, Typed, Fit, Set, VarPlace;
    SetIs(w, x, ct, v, s);
  }

  lemma BinIs(w: World, op: BinOp, a: Expr, b: Expr, s: State)
    ensures
      var ra := Eval(w, a, s); var rb := Eval(w, b, ra.1);
      Eval(w, Bin(op, a, b), s) == (w.bin(op, ra.0, rb.0), rb.1)
    ensures forall v, t :: Eval(w, Num(v), t) == (I(v), t)
  {
  }

  lemma CondIs(w: World, h: Head, ct: IntType, v: int, s: State)
    requires Typed(w, h.x, ct) && CellIn(w, h.x, s) == I(v)
    ensures Test(w, Some(CondOf(h)), false, s) == (Holds(h.cmp, v, h.end), s)
  {
    hide Eval, Typed, Fit, Holds, VarPlace, CellIn;
    TypedFacts(w, h.x, ct, h.cmp, v, h.end);
    ReadCell(w, h.x, s);
    BinIs(w, CmpOp(h.cmp), Var(h.x), Num(h.end), s);
  }

  lemma CondRuns(w: World, h: Head, ct: IntType, v: int, s: State)
    requires Counts(w, h.x, ct) && Get(s.env, h.x) == I(v)
    ensures Test(w, Some(CondOf(h)), false, s) == (Holds(h.cmp, v, h.end), s)
  {
    hide Typed, Fit, Holds, VarPlace, Test, CondOf;
    CondIs(w, h, ct, v, s);
  }

  lemma StepIs(w: World, x: Name, s: State)
    requires Scalar(w, x)
    ensures Eval(w, IncDec(true, true, Var(x)), s).1 == Write(w, VarPlace(w, x), w.bin(Add, CellIn(w, x, s), I(1)), s).1
  {
    hide Read, Write, VarPlace, CellIn;
    ReadCell(w, x, s);
  }

  lemma UpdateIs(w: World, h: Head, ct: IntType, v: int, s: State)
    requires Bounds(h) && Typed(w, h.x, ct) && CellIn(w, h.x, s) == I(v)
    ensures EvalOpt(w, Some(UpdateOf(h)), s) == PutIn(w, h.x, Fit(ct, v + h.step), s)
    ensures CellIn(w, h.x, PutIn(w, h.x, Fit(ct, v + h.step), s)) == I(Fit(ct, v + h.step))
  {
    hide Eval, Typed, Fit, Write, Read, VarPlace, CellIn, PutIn;
    TypedFacts(w, h.x, ct, h.cmp, v, h.step);
    ReadCell(w, h.x, s);
    WriteCell(w, h.x, w.bin(Add, I(v), I(h.step)), Fit(ct, v + h.step), s);
    if h.inc {
      StepIs(w, h.x, s);
    } else {
      AssignIs(w, Some(Add), h.x, h.step, s);
    }
  }

  lemma UpdateRuns(w: World, h: Head, ct: IntType, v: int, s: State)
    requires Bounds(h) && Counts(w, h.x, ct) && Get(s.env, h.x) == I(v)
    ensures EvalOpt(w, Some(UpdateOf(h)), s) == Put(s, h.x, Fit(ct, v + h.step))
  {
    hide Typed, Fit, VarPlace, EvalOpt, UpdateOf;
    UpdateIs(w, h, ct, v, s);
  }

  /** The value that the counter has before the test of pass `k`. */
  function Counter(h: Head, ct: IntType, k: nat): int
    requires ct.bits >= 1
    decreases k
  {
    if k == 0 then Fit(ct, h.start) else Fit(ct, Counter(h, ct, k - 1) + h.step)
  }

  /** It is the exact value, converted. */
  lemma {:induction false} CounterIs(h: Head, ct: IntType, k: nat)
    requires ct.bits >= 1
    ensures Counter(h, ct, k) == Fit(ct, At(h, k))
    decreases k
  {
    if k > 0 {
      CounterIs(h, ct, k - 1);
      var a, b := Counter(h, ct, k - 1), At(h, k - 1);
      CInt.CongWrap(b, ct.bits, ct.sg);
      CInt.CongSum(a, b, h.step, h.step, ct.bits);
      assert At(h, k) == b + h.step;
      SameBits(ct, a + h.step, b + h.step);
    }
  }

  lemma SameBits(ct: IntType, a: int, b: int)
    requires ct.bits >= 1 && CInt.Cong(a, b, ct.bits)
    ensures Fit(ct, a) == Fit(ct, b)
  {
  }

  /** The passes of the loop are the copies: the counter has the literal's value on each, or, when
      each copy assigns it first, a value that goes on; and its value after them ends the loop. */
  ghost predicate Exact(lit: bool, h: Head, ct: IntType, n: nat)
    requires ct.bits >= 1
  {
    (forall k: nat :: k < n ==>
       if lit then Fit(ct, At(h, k)) == At(h, k) else Holds(h.cmp, Fit(ct, At(h, k)), h.end)) &&
    !Holds(h.cmp, Fit(ct, At(h, n)), h.end)
  }

  /** A counter type that holds the last value is exact. */
  lemma FitsExact(lit: bool, h: Head, ct: IntType)
    requires Bounds(h) && ct.bits >= 1 && Passes(h).Some? && At(h, Passes(h).value) <= CInt.Greatest(ct.bits, ct.sg)
    ensures Exact(lit, h, ct, Passes(h).value)
    ensures forall k: nat :: k <= Passes(h).value ==> Fit(ct, At(h, k)) == At(h, k)
  {
    hide CInt.WrapBits, CInt.Pow2, CInt.LowBits, Passes, Holds;
    var n := Passes(h).value;
    PassesCount(h);
    NotNegative(ct);
    forall k: nat | k <= n ensures Fit(ct, At(h, k)) == At(h, k) {
      if k < n { Times(k, n, h.step); }
      assert 0 <= k * h.step;
      CInt.WrapBitsId(At(h, k), ct.bits, ct.sg);
    }
  }

  lemma NotNegative(ct: IntType)
    requires ct.bits >= 1
    ensures CInt.Least(ct.bits, ct.sg) <= 0
  {
  }

  // ---- an empty loop ---------------------------------------------------------------------------------

  predicate EmptyBody(s: Stmt) { s.Empty? || (s.Block? && EmptyAll(s.items)) }

  predicate EmptyAll(items: seq<Stmt>)
    decreases items
  {
    items == [] || (EmptyBody(items[0]) && EmptyAll(items[1..]))
  }

  lemma {:induction false} EmptyRuns(w: World, f: nat, s: Stmt, st: State)
    requires EmptyBody(s)
    ensures Exec(w, f, s, Run, st) == (Norm, st)
    decreases s, 1
  {
    if s.Block? { EmptyAllRuns(w, f, s.items, st); }
  }

  lemma {:induction false} EmptyAllRuns(w: World, f: nat, items: seq<Stmt>, st: State)
    requires EmptyAll(items)
    ensures ExecList(w, f, items, Run, st) == (Norm, st)
    decreases items, 0
  {
    if items != [] {
      EmptyRuns(w, f, items[0], st);
      EmptyAllRuns(w, f, items[1..], st);
    }
  }

  /** The value that the folded assignment gives; `None` when the loop stays. */
  function EmptyFinal(h: Head): Option<int>
    requires Bounds(h)
  {
    var n := Passes(h);
    if n.None? || At(h, n.value) > 32767 then None else Some(At(h, n.value))
  }

  /** From pass `k` on an empty loop ends after the passes left, and not before. */
  lemma {:induction false} EmptyFrom(w: World, f: nat, h: Head, ct: IntType, body: Stmt, k: nat, n: nat, s: State)
    requires Bounds(h) && Typed(w, h.x, ct) && EmptyBody(body) && k <= n && CellIn(w, h.x, s) == I(Counter(h, ct, k))
    requires (forall i: nat :: i < n ==> Holds(h.cmp, Counter(h, ct, i), h.end)) &&
      !Holds(h.cmp, Counter(h, ct, n), h.end)
    ensures
      var r := Loop(w, f, Some(CondOf(h)), Some(UpdateOf(h)), body, Run, false, s);
      if f >= n - k then r == (Norm, if k == n then s else PutIn(w, h.x, Counter(h, ct, n), s)) else r.0 == Timeout
    decreases n - k
  {
    hide Typed, Test, Exec, EvalOpt, Loop, Holds, Fit, CellIn, PutIn;
    TypedFacts(w, h.x, ct, h.cmp, 0, 0);
    LoopStep(w, f, Some(CondOf(h)), Some(UpdateOf(h)), body, Run, false, s);
    CondIs(w, h, ct, Counter(h, ct, k), s);
    if k < n {
      EmptyRuns(w, f, body, s);
      UpdateIs(w, h, ct, Counter(h, ct, k), s);
      var t := PutIn(w, h.x, Counter(h, ct, k + 1), s);
      if f > 0 {
        EmptyFrom(w, f - 1, h, ct, body, k + 1, n, t);
        PutTwice(w, h.x, Counter(h, ct, k + 1), Counter(h, ct, n), s);
      }
    }
  }

  /** An empty counted loop ends, after exactly the passes counted, and leaves the value that
      the folded assignment gives, for every counter of at least 16 bits, in a register or in
      memory. */
  lemma EmptyLoop(w: World, f: nat, g: nat, h: Head, ct: IntType, body: Stmt, s: State)
    requires Bounds(h) && Typed(w, h.x, ct) && EmptyBody(body) && ct.bits >= 16 && EmptyFinal(h).Some?
    ensures
      var r := Exec(w, f, LoopOf(h, body), Run, s);
      var folded := Block([ExprS(Set(h.x, EmptyFinal(h).value))]);
      if f >= Passes(h).value then r == Exec(w, g, folded, Run, s) && r.0 == Norm else r.0 == Timeout
  {
    hide Typed, Loop, Holds, Passes, Eval, Fit, Set, CellIn, PutIn;
    var n, v := Passes(h).value, EmptyFinal(h).value;
    PassesCount(h);
    Holds16(ct);
    FitsExact(true, h, ct);
    CounterIs(h, ct, n);
    forall i: nat | i < n ensures Counter(h, ct, i) == At(h, i) { CounterIs(h, ct, i); }
    SetIs(w, h.x, ct, h.start, s);
    var s0 := PutIn(w, h.x, Fit(ct, h.start), s);
    EmptyFrom(w, f, h, ct, body, 0, n, s0);
    SetIs(w, h.x, ct, v, s);
    FoldedRuns(w, g, h.x, v, s);
    PutTwice(w, h.x, Fit(ct, h.start), Fit(ct, v), s);
    assert At(h, 0) == h.start;
  }

  lemma Holds16(ct: IntType)
    requires ct.bits >= 16
    ensures CInt.Greatest(ct.bits, ct.sg) >= 32767
  {
    CInt.Widths();
    CInt.Pow2Mono(15, ct.bits - 1);
    CInt.Pow2Mono(16, ct.bits);
  }

  lemma OneItem(w: World, g: nat, i: Stmt, s: State)
    ensures ExecList(w, g, [i], Run, s) == Exec(w, g, i, Run, s)
  {
    hide Exec, HasLabel;
    var r := Exec(w, g, i, Run, s);
    assert [i][1..] == [];
    assert ExecList(w, g, [], Run, r.1) == (Norm, r.1);
  }

  lemma FoldedRuns(w: World, g: nat, x: Name, v: int, s: State)
    ensures Exec(w, g, Block([ExprS(Set(x, v))]), Run, s) == (Norm, Eval(w, Set(x, v), s).1)
  {
    hide Eval, Set;
    OneItem(w, g, ExprS(Set(x, v)), s);
  }

  // ---- unrolling ---------------------------------------------------------------------------------------

  /** The copies of passes `k` to `n - 1`, then the value that the loop leaves. */
  function Copies(lit: bool, h: Head, stmts: seq<Stmt>, k: nat, n: nat): seq<Stmt>
    requires k <= n
    decreases n - k
  {
    if k == n then [ExprS(Set(h.x, At(h, n)))]
    else OneCopy(lit, h, stmts, k) + Copies(lit, h, stmts, k + 1, n)
  }

  function OneCopy(lit: bool, h: Head, stmts: seq<Stmt>, k: nat): seq<Stmt> {
    (if lit then [] else [ExprS(Set(h.x, At(h, k)))]) + CopyAll(lit, h.x, At(h, k), stmts)
  }

  /** What the optimizer puts in place of the loop; `None` when the loop stays. */
  function Unroll(lit: bool, h: Head, stmts: seq<Stmt>): Option<Stmt>
    requires Bounds(h)
  {
    var n := Passes(h);
    if n.None? || !(1 <= n.value <= 4) || !PlainAll(lit, h.x, stmts) then None
    else Some(Block(Copies(lit, h, stmts, 0, n.value)))
  }

  /** Over the integers pass `n` is the first whose condition fails. */
  ghost predicate FirstFails(h: Head, n: nat) {
    !Holds(h.cmp, At(h, n), h.end) && forall k: nat :: k < n ==> Holds(h.cmp, At(h, k), h.end)
  }

  /** A loop is unrolled exactly when its condition first fails after one to four passes and its body is
      plain. */
  lemma UnrollWhen(lit: bool, h: Head, stmts: seq<Stmt>)
    requires Bounds(h)
    ensures Unroll(lit, h, stmts).Some? <==>
      PlainAll(lit, h.x, stmts) && exists n: nat :: 1 <= n <= 4 && FirstFails(h, n)
  {
    hide Copies, PlainAll, Holds, At, Passes;
    if Passes(h).Some? {
      PassesCount(h);
      assert FirstFails(h, Passes(h).value);
      forall n: nat | FirstFails(h, n) ensures n == Passes(h).value {}
    } else {
      forall n: nat ensures !FirstFails(h, n) { NeverFails(h, n); }
    }
  }

  lemma NeverFails(h: Head, n: nat)
    requires Bounds(h) && Passes(h).None?
    ensures Holds(h.cmp, At(h, n), h.end)
  {
    var d := n * h.step;
    assert d >= 0;
    if h.end - h.start == d { NoRest(n, h.step); }
  }

  lemma NoRest(n: nat, s: int)
    requires s > 0
    ensures n * s % s == 0
  {
    var a := n * s;
    var q, r := a / s, a % s;
    IntFacts.Commute(n, s);
    IntFacts.Commute(q, s);
    assert a == q * s + r;
    IntFacts.Unique(s, q, r, n, 0);
  }

  /** The same end, and states that differ at most in the counter, and not at all at the end of
      the loop. */
  ghost predicate SameRun(x: Name, a: (Out, State), b: (Out, State)) {
    a.0 == b.0 && AgreeOff({x}, a.1, b.1) && (a.0 == Norm ==> AgreeOff({}, a.1, b.1))
  }

  /** Before a pass: the loop's counter has its value; the copies may not have assigned theirs. */
  ghost predicate Ready(h: Head, ct: IntType, k: nat, s: State, t: State)
    requires ct.bits >= 1
  {
    AgreeOff({h.x}, s, t) && Get(s.env, h.x) == I(Counter(h, ct, k))
  }

  /** One pass and one copy end alike. */
  lemma OnePass(w: World, f: nat, lit: bool, h: Head, ct: IntType, stmts: seq<Stmt>, k: nat, n: nat, s: State, t: State)
    requires ct.bits >= 1 && Counts(w, h.x, ct) && Exact(lit, h, ct, n) && PlainAll(lit, h.x, stmts) && k < n &&
      Ready(h, ct, k, s, t)
    ensures SameEnd(lit, h.x, Counter(h, ct, k), ExecList(w, f, stmts, Run, s),
                    ExecList(w, f, OneCopy(lit, h, stmts, k), Run, t))
  {
    hide Counts, Exec, ExecList, CopyAll, PlainAll, Eval, SameEnd, Fit, At;
    CounterIs(h, ct, k);
    var v := Counter(h, ct, k);
    var copy := CopyAll(lit, h.x, At(h, k), stmts);
    IsRegister(w, h.x, ct);
    if lit {
      assert OneCopy(lit, h, stmts, k) == copy;
      CopyList(w, f, lit, h.x, v, stmts, s, t);
    } else {
      SetRuns(w, h.x, ct, At(h, k), t);
      var t1 := Put(t, h.x, v);
      ExprRuns(w, f, Set(h.x, At(h, k)), t);
      SetFirst(w, f, ExprS(Set(h.x, At(h, k))), copy, t, t1);
      assert Alike(lit, h.x, v, s, t1);
      CopyList(w, f, lit, h.x, v, stmts, s, t1);
      NotLiteral(h.x, v, At(h, k), stmts);
    }
  }

  lemma ExprRuns(w: World, f: nat, e: Expr, t: State)
    ensures Exec(w, f, ExprS(e), Run, t) == (Norm, Eval(w, e, t).1)
  {
  }

  lemma SetFirst(w: World, f: nat, i: Stmt, rest: seq<Stmt>, t: State, t1: State)
    requires Exec(w, f, i, Run, t) == (Norm, t1)
    ensures ExecList(w, f, [i] + rest, Run, t) == ExecList(w, f, rest, Run, t1)
  {
    hide Exec, HasLabel;
    assert ([i] + rest)[0] == i && ([i] + rest)[1..] == rest;
  }

  /** Without a literal the copies do not depend on the value. */
  lemma {:induction false} NotLiteral(x: Name, v: int, u: int, items: seq<Stmt>)
    ensures CopyAll(false, x, v, items) == CopyAll(false, x, u, items)
    decreases items, 0
  {
    if items != [] {
      NotLiteralS(x, v, u, items[0]);
      NotLiteral(x, v, u, items[1..]);
    }
  }

  lemma {:induction false} NotLiteralS(x: Name, v: int, u: int, s: Stmt)
    ensures CopyS(false, x, v, s) == CopyS(false, x, u, s)
    decreases s, 1
  {
    forall e: Expr ensures Copy(false, x, v, e) == Copy(false, x, u, e) { NotLiteralE(x, v, u, e); }
    match s
    case Block(items) => NotLiteral(x, v, u, items);
    case If(_, thn, els) =>
      NotLiteralS(x, v, u, thn);
      if els.Some? { NotLiteralS(x, v, u, els.value); }
    case While(_, body) => NotLiteralS(x, v, u, body);
    case DoWhile(body, _) => NotLiteralS(x, v, u, body);
    case For(_, _, _, body) => NotLiteralS(x, v, u, body);
    case _ =>
  }

  lemma {:induction false} NotLiteralE(x: Name, v: int, u: int, e: Expr)
    ensures Copy(false, x, v, e) == e && Copy(false, x, u, e) == e
    decreases e, 1
  {
    match e
    case Un(_, a) => NotLiteralE(x, v, u, a);
    case Bin(_, a, b) => NotLiteralE(x, v, u, a); NotLiteralE(x, v, u, b);
    case Logic(_, a, b) => NotLiteralE(x, v, u, a); NotLiteralE(x, v, u, b);
    case Cond(c, a, b) => NotLiteralE(x, v, u, c); NotLiteralE(x, v, u, a); NotLiteralE(x, v, u, b);
    case Cast(_, a) => NotLiteralE(x, v, u, a);
    case Deref(a, _) => NotLiteralE(x, v, u, a);
    case AddrOf(a) => NotLiteralE(x, v, u, a);
    case Index(a, i, _, _, _) => NotLiteralE(x, v, u, a); NotLiteralE(x, v, u, i);
    case Member(a, _, _, _) => NotLiteralE(x, v, u, a);
    case Assign(_, l, r) => NotLiteralE(x, v, u, l); NotLiteralE(x, v, u, r);
    case IncDec(_, _, l) => NotLiteralE(x, v, u, l);
    case Comma(a, b) => NotLiteralE(x, v, u, a); NotLiteralE(x, v, u, b);
    case Call(_, args) => NotLiteralArgs(x, v, u, args);
    case _ =>
  }

  lemma {:induction false} NotLiteralArgs(x: Name, v: int, u: int, es: seq<Expr>)
    ensures CopyArgs(false, x, v, es) == es && CopyArgs(false, x, u, es) == es
    decreases es, 0
  {
    if es != [] {
      NotLiteralE(x, v, u, es[0]);
      NotLiteralArgs(x, v, u, es[1..]);
    }
  }

  /** The loop goes on after pass `k` as long as there are copies. */
  lemma GoesOn(lit: bool, h: Head, ct: IntType, k: nat, n: nat)
    requires ct.bits >= 1 && Bounds(h) && Passes(h) == Some(n) && Exact(lit, h, ct, n) && k <= n
    ensures Holds(h.cmp, Counter(h, ct, k), h.end) <==> k < n
  {
    hide Passes, Holds, Fit;
    CounterIs(h, ct, k);
    PassesCount(h);
  }

  /** After the last copy. */
  lemma LastCopy(w: World, f: nat, lit: bool, h: Head, ct: IntType, stmts: seq<Stmt>, n: nat, s: State, t: State)
    requires ct.bits >= 1 && Counts(w, h.x, ct) && Ready(h, ct, n, s, t)
    ensures SameRun(h.x, (Norm, s), ExecList(w, f, Copies(lit, h, stmts, n, n), Run, t))
  {
    hide Counts, Eval, Fit, At, Set;
    CounterIs(h, ct, n);
    SetRuns(w, h.x, ct, At(h, n), t);
    OneItem(w, f, ExprS(Set(h.x, At(h, n))), t);
  }

  /** From pass `k` on: when the loop ends, the copies end the same. */
  lemma {:induction false} LoopThenCopies(w: World, f: nat, lit: bool, h: Head, ct: IntType, stmts: seq<Stmt>, k: nat,
                                          n: nat, s: State, t: State)
    requires ct.bits >= 1 && Bounds(h) && Counts(w, h.x, ct) && Passes(h) == Some(n) && Exact(lit, h, ct, n)
    requires PlainAll(lit, h.x, stmts) && k <= n && Ready(h, ct, k, s, t)
    requires Loop(w, f, Some(CondOf(h)), Some(UpdateOf(h)), Block(stmts), Run, false, s).0 != Timeout
    ensures SameRun(h.x, Loop(w, f, Some(CondOf(h)), Some(UpdateOf(h)), Block(stmts), Run, false, s),
                    ExecList(w, f, Copies(lit, h, stmts, k, n), Run, t))
    decreases n - k
  {
    hide Counts, Loop, ExecList, PlainAll, Passes, Exact, Holds, CondOf, UpdateOf, Test, EvalOpt, Ready, SameRun,
         AgreeOff, OneCopy, Counter;
    var c, u, body := Some(CondOf(h)), Some(UpdateOf(h)), Block(stmts);
    TestOf(w, lit, h, ct, k, n, s, t);
    LoopStep(w, f, c, u, body, Run, false, s);
    if k == n {
      LastCopy(w, f, lit, h, ct, stmts, n, s, t);
    } else {
      OnePass(w, f, lit, h, ct, stmts, k, n, s, t);
      var r, q := ExecList(w, f, stmts, Run, s), ExecList(w, f, OneCopy(lit, h, stmts, k), Run, t);
      ExecAppend(w, f, OneCopy(lit, h, stmts, k), Copies(lit, h, stmts, k + 1, n), Run, t);
      EndsAlike(lit, h, ct, k, r, q);
      if r.0 == Norm {
        NextPass(w, lit, h, ct, k, r.1, q.1);
        var s' := EvalOpt(w, u, r.1);
        LoopThenCopies(w, f - 1, lit, h, ct, stmts, k + 1, n, s', q.1);
        RunEnds(h.x, Loop(w, f - 1, c, u, body, Run, false, s'),
                ExecList(w, f - 1, Copies(lit, h, stmts, k + 1, n), Run, q.1));
        MoreFuelList(w, f - 1, f, Copies(lit, h, stmts, k + 1, n), Run, q.1);
      }
    }
  }

  lemma TestOf(w: World, lit: bool, h: Head, ct: IntType, k: nat, n: nat, s: State, t: State)
    requires ct.bits >= 1 && Bounds(h) && Counts(w, h.x, ct) && Passes(h) == Some(n) && Exact(lit, h, ct, n) &&
      k <= n && Ready(h, ct, k, s, t)
    ensures Test(w, Some(CondOf(h)), false, s) == (k < n, s)
  {
    hide Counts, Passes, Exact, Holds, Test, CondOf, Counter;
    CondRuns(w, h, ct, Counter(h, ct, k), s);
    GoesOn(lit, h, ct, k, n);
  }

  lemma EndsAlike(lit: bool, h: Head, ct: IntType, k: nat, r: (Out, State), q: (Out, State))
    requires ct.bits >= 1 && SameEnd(lit, h.x, Counter(h, ct, k), r, q)
    ensures r.0 == q.0 && (r.0 == Norm || r.0 == Timeout || r.0.Ret?) && AgreeOff({h.x}, r.1, q.1)
    ensures r.0.Ret? ==> SameRun(h.x, r, q)
    ensures Get(r.1.env, h.x) == I(Counter(h, ct, k))
  {
    hide Counter;
  }

  lemma NextPass(w: World, lit: bool, h: Head, ct: IntType, k: nat, s: State, t: State)
    requires ct.bits >= 1 && Bounds(h) && Counts(w, h.x, ct) && AgreeOff({h.x}, s, t) &&
      Get(s.env, h.x) == I(Counter(h, ct, k))
    ensures Ready(h, ct, k + 1, EvalOpt(w, Some(UpdateOf(h)), s), t)
  {
    hide Counts, Fit, EvalOpt, UpdateOf;
    UpdateRuns(w, h, ct, Counter(h, ct, k), s);
  }

  lemma RunEnds(x: Name, a: (Out, State), b: (Out, State))
    requires SameRun(x, a, b)
    ensures a.0 == b.0
  {
  }

  /** From pass `k` on: when the copies end, the loop ends the same, with fuel for its turns. */
  lemma {:induction false} CopiesThenLoop(w: World, f: nat, g: nat, lit: bool, h: Head, ct: IntType, stmts: seq<Stmt>,
                                          k: nat, n: nat, s: State, t: State)
    requires ct.bits >= 1 && Bounds(h) && Counts(w, h.x, ct) && Passes(h) == Some(n) && Exact(lit, h, ct, n)
    requires PlainAll(lit, h.x, stmts) && k <= n && Ready(h, ct, k, s, t) && f >= g + (n - k)
    requires ExecList(w, g, Copies(lit, h, stmts, k, n), Run, t).0 != Timeout
    ensures SameRun(h.x, Loop(w, f, Some(CondOf(h)), Some(UpdateOf(h)), Block(stmts), Run, false, s),
                    ExecList(w, g, Copies(lit, h, stmts, k, n), Run, t))
    decreases n - k
  {
    hide Counts, Loop, ExecList, PlainAll, Passes, Exact, Holds, CondOf, UpdateOf, Test, EvalOpt, Ready, SameRun,
         AgreeOff, OneCopy, Counter;
    var c, u, body := Some(CondOf(h)), Some(UpdateOf(h)), Block(stmts);
    TestOf(w, lit, h, ct, k, n, s, t);
    LoopStep(w, f, c, u, body, Run, false, s);
    if k == n {
      LastCopy(w, g, lit, h, ct, stmts, n, s, t);
    } else {
      OnePass(w, g, lit, h, ct, stmts, k, n, s, t);
      var r, q := ExecList(w, g, stmts, Run, s), ExecList(w, g, OneCopy(lit, h, stmts, k), Run, t);
      ExecAppend(w, g, OneCopy(lit, h, stmts, k), Copies(lit, h, stmts, k + 1, n), Run, t);
      EndsAlike(lit, h, ct, k, r, q);
      MoreFuelList(w, g, f, stmts, Run, s);
      if r.0 == Norm {
        NextPass(w, lit, h, ct, k, r.1, q.1);
        CopiesThenLoop(w, f - 1, g, lit, h, ct, stmts, k + 1, n, EvalOpt(w, u, r.1), q.1);
      }
    }
  }

  /** Unrolling changes no run, when the counter is exact: the loop and the copies end the same,
      or both go on for ever. */
  lemma UnrollSame(w: World, f: nat, lit: bool, h: Head, ct: IntType, stmts: seq<Stmt>, s: State)
    requires ct.bits >= 1 && Bounds(h) && Counts(w, h.x, ct) && Unroll(lit, h, stmts).Some? &&
      Exact(lit, h, ct, Passes(h).value)
    ensures
      var n, loop, copies := Passes(h).value, LoopOf(h, Block(stmts)), Unroll(lit, h, stmts).value;
      (Exec(w, f, loop, Run, s).0 != Timeout ==> SameRun(h.x, Exec(w, f, loop, Run, s), Exec(w, f, copies, Run, s))) &&
      (Exec(w, f, copies, Run, s).0 != Timeout ==>
         SameRun(h.x, Exec(w, f + n, loop, Run, s), Exec(w, f, copies, Run, s)))
  {
    hide Counts, Loop, ExecList, PlainAll, Passes, Exact, CondOf, UpdateOf, SameRun, Copies, Eval, Set, Fit;
    var n := Passes(h).value;
    SetRuns(w, h.x, ct, h.start, s);
    var s0 := Put(s, h.x, Fit(ct, h.start));
    assert Ready(h, ct, 0, s0, s);
    if Exec(w, f, LoopOf(h, Block(stmts)), Run, s).0 != Timeout {
      LoopThenCopies(w, f, lit, h, ct, stmts, 0, n, s0, s);
    }
    if Exec(w, f, Unroll(lit, h, stmts).value, Run, s).0 != Timeout {
      CopiesThenLoop(w, f + n, f, lit, h, ct, stmts, 0, n, s0, s);
    }
  }

  // ---- the condition is needed -----------------------------------------------------------------------------

  /** A body that shows the counter: a volatile store. */
  function Show(x: Name, addr: int): Stmt { ExprS(Assign(None, Deref(Num(addr), true), Var(x))) }

  function Port(addr: int): Place { PMem("", addr, true) }

  ghost predicate Wide(w: World, addr: int) { forall v: int :: w.conv(Port(addr), I(v)) == I(v) }

  function Shown(s: State, addr: int, v: int): State {
    State(s.env, s.mem[("", addr) := I(v)], s.trace + [EWrite(Port(addr), I(v))])
  }

  lemma ShowRuns(w: World, f: nat, x: Name, addr: int, v: int, s: State)
    requires Register(w, x) && Wide(w, addr) && Get(s.env, x) == I(v)
    ensures Exec(w, f, Show(x, addr), Run, s) == (Norm, Shown(s, addr, v))
  {
    ReadCounter(w, x, s);
    assert EvalPlace(w, Deref(Num(addr), true), s) == (Port(addr), s);
    assert w.conv(Port(addr), I(v)) == I(v);
  }

  /** The events of the values `f(k)`, ..., `f(m - 1)`. */
  function Events(addr: int, f: nat -> int, k: nat, m: nat): seq<Event>
    requires k <= m
    decreases m - k
  {
    if k == m then [] else [EWrite(Port(addr), I(f(k)))] + Events(addr, f, k + 1, m)
  }

  lemma {:induction false} EventsAt(addr: int, f: nat -> int, k: nat, m: nat, i: nat)
    requires k <= i < m
    ensures |Events(addr, f, k, m)| == m - k && Events(addr, f, k, m)[i - k] == EWrite(Port(addr), I(f(i)))
    decreases m - k
  {
    if k + 1 < m { EventsAt(addr, f, k + 1, m, if i == k then k + 1 else i); }
    if i > k { assert Events(addr, f, k, m)[i - k] == Events(addr, f, k + 1, m)[i - (k + 1)]; }
  }

  function Values(h: Head, ct: IntType): nat -> int
    requires ct.bits >= 1
  {
    (k: nat) => Counter(h, ct, k)
  }

  /** A loop that ends has shown the counter on each pass. */
  lemma {:induction false} LoopShows(w: World, f: nat, h: Head, ct: IntType, addr: int, k: nat, s: State)
    returns (m: nat)
    requires ct.bits >= 1 && Bounds(h) && Counts(w, h.x, ct) && Wide(w, addr) && Get(s.env, h.x) == I(Counter(h, ct, k))
    requires Loop(w, f, Some(CondOf(h)), Some(UpdateOf(h)), Show(h.x, addr), Run, false, s).0 != Timeout
    ensures k <= m && (forall i: nat :: k <= i < m ==> Holds(h.cmp, Counter(h, ct, i), h.end)) &&
      !Holds(h.cmp, Counter(h, ct, m), h.end)
    ensures Loop(w, f, Some(CondOf(h)), Some(UpdateOf(h)), Show(h.x, addr), Run, false, s).1.trace ==
      s.trace + Events(addr, Values(h, ct), k, m)
    decreases f
  {
    hide Counts, Loop, Exec, Holds, CondOf, UpdateOf, Test, EvalOpt, Counter, Show, Wide;
    var c, u, body := Some(CondOf(h)), Some(UpdateOf(h)), Show(h.x, addr);
    var v := Counter(h, ct, k);
    IsRegister(w, h.x, ct);
    CondRuns(w, h, ct, v, s);
    LoopStep(w, f, c, u, body, Run, false, s);
    if !Holds(h.cmp, v, h.end) {
      m := k;
      assert s.trace + [] == s.trace;
    } else {
      ShowRuns(w, f, h.x, addr, v, s);
      var s1 := Shown(s, addr, v);
      UpdateRuns(w, h, ct, v, s1);
      NextCounter(h, ct, k);
      m := LoopShows(w, f - 1, h, ct, addr, k + 1, EvalOpt(w, u, s1));
      assert s.trace + [EWrite(Port(addr), I(v))] + Events(addr, Values(h, ct), k + 1, m) ==
        s.trace + ([EWrite(Port(addr), I(v))] + Events(addr, Values(h, ct), k + 1, m));
    }
  }

  lemma NextCounter(h: Head, ct: IntType, k: nat)
    requires ct.bits >= 1
    ensures Counter(h, ct, k + 1) == Fit(ct, Counter(h, ct, k) + h.step)
  {
  }

  /** What the copies show: the literal, or the counter that was just assigned. */
  function CopyValues(lit: bool, h: Head, ct: IntType): nat -> int
    requires ct.bits >= 1
  {
    (k: nat) => if lit then At(h, k) else Fit(ct, At(h, k))
  }

  lemma CopyShows(w: World, f: nat, lit: bool, h: Head, ct: IntType, addr: int, k: nat, s: State)
    requires ct.bits >= 1 && Counts(w, h.x, ct) && Wide(w, addr)
    ensures
      var r := ExecList(w, f, OneCopy(lit, h, [Show(h.x, addr)], k), Run, s);
      r.0 == Norm && r.1.trace == s.trace + [EWrite(Port(addr), I(CopyValues(lit, h, ct)(k)))]
  {
    hide Counts, Fit, Wide, Eval, Exec, HasLabel, Set, Copy, At;
    IsRegister(w, h.x, ct);
    var x, v := h.x, At(h, k);
    if lit {
      var i := CopyS(true, x, v, Show(x, addr));
      CopiesAreOne(true, x, v, Show(x, addr));
      assert OneCopy(lit, h, [Show(x, addr)], k) == [i];
      OneItem(w, f, i, s);
      ShowLiteral(w, f, x, addr, v, s);
    } else {
      SetRuns(w, x, ct, v, s);
      var s1 := Put(s, x, Fit(ct, v));
      ExprRuns(w, f, Set(x, v), s);
      CopiesAreOne(false, x, v, Show(x, addr));
      ShowKept(x, addr, v);
      assert OneCopy(lit, h, [Show(x, addr)], k) == [ExprS(Set(x, v))] + [Show(x, addr)];
      SetFirst(w, f, ExprS(Set(x, v)), [Show(x, addr)], s, s1);
      OneItem(w, f, Show(x, addr), s1);
      ShowRuns(w, f, x, addr, Fit(ct, v), s1);
    }
  }

  lemma CopiesAreOne(lit: bool, x: Name, v: int, i: Stmt)
    ensures CopyAll(lit, x, v, [i]) == [CopyS(lit, x, v, i)]
  {
    hide CopyS;
    assert [i][1..] == [] && CopyAll(lit, x, v, []) == [];
  }

  lemma ShowKept(x: Name, addr: int, v: int)
    ensures CopyS(false, x, v, Show(x, addr)) == Show(x, addr)
  {
    NotLiteralE(x, v, v, Show(x, addr).e);
  }

  lemma ShowLiteral(w: World, f: nat, x: Name, addr: int, v: int, s: State)
    requires Wide(w, addr)
    ensures Exec(w, f, CopyS(true, x, v, Show(x, addr)), Run, s) == (Norm, Shown(s, addr, v))
  {
    assert Copy(true, x, v, Deref(Num(addr), true)) == Deref(Num(addr), true);
    assert Copy(true, x, v, Var(x)) == Num(v);
    var e := Assign(None, Deref(Num(addr), true), Var(x));
    assert Copy(true, x, v, e) == Assign(None, Copy(true, x, v, Deref(Num(addr), true)), Copy(true, x, v, Var(x)));
    assert CopyS(true, x, v, Show(x, addr)) == ExprS(Assign(None, Deref(Num(addr), true), Num(v)));
    assert EvalPlace(w, Deref(Num(addr), true), s) == (Port(addr), s);
    assert w.conv(Port(addr), I(v)) == I(v);
    assert Eval(w, Num(v), s) == (I(v), s);
    assert Eval(w, Assign(None, Deref(Num(addr), true), Num(v)), s) == Write(w, Port(addr), I(v), s);
  }

  lemma {:induction false} CopiesShow(w: World, f: nat, lit: bool, h: Head, ct: IntType, addr: int, k: nat, n: nat,
                                      s: State)
    requires ct.bits >= 1 && Counts(w, h.x, ct) && Wide(w, addr) && k <= n
    ensures
      var r := ExecList(w, f, Copies(lit, h, [Show(h.x, addr)], k, n), Run, s);
      r.0 == Norm && r.1.trace == s.trace + Events(addr, CopyValues(lit, h, ct), k, n)
    decreases n - k
  {
    hide Counts, Fit, Wide, Eval, Exec, ExecList, HasLabel, Set, OneCopy, At;
    if k == n {
      SetRuns(w, h.x, ct, At(h, n), s);
      OneItem(w, f, ExprS(Set(h.x, At(h, n))), s);
      ExprRuns(w, f, Set(h.x, At(h, n)), s);
      assert s.trace + [] == s.trace;
    } else {
      var c := OneCopy(lit, h, [Show(h.x, addr)], k);
      CopyShows(w, f, lit, h, ct, addr, k, s);
      var s1 := ExecList(w, f, c, Run, s).1;
      CopiesShow(w, f, lit, h, ct, addr, k + 1, n, s1);
      ExecAppend(w, f, c, Copies(lit, h, [Show(h.x, addr)], k + 1, n), Run, s);
      var e := [EWrite(Port(addr), I(CopyValues(lit, h, ct)(k)))];
      assert s.trace + e + Events(addr, CopyValues(lit, h, ct), k + 1, n) ==
        s.trace + (e + Events(addr, CopyValues(lit, h, ct), k + 1, n));
    }
  }

  /** The condition is exact: when it fails, the loop that shows its counter does not end, or it
      shows something else than the copies. */
  lemma UnrollNeedsExact(w: World, f: nat, g: nat, lit: bool, h: Head, ct: IntType, addr: int, s: State)
    requires ct.bits >= 1 && Bounds(h) && Counts(w, h.x, ct) && Wide(w, addr) && Unroll(lit, h, [Show(h.x, addr)]).Some?
    requires
      var loop := Exec(w, f, LoopOf(h, Show(h.x, addr)), Run, s);
      loop.0 != Timeout && loop.1.trace == Exec(w, g, Unroll(lit, h, [Show(h.x, addr)]).value, Run, s).1.trace
    ensures Exact(lit, h, ct, Passes(h).value)
  {
    hide Counts, Fit, Wide, Eval, ExecList, HasLabel, Set, Passes, Holds, CondOf, UpdateOf, Copies, Loop, At, Show,
         PlainAll;
    var n := Passes(h).value;
    SetRuns(w, h.x, ct, h.start, s);
    var s0 := Put(s, h.x, Fit(ct, h.start));
    var m := LoopShows(w, f, h, ct, addr, 0, s0);
    CopiesShow(w, g, lit, h, ct, addr, 0, n, s);
    var a, b := Events(addr, Values(h, ct), 0, m), Events(addr, CopyValues(lit, h, ct), 0, n);
    SamePrefix(s.trace, a, b);
    EventCount(addr, Values(h, ct), m);
    EventCount(addr, CopyValues(lit, h, ct), n);
    CounterIs(h, ct, n);
    forall k: nat | k < n
      ensures Counter(h, ct, k) == Fit(ct, At(h, k)) && Counter(h, ct, k) == CopyValues(lit, h, ct)(k)
    {
      CounterIs(h, ct, k);
      EventsAt(addr, Values(h, ct), 0, m, k);
      EventsAt(addr, CopyValues(lit, h, ct), 0, n, k);
    }
  }

  lemma SamePrefix(t: seq<Event>, a: seq<Event>, b: seq<Event>)
    requires t + a == t + b
    ensures a == b
  {
    assert (t + a)[|t|..] == a && (t + b)[|t|..] == b;
  }

  lemma EventCount(addr: int, f: nat -> int, m: nat)
    ensures |Events(addr, f, 0, m)| == m
  {
    if m > 0 { EventsAt(addr, f, 0, m, 0); }
  }

  // ---- a loop that never ends ---------------------------------------------------------------------------------

  predicate Returns(s: Stmt)
    decreases s, 1
  {
    match s
    case Block(items) => ReturnsIn(items)
    case If(_, thn, els) => Returns(thn) || (els.Some? && Returns(els.value))
    case While(_, body) => Returns(body)
    case DoWhile(body, _) => Returns(body)
    case For(_, _, _, body) => Returns(body)
    case Switch(_, body) => Returns(body)
    case LabelS(_, body) => Returns(body)
    case Return(_) => true
    case _ => false
  }

  predicate ReturnsIn(items: seq<Stmt>)
    decreases items, 0
  {
    items != [] && (Returns(items[0]) || ReturnsIn(items[1..]))
  }

  /** Only a return returns. */
  lemma {:induction false} NoReturn(w: World, f: nat, s: Stmt, m: Mode, st: State)
    requires !Returns(s)
    ensures !Exec(w, f, s, m, st).0.Ret?
    decreases f, s, 1
  {
    hide Eval, Loop, HasLabel, ExecList;
    match s
    case Block(items) => NoReturnList(w, f, items, m, st);
    case If(c, thn, els) =>
      var st1 := if m.Seek? then st else Eval(w, c, st).1;
      NoReturn(w, f, thn, m, st1);
      if els.Some? { NoReturn(w, f, els.value, m, st1); }
    case While(c, body) => NoReturnLoop(w, f, Some(c), None, body, m, m.Seek?, st);
    case DoWhile(body, c) => NoReturnLoop(w, f, Some(c), None, body, m, true, st);
    case For(init, c, u, body) =>
      NoReturnLoop(w, f, c, u, body, m, m.Seek?, if m.Seek? then st else ExecInit(w, init, st));
    case Switch(e, body) =>
      var r := Eval(w, e, st);
      var t := SwitchTarget(body, w.caseOf(r.0));
      if m.Seek? { NoReturn(w, f, body, m, st); } else if t.Some? { NoReturn(w, f, body, Seek(t.value), r.1); }
    case LabelS(lab, body) => NoReturn(w, f, body, if m == Seek(lab) then Run else m, st);
    case _ =>
  }

  lemma {:induction false} NoReturnList(w: World, f: nat, items: seq<Stmt>, m: Mode, st: State)
    requires !ReturnsIn(items)
    ensures !ExecList(w, f, items, m, st).0.Ret?
    decreases f, items, 0
  {
    hide Exec, HasLabel;
    if items != [] {
      NoReturn(w, f, items[0], m, st);
      NoReturnList(w, f, items[1..], m, st);
      NoReturnList(w, f, items[1..], Run, Exec(w, f, items[0], m, st).1);
    }
  }

  lemma {:induction false} NoReturnLoop(w: World, f: nat, c: Option<Expr>, u: Option<Expr>, body: Stmt, m: Mode,
                                        enter: bool, st: State)
    requires !Returns(body)
    ensures !Loop(w, f, c, u, body, m, enter, st).0.Ret?
    decreases f, body, 2
  {
    hide Exec, Test, EvalOpt, Loop;
    LoopStep(w, f, c, u, body, m, enter, st);
    var t := Test(w, c, enter, st);
    NoReturn(w, f, body, m, t.1);
    if f > 0 { NoReturnLoop(w, f - 1, c, u, body, Run, false, EvalOpt(w, u, Exec(w, f, body, m, t.1).1)); }
  }

  /** When the counter meets the condition of the loop whatever its value, the loop never ends by
      its condition. */
  lemma {:induction false} NeverEnds(w: World, f: nat, h: Head, ct: IntType, body: Stmt, k: nat, s: State)
    requires ct.bits >= 1 && Bounds(h) && Counts(w, h.x, ct) && Plain(false, h.x, body)
    requires (forall v: int :: Holds(h.cmp, Fit(ct, v), h.end)) && Get(s.env, h.x) == I(Counter(h, ct, k))
    ensures var r := Loop(w, f, Some(CondOf(h)), Some(UpdateOf(h)), body, Run, false, s); r.0 == Timeout || r.0.Ret?
    decreases f
  {
    hide Counts, Loop, Exec, Holds, CondOf, UpdateOf, Test, EvalOpt, Counter, Plain, CopyS, Fit;
    var c, u, v := Some(CondOf(h)), Some(UpdateOf(h)), Counter(h, ct, k);
    CounterIs(h, ct, k);
    IsRegister(w, h.x, ct);
    CondRuns(w, h, ct, v, s);
    LoopStep(w, f, c, u, body, Run, false, s);
    CopyExec(w, f, false, h.x, v, body, s, s);
    if f > 0 {
      var s1 := Exec(w, f, body, Run, s).1;
      UpdateRuns(w, h, ct, v, s1);
      NextCounter(h, ct, k);
      NeverEnds(w, f - 1, h, ct, body, k + 1, EvalOpt(w, u, s1));
    }
  }

  /** `for (uc = 0; uc < 256; uc += 64)` with an unsigned char: the optimizer counts four passes,
      but the counter never reaches 256. No plain body without a return ever leaves the loop, and
      the copies of a body that shows the counter end. */
  lemma NarrowCounter(w: World, f: nat, x: Name, body: Stmt, addr: int, lit: bool, s: State)
    requires Counts(w, x, IntType(8, false)) && Plain(false, x, body) && Wide(w, addr)
    ensures
      var h := Head(x, 0, Less, 256, 64, false);
      Bounds(h) && Passes(h) == Some(4) && !Exact(lit, h, IntType(8, false), 4) &&
      (Exec(w, f, LoopOf(h, body), Run, s).0 == Timeout || Exec(w, f, LoopOf(h, body), Run, s).0.Ret?) &&
      (!Returns(body) ==> Exec(w, f, LoopOf(h, body), Run, s).0 == Timeout) &&
      var copies := Unroll(lit, h, [Show(x, addr)]);
      copies.Some? && Exec(w, f, copies.value, Run, s).0 == Norm
  {
    hide *;
    NarrowFacts(lit, x);
    EndlessLoop(w, f, Head(x, 0, Less, 256, 64, false), IntType(8, false), body, s);
    CopiesEnd(w, f, lit, Head(x, 0, Less, 256, 64, false), IntType(8, false), addr, s);
  }

  lemma EndlessLoop(w: World, f: nat, h: Head, ct: IntType, body: Stmt, s: State)
    requires ct.bits >= 1 && Bounds(h) && Counts(w, h.x, ct) && Plain(false, h.x, body)
    requires forall v: int :: Holds(h.cmp, Fit(ct, v), h.end)
    ensures
      var r := Exec(w, f, LoopOf(h, body), Run, s);
      (r.0 == Timeout || r.0.Ret?) && (!Returns(body) ==> r.0 == Timeout)
  {
    hide Counts, Fit, Loop, Eval, CondOf, UpdateOf, Plain, Set, Returns, Holds;
    SetRuns(w, h.x, ct, h.start, s);
    var s0 := Put(s, h.x, Fit(ct, h.start));
    NeverEnds(w, f, h, ct, body, 0, s0);
    if !Returns(body) { NoReturnLoop(w, f, Some(CondOf(h)), Some(UpdateOf(h)), body, Run, false, s0); }
  }

  lemma CopiesEnd(w: World, f: nat, lit: bool, h: Head, ct: IntType, addr: int, s: State)
    requires ct.bits >= 1 && Bounds(h) && Counts(w, h.x, ct) && Wide(w, addr) && Passes(h).Some? &&
      1 <= Passes(h).value <= 4
    ensures var copies := Unroll(lit, h, [Show(h.x, addr)]); copies.Some? && Exec(w, f, copies.value, Run, s).0 == Norm
  {
    hide Counts, ExecList, Eval, Passes, Copies, Show, PlainAll;
    ShowPlain(lit, h.x, addr);
    CopiesShow(w, f, lit, h, ct, addr, 0, Passes(h).value, s);
  }

  lemma NarrowFacts(lit: bool, x: Name)
    ensures
      var h, ct := Head(x, 0, Less, 256, 64, false), IntType(8, false);
      Bounds(h) && Passes(h) == Some(4) && !Exact(lit, h, ct, 4) && forall v: int :: Holds(Less, Fit(ct, v), 256)
  {
    hide Fit;
    var h := Head(x, 0, Less, 256, 64, false);
    forall v: int ensures Fit(IntType(8, false), v) <= 255 { ByteFits(v); }
    assert !Holds(Less, 256, 256) && Holds(Less, Fit(IntType(8, false), At(h, 4)), 256);
  }

  lemma ByteFits(v: int)
    ensures Fit(IntType(8, false), v) <= 255
  {
    hide CInt.WrapBits, CInt.Pow2;
    CInt.Widths();
    assert CInt.Greatest(8, false) == 255;
    assert CInt.WrapBits(v, 8, false) <= CInt.Greatest(8, false);
  }

  lemma ShowPlain(lit: bool, x: Name, addr: int)
    ensures PlainAll(lit, x, [Show(x, addr)])
  {
    var to := Deref(Num(addr), true);
    assert Keeps(lit, x, Num(addr)) && Keeps(lit, x, to) && Keeps(lit, x, Var(x));
    assert Keeps(lit, x, Assign(None, to, Var(x)));
    assert Plain(lit, x, Show(x, addr)) && [Show(x, addr)][1..] == [];
  }
}
