/** Removal of a store that a later statement of the same list overwrites before
    anything reads it, and the proof that a run cannot tell. */
module Overwrites {
  import opened Wrappers
  import opened CLang
  import opened Frames
  import opened DeadLocals

  // ---- the rewriting ------------------------------------------------------------

  function UsesDecls(ds: seq<Declr>): set<Name> {
    if ds == [] then {} else VarsInit(ds[0].init) + UsesDecls(ds[1..])
  }

  /** The names that the expressions of a statement mention. */
  function Uses(s: Stmt): set<Name>
    decreases s, 1
  {
    match s
    case ExprS(e) => Vars(e)
    case Block(items) => UsesIn(items)
    case DeclS(_, ds) => UsesDecls(ds)
    case If(c, thn, els) => Vars(c) + Uses(thn) + (if els.Some? then Uses(els.value) else {})
    case While(c, body) => Vars(c) + Uses(body)
    case DoWhile(body, c) => Uses(body) + Vars(c)
    case For(init, cond, upd, body) => UsesInit(init) + VarsOpt(cond) + VarsOpt(upd) + Uses(body)
    case Switch(e, body) => Vars(e) + Uses(body)
    case LabelS(_, body) => Uses(body)
    case Return(r) => VarsOpt(r)
    case _ => {}
  }

  function UsesIn(items: seq<Stmt>): set<Name>
    decreases items, 0
  {
    if items == [] then {} else Uses(items[0]) + UsesIn(items[1..])
  }

  function UsesInit(i: ForInit): set<Name> {
    match i
    case FNone => {}
    case FExpr(e) => Vars(e)
    case FDecl(_, ds) => UsesDecls(ds)
  }

  /** A label or a jump anywhere below: the flow may enter or leave in the middle. */
  predicate Jumps(s: Stmt)
    decreases s, 1
  {
    match s
    case Block(items) => JumpsIn(items)
    case If(_, thn, els) => Jumps(thn) || (els.Some? && Jumps(els.value))
    case While(_, body) => Jumps(body)
    case DoWhile(body, _) => Jumps(body)
    case For(_, _, _, body) => Jumps(body)
    case Switch(_, body) => Jumps(body)
    case LabelS(_, _) => true
    case Goto(_) => true
    case Break => true
    case Continue => true
    case _ => false
  }

  predicate JumpsIn(items: seq<Stmt>)
    decreases items, 0
  {
    items != [] && (Jumps(items[0]) || JumpsIn(items[1..]))
  }

  /** `x = r` for a candidate `x`. */
  function PlainStore(cands: set<Name>, e: Expr): Option<Name> {
    match e
    case Assign(aop, Var(x), _) => if aop.None? && x in cands then Some(x) else None
    case _ => None
  }

  /** The name that the statement sets first, without a read of the name. */
  function OverwriteOf(cands: set<Name>, s: Stmt): Option<Name> {
    var e := match s
      case ExprS(e1) => Some(e1)
      case For(FExpr(e1), _, _, _) => Some(e1)
      case _ => None;
    if e.None? then None
    else
      var x := PlainStore(cands, e.value);
      if x.Some? && x.value !in Vars(e.value.rhs) then x else None
  }

  /** A store to `x` in front of `rest` is overwritten before anything reads it. */
  predicate Kill(cands: set<Name>, rest: seq<Stmt>, x: Name)
    decreases rest
  {
    rest != [] &&
    if OverwriteOf(cands, rest[0]) == Some(x) then true
    else x !in Uses(rest[0]) && !Jumps(rest[0]) && Kill(cands, rest[1..], x)
  }

  /** The initializer of `ds[k]` goes: it is overwritten, no later declarator reads the
      name, and an effect can stay in place. */
  predicate DropsInit(cands: set<Name>, vol: set<Name>, ds: seq<Declr>, k: nat, rest: seq<Stmt>)
    requires k < |ds|
  {
    && ds[k].init.InitE?
    && ds[k].name in cands
    && (|ds| == 1 || Pure(vol, ds[k].init.e))
    && ds[k].name !in UsesDecls(ds[k + 1..])
    && Kill(cands, rest, ds[k].name)
  }

  function OverDecls(cands: set<Name>, vol: set<Name>, ds: seq<Declr>, k: nat, rest: seq<Stmt>): (r: seq<Declr>)
    requires k <= |ds|
    ensures |r| == |ds|
    decreases |ds| - k
  {
    if k == |ds| then ds
    else if DropsInit(cands, vol, ds, k, rest) then
      OverDecls(cands, vol, ds[k := ds[k].(init := NoInit)], k + 1, rest)
    else OverDecls(cands, vol, ds, k + 1, rest)
  }

  /** The effect of a dropped initializer, as a statement after the declaration. */
  function OverExtra(cands: set<Name>, vol: set<Name>, ds: seq<Declr>, rest: seq<Stmt>): seq<Stmt> {
    if |ds| == 1 && DropsInit(cands, vol, ds, 0, rest) && !Pure(vol, ds[0].init.e)
    then [ExprS(ds[0].init.e)] else []
  }

  /** Statements and declarators; a declaration counts once more than its statement. */
  function Size(s: Stmt): (n: nat)
    ensures n >= 1
    decreases s, 1
  {
    match s
    case Block(items) => 1 + SizeIn(items)
    case DeclS(_, _) => 2
    case If(_, thn, els) => 1 + Size(thn) + (if els.Some? then Size(els.value) else 0)
    case While(_, body) => 1 + Size(body)
    case DoWhile(body, _) => 1 + Size(body)
    case For(_, _, _, body) => 1 + Size(body)
    case Switch(_, body) => 1 + Size(body)
    case LabelS(_, body) => 1 + Size(body)
    case _ => 1
  }

  function SizeIn(items: seq<Stmt>): nat
    decreases items, 0
  {
    if items == [] then 0 else Size(items[0]) + SizeIn(items[1..])
  }

  lemma ExtraSmaller(cands: set<Name>, vol: set<Name>, items: seq<Stmt>)
    requires items != [] && items[0].DeclS?
    ensures SizeIn(OverExtra(cands, vol, items[0].ds, items[1..]) + items[1..]) < SizeIn(items)
  {
    var rest := items[1..];
    var x := OverExtra(cands, vol, items[0].ds, rest);
    assert SizeIn(items) == 2 + SizeIn(rest);
    if x == [] {
      assert x + rest == rest;
    } else {
      assert (x + rest)[1..] == rest;
    }
  }

  function OverList(cands: set<Name>, vol: set<Name>, items: seq<Stmt>): seq<Stmt>
    decreases SizeIn(items), 1
  {
    if items == [] then []
    else
      var rest := items[1..];
      match items[0]
      case ExprS(e) =>
        var x := PlainStore(cands, e);
        if x.Some? && Kill(cands, rest, x.value) then
          (if Pure(vol, e.rhs) then [] else [ExprS(e.rhs)]) + OverList(cands, vol, rest)
        else [items[0]] + OverList(cands, vol, rest)
      case DeclS(ok, ds) =>
        ExtraSmaller(cands, vol, items);
        [DeclS(ok, OverDecls(cands, vol, ds, 0, rest))]
        + OverList(cands, vol, OverExtra(cands, vol, ds, rest) + rest)
      case _ => [OverIn(cands, vol, items[0])] + OverList(cands, vol, rest)
  }

  /** The lists inside a statement. */
  function OverIn(cands: set<Name>, vol: set<Name>, s: Stmt): Stmt
    decreases Size(s), 0
  {
    match s
    case Block(items) => Block(OverList(cands, vol, items))
    case If(c, thn, els) =>
      If(c, OverIn(cands, vol, thn), if els.Some? then Some(OverIn(cands, vol, els.value)) else None)
    case While(c, body) => While(c, OverIn(cands, vol, body))
    case DoWhile(body, c) => DoWhile(OverIn(cands, vol, body), c)
    case For(init, cond, upd, body) => For(init, cond, upd, OverIn(cands, vol, body))
    case Switch(e, body) => Switch(e, OverIn(cands, vol, body))
    case LabelS(l, body) => LabelS(l, OverIn(cands, vol, body))
    case _ => s
  }

  // ---- statements without a name of D ------------------------------------------

  lemma {:induction false} DeclrAgree(w: World, D: set<Name>, d: Declr, s: State, t: State)
    requires VarsInit(d.init) !! D && AgreeOff(D, s, t)
    ensures AgreeOff(D, ExecDeclr(w, d, s), ExecDeclr(w, d, t))
  {
    match d.init
    case NoInit =>
    case InitE(e) => EvalAgree(w, D, e, s, t);
    case InitList(es) => InitsSame(w, D, d.name, es, 0, s, t);
  }

  lemma {:induction false} DeclsAgree(w: World, D: set<Name>, ds: seq<Declr>, s: State, t: State)
    requires UsesDecls(ds) !! D && AgreeOff(D, s, t)
    ensures AgreeOff(D, ExecDecls(w, ds, s), ExecDecls(w, ds, t))
    decreases ds
  {
    if ds != [] {
      DeclrAgree(w, D, ds[0], s, t);
      DeclsAgree(w, D, ds[1..], ExecDeclr(w, ds[0], s), ExecDeclr(w, ds[0], t));
    }
  }

  /** A statement that mentions no name of `D` ends alike in states that agree outside `D`. */
  lemma {:induction false} ExecAgree(w: World, fuel: nat, D: set<Name>, x: Stmt, m: Mode, s: State, t: State)
    requires Uses(x) !! D && AgreeOff(D, s, t)
    ensures SameEnd(D, Exec(w, fuel, x, m, s), Exec(w, fuel, x, m, t))
    decreases fuel, x, 1
  {
    match x
    case ExprS(e) => EvalAgree(w, D, e, s, t);
    case Block(items) => ListAgree(w, fuel, D, items, m, s, t);
    case DeclS(_, ds) => DeclsAgree(w, D, ds, s, t);
    case If(c, thn, els) => BranchAgree(w, fuel, D, x, m, s, t);
    case While(c, body) => LoopAgree(w, fuel, D, Some(c), None, body, m, m.Seek?, s, t);
    case DoWhile(body, c) => LoopAgree(w, fuel, D, Some(c), None, body, m, true, s, t);
    case For(init, cond, upd, body) =>
      if m.Seek? {
        LoopAgree(w, fuel, D, cond, upd, body, m, true, s, t);
      } else {
        match init {
          case FNone =>
          case FExpr(e) => EvalAgree(w, D, e, s, t);
          case FDecl(_, ds) => DeclsAgree(w, D, ds, s, t);
        }
        LoopAgree(w, fuel, D, cond, upd, body, Run, false, ExecInit(w, init, s), ExecInit(w, init, t));
      }
    case Switch(_, _) => BranchAgree(w, fuel, D, x, m, s, t);
    case LabelS(l, body) => ExecAgree(w, fuel, D, body, if m == Seek(l) then Run else m, s, t);
    case Return(r) => if r.Some? { EvalAgree(w, D, r.value, s, t); }
    case _ =>
  }

  lemma {:induction false} BranchAgree(w: World, fuel: nat, D: set<Name>, x: Stmt, m: Mode, s: State, t: State)
    requires x.If? || x.Switch?
    requires Uses(x) !! D && AgreeOff(D, s, t)
    ensures SameEnd(D, Exec(w, fuel, x, m, s), Exec(w, fuel, x, m, t))
    decreases fuel, x, 0
  {
    if x.If? {
      if m.Seek? {
        ExecAgree(w, fuel, D, x.thn, m, s, t);
        if x.els.Some? { ExecAgree(w, fuel, D, x.els.value, m, s, t); }
      } else {
        EvalAgree(w, D, x.c, s, t);
        ExecAgree(w, fuel, D, x.thn, Run, Eval(w, x.c, s).1, Eval(w, x.c, t).1);
        if x.els.Some? { ExecAgree(w, fuel, D, x.els.value, Run, Eval(w, x.c, s).1, Eval(w, x.c, t).1); }
      }
    } else {
      if m.Seek? {
        ExecAgree(w, fuel, D, x.body, m, s, t);
      } else {
        EvalAgree(w, D, x.e, s, t);
        var g := SwitchTarget(x.body, w.caseOf(Eval(w, x.e, s).0));
        if g.Some? { ExecAgree(w, fuel, D, x.body, Seek(g.value), Eval(w, x.e, s).1, Eval(w, x.e, t).1); }
      }
    }
  }

  lemma {:induction false} TurnAgree(w: World, fuel: nat, D: set<Name>, c: Option<Expr>,
                                     body: Stmt, m: Mode, enter: bool, s: State, t: State)
    requires VarsOpt(c) !! D && Uses(body) !! D && AgreeOff(D, s, t)
    ensures
      var a, b := Turn(w, fuel, c, body, m, enter, s), Turn(w, fuel, c, body, m, enter, t);
      a.0 == b.0 && AgreeOff(D, a.1, b.1)
    decreases fuel, body, 2
  {
    hide Eval, Test, Exec, Uses, AgreeOff;
    TestAgree(w, D, c, enter, s, t);
    var ts, tt := Test(w, c, enter, s), Test(w, c, enter, t);
    if ts.0 {
      ExecAgree(w, fuel, D, body, m, ts.1, tt.1);
    }
  }

  lemma {:induction false} LoopAgree(w: World, fuel: nat, D: set<Name>, c: Option<Expr>, u: Option<Expr>,
                                     body: Stmt, m: Mode, enter: bool, s: State, t: State)
    requires VarsOpt(c) !! D && VarsOpt(u) !! D && Uses(body) !! D && AgreeOff(D, s, t)
    ensures SameEnd(D, Loop(w, fuel, c, u, body, m, enter, s), Loop(w, fuel, c, u, body, m, enter, t))
    decreases fuel, body, 3
  {
    TurnAgree(w, fuel, D, c, body, m, enter, s, t);
    var a, b := Turn(w, fuel, c, body, m, enter, s), Turn(w, fuel, c, body, m, enter, t);
    if a.0.None? && fuel > 0 {
      if u.Some? { EvalAgree(w, D, u.value, a.1, b.1); }
      LoopAgree(w, fuel - 1, D, c, u, body, Run, false, EvalOpt(w, u, a.1), EvalOpt(w, u, b.1));
    }
  }

  lemma {:induction false} ListAgree(w: World, fuel: nat, D: set<Name>, items: seq<Stmt>, m: Mode, s: State, t: State)
    requires UsesIn(items) !! D && AgreeOff(D, s, t)
    ensures SameEnd(D, ExecList(w, fuel, items, m, s), ExecList(w, fuel, items, m, t))
    decreases fuel, items, 0
  {
    if items != [] {
      if m.Seek? && !HasLabel(items[0], m.lab) {
        ListAgree(w, fuel, D, items[1..], m, s, t);
      } else {
        ExecAgree(w, fuel, D, items[0], m, s, t);
        var rs, rt := Exec(w, fuel, items[0], m, s), Exec(w, fuel, items[0], m, t);
        if rs.0 == Norm { ListAgree(w, fuel, D, items[1..], Run, rs.1, rt.1); }
      }
    }
  }

  predicate Leaves(o: Out) { o.Ret? || o == Timeout }

  /** A statement without a label or a jump ends normally, returns or runs on. */
  lemma {:induction false} NoJumpOut(w: World, fuel: nat, x: Stmt, m: Mode, s: State)
    requires !Jumps(x)
    ensures var o := Exec(w, fuel, x, m, s).0; o == Norm || Leaves(o)
    decreases fuel, x, 1
  {
    match x
    case Block(items) => NoJumpOutList(w, fuel, items, m, s);
    case If(c, thn, els) =>
      NoJumpOut(w, fuel, thn, m, s);
      NoJumpOut(w, fuel, thn, Run, Eval(w, c, s).1);
      if els.Some? {
        NoJumpOut(w, fuel, els.value, m, s);
        NoJumpOut(w, fuel, els.value, Run, Eval(w, c, s).1);
      }
    case While(c, body) => NoJumpOutLoop(w, fuel, Some(c), None, body, m, m.Seek?, s);
    case DoWhile(body, c) => NoJumpOutLoop(w, fuel, Some(c), None, body, m, true, s);
    case For(init, cond, upd, body) =>
      NoJumpOutLoop(w, fuel, cond, upd, body, m, true, s);
      NoJumpOutLoop(w, fuel, cond, upd, body, Run, false, ExecInit(w, init, s));
    case Switch(e, body) =>
      NoJumpOut(w, fuel, body, m, s);
      var r := Eval(w, e, s);
      var g := SwitchTarget(body, w.caseOf(r.0));
      if g.Some? { NoJumpOut(w, fuel, body, Seek(g.value), r.1); }
    case _ =>
  }

  lemma {:induction false} NoJumpOutLoop(w: World, fuel: nat, c: Option<Expr>, u: Option<Expr>, body: Stmt,
                                         m: Mode, enter: bool, s: State)
    requires !Jumps(body)
    ensures var o := Loop(w, fuel, c, u, body, m, enter, s).0; o == Norm || Leaves(o)
    decreases fuel, body, 3
  {
    NoJumpOut(w, fuel, body, m, Test(w, c, enter, s).1);
    var t := Turn(w, fuel, c, body, m, enter, s);
    if t.0.None? && fuel > 0 {
      NoJumpOutLoop(w, fuel - 1, c, u, body, Run, false, EvalOpt(w, u, t.1));
    }
  }

  lemma {:induction false} NoJumpOutList(w: World, fuel: nat, items: seq<Stmt>, m: Mode, s: State)
    requires !JumpsIn(items)
    ensures var o := ExecList(w, fuel, items, m, s).0; o == Norm || Leaves(o)
    decreases fuel, items, 0
  {
    if items != [] {
      NoJumpOut(w, fuel, items[0], m, s);
      NoJumpOutList(w, fuel, items[1..], m, s);
      NoJumpOutList(w, fuel, items[1..], Run, Exec(w, fuel, items[0], m, s).1);
    }
  }

  // ---- one overwritten store ------------------------------------------------------

  /** The runs end alike; the values of the candidates count only while the function
      still runs. */
  ghost predicate Weak(cands: set<Name>, a: (Out, State), b: (Out, State)) {
    SameEnd(if Leaves(a.0) then cands else {}, a, b)
  }

  ghost predicate Plain(w: World, cands: set<Name>) {
    cands !! w.inMem && cands !! w.arrays && cands !! w.vol
  }

  /** Every path from the store reaches the overwrite, or leaves the function, without a
      read of `x`: the value of `x` before `rest` does not matter. */
  lemma {:induction false} KillSame(w: World, fuel: nat, cands: set<Name>, rest: seq<Stmt>, x: Name, s: State, t: State)
    requires Plain(w, cands) && x in cands
    requires Kill(cands, rest, x) && AgreeOff({x}, s, t)
    ensures Weak(cands, ExecList(w, fuel, rest, Run, s), ExecList(w, fuel, rest, Run, t))
    decreases rest
  {
    var it := rest[0];
    if OverwriteOf(cands, it) == Some(x) {
      StoreMeets(w, if it.ExprS? then it.e else it.init.e, x, s, t);
      if it.ExprS? {
        ListAgree(w, fuel, {}, rest[1..], Run, Eval(w, it.e, s).1, Eval(w, it.e, t).1);
      } else {
        var s1, t1 := ExecInit(w, it.init, s), ExecInit(w, it.init, t);
        LoopAgree(w, fuel, {}, it.cond, it.upd, it.body, Run, false, s1, t1);
        var rs, rt := Exec(w, fuel, it, Run, s), Exec(w, fuel, it, Run, t);
        if rs.0 == Norm { ListAgree(w, fuel, {}, rest[1..], Run, rs.1, rt.1); }
      }
    } else {
      ExecAgree(w, fuel, {x}, it, Run, s, t);
      NoJumpOut(w, fuel, it, Run, s);
      var rs, rt := Exec(w, fuel, it, Run, s), Exec(w, fuel, it, Run, t);
      if rs.0 == Norm { KillSame(w, fuel, cands, rest[1..], x, rs.1, rt.1); }
    }
  }

  /** After `x = r` with the same `r` the states agree on `x` too. */
  lemma StoreMeets(w: World, e: Expr, x: Name, s: State, t: State)
    requires e.Assign? && e.aop.None? && e.lhs == Var(x) && x !in Vars(e.rhs)
    requires x !in w.inMem && AgreeOff({x}, s, t)
    ensures AgreeOff({}, Eval(w, e, s).1, Eval(w, e, t).1)
  {
    EvalAgree(w, {x}, e.rhs, s, t);
    var rs, rt := Eval(w, e.rhs, s), Eval(w, e.rhs, t);
    forall y
      ensures Get(Eval(w, e, s).1.env, y) == Get(Eval(w, e, t).1.env, y)
    {
      assert y == x || Get(rs.1.env, y) == Get(rt.1.env, y);
    }
  }

  /** A store to `x` and its effect alone leave states that agree but for `x`. */
  lemma StoreVsEffect(w: World, cands: set<Name>, e: Expr, x: Name, s: State, t: State)
    requires Plain(w, cands) && x in cands && e.Assign? && e.aop.None? && e.lhs == Var(x)
    requires AgreeOff({}, s, t)
    ensures AgreeOff({x}, Eval(w, e, s).1, Eval(w, e.rhs, t).1)
    ensures Pure(w.vol, e.rhs) ==> AgreeOff({x}, Eval(w, e, s).1, t)
  {
    EvalAgree(w, {}, e.rhs, s, t);
    if Pure(w.vol, e.rhs) { PureEval(w, e.rhs, s); }
  }

  /** Dropping the initializers of a declaration leaves states that agree but for names
      that `rest` overwrites. */
  ghost predicate Killed(cands: set<Name>, rest: seq<Stmt>, D: set<Name>) {
    D <= cands && forall x :: x in D ==> Kill(cands, rest, x)
  }

  lemma {:induction false} KillManySame(w: World, fuel: nat, cands: set<Name>, rest: seq<Stmt>, D: set<Name>, s: State,
                                        t: State)
    requires Plain(w, cands) && Killed(cands, rest, D) && AgreeOff(D, s, t)
    ensures Weak(cands, ExecList(w, fuel, rest, Run, s), ExecList(w, fuel, rest, Run, t))
    decreases |D|
  {
    if D == {} {
      ListAgree(w, fuel, {}, rest, Run, s, t);
    } else {
      var x :| x in D;
      // one name at a time: u agrees with s on x and with t elsewhere
      var u := t.(env := t.env[x := Get(s.env, x)]);
      assert AgreeOff(D - {x}, s, u);
      KillManySame(w, fuel, cands, rest, D - {x}, s, u);
      assert AgreeOff({x}, u, t);
      KillSame(w, fuel, cands, rest, x, u, t);
      assert Kill(cands, rest, x);
    }
  }

  /** The names whose initializer `OverDecls` drops from `ds[k..]`. */
  function Dropped(cands: set<Name>, vol: set<Name>, ds: seq<Declr>, k: nat, rest: seq<Stmt>): set<Name>
    requires k <= |ds|
    decreases |ds| - k
  {
    if k == |ds| then {}
    else if DropsInit(cands, vol, ds, k, rest) then
      {ds[k].name} + Dropped(cands, vol, ds[k := ds[k].(init := NoInit)], k + 1, rest)
    else Dropped(cands, vol, ds, k + 1, rest)
  }

  lemma {:induction false} DroppedKilled(cands: set<Name>, vol: set<Name>, ds: seq<Declr>, k: nat, rest: seq<Stmt>)
    requires k <= |ds|
    ensures Killed(cands, rest, Dropped(cands, vol, ds, k, rest))
    decreases |ds| - k
  {
    if k < |ds| {
      if DropsInit(cands, vol, ds, k, rest) {
        DroppedKilled(cands, vol, ds[k := ds[k].(init := NoInit)], k + 1, rest);
      } else {
        DroppedKilled(cands, vol, ds, k + 1, rest);
      }
    }
  }

  /** `OverDecls` leaves the declarators in front of `k` as they are. */
  lemma {:induction false} OverDeclsFront(cands: set<Name>, vol: set<Name>, ds: seq<Declr>, k: nat, rest: seq<Stmt>)
    requires k <= |ds|
    ensures forall i :: 0 <= i < k ==> OverDecls(cands, vol, ds, k, rest)[i] == ds[i]
    decreases |ds| - k
  {
    hide DropsInit;
    if k < |ds| {
      var e := if DropsInit(cands, vol, ds, k, rest) then ds[k := ds[k].(init := NoInit)] else ds;
      OverDeclsFront(cands, vol, e, k + 1, rest);
    }
  }

  /** A dropped pure initializer leaves states that agree but for the name. */
  lemma DropState(w: World, D: set<Name>, d: Declr, s: State, t: State)
    requires d.init.InitE? && Pure(w.vol, d.init.e) && d.name !in w.inMem && d.name !in w.vol
    requires AgreeOff(D, s, t)
    ensures AgreeOff(D + {d.name}, ExecDeclr(w, d, s), t)
  {
    PureEval(w, d.init.e, s);
  }

  lemma ExecFrom(w: World, ds: seq<Declr>, k: nat, s: State)
    requires k < |ds|
    ensures ExecDecls(w, ds[k..], s) == ExecDecls(w, ds[k + 1..], ExecDeclr(w, ds[k], s))
  {
    assert ds[k..][0] == ds[k] && ds[k..][1..] == ds[k + 1..];
  }

  lemma UsesFrom(ds: seq<Declr>, k: nat)
    requires k < |ds|
    ensures UsesDecls(ds[k..]) == VarsInit(ds[k].init) + UsesDecls(ds[k + 1..])
  {
    assert ds[k..][0] == ds[k] && ds[k..][1..] == ds[k + 1..];
  }

  /** From declarator `k` on: the rewritten declarators keep the states equal outside the
      names dropped so far (`D`), which the remaining initializers do not read. */
  lemma {:induction false} OverDeclsSame(w: World, cands: set<Name>, ds: seq<Declr>, k: nat, rest: seq<Stmt>,
                                         D: set<Name>, s: State, t: State)
    requires Plain(w, cands) && k <= |ds| && |ds| != 1
    requires UsesDecls(ds[k..]) !! D && AgreeOff(D, s, t)
    ensures AgreeOff(D + Dropped(cands, w.vol, ds, k, rest),
                     ExecDecls(w, ds[k..], s), ExecDecls(w, OverDecls(cands, w.vol, ds, k, rest)[k..], t))
    decreases |ds| - k
  {
    hide Kill, Eval, EvalPlace, ExecDeclr, ExecDecls, UsesDecls, AgreeOff;
    if k == |ds| {
      var out := OverDecls(cands, w.vol, ds, k, rest);
      assert out[k..] == [] && ds[k..] == [];
      assert D + {} == D;
      NoDecls(w, D, s, t);
    } else {
      var d, out := ds[k], OverDecls(cands, w.vol, ds, k, rest);
      ExecFrom(w, ds, k, s);
      ExecFrom(w, out, k, t);
      UsesFrom(ds, k);
      if DropsInit(cands, w.vol, ds, k, rest) {
        var e := ds[k := d.(init := NoInit)];
        OverDeclsFront(cands, w.vol, e, k + 1, rest);
        assert out == OverDecls(cands, w.vol, e, k + 1, rest) && out[k] == e[k];
        assert e[k + 1..] == ds[k + 1..];
        DropState(w, D, d, s, t);
        NoInitSame(w, out[k], t);
        OverDeclsSame(w, cands, e, k + 1, rest, D + {d.name}, ExecDeclr(w, d, s), t);
        assert D + {d.name} + Dropped(cands, w.vol, e, k + 1, rest) == D + Dropped(cands, w.vol, ds, k, rest);
      } else {
        OverDeclsFront(cands, w.vol, ds, k + 1, rest);
        DeclrAgree(w, D, d, s, t);
        OverDeclsSame(w, cands, ds, k + 1, rest, D, ExecDeclr(w, d, s), ExecDeclr(w, d, t));
      }
    }
  }

  lemma NoDecls(w: World, D: set<Name>, s: State, t: State)
    requires AgreeOff(D, s, t)
    ensures AgreeOff(D, ExecDecls(w, [], s), ExecDecls(w, [], t))
  {
  }

  lemma NoInitSame(w: World, d: Declr, t: State)
    requires d.init.NoInit?
    ensures ExecDeclr(w, d, t) == t
  {
  }

  // ---- lists and bodies ------------------------------------------------------------

  lemma {:induction false} OverLabels(cands: set<Name>, vol: set<Name>, s: Stmt, l: Label)
    ensures HasLabel(OverIn(cands, vol, s), l) == HasLabel(s, l)
    decreases Size(s), 0
  {
    match s
    case Block(items) => OverLabelsIn(cands, vol, items, l);
    case If(_, thn, els) =>
      OverLabels(cands, vol, thn, l);
      if els.Some? { OverLabels(cands, vol, els.value, l); }
    case While(_, body) => OverLabels(cands, vol, body, l);
    case DoWhile(body, _) => OverLabels(cands, vol, body, l);
    case For(_, _, _, body) => OverLabels(cands, vol, body, l);
    case Switch(_, body) => OverLabels(cands, vol, body, l);
    case LabelS(_, body) => OverLabels(cands, vol, body, l);
    case _ =>
  }

  lemma {:induction false} OverLabelsIn(cands: set<Name>, vol: set<Name>, items: seq<Stmt>, l: Label)
    ensures HasLabelIn(OverList(cands, vol, items), l) == HasLabelIn(items, l)
    decreases SizeIn(items), 1
  {
    if items != [] {
      var it, rest := items[0], items[1..];
      var out := OverList(cands, vol, items);
      match it
      case ExprS(e) =>
        OverLabelsIn(cands, vol, rest, l);
        assert out == OverList(cands, vol, rest)
          || (out[0].ExprS? && out[1..] == OverList(cands, vol, rest));
      case DeclS(_, ds) =>
        var extra := OverExtra(cands, vol, ds, rest);
        ExtraSmaller(cands, vol, items);
        OverLabelsIn(cands, vol, extra + rest, l);
        assert out[1..] == OverList(cands, vol, extra + rest);
        LabelAppend(extra, rest, l);
        if extra != [] { assert extra[1..] == []; }
      case _ =>
        OverLabels(cands, vol, it, l);
        OverLabelsIn(cands, vol, rest, l);
        assert out[1..] == OverList(cands, vol, rest);
    }
  }

  lemma AgreeMore(D: set<Name>, s: State, t: State)
    requires AgreeOff({}, s, t)
    ensures AgreeOff(D, s, t)
  {
  }

  lemma WeakTrans(cands: set<Name>, a: (Out, State), b: (Out, State), c: (Out, State))
    requires Weak(cands, a, b) && Weak(cands, b, c)
    ensures Weak(cands, a, c)
  {
    var D := if Leaves(a.0) then cands else {};
    forall x | x !in D
      ensures Get(a.1.env, x) == Get(c.1.env, x)
    {
      assert Get(a.1.env, x) == Get(b.1.env, x);
    }
  }

  /** Every statement and its rewriting end alike, for every fuel and every entry. */
  lemma {:induction false} OverInSame(w: World, fuel: nat, cands: set<Name>, x: Stmt, m: Mode, s: State, t: State)
    requires Plain(w, cands) && AgreeOff({}, s, t)
    ensures Weak(cands, Exec(w, fuel, x, m, s), Exec(w, fuel, OverIn(cands, w.vol, x), m, t))
    decreases fuel, Size(x), 0
  {
    hide Eval, Loop, ExecDecls, Kill;
    match x
    case Block(items) => OverListSame(w, fuel, cands, items, m, s, t);
    case If(_, _, _) => OverBranchSame(w, fuel, cands, x, m, s, t);
    case While(c, body) => OverLoopSame(w, fuel, cands, Some(c), None, body, m, m.Seek?, s, t);
    case DoWhile(body, c) => OverLoopSame(w, fuel, cands, Some(c), None, body, m, true, s, t);
    case For(init, cond, upd, body) =>
      if m.Seek? {
        OverLoopSame(w, fuel, cands, cond, upd, body, m, true, s, t);
      } else {
        match init {
          case FNone =>
          case FExpr(e) => EvalAgree(w, {}, e, s, t);
          case FDecl(_, ds) => DeclsAgree(w, {}, ds, s, t);
        }
        OverLoopSame(w, fuel, cands, cond, upd, body, Run, false, ExecInit(w, init, s), ExecInit(w, init, t));
      }
    case Switch(_, _) => OverBranchSame(w, fuel, cands, x, m, s, t);
    case LabelS(l, body) => OverInSame(w, fuel, cands, body, if m == Seek(l) then Run else m, s, t);
    case _ => ExecAgree(w, fuel, {}, x, m, s, t);
  }

  lemma {:induction false} OverBranchSame(w: World, fuel: nat, cands: set<Name>, x: Stmt, m: Mode, s: State, t: State)
    requires x.If? || x.Switch?
    requires Plain(w, cands) && AgreeOff({}, s, t)
    ensures Weak(cands, Exec(w, fuel, x, m, s), Exec(w, fuel, OverIn(cands, w.vol, x), m, t))
    decreases fuel, Size(x) - 1, 3
  {
    hide Eval;
    if x.If? {
      if m.Seek? {
        OverLabels(cands, w.vol, x.thn, m.lab);
        OverInSame(w, fuel, cands, x.thn, m, s, t);
        if x.els.Some? { OverInSame(w, fuel, cands, x.els.value, m, s, t); }
      } else {
        EvalAgree(w, {}, x.c, s, t);
        var rs, rt := Eval(w, x.c, s), Eval(w, x.c, t);
        OverInSame(w, fuel, cands, x.thn, Run, rs.1, rt.1);
        if x.els.Some? { OverInSame(w, fuel, cands, x.els.value, Run, rs.1, rt.1); }
      }
    } else {
      if m.Seek? {
        OverInSame(w, fuel, cands, x.body, m, s, t);
      } else {
        EvalAgree(w, {}, x.e, s, t);
        var rs, rt := Eval(w, x.e, s), Eval(w, x.e, t);
        OverLabels(cands, w.vol, x.body, CaseOf(w.caseOf(rs.0)));
        OverLabels(cands, w.vol, x.body, Default);
        var g := SwitchTarget(x.body, w.caseOf(rs.0));
        if g.Some? { OverInSame(w, fuel, cands, x.body, Seek(g.value), rs.1, rt.1); }
      }
    }
  }

  lemma {:induction false} OverTurnSame(w: World, fuel: nat, cands: set<Name>, c: Option<Expr>,
                                        body: Stmt, m: Mode, enter: bool, s: State, t: State)
    requires Plain(w, cands) && AgreeOff({}, s, t)
    ensures
      var a, b := Turn(w, fuel, c, body, m, enter, s), Turn(w, fuel, c, OverIn(cands, w.vol, body), m, enter, t);
      a.0 == b.0 && AgreeOff(if a.0.Some? && Leaves(a.0.value) then cands else {}, a.1, b.1)
    decreases fuel, Size(body), 2
  {
    hide Eval, Test, Exec, OverIn, AgreeOff, Plain;
    TestAgree(w, {}, c, enter, s, t);
    var ts, tt := Test(w, c, enter, s), Test(w, c, enter, t);
    if ts.0 { OverInSame(w, fuel, cands, body, m, ts.1, tt.1); }
  }

  lemma {:induction false} OverLoopSame(w: World, fuel: nat, cands: set<Name>, c: Option<Expr>, u: Option<Expr>,
                                        body: Stmt, m: Mode, enter: bool, s: State, t: State)
    requires Plain(w, cands) && AgreeOff({}, s, t)
    ensures Weak(cands, Loop(w, fuel, c, u, body, m, enter, s),
                 Loop(w, fuel, c, u, OverIn(cands, w.vol, body), m, enter, t))
    decreases fuel, Size(body), 3
  {
    hide Turn, Eval, OverIn, AgreeOff, Plain;
    OverTurnSame(w, fuel, cands, c, body, m, enter, s, t);
    var a, b := Turn(w, fuel, c, body, m, enter, s), Turn(w, fuel, c, OverIn(cands, w.vol, body), m, enter, t);
    if a.0.None? && fuel == 0 {
      AgreeMore(cands, a.1, b.1);
    }
    if a.0.None? && fuel > 0 {
      if u.Some? { EvalAgree(w, {}, u.value, a.1, b.1); }
      OverLoopSame(w, fuel - 1, cands, c, u, body, Run, false, EvalOpt(w, u, a.1), EvalOpt(w, u, b.1));
    }
  }

  /** Every list and its rewriting end alike. */
  lemma {:induction false} OverListSame(w: World, fuel: nat, cands: set<Name>, items: seq<Stmt>, m: Mode, s: State,
                                        t: State)
    requires Plain(w, cands) && AgreeOff({}, s, t)
    ensures Weak(cands, ExecList(w, fuel, items, m, s), ExecList(w, fuel, OverList(cands, w.vol, items), m, t))
    decreases fuel, SizeIn(items), 2
  {
    if items != [] {
      match items[0]
      case ExprS(_) => OverExprSame(w, fuel, cands, items, m, s, t);
      case DeclS(_, _) => OverDeclSame(w, fuel, cands, items, m, s, t);
      case _ => OverOtherSame(w, fuel, cands, items, m, s, t);
    }
  }

  lemma {:induction false} OverOtherSame(w: World, fuel: nat, cands: set<Name>, items: seq<Stmt>, m: Mode, s: State,
                                         t: State)
    requires items != [] && !items[0].ExprS? && !items[0].DeclS?
    requires Plain(w, cands) && AgreeOff({}, s, t)
    ensures Weak(cands, ExecList(w, fuel, items, m, s), ExecList(w, fuel, OverList(cands, w.vol, items), m, t))
    decreases fuel, SizeIn(items), 1
  {
    var x, rest := items[0], items[1..];
    var out := OverList(cands, w.vol, items);
    var y, done := OverIn(cands, w.vol, x), OverList(cands, w.vol, rest);
    assert out == [y] + done;
    assert out[0] == y && out[1..] == done;
    if m.Seek? { OverLabels(cands, w.vol, x, m.lab); }
    if m.Seek? && !HasLabel(x, m.lab) {
      OverListSame(w, fuel, cands, rest, m, s, t);
    } else {
      OverInSame(w, fuel, cands, x, m, s, t);
      var rs, rt := Exec(w, fuel, x, m, s), Exec(w, fuel, y, m, t);
      if rs.0 == Norm { OverListSame(w, fuel, cands, rest, Run, rs.1, rt.1); }
    }
  }

  lemma {:induction false} OverExprSame(w: World, fuel: nat, cands: set<Name>, items: seq<Stmt>, m: Mode, s: State,
                                        t: State)
    requires items != [] && items[0].ExprS?
    requires Plain(w, cands) && AgreeOff({}, s, t)
    ensures Weak(cands, ExecList(w, fuel, items, m, s), ExecList(w, fuel, OverList(cands, w.vol, items), m, t))
    decreases fuel, SizeIn(items), 1
  {
    var e, rest := items[0].e, items[1..];
    var out, done := OverList(cands, w.vol, items), OverList(cands, w.vol, rest);
    var x := PlainStore(cands, e);
    if m.Seek? {
      OverListSame(w, fuel, cands, rest, m, s, t);
      assert out == done || (out[0].ExprS? && out[1..] == done);
    } else if x.Some? && Kill(cands, rest, x.value) {
      StoreVsEffect(w, cands, e, x.value, s, t);
      var s1 := Eval(w, e, s).1;
      var t1 := if Pure(w.vol, e.rhs) then t else Eval(w, e.rhs, t).1;
      KillSame(w, fuel, cands, rest, x.value, s1, t1);
      OverListSame(w, fuel, cands, rest, Run, t1, t1);
      WeakTrans(cands, ExecList(w, fuel, rest, Run, s1), ExecList(w, fuel, rest, Run, t1),
                ExecList(w, fuel, done, Run, t1));
      if Pure(w.vol, e.rhs) {
        assert out == done;
      } else {
        assert out[0] == ExprS(e.rhs) && out[1..] == done;
      }
    } else {
      EvalAgree(w, {}, e, s, t);
      assert out[0] == items[0] && out[1..] == done;
      OverListSame(w, fuel, cands, rest, Run, Eval(w, e, s).1, Eval(w, e, t).1);
    }
  }

  /** The states after a declaration and after its rewriting with the kept effect agree
      but for names that `rest` overwrites. */
  lemma {:induction false} OverDeclStates(w: World, cands: set<Name>, ds: seq<Declr>, rest: seq<Stmt>, s: State,
                                          t: State) returns (D: set<Name>)
    requires Plain(w, cands) && AgreeOff({}, s, t)
    ensures Killed(cands, rest, D)
    ensures
      var t1 := ExecDecls(w, OverDecls(cands, w.vol, ds, 0, rest), t);
      var x := OverExtra(cands, w.vol, ds, rest);
      AgreeOff(D, ExecDecls(w, ds, s), if x == [] then t1 else Eval(w, x[0].e, t1).1)
  {
    D := Dropped(cands, w.vol, ds, 0, rest);
    DroppedKilled(cands, w.vol, ds, 0, rest);
    if |ds| == 1 {
      assert ds[1..] == [];
      var d := ds[0];
      assert ExecDecls(w, ds, s) == ExecDeclr(w, d, s);
      if DropsInit(cands, w.vol, ds, 0, rest) {
        var e := ds[0 := d.(init := NoInit)];
        assert Dropped(cands, w.vol, e, 1, rest) == {};
        assert OverDecls(cands, w.vol, ds, 0, rest) == OverDecls(cands, w.vol, e, 1, rest) == e;
        assert e[1..] == [];
        assert ExecDecls(w, e, t) == t;
        var asg := Assign(None, Var(d.name), d.init.e);
        assert Eval(w, asg, s).1 == ExecDeclr(w, d, s);
        StoreVsEffect(w, cands, asg, d.name, s, t);
      } else {
        DeclrAgree(w, {}, d, s, t);
      }
    } else {
      assert ds[0..] == ds;
      var out := OverDecls(cands, w.vol, ds, 0, rest);
      assert out[0..] == out;
      OverDeclsSame(w, cands, ds, 0, rest, {}, s, t);
      assert {} + D == D;
    }
  }

  lemma {:induction false} OverDeclSame(w: World, fuel: nat, cands: set<Name>, items: seq<Stmt>, m: Mode, s: State,
                                        t: State)
    requires items != [] && items[0].DeclS?
    requires Plain(w, cands) && AgreeOff({}, s, t)
    ensures Weak(cands, ExecList(w, fuel, items, m, s), ExecList(w, fuel, OverList(cands, w.vol, items), m, t))
    decreases fuel, SizeIn(items), 1
  {
    var ds, rest := items[0].ds, items[1..];
    var extra := OverExtra(cands, w.vol, ds, rest);
    ExtraSmaller(cands, w.vol, items);
    var out, done := OverList(cands, w.vol, items), OverList(cands, w.vol, extra + rest);
    assert out[0] == DeclS(items[0].specsOk, OverDecls(cands, w.vol, ds, 0, rest)) && out[1..] == done;
    if extra != [] { assert extra[1..] == []; } else { assert extra + rest == rest; }
    ExecAppend(w, fuel, extra, rest, m, t);
    if m.Seek? {
      OverListSame(w, fuel, cands, extra + rest, m, t, t);
      ListAgree(w, fuel, {}, rest, m, s, t);
      WeakTrans(cands, ExecList(w, fuel, rest, m, s), ExecList(w, fuel, rest, m, t), ExecList(w, fuel, done, m, t));
    } else {
      var D := OverDeclStates(w, cands, ds, rest, s, t);
      var s1, t1 := ExecDecls(w, ds, s), ExecDecls(w, OverDecls(cands, w.vol, ds, 0, rest), t);
      var t2 := if extra == [] then t1 else Eval(w, extra[0].e, t1).1;
      ExecAppend(w, fuel, extra, rest, Run, t1);
      KillManySame(w, fuel, cands, rest, D, s1, t2);
      OverListSame(w, fuel, cands, extra + rest, Run, t1, t1);
      WeakTrans(cands, ExecList(w, fuel, rest, Run, s1), ExecList(w, fuel, extra + rest, Run, t1),
                ExecList(w, fuel, done, Run, t1));
    }
  }

  /** Overwritten-store removal preserves meaning: the run of the body shows the same end,
      memory and effects for every fuel and every start, with any `goto` and label. */
  lemma {:induction false} OverBodySame(w: World, fuel: nat, cands: set<Name>, items: seq<Stmt>, m: Mode, s: State,
                                        t: State)
    requires Plain(w, cands) && AgreeOff({}, s, t)
    ensures Weak(cands, RunBody(w, fuel, items, m, s), RunBody(w, fuel, OverList(cands, w.vol, items), m, t))
    decreases fuel
  {
    OverListSame(w, fuel, cands, items, m, s, t);
    var out := OverList(cands, w.vol, items);
    var rs, rt := ExecList(w, fuel, items, m, s), ExecList(w, fuel, out, m, t);
    if rs.0.Jump? {
      OverLabelsIn(cands, w.vol, items, Named(rs.0.l));
      if HasLabelIn(items, Named(rs.0.l)) && fuel > 0 {
        OverBodySame(w, fuel - 1, cands, items, Seek(Named(rs.0.l)), rs.1, rt.1);
      }
    }
  }
}
