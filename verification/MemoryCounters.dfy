/** Unrolling a loop whose counter may lie in memory: the copies assign it, and a store of the body
    can meet it. */
module MemoryCounters {
  import opened Wrappers
  import opened CLang
  import opened Frames
  import CInt
  import opened CountedLoops

  // ---- plain bodies ---------------------------------------------------------------------------

  /** A plain statement ends normally, returns, or runs out of fuel. */
  lemma {:induction false} PlainEnds(w: World, f: nat, x: Name, b: Stmt, s: State)
    requires Plain(false, x, b)
    ensures var o := Exec(w, f, b, Run, s).0; o == Norm || o == Timeout || o.Ret?
    decreases f, b, 1
  {
    hide Eval, Keeps, KeepsOpt, Loop, ExecList;
    match b
    case Block(items) => PlainEndsAll(w, f, x, items, s);
    case If(c, thn, els) =>
      var t := Eval(w, c, s).1;
      PlainEnds(w, f, x, thn, t);
      if els.Some? { PlainEnds(w, f, x, els.value, t); }
    case While(c, body) => PlainEndsLoop(w, f, x, Some(c), None, body, false, s);
    case DoWhile(body, c) => PlainEndsLoop(w, f, x, Some(c), None, body, true, s);
    case For(i, c, u, body) => PlainEndsLoop(w, f, x, c, u, body, false, ExecInit(w, i, s));
    case _ =>
  }

  lemma {:induction false} PlainEndsAll(w: World, f: nat, x: Name, items: seq<Stmt>, s: State)
    requires PlainAll(false, x, items)
    ensures var o := ExecList(w, f, items, Run, s).0; o == Norm || o == Timeout || o.Ret?
    decreases f, items, 0
  {
    hide Exec, HasLabel, Plain;
    if items != [] {
      PlainEnds(w, f, x, items[0], s);
      PlainEndsAll(w, f, x, items[1..], Exec(w, f, items[0], Run, s).1);
    }
  }

  lemma {:induction false} PlainEndsLoop(w: World, f: nat, x: Name, c: Option<Expr>, u: Option<Expr>, body: Stmt,
                                         enter: bool, s: State)
    requires Plain(false, x, body)
    ensures var o := Loop(w, f, c, u, body, Run, enter, s).0; o == Norm || o == Timeout || o.Ret?
    decreases f, body, 2
  {
    hide Exec, Test, EvalOpt, Loop, Plain;
    LoopStep(w, f, c, u, body, Run, enter, s);
    var t := Test(w, c, enter, s);
    PlainEnds(w, f, x, body, t.1);
    if f > 0 { PlainEndsLoop(w, f - 1, x, c, u, body, false, EvalOpt(w, u, Exec(w, f, body, Run, t.1).1)); }
  }

  /** A copy that keeps the variable is the body. */
  lemma {:induction false} CopySame(x: Name, v: int, b: Stmt)
    requires Plain(false, x, b)
    ensures CopyS(false, x, v, b) == b
    decreases b, 1
  {
    hide Keeps, Copy;
    forall e: Expr ensures Copy(false, x, v, e) == e { NotLiteralE(x, v, v, e); }
    match b
    case Block(items) => CopySameAll(x, v, items);
    case If(_, thn, els) =>
      CopySame(x, v, thn);
      if els.Some? { CopySame(x, v, els.value); }
    case While(_, body) => CopySame(x, v, body);
    case DoWhile(body, _) => CopySame(x, v, body);
    case For(_, _, _, body) => CopySame(x, v, body);
    case _ =>
  }

  lemma {:induction false} CopySameAll(x: Name, v: int, items: seq<Stmt>)
    requires PlainAll(false, x, items)
    ensures CopyAll(false, x, v, items) == items
    decreases items, 0
  {
    hide Plain, CopyS;
    if items != [] {
      CopySame(x, v, items[0]);
      CopySameAll(x, v, items[1..]);
    }
  }

  // ---- a pass -----------------------------------------------------------------------------------

  /** From pass `k` on, with `s` before it, each pass that ends leaves in the counter the value that
      it had before it: no store of the body meets the counter's cell with another value. */
  ghost predicate Kept(w: World, h: Head, ct: IntType, stmts: seq<Stmt>, k: nat, n: nat, s: State)
    requires ct.bits >= 1 && k <= n
    decreases n - k, 1
  {
    k < n ==> forall f: nat :: KeptAfter(w, h, ct, stmts, k, n, ExecList(w, f, stmts, Run, s))
  }

  ghost predicate KeptAfter(w: World, h: Head, ct: IntType, stmts: seq<Stmt>, k: nat, n: nat, r: (Out, State))
    requires ct.bits >= 1 && k < n
    decreases n - k, 0
  {
    r.0 == Norm ==>
      CellIn(w, h.x, r.1) == I(Counter(h, ct, k)) &&
      Kept(w, h, ct, stmts, k + 1, n, PutIn(w, h.x, Counter(h, ct, k + 1), r.1))
  }

  /** After a pass that leaves the value `v` in the counter, the loop and the copies go on from one
      state exactly when `v` is the value from before the pass. */
  lemma StepExact(w: World, h: Head, ct: IntType, k: nat, v: int, r: State)
    requires Bounds(h) && Typed(w, h.x, ct) && CellIn(w, h.x, r) == I(v) && Fit(ct, v) == v
    ensures EvalOpt(w, Some(UpdateOf(h)), r) == Eval(w, Set(h.x, At(h, k + 1)), r).1 <==> v == Counter(h, ct, k)
  {
    hide Typed, EvalOpt, UpdateOf, Eval, Set, PutIn, CellIn, CInt.WrapBits, CInt.Cong;
    TypedFacts(w, h.x, ct, h.cmp, 0, 0);
    UpdateIs(w, h, ct, v, r);
    SetIs(w, h.x, ct, At(h, k + 1), r);
    CounterIs(h, ct, k);
    CounterIs(h, ct, k + 1);
    NextCounter(h, ct, k);
    FitTwice(ct, At(h, k));
    if Fit(ct, v + h.step) == Counter(h, ct, k + 1) { SameBefore(ct, v, Counter(h, ct, k), h.step); }
    assert PutIn(w, h.x, Fit(ct, v + h.step), r) == PutIn(w, h.x, Counter(h, ct, k + 1), r) ==>
      Fit(ct, v + h.step) == Counter(h, ct, k + 1);
  }

  lemma FitTwice(ct: IntType, v: int)
    requires ct.bits >= 1
    ensures Fit(ct, Fit(ct, v)) == Fit(ct, v)
  {
    hide CInt.WrapBits, CInt.LowBits;
    CInt.CongWrap(v, ct.bits, ct.sg);
    SameBits(ct, Fit(ct, v), v);
  }

  lemma SameBefore(ct: IntType, a: int, b: int, d: int)
    requires ct.bits >= 1 && Fit(ct, a + d) == Fit(ct, b + d) && Fit(ct, a) == a && Fit(ct, b) == b
    ensures a == b
  {
    hide CInt.WrapBits, CInt.LowBits;
    var n := ct.bits;
    CInt.CongWrap(a + d, n, ct.sg);
    CInt.CongWrap(b + d, n, ct.sg);
    CInt.CongSum(a + d, b + d, -d, -d, n);
    assert a + d + -d == a && b + d + -d == b;
    SameBits(ct, a, b);
  }

  // ---- unrolling ------------------------------------------------------------------------------------

  /** One copy: the counter assigned, then the body. */
  lemma CopyHead(w: World, f: nat, h: Head, ct: IntType, stmts: seq<Stmt>, k: nat, t: State)
    requires Typed(w, h.x, ct) && PlainAll(false, h.x, stmts)
    ensures ExecList(w, f, OneCopy(false, h, stmts, k), Run, t) ==
      ExecList(w, f, stmts, Run, PutIn(w, h.x, Fit(ct, At(h, k)), t))
  {
    hide Typed, Exec, ExecList, Eval, Set, PutIn, CellIn, Fit, At, PlainAll, CopyAll;
    TypedFacts(w, h.x, ct, h.cmp, 0, 0);
    var i := ExprS(Set(h.x, At(h, k)));
    CopySameAll(h.x, At(h, k), stmts);
    SetIs(w, h.x, ct, At(h, k), t);
    ExprRuns(w, f, Set(h.x, At(h, k)), t);
    SetFirst(w, f, i, stmts, t, PutIn(w, h.x, Fit(ct, At(h, k)), t));
  }

  /** Before pass `k` the copies are at `t`, and the loop where the counter has its value. */
  ghost predicate AtPass(w: World, h: Head, ct: IntType, stmts: seq<Stmt>, k: nat, n: nat, s: State, t: State) {
    Bounds(h) && Typed(w, h.x, ct) && Passes(h) == Some(n) && Exact(false, h, ct, n) && PlainAll(false, h.x, stmts) &&
    k <= n &&
    s == PutIn(w, h.x, Counter(h, ct, k), t) && Kept(w, h, ct, stmts, k, n, s)
  }

  lemma InOrder(w: World, h: Head, ct: IntType, stmts: seq<Stmt>, k: nat, n: nat, s: State, t: State)
    requires AtPass(w, h, ct, stmts, k, n, s, t)
    ensures k <= n
  {
    hide Typed, Kept, PlainAll, Exact;
  }

  lemma BlockRuns(w: World, f: nat, stmts: seq<Stmt>, s: State)
    ensures Exec(w, f, Block(stmts), Run, s) == ExecList(w, f, stmts, Run, s)
  {
    hide ExecList;
  }

  /** One pass: how the loop and the copies go on. */
  lemma OnePass(w: World, f: nat, h: Head, ct: IntType, stmts: seq<Stmt>, k: nat, n: nat, s: State, t: State)
    requires AtPass(w, h, ct, stmts, k, n, s, t)
    ensures Test(w, Some(CondOf(h)), false, s) == (k < n, s)
    ensures k < n ==>
      var r := ExecList(w, f, stmts, Run, s);
      (ExecList(w, f, OneCopy(false, h, stmts, k), Run, t) == r && (r.0 == Norm || r.0 == Timeout || r.0.Ret?) &&
       (r.0 == Norm ==> AtPass(w, h, ct, stmts, k + 1, n, EvalOpt(w, Some(UpdateOf(h)), r.1), r.1)))
  {
    hide Typed, EvalOpt, UpdateOf, CondOf, Test, PutIn, CellIn, Fit, At, PlainAll, OneCopy, Passes, Exact, ExecList,
         Counter, Holds;
    TypedFacts(w, h.x, ct, h.cmp, 0, 0);
    CounterIs(h, ct, k);
    SetIs(w, h.x, ct, At(h, k), t);
    CondIs(w, h, ct, Counter(h, ct, k), s);
    GoesOn(false, h, ct, k, n);
    if k < n {
      CopyHead(w, f, h, ct, stmts, k, t);
      PlainEndsAll(w, f, h.x, stmts, s);
      var r := ExecList(w, f, stmts, Run, s);
      assert KeptAfter(w, h, ct, stmts, k, n, r);
      if r.0 == Norm {
        UpdateIs(w, h, ct, Counter(h, ct, k), r.1);
        NextCounter(h, ct, k);
      }
    }
  }

  /** After the last copy. */
  lemma LastCopy(w: World, f: nat, h: Head, ct: IntType, stmts: seq<Stmt>, n: nat, s: State, t: State)
    requires AtPass(w, h, ct, stmts, n, n, s, t)
    ensures ExecList(w, f, Copies(false, h, stmts, n, n), Run, t) == (Norm, s)
  {
    hide Typed, Eval, Fit, At, Set, PutIn, CellIn, Passes, Exact, PlainAll, Kept;
    TypedFacts(w, h.x, ct, h.cmp, 0, 0);
    CounterIs(h, ct, n);
    SetIs(w, h.x, ct, At(h, n), t);
    OneItem(w, f, ExprS(Set(h.x, At(h, n))), t);
    ExprRuns(w, f, Set(h.x, At(h, n)), t);
  }

  /** From pass `k` on: when the loop ends, the copies end in the same state. */
  lemma {:induction false} LoopThenCopies(w: World, f: nat, h: Head, ct: IntType, stmts: seq<Stmt>, k: nat, n: nat,
                                          s: State, t: State)
    requires AtPass(w, h, ct, stmts, k, n, s, t)
    requires Loop(w, f, Some(CondOf(h)), Some(UpdateOf(h)), Block(stmts), Run, false, s).0 != Timeout
    ensures ExecList(w, f, Copies(false, h, stmts, k, n), Run, t) ==
      Loop(w, f, Some(CondOf(h)), Some(UpdateOf(h)), Block(stmts), Run, false, s)
    decreases n - k
  {
    var c, u, body := Some(CondOf(h)), Some(UpdateOf(h)), Block(stmts);
    hide AtPass, Loop, Exec, ExecList, CondOf, UpdateOf, Test, EvalOpt, OneCopy, Typed, Kept, PlainAll, Exact;
    InOrder(w, h, ct, stmts, k, n, s, t);
    BlockRuns(w, f, stmts, s);
    OnePass(w, f, h, ct, stmts, k, n, s, t);
    LoopStep(w, f, c, u, body, Run, false, s);
    if k == n {
      LastCopy(w, f, h, ct, stmts, n, s, t);
    } else {
      var r, rest := ExecList(w, f, stmts, Run, s), Copies(false, h, stmts, k + 1, n);
      ExecAppend(w, f, OneCopy(false, h, stmts, k), rest, Run, t);
      if r.0 == Norm {
        LoopThenCopies(w, f - 1, h, ct, stmts, k + 1, n, EvalOpt(w, u, r.1), r.1);
        MoreFuelList(w, f - 1, f, rest, Run, r.1);
      }
    }
  }

  /** From pass `k` on: when the copies end, the loop ends in the same state, with fuel for its
      turns. */
  lemma {:induction false} CopiesThenLoop(w: World, f: nat, g: nat, h: Head, ct: IntType, stmts: seq<Stmt>, k: nat,
                                          n: nat, s: State, t: State)
    requires AtPass(w, h, ct, stmts, k, n, s, t) && f >= g + (n - k)
    requires ExecList(w, g, Copies(false, h, stmts, k, n), Run, t).0 != Timeout
    ensures Loop(w, f, Some(CondOf(h)), Some(UpdateOf(h)), Block(stmts), Run, false, s) ==
      ExecList(w, g, Copies(false, h, stmts, k, n), Run, t)
    decreases n - k
  {
    var c, u, body := Some(CondOf(h)), Some(UpdateOf(h)), Block(stmts);
    hide AtPass, Loop, Exec, ExecList, CondOf, UpdateOf, Test, EvalOpt, OneCopy, Typed, Kept, PlainAll, Exact;
    InOrder(w, h, ct, stmts, k, n, s, t);
    BlockRuns(w, f, stmts, s);
    OnePass(w, g, h, ct, stmts, k, n, s, t);
    LoopStep(w, f, c, u, body, Run, false, s);
    if k == n {
      LastCopy(w, g, h, ct, stmts, n, s, t);
    } else {
      var r, rest := ExecList(w, g, stmts, Run, s), Copies(false, h, stmts, k + 1, n);
      ExecAppend(w, g, OneCopy(false, h, stmts, k), rest, Run, t);
      if r.0 != Timeout { MoreFuelList(w, g, f, stmts, Run, s); }
      if r.0 == Norm { CopiesThenLoop(w, f - 1, g, h, ct, stmts, k + 1, n, EvalOpt(w, u, r.1), r.1); }
    }
  }

  /** Unrolling changes no run, wherever the counter lies, when the counter is exact and every pass
      keeps it: the loop and the copies end in the same state, or both go on for ever. */
  lemma UnrollCell(w: World, f: nat, h: Head, ct: IntType, stmts: seq<Stmt>, s: State)
    requires Bounds(h) && Typed(w, h.x, ct) && Unroll(false, h, stmts).Some? && Exact(false, h, ct, Passes(h).value)
    requires Kept(w, h, ct, stmts, 0, Passes(h).value, PutIn(w, h.x, Fit(ct, h.start), s))
    ensures
      var n, loop, copies := Passes(h).value, LoopOf(h, Block(stmts)), Unroll(false, h, stmts).value;
      (Exec(w, f, loop, Run, s).0 != Timeout ==> Exec(w, f, copies, Run, s) == Exec(w, f, loop, Run, s)) &&
      (Exec(w, f, copies, Run, s).0 != Timeout ==> Exec(w, f + n, loop, Run, s) == Exec(w, f, copies, Run, s))
  {
    hide Typed, Loop, ExecList, PlainAll, Passes, Exact, CondOf, UpdateOf, Copies, Eval, Set, Fit, PutIn, CellIn, Kept;
    var n := Passes(h).value;
    TypedFacts(w, h.x, ct, h.cmp, 0, 0);
    SetIs(w, h.x, ct, h.start, s);
    var s0 := PutIn(w, h.x, Fit(ct, h.start), s);
    assert AtPass(w, h, ct, stmts, 0, n, s0, s);
    if Exec(w, f, LoopOf(h, Block(stmts)), Run, s).0 != Timeout { LoopThenCopies(w, f, h, ct, stmts, 0, n, s0, s); }
    if Exec(w, f, Unroll(false, h, stmts).value, Run, s).0 != Timeout {
      CopiesThenLoop(w, f + n, f, h, ct, stmts, 0, n, s0, s);
    }
  }

  // ---- a store that meets the counter ------------------------------------------------------------------

  /** `*p = 0`. */
  function Clear(p: Name): Stmt { ExprS(Assign(None, Deref(Var(p), false), Num(0))) }

  lemma ClearRuns(w: World, f: nat, x: Name, ct: IntType, p: Name, s: State)
    requires Typed(w, x, ct) && x in w.inMem && Register(w, p) && Get(s.env, p) == P(x, 0) && Fit(ct, 0) == 0
    ensures Exec(w, f, Clear(p), Run, s) == (Norm, PutIn(w, x, 0, s))
  {
    hide Typed, Fit, Write;
    TypedFacts(w, x, ct, Less, 0, 0);
    ReadCounter(w, p, s);
    WriteCell(w, x, I(0), 0, s);
    assert EvalPlace(w, Deref(Var(p), false), s) == (VarPlace(w, x), s);
    assert Eval(w, Num(0), s) == (I(0), s);
  }

  lemma CellsIn(w: World, x: Name, v: int, s: State)
    requires x in w.inMem
    ensures CellIn(w, x, PutIn(w, x, v, s)) == I(v) && PutIn(w, x, v, s).env == s.env
  {
  }

  /** The counter is 0 or 1 before each test. */
  lemma {:induction false} Stuck(w: World, f: nat, x: Name, p: Name, v: int, s: State)
    requires Typed(w, x, IntType(16, true)) && x in w.inMem && Register(w, p) && Get(s.env, p) == P(x, 0)
    requires 0 <= v <= 1 && CellIn(w, x, s) == I(v)
    ensures
      var h := Head(x, 0, Less, 2, 1, true);
      Loop(w, f, Some(CondOf(h)), Some(UpdateOf(h)), Block([Clear(p)]), Run, false, s).0 == Timeout
    decreases f
  {
    hide Typed, Fit, Loop, Exec, ExecList, CondOf, UpdateOf, Test, EvalOpt, CellIn, PutIn, Clear;
    var h, ct, body := Head(x, 0, Less, 2, 1, true), IntType(16, true), Block([Clear(p)]);
    SmallFits();
    var s1, s2 := PutIn(w, x, 0, s), PutIn(w, x, 1, PutIn(w, x, 0, s));
    CellsIn(w, x, 0, s);
    CellsIn(w, x, 1, s1);
    BlockRuns(w, f, [Clear(p)], s);
    LoopStep(w, f, Some(CondOf(h)), Some(UpdateOf(h)), body, Run, false, s);
    CondIs(w, h, ct, v, s);
    OneItem(w, f, Clear(p), s);
    ClearRuns(w, f, x, ct, p, s);
    UpdateIs(w, h, ct, 0, s1);
    if f > 0 { Stuck(w, f - 1, x, p, 1, s2); }
  }

  lemma SmallFits()
    ensures forall v: int :: 0 <= v <= 2 ==> Fit(IntType(16, true), v) == v
  {
    hide CInt.Pow2, CInt.LowBits, CInt.WrapBits;
    CInt.Widths();
    forall v: int | 0 <= v <= 2 ensures Fit(IntType(16, true), v) == v { CInt.WrapBitsId(v, 16, true); }
  }

  /** `for (i = 0; i < 2; i++) *p = 0;` with `p` at the counter `i`, a global: the counter is exact
      and the loop is unrolled, and the copies end, but the loop does not. */
  lemma StoreMeetsCounter(w: World, f: nat, x: Name, p: Name, s: State)
    requires Typed(w, x, IntType(16, true)) && x in w.inMem && Register(w, p) && Get(s.env, p) == P(x, 0)
    ensures
      var h, stmts := Head(x, 0, Less, 2, 1, true), [Clear(p)];
      Bounds(h) && Passes(h) == Some(2) && Exact(false, h, IntType(16, true), 2) && Unroll(false, h, stmts).Some? &&
      Exec(w, f, LoopOf(h, Block(stmts)), Run, s).0 == Timeout &&
      Exec(w, f, Unroll(false, h, stmts).value, Run, s).0 == Norm
  {
    hide Typed, Fit, Loop, ExecList, Eval, Set, CondOf, UpdateOf, CellIn, PutIn, Clear, PlainAll, Copies;
    var h, ct := Head(x, 0, Less, 2, 1, true), IntType(16, true);
    SmallFits();
    assert At(h, 0) == 0 && At(h, 1) == 1 && At(h, 2) == 2;
    ClearFacts(h, p);
    SetIs(w, x, ct, 0, s);
    var s0 := PutIn(w, x, 0, s);
    CellsIn(w, x, 0, s);
    Stuck(w, f, x, p, 0, s0);
    ClearsEnd(w, f, h, ct, p, 0, s);
  }

  lemma ClearFacts(h: Head, p: Name)
    ensures PlainAll(false, h.x, [Clear(p)])
  {
    var to := Deref(Var(p), false);
    assert Keeps(false, h.x, Var(p)) && Keeps(false, h.x, to) && Keeps(false, h.x, Num(0));
    assert Keeps(false, h.x, Assign(None, to, Num(0)));
    assert Plain(false, h.x, Clear(p)) && [Clear(p)][1..] == [];
  }

  lemma {:induction false} ClearsEnd(w: World, f: nat, h: Head, ct: IntType, p: Name, k: nat, t: State)
    requires Typed(w, h.x, ct) && h.x in w.inMem && Register(w, p) && Get(t.env, p) == P(h.x, 0) && Fit(ct, 0) == 0 &&
      k <= 2
    ensures ExecList(w, f, Copies(false, h, [Clear(p)], k, 2), Run, t).0 == Norm
    decreases 2 - k
  {
    hide Typed, Fit, ExecList, Exec, OneCopy, Clear, PutIn, CellIn, PlainAll, At, Eval, Set;
    ClearFacts(h, p);
    TypedFacts(w, h.x, ct, h.cmp, 0, 0);
    if k == 2 {
      SetIs(w, h.x, ct, At(h, 2), t);
      OneItem(w, f, ExprS(Set(h.x, At(h, 2))), t);
      ExprRuns(w, f, Set(h.x, At(h, 2)), t);
    } else {
      var s := PutIn(w, h.x, Fit(ct, At(h, k)), t);
      CellsIn(w, h.x, Fit(ct, At(h, k)), t);
      CellsIn(w, h.x, 0, s);
      CopyHead(w, f, h, ct, [Clear(p)], k, t);
      OneItem(w, f, Clear(p), s);
      ClearRuns(w, f, h.x, ct, p, s);
      ExecAppend(w, f, OneCopy(false, h, [Clear(p)], k), Copies(false, h, [Clear(p)], k + 1, 2), Run, t);
      ClearsEnd(w, f, h, ct, p, k + 1, PutIn(w, h.x, 0, s));
    }
  }
}
