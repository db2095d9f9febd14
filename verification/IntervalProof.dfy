/** Soundness of the interval analysis, and the absence of undefined behaviour. */
module IntervalProof {
  import opened Wrappers
  import opened CInt
  import opened Interval

  /** The value `v` is one that the analysis allows. */
  predicate Allows(i: Info, v: int) {
    && i.t.Holds(v) && i.lo <= v <= i.hi
    && (i.nonzero ==> v != 0) && (i.notmin ==> v != i.t.Lo())
  }

  lemma ConvSound(lo: int, hi: int, v: int, t: CType)
    requires lo <= v <= hi
    ensures ConvLo(lo, hi, t) <= Wrap(v, t) <= ConvHi(lo, hi, t)
  {
    if t.Lo() <= lo && hi <= t.Hi() { WrapId(v, t); }
  }

  // ---- arithmetic ------------------------------------------------------------------

  lemma MulLe(x: int, y: int, z: int)
    requires x >= 0 && y <= z
    ensures x * y <= x * z
  {
  }

  lemma Between(x: int, l: int, y: int, h: int)
    requires l <= y <= h
    ensures Min(x * l, x * h) <= x * y <= Max(x * l, x * h)
  {
    if x >= 0 {
      MulLe(x, l, y); MulLe(x, y, h);
    } else {
      MulLe(-x, l, y); MulLe(-x, y, h);
      assert -x * l == -(x * l) && -x * y == -(x * y) && -x * h == -(x * h);
    }
  }

  lemma MulBounds(a: int, al: int, ah: int, b: int, bl: int, bh: int)
    requires al <= a <= ah && bl <= b <= bh
    ensures Min(Min(al * bl, al * bh), Min(ah * bl, ah * bh)) <= a * b
            <= Max(Max(al * bl, al * bh), Max(ah * bl, ah * bh))
  {
    Between(b, al, a, ah);
    Between(al, bl, b, bh);
    Between(ah, bl, b, bh);
    assert b * a == a * b && b * al == al * b && b * ah == ah * b;
  }

  lemma {:induction false} ShiftRightMono(v: int, w: int, n: nat)
    requires v <= w
    ensures ShiftRight(v, n) <= ShiftRight(w, n)
    decreases n
  {
    if n > 0 { ShiftRightMono(v / 2, w / 2, n - 1); }
  }

  /** `v >> n` moves toward 0 or -1 as `n` grows. */
  lemma {:induction false} ShiftRightMore(v: int, m: nat, n: nat)
    requires m <= n
    ensures v >= 0 ==> 0 <= ShiftRight(v, n) <= ShiftRight(v, m) <= v
    ensures v < 0 ==> v <= ShiftRight(v, m) <= ShiftRight(v, n) <= -1
    decreases n
  {
    if m > 0 {
      ShiftRightMore(v / 2, m - 1, n - 1);
    } else if n > 0 {
      ShiftRightMore(v / 2, 0, n - 1);
    }
  }

  lemma ShiftNone(v: int)
    ensures ShiftRight(v, 0) == v
  {
  }

  lemma {:induction false} ShiftLeftMono(v: int, w: int, m: nat, n: nat)
    requires 0 <= v <= w && m <= n
    ensures 0 <= ShiftLeft(v, m) <= ShiftLeft(w, n)
    decreases n
  {
    if m > 0 {
      ShiftLeftMono(v, w, m - 1, n - 1);
    } else if n > 0 {
      ShiftLeftMono(v, w, 0, n - 1);
    }
  }

  // ---- the operators -----------------------------------------------------------------

  /** What one operator must give: a value, in the interval and in the type. */
  predicate Good(r: Option<int>, i: Res, t: CType)
  {
    r.Some? && i.lo <= r.value <= i.hi && t.Holds(r.value)
  }

  lemma ShiftSound(op: BinOp, a: Info, va: int, b: Info, vb: int)
    requires Allows(a, va) && Allows(b, vb) && (op.Shl? || op.Shr?)
    requires AnalyzeShift(op, a, b).safe
    ensures Good(BinOpValue(op, va, a.t, vb, b.t), AnalyzeShift(op, a, b), Promote(a.t))
  {
    hide CType.Lo, CType.Hi, CType.Bits, Promote, Wrap, ShiftRight, ShiftLeft, Pow2, ConvLo, ConvHi;
    var t := Promote(a.t);
    TypeFacts(t);
    PromoteHolds(a.t, va);
    WrapId(va, t);
    ConvSound(a.lo, a.hi, va, t);
    var al, ah := ConvLo(a.lo, a.hi, t), ConvHi(a.lo, a.hi, t);
    if op.Shr? {
      ShiftRightMono(al, va, vb);
      ShiftRightMono(va, ah, vb);
      ShiftRightMore(al, b.lo, vb); ShiftRightMore(al, vb, b.hi);
      ShiftRightMore(ah, b.lo, vb); ShiftRightMore(ah, vb, b.hi);
      ShiftRightMore(va, 0, vb);
      ShiftNone(va);
    } else if al >= 0 && ShiftLeft(ah, b.hi) <= t.Hi() {
      ShiftLeftMono(al, va, b.lo, vb);
      ShiftLeftMono(va, ah, vb, b.hi);
      WrapId(ShiftLeft(va, vb), t);
    }
  }

  lemma SumSound(op: BinOp, t: CType, a: int, al: int, ah: int, b: int, bl: int, bh: int)
    requires (op.Add? || op.Sub? || op.Mul?)
    requires al <= a <= ah && bl <= b <= bh && AnalyzeSum(op, t, al, ah, bl, bh).safe
    ensures
      var r := Exact(op, a, b, t);
      r.Some? && (t.Signed() ==> t.Holds(r.value))
      && Good(Some(Wrap(r.value, t)), AnalyzeSum(op, t, al, ah, bl, bh), t)
  {
    hide CType.Lo, CType.Hi, Wrap;
    MulBounds(a, al, ah, b, bl, bh);
    var r := Exact(op, a, b, t).value;
    if t.Holds(r) { WrapId(r, t); }
  }

  /** Truncating division: the quotient and the remainder. */
  lemma TDivFacts(a: int, b: int)
    requires b != 0
    ensures Abs(TDiv(a, b)) <= Abs(a)
    ensures Abs(b) >= 2 ==> 2 * Abs(TDiv(a, b)) <= Abs(a)
    ensures Abs(a - b * TDiv(a, b)) < Abs(b) && Abs(a - b * TDiv(a, b)) <= Abs(a)
    ensures a >= 0 ==> a - b * TDiv(a, b) >= 0
    ensures a <= 0 ==> a - b * TDiv(a, b) <= 0
    ensures (a < 0) != (b < 0) ==> TDiv(a, b) <= 0
    ensures (a < 0) == (b < 0) ==> TDiv(a, b) >= 0
  {
    var m, n := Abs(a), Abs(b);
    QuotFacts(m, n);
    var q: int := Quot(m, n);
    SignedProduct(a, b, n, q);
    assert n * q >= 0;
  }

  lemma SignedProduct(a: int, b: int, n: int, q: int)
    requires n == Abs(b)
    ensures b * (if (a < 0) != (b < 0) then -q else q) == if a < 0 then -(n * q) else n * q
  {
    if b >= 0 {
      assert b * -q == -(b * q);
    } else {
      assert b * q == -(n * q);
      assert b * -q == n * q;
    }
  }

  /** A safe division has a quotient and a remainder in the type. */
  lemma DivSafe(op: BinOp, t: CType, a: int, al: int, ah: int, b: int, bl: int, bh: int, nonzero: bool, notmin: bool)
    requires op.Div? || op.Mod?
    requires t.Holds(a) && t.Holds(b) && al <= a <= ah && bl <= b <= bh
    requires (nonzero ==> b != 0) && (notmin && t.Signed() ==> a != t.Lo())
    requires AnalyzeDiv(op, t, al, ah, bl, bh, nonzero, notmin).safe
    ensures b != 0 && Exact(op, a, b, t).Some? && t.Holds(Exact(op, a, b, t).value)
  {
    hide CType.Lo, CType.Hi, CType.Bits, Pow2, TDiv, Quot;
    TypeFacts(t);
    assert b != 0;
    TDivFacts(a, b);
    assert t.Signed() ==> a > t.Lo() || b != -1;
    assert t.Holds(TDiv(a, b)) by {
      if t.Signed() && a == t.Lo() && Abs(b) >= 2 { assert 2 * Abs(TDiv(a, b)) <= Abs(a); }
    }
  }

  lemma QuotientBetween(t: CType, a: int, al: int, ah: int, b: int, bl: int, bh: int, nonzero: bool, notmin: bool)
    requires t.Holds(a) && al <= a <= ah && bl <= b <= bh && b != 0 && t.Holds(b) && t.Holds(TDiv(a, b))
    ensures
      var i := AnalyzeDiv(Div, t, al, ah, bl, bh, nonzero, notmin);
      i.lo <= TDiv(a, b) <= i.hi
  {
    hide CType.Lo, CType.Hi;
    TDivFacts(a, b);
    TypeFacts(t);
    if al >= 0 && bl >= 1 {
      QuotMono(al, bh, a, b);
      QuotMono(a, b, ah, bl);
    }
  }

  lemma RemainderBetween(t: CType, a: int, al: int, ah: int, b: int, bl: int, bh: int, nonzero: bool, notmin: bool,
                         r: int)
    requires t.Holds(a) && al <= a <= ah && bl <= b <= bh && t.Holds(b)
    requires Abs(r) < Abs(b) && Abs(r) <= Abs(a) && (a >= 0 ==> r >= 0) && (a <= 0 ==> r <= 0)
    ensures
      var i := AnalyzeDiv(Mod, t, al, ah, bl, bh, nonzero, notmin);
      i.lo <= r <= i.hi
  {
    hide CType.Lo, CType.Hi;
    TypeFacts(t);
  }

  lemma DivSound(op: BinOp, t: CType, a: int, al: int, ah: int, b: int, bl: int, bh: int, nonzero: bool, notmin: bool)
    requires op.Div? || op.Mod?
    requires t.Holds(a) && t.Holds(b) && al <= a <= ah && bl <= b <= bh
    requires (nonzero ==> b != 0) && (notmin && t.Signed() ==> a != t.Lo())
    requires AnalyzeDiv(op, t, al, ah, bl, bh, nonzero, notmin).safe
    ensures
      var r := Exact(op, a, b, t);
      r.Some? && t.Holds(r.value)
      && Good(Some(Wrap(r.value, t)), AnalyzeDiv(op, t, al, ah, bl, bh, nonzero, notmin), t)
  {
    hide CType.Lo, CType.Hi, CType.Bits, Pow2, Wrap, TDiv, AnalyzeDiv;
    DivSafe(op, t, a, al, ah, b, bl, bh, nonzero, notmin);
    TDivFacts(a, b);
    var r := Exact(op, a, b, t).value;
    WrapId(r, t);
    if op.Div? {
      QuotientBetween(t, a, al, ah, b, bl, bh, nonzero, notmin);
    } else {
      RemainderBetween(t, a, al, ah, b, bl, bh, nonzero, notmin, r);
    }
  }

  /** A bitwise operator stays in the type. */
  lemma BitsHold(op: BitOp, t: CType, a: int, b: int)
    requires t.Holds(a) && t.Holds(b)
    ensures t.Holds(Bitwise(op, a, b))
  {
    hide CType.Bits, Bitwise;
    if t.Signed() {
      BitwiseRange(op, a, b, t.Bits() - 1);
    } else {
      BitwiseNat(op, a, b, t.Bits());
    }
  }

  lemma BitsSound(op: BitOp, t: CType, a: int, al: int, ah: int, b: int, bl: int, bh: int)
    requires t.Holds(a) && t.Holds(b) && al <= a <= ah && bl <= b <= bh
    ensures
      var r := Bitwise(op, a, b);
      t.Holds(r) && Good(Some(Wrap(r, t)), AnalyzeBits(op, t, al, ah, bl, bh), t)
  {
    hide CType.Lo, CType.Hi, CType.Bits, Bitwise, Wrap, BitLength, Pow2;
    var r := Bitwise(op, a, b);
    BitsHold(op, t, a, b);
    WrapId(r, t);
    if op == And {
      if a >= 0 { AndBound(a, b); }
      if b >= 0 { BitwiseComm(And, a, b); AndBound(b, a); }
    } else if al >= 0 && bl >= 0 {
      BitwiseNat(op, a, b, BitLength(Max(ah, bh)));
    }
  }

  lemma HoldsBits(t: CType, v: int)
    requires t.Holds(v)
    ensures -Pow2(t.Bits()) < v < Pow2(t.Bits())
  {
    hide CType.Lo, CType.Hi, CType.Bits;
    TypeFacts(t);
  }

  lemma ArithBits(a: CType, b: CType, v: int)
    requires a.Holds(v) || b.Holds(v)
    ensures -Pow2(Arith(a, b).Bits()) < v < Pow2(Arith(a, b).Bits())
  {
    hide CType.Lo, CType.Hi, Pow2, Promote, Arith;
    var t := if a.Holds(v) then a else b;
    PromoteHolds(t, v);
    ArithIs(a, b);
    HoldsBits(Promote(t), v);
    Pow2Mono(Promote(t).Bits(), Arith(a, b).Bits());
  }

  /** A value that is not 0 stays so in the common type. */
  lemma WrapNonzero(v: int, t: CType)
    requires v != 0 && -Pow2(t.Bits()) < v < Pow2(t.Bits())
    ensures Wrap(v, t) != 0
  {
    hide CType.Bits;
    LowBitsId(v, t.Bits());
  }

  /** A value that is not the least of its type is not the least of a signed common type. */
  lemma NotMinStays(a: CType, b: CType, v: int)
    requires a.Holds(v) && v != a.Lo() && Arith(a, b).Signed()
    ensures Wrap(v, Arith(a, b)) != Arith(a, b).Lo()
  {
    ArithHolds(a, b, v);
    ArithHolds(a, b, a.Lo());
    WrapId(v, Arith(a, b));
  }

  lemma BoolHolds()
    ensures I.Holds(0) && I.Holds(1)
  {
    Widths();
  }

  /** Interval soundness of one operator: with a safe analysis, the operation has a value,
      which lies in the interval and in the type. */
  lemma BinSound(op: BinOp, a: Info, va: int, b: Info, vb: int)
    requires Allows(a, va) && Allows(b, vb) && Analyze(op, a, b).safe
    ensures Good(BinOpValue(op, va, a.t, vb, b.t), Analyze(op, a, b), BinType(op, a.t, b.t))
  {
    hide CType.Lo, CType.Hi, CType.Bits, Pow2, Wrap, AnalyzeSum, AnalyzeDiv, AnalyzeBits, AnalyzeShift, Promote,
         Bitwise, Quot;
    if op.Cmp? {
      BoolHolds();
    } else if op.Shl? || op.Shr? {
      ShiftSound(op, a, va, b, vb);
    } else {
      var t := Arith(a.t, b.t);
      ConvSound(a.lo, a.hi, va, t);
      ConvSound(b.lo, b.hi, vb, t);
      var x, y := Wrap(va, t), Wrap(vb, t);
      var al, ah := ConvLo(a.lo, a.hi, t), ConvHi(a.lo, a.hi, t);
      var bl, bh := ConvLo(b.lo, b.hi, t), ConvHi(b.lo, b.hi, t);
      if op.Div? || op.Mod? {
        ArithBits(a.t, b.t, vb);
        if b.nonzero { WrapNonzero(vb, t); }
        if a.notmin && t.Signed() { NotMinStays(a.t, b.t, va); }
        DivSound(op, t, x, al, ah, y, bl, bh, b.nonzero, a.notmin);
      } else if op.Bits? {
        BitsSound(op.b, t, x, al, ah, y, bl, bh);
      } else {
        SumSound(op, t, x, al, ah, y, bl, bh);
      }
    }
  }

  lemma NegSound(t: CType, v: int, lo: int, hi: int, safe: bool)
    requires t.Holds(v) && t.Lo() <= lo <= v <= hi <= t.Hi() && safe && (t.Signed() ==> v > t.Lo())
    ensures
      var i := if t.Signed() then Res(Max(-hi, t.Lo()), Min(-lo, t.Hi()), safe)
        else if lo == 0 && hi == 0 then Res(0, 0, true)
        else if lo > 0 then Res(Pow2(t.Bits()) - hi, Pow2(t.Bits()) - lo, true)
        else Full(t, true);
      Good(UnaryValue(Neg, v, t), i, t)
  {
    hide CType.Lo, CType.Hi, CType.Bits, Pow2, Wrap;
    TypeFacts(t);
    if t.Signed() || v == 0 {
      WrapId(-v, t);
    } else {
      WrapNegative(-v, t);
    }
  }

  lemma ComplSound(t: CType, v: int, lo: int, hi: int)
    requires t.Holds(v) && t.Lo() <= lo <= v <= hi <= t.Hi()
    ensures
      var i := if t.Signed() then Res(-1 - hi, -1 - lo, true) else Res(t.Hi() - hi, t.Hi() - lo, true);
      Good(UnaryValue(Compl, v, t), i, t)
  {
    hide CType.Lo, CType.Hi, CType.Bits, Pow2, Wrap;
    TypeFacts(t);
    if t.Signed() {
      WrapId(-1 - v, t);
    } else {
      WrapNegative(-1 - v, t);
    }
  }

  lemma UnarySound(op: UnOp, a: Info, v: int)
    requires Allows(a, v) && AnalyzeUnary(op, a).safe
    ensures Good(UnaryValue(op, v, Promote(a.t)), AnalyzeUnary(op, a), if op == Not then I else Promote(a.t))
  {
    hide CType.Lo, CType.Hi, CType.Bits, Promote, Wrap, Pow2;
    var t := Promote(a.t);
    PromoteHolds(a.t, v);
    WrapId(v, t);
    ConvSound(a.lo, a.hi, v, t);
    BoolHolds();
    TypeFacts(t);
    var lo, hi := ConvLo(a.lo, a.hi, t), ConvHi(a.lo, a.hi, t);
    if op == Neg {
      if a.notmin && t.Signed() { PromoteMin(a.t, v); }
      NegSound(t, v, lo, hi, true);
    } else if op == Compl {
      ComplSound(t, v, lo, hi);
    }
  }

  lemma PromoteMin(a: CType, v: int)
    requires a.Holds(v) && v != a.Lo()
    ensures v > Promote(a).Lo()
  {
    hide Promote, CType.Lo, CType.Hi;
    TypeFacts(a);
    PromoteHolds(a, a.Lo());
  }

  // ---- expressions ---------------------------------------------------------------------

  ghost predicate WellTyped(env: Env) {
    forall id: nat, t: CType :: t.Holds(env(id, t))
  }

  /** In this store the expression has a value that its analysis allows. */
  ghost predicate Sound(e: E, env: Env) {
    Ev(e, env).Some? && Allows(e.i, Ev(e, env).value)
  }

  lemma ConstSound(v: int, t: CType, env: Env)
    ensures Sound(MkConst(v, t), env)
  {
  }

  lemma CastAllows(t: CType, a: Info, v: int)
    requires Allows(a, v)
    ensures Allows(CastInfo(t, a), Wrap(v, t))
  {
    ConvSound(a.lo, a.hi, v, t);
  }

  lemma CastSound(t: CType, a: E, env: Env)
    requires Sound(a, env)
    ensures Sound(MkCast(t, a), env)
  {
    hide Wrap, CType.Lo, CType.Hi;
    CastAllows(t, a.i, Ev(a, env).value);
  }

  lemma LogicSound(isAnd: bool, a: E, b: E, env: Env)
    requires Sound(a, env) && Sound(b, env)
    ensures Sound(MkLogic(isAnd, a, b), env)
  {
    Widths();
  }

  lemma CondSound(k: E, a: E, b: E, env: Env)
    requires Sound(k, env) && Sound(a, env) && Sound(b, env)
    ensures Sound(MkCond(k, a, b), env)
  {
    hide CType.Lo, CType.Hi, Arith, Wrap, ConvLo, ConvHi;
    var x := if Ev(k, env).value != 0 then a else b;
    var t := Arith(a.i.t, b.i.t);
    ConvSound(x.i.lo, x.i.hi, Ev(x, env).value, t);
    assert Ev(MkCond(k, a, b), env) == Some(Wrap(Ev(x, env).value, t));
  }

  lemma UnaryAllows(op: UnOp, a: Info, v: int)
    requires Allows(a, v) && AnalyzeUnary(op, a).safe
    ensures
      var r := UnaryValue(op, v, Promote(a.t));
      r.Some? && Allows(UnaryInfo(op, a), r.value)
  {
    UnarySound(op, a, v);
  }

  lemma SafeUnary(op: UnOp, a: E, env: Env)
    requires Sound(a, env) && AnalyzeUnary(op, a.i).safe
    ensures Sound(MkUnary(op, a), env)
  {
    hide Analyze, AnalyzeUnary, BinOpValue, UnaryValue, UnaryInfo, BinaryInfo, Promote;
    UnaryAllows(op, a.i, Ev(a, env).value);
  }

  lemma BinaryAllows(op: BinOp, a: Info, va: int, b: Info, vb: int)
    requires Allows(a, va) && Allows(b, vb) && Analyze(op, a, b).safe
    ensures
      var r := BinOpValue(op, va, a.t, vb, b.t);
      r.Some? && Allows(BinaryInfo(op, a, b), r.value)
  {
    BinSound(op, a, va, b, vb);
  }

  lemma SafeBinary(op: BinOp, a: E, b: E, env: Env)
    requires Sound(a, env) && Sound(b, env) && Analyze(op, a.i, b.i).safe
    ensures Sound(MkBinary(op, a, b), env)
  {
    hide Analyze, AnalyzeUnary, BinOpValue, UnaryValue, UnaryInfo, BinaryInfo, Promote;
    BinaryAllows(op, a.i, Ev(a, env).value, b.i, Ev(b, env).value);
  }

  /** The value of `a | 1` is odd. */
  lemma OddValue(va: int, ta: CType)
    requires ta.Holds(va)
    ensures
      var r := BinOpValue(Bits(Or), va, ta, 1, I);
      r.Some? && r.value % 2 == 1 && Arith(ta, I).Lo() % 2 == 0
  {
    hide Bitwise, LowBits, Promote;
    hide CType.Lo, CType.Hi, Arith, Wrap;
    var t := Arith(ta, I);
    WideHolds(t, 1);
    WrapId(1, t);
    var x := Wrap(va, t);
    BitsHold(Or, t, x, 1);
    WrapId(Bitwise(Or, x, 1), t);
    OrOneOdd(x);
    EvenLo(t);
  }

  lemma WideHolds(t: CType, v: int)
    requires t in {I, U, L, UL, LL, ULL} && 0 <= v <= 0x7fff
    ensures t.Holds(v)
  {
    hide Pow2, CType.Bits;
    TypeFacts(t);
    WideBits(t);
    assert Pow2(15) == 0x8000 by { Widths(); }
    Pow2Mono(15, t.Bits() - 1);
    Pow2Mono(15, t.Bits());
  }

  lemma WideBits(t: CType)
    requires t in {I, U, L, UL, LL, ULL}
    ensures t.Bits() >= 16
  {
  }

  lemma EvenLo(t: CType)
    requires t in {I, U, L, UL, LL, ULL}
    ensures t.Lo() % 2 == 0
  {
    assert t.Signed() ==> t.Lo() == -2 * Pow2(t.Bits() - 2);
  }

  lemma OneInfo()
    ensures MkConst(1, I).i == Info(I, 1, 1, true, true)
    ensures Wrap(1, I) == 1
  {
    Widths();
    WrapId(1, I);
  }

  lemma OrSafe(a: Info, b: Info)
    ensures Analyze(Bits(Or), a, b).safe
  {
  }

  /** `a | 1` is odd, so it may carry both marks. */
  lemma OddSound(a: E, nonzero: bool, notmin: bool, env: Env)
    requires Sound(a, env)
    ensures Sound(MkOdd(a, nonzero, notmin), env)
  {
    hide Analyze, Wrap, CType.Lo, CType.Hi, Arith, BinOpValue;
    OneInfo();
    ConstSound(1, I, env);
    OrSafe(a.i, MkConst(1, I).i);
    BinaryAllows(Bits(Or), a.i, Ev(a, env).value, MkConst(1, I).i, 1);
    OddValue(Ev(a, env).value, a.i.t);
  }

  lemma UnarySafeWide(op: UnOp, i: Info)
    requires i.t in {U, UL, ULL}
    ensures AnalyzeUnary(op, i).safe
  {
  }

  /** The guarded unary operator. */
  lemma MakeUnarySound(op: UnOp, a: E, env: Env)
    requires Sound(a, env)
    ensures Sound(MakeUnary(op, a), env)
  {
    hide Analyze, AnalyzeUnary, Wrap, CType.Lo, CType.Hi, Arith, UnaryInfo, BinaryInfo, ConvLo, ConvHi, Ev, Sound;
    if AnalyzeUnary(op, a.i).safe {
      SafeUnary(op, a, env);
    } else {
      var t := Promote(a.i.t);
      var c := MkCast(UnsignedOf(t), a);
      CastSound(UnsignedOf(t), a, env);
      UnarySafeWide(op, c.i);
      SafeUnary(op, c, env);
      CastSound(t, MkUnary(op, c), env);
    }
  }

  lemma MaskCount(b: Info, k: int)
    requires 15 <= k <= 63
    ensures MkConst(k, I).i == Info(I, k, k, true, true)
    ensures
      var r := Analyze(Bits(And), b, Info(I, k, k, true, true));
      r.safe && 0 <= r.lo && r.hi <= k
  {
    hide CType.Lo, CType.Hi, Arith, Wrap;
    WideHolds(I, k);
    WrapId(k, I);
    TypeFacts(I);
    BoolHolds();
    assert I.Lo() < 0 by { Widths(); }
    WideHolds(Arith(b.t, I), k);
  }

  lemma CountSound(a: E, b: E, env: Env)
    requires Sound(a, env) && Sound(b, env)
    ensures Sound(CountOf(a, b), env)
    ensures 0 <= CountOf(a, b).i.lo <= CountOf(a, b).i.hi <= Promote(a.i.t).Bits() - 1
  {
    hide Analyze, Wrap, CType.Lo, CType.Hi, Arith;
    var k := Promote(a.i.t).Bits() - 1;
    if !(b.i.lo >= 0 && b.i.hi <= k) {
      ConstSound(k, I, env);
      MaskCount(b.i, k);
      SafeBinary(Bits(And), b, MkConst(k, I), env);
    }
  }

  lemma ShiftSafeWide(op: BinOp, a: Info, b: Info)
    requires a.t in {U, UL, ULL} && (op.Shl? || op.Shr?)
    requires 0 <= b.lo <= b.hi <= a.t.Bits() - 1
    ensures Analyze(op, a, b).safe
  {
  }

  lemma MakeShiftSound(op: BinOp, a: E, b: E, env: Env)
    requires Sound(a, env) && Sound(b, env) && (op.Shl? || op.Shr?)
    ensures Sound(MakeShift(op, a, b), env)
  {
    hide Analyze, AnalyzeUnary, Wrap, CType.Lo, CType.Hi, Arith, UnaryInfo, BinaryInfo, ConvLo, ConvHi, Ev, Sound;
    CountSound(a, b, env);
    var n := CountOf(a, b);
    if Analyze(op, a.i, n.i).safe {
      SafeBinary(op, a, n, env);
    } else {
      var t := Promote(a.i.t);
      var c := MkCast(UnsignedOf(t), a);
      CastSound(UnsignedOf(t), a, env);
      ShiftSafeWide(op, c.i, n.i);
      SafeBinary(op, c, n, env);
      CastSound(t, MkBinary(op, c, n), env);
    }
  }

  /** The analysis of a division is safe exactly when neither guard is needed. */
  lemma DivAnalysis(op: BinOp, a: Info, b: Info)
    requires op.Div? || op.Mod?
    ensures Analyze(op, a, b).safe <==> !MayBeZero(a, b) && !MayOverflow(a, b)
  {
  }

  lemma OddInfo(a: E, nonzero: bool, notmin: bool)
    ensures
      var i := MkOdd(a, nonzero, notmin).i;
      i.t == Arith(a.i.t, I) && i.nonzero == nonzero && i.notmin == notmin
  {
    hide Analyze, Arith, Wrap;
  }

  lemma ArithOdd(a: CType, b: CType)
    ensures Arith(a, Arith(b, I)) == Arith(a, b) && Arith(Arith(a, I), b) == Arith(a, b)
  {
    hide Arith;
    ArithIs(a, b); ArithIs(b, I); ArithIs(a, I); ArithIs(a, Arith(b, I)); ArithIs(Arith(a, I), b);
  }

  /** `(unsigned char)b | 1` lies in 0..255. */
  lemma ByteOrOne(b: E)
    requires b.i.lo <= b.i.hi
    ensures
      var i := MkOdd(MkCast(UC, b), true, false).i;
      0 <= i.lo && i.hi <= 255 && i.t == I && i.nonzero
  {
    OneInfo();
    var x := CastInfo(UC, b.i);
    assert 0 <= x.lo <= x.hi <= 255 by { Widths(); }
    ByteBits(x);
  }

  lemma ByteBits(x: Info)
    requires x.t == UC && 0 <= x.lo <= x.hi <= 255
    ensures
      var r := BinaryInfo(Bits(Or), x, Info(I, 1, 1, true, true));
      0 <= r.lo && r.hi <= 255 && r.t == I
  {
    hide CType.Lo, CType.Hi, Pow2, BitLength, Arith;
    IntRange();
    assert Arith(UC, I) == I by { ArithIs(UC, I); }
    var m := Max(x.hi, 1);
    BitLengthLe(m, 8);
    Pow2Mono(BitLength(m), 8);
    assert Analyze(Bits(Or), x, Info(I, 1, 1, true, true)) == Res(0, Pow2(BitLength(m)) - 1, true);
  }

  lemma IntRange()
    ensures I.Lo() == -0x8000 && I.Hi() == 0x7fff && Pow2(8) == 256
  {
    Widths();
  }

  lemma {:induction false} BitLengthLe(m: int, n: nat)
    requires 0 <= m < Pow2(n)
    ensures BitLength(m) <= n
    decreases n
  {
    if m > 0 { BitLengthLe(m / 2, n - 1); }
  }

  lemma ValueBetween(e: E, env: Env)
    requires Sound(e, env)
    ensures e.i.lo <= e.i.hi
  {
  }

  lemma NotMinusOne(a: Info, b: Info)
    requires b.t == I && 0 <= b.lo && b.hi <= 255 && b.nonzero
    ensures !MayBeZero(a, b) && !MayOverflow(a, b)
  {
    hide Pow2;
    Widths();
  }

  lemma MakeDivSound(op: BinOp, a: E, b0: E, coin: bool, env: Env)
    requires Sound(a, env) && Sound(b0, env) && (op.Div? || op.Mod?)
    ensures Sound(MakeDiv(op, a, b0, coin), env)
  {
    hide Analyze, AnalyzeUnary, Wrap, CType.Lo, CType.Hi, Arith, UnaryInfo, BinaryInfo, ConvLo, ConvHi, Ev, Sound;
    var b := if MayBeZero(a.i, b0.i) then MkOdd(b0, true, false) else b0;
    OddSound(b0, true, false, env);
    OddInfo(b0, true, false);
    assert !MayBeZero(a.i, b.i);
    if MayOverflow(a.i, b.i) {
      if coin {
        var a2 := MkOdd(a, false, true);
        OddSound(a, false, true, env);
        OddInfo(a, false, true);
        ArithOdd(a.i.t, b.i.t);
        DivAnalysis(op, a2.i, b.i);
        SafeBinary(op, a2, b, env);
      } else {
        var c := MkOdd(MkCast(UC, b), true, false);
        CastSound(UC, b, env);
        OddSound(MkCast(UC, b), true, false, env);
        ValueBetween(b, env);
        ByteOrOne(b);
        NotMinusOne(a.i, c.i);
        DivAnalysis(op, a.i, c.i);
        SafeBinary(op, a, c, env);
      }
    } else {
      DivAnalysis(op, a.i, b.i);
      SafeBinary(op, a, b, env);
    }
  }

  lemma UnsignedSafe(op: BinOp, i: Info, j: Info)
    requires i.t in {U, UL, ULL} && j.t == i.t
    requires !op.Shl? && !op.Shr? && !op.Div? && !op.Mod?
    ensures Analyze(op, i, j).safe
  {
    hide ConvLo, ConvHi, BitLength, Pow2, Min, Max, CType.Lo, CType.Hi;
    assert Arith(i.t, j.t) == i.t;
  }

  /** The guarded binary operator, for all operators. */
  lemma MakeBinarySound(op: BinOp, a: E, b: E, coin: bool, env: Env)
    requires Sound(a, env) && Sound(b, env)
    ensures Sound(MakeBinary(op, a, b, coin), env)
  {
    hide Analyze, AnalyzeUnary, Wrap, CType.Lo, CType.Hi, Arith, UnaryInfo, BinaryInfo, ConvLo, ConvHi, Ev, Sound;
    if op.Shl? || op.Shr? {
      MakeShiftSound(op, a, b, env);
    } else if op.Div? || op.Mod? {
      MakeDivSound(op, a, b, coin, env);
    } else if Analyze(op, a.i, b.i).safe {
      SafeBinary(op, a, b, env);
    } else {
      var ct := Arith(a.i.t, b.i.t);
      var ut := UnsignedOf(ct);
      var c, d := MkCast(ut, a), MkCast(ut, b);
      CastSound(ut, a, env);
      CastSound(ut, b, env);
      UnsignedSafe(op, c.i, d.i);
      SafeBinary(op, c, d, env);
      CastSound(ct, MkBinary(op, c, d), env);
    }
  }

  // ---- every generated expression ----------------------------------------------------------

  /** The choices of the generator for one expression. */
  datatype Gen =
    | GConst(v: int, t: CType)
    | GVar(id: nat, t: CType)
    | GUnary(op: UnOp, a: Gen)
    | GBinary(bop: BinOp, a: Gen, b: Gen, coin: bool)
    | GLogic(isAnd: bool, a: Gen, b: Gen)
    | GCond(k: Gen, a: Gen, b: Gen)
    | GCast(t: CType, a: Gen)

  /** The expression that the generator builds; the guards look at the intervals of what is
      built so far. */
  function Build(g: Gen): E {
    match g
    case GConst(v, t) => MkConst(v, t)
    case GVar(id, t) => MkVar(id, t)
    case GUnary(op, a) => MakeUnary(op, Build(a))
    case GBinary(op, a, b, coin) => MakeBinary(op, Build(a), Build(b), coin)
    case GLogic(isAnd, a, b) => MkLogic(isAnd, Build(a), Build(b))
    case GCond(k, a, b) => MkCond(Build(k), Build(a), Build(b))
    case GCast(t, a) => MkCast(t, Build(a))
  }

  /** No generated expression reaches undefined behaviour in any well-typed store, and its
      value lies in its interval and keeps its marks. */
  lemma {:induction false} BuildSound(g: Gen, env: Env)
    requires WellTyped(env)
    ensures Sound(Build(g), env)
  {
    match g
    case GConst(v, t) => ConstSound(v, t, env);
    case GVar(_, _) =>
    case GUnary(op, a) => BuildSound(a, env); MakeUnarySound(op, Build(a), env);
    case GBinary(op, a, b, coin) =>
      BuildSound(a, env); BuildSound(b, env);
      MakeBinarySound(op, Build(a), Build(b), coin, env);
    case GLogic(isAnd, a, b) =>
      BuildSound(a, env); BuildSound(b, env);
      LogicSound(isAnd, Build(a), Build(b), env);
    case GCond(k, a, b) =>
      BuildSound(k, env); BuildSound(a, env); BuildSound(b, env);
      CondSound(Build(k), Build(a), Build(b), env);
    case GCast(t, a) => BuildSound(a, env); CastSound(t, Build(a), env);
  }
}
