/** The guards keep the meaning: what the generator builds for an operator computes that operator of
    C wherever C defines it, and the operands that a guard changes are exactly those it must. */
module IntervalMeans {
  import opened Wrappers
  import opened CInt
  import opened IntFacts
  import opened Interval
  import opened IntervalProof

  // ---- conversions ----------------------------------------------------------------------------

  lemma WrapCong(v: int, t: CType)
    ensures Cong(Wrap(v, t), v, t.Bits())
  {
    hide CType.Bits, WrapBits, LowBits;
    CongWrap(v, t.Bits(), t.Signed());
  }

  lemma SameWrap(v: int, w: int, t: CType)
    requires Cong(v, w, t.Bits())
    ensures Wrap(v, t) == Wrap(w, t)
  {
    hide CType.Bits, LowBits;
  }

  /** A conversion through a type of the same size loses nothing. */
  lemma Through(v: int, u: CType, t: CType)
    requires u.Bits() == t.Bits()
    ensures Wrap(Wrap(v, u), t) == Wrap(v, t)
  {
    hide CType.Bits, WrapBits, LowBits, Wrap, Cong;
    WrapCong(v, u);
    SameWrap(Wrap(v, u), v, t);
  }

  lemma UnsignedBits(t: CType)
    requires t in {I, U, L, UL, LL, ULL}
    ensures
      var u := UnsignedOf(t); u in {U, UL, ULL} && u.Bits() == t.Bits() && Arith(u, u) == u
    ensures Promote(UnsignedOf(t)) == UnsignedOf(t) && Promote(t) == t
  {
  }

  /** The values of a type and its common type with `int` are the same. */
  lemma WithInt(t: CType, v: int)
    requires t.Holds(v)
    ensures Arith(t, I) == Promote(t) && Arith(t, I).Holds(v) && Wrap(v, Arith(t, I)) == v
  {
    hide CType.Lo, CType.Hi, Wrap, Promote, Arith;
    assert Promote(I) == I by { UnsignedBits(I); }
    ArithIs(t, I);
    PromoteHolds(t, v);
    WrapId(v, Promote(t));
  }

  // ---- evaluation of nodes ----------------------------------------------------------------------

  lemma EvBinary(op: BinOp, a: E, b: E, env: Env)
    requires Ev(a, env).Some? && Ev(b, env).Some?
    ensures Ev(MkBinary(op, a, b), env) == BinOpValue(op, Ev(a, env).value, a.i.t, Ev(b, env).value, b.i.t)
    ensures MkBinary(op, a, b).i.t == BinType(op, a.i.t, b.i.t)
  {
    hide BinOpValue, Analyze, BinType;
  }

  lemma EvUnary(op: UnOp, a: E, env: Env)
    requires Ev(a, env).Some?
    ensures Ev(MkUnary(op, a), env) == UnaryValue(op, Ev(a, env).value, Promote(a.i.t))
    ensures MkUnary(op, a).i.t == if op == Not then I else Promote(a.i.t)
  {
    hide UnaryValue, AnalyzeUnary, Promote;
  }

  lemma EvCast(t: CType, a: E, env: Env)
    requires Ev(a, env).Some?
    ensures Ev(MkCast(t, a), env) == Some(Wrap(Ev(a, env).value, t)) && MkCast(t, a).i.t == t
  {
    hide Wrap, ConvLo, ConvHi;
  }

  lemma Defined(e: E, env: Env)
    requires Sound(e, env)
    ensures Ev(e, env).Some? && e.i.t.Holds(Ev(e, env).value)
  {
    hide CType.Holds;
  }

  // ---- sums, differences and products ---------------------------------------------------------

  predicate IsSum(op: BinOp) { op.Add? || op.Sub? || op.Mul? }

  function Sum(op: BinOp, x: int, y: int): int { match op case Add => x + y case Sub => x - y case _ => x * y }

  /** The operator on converted operands is the operator, converted. */
  lemma SumWraps(op: BinOp, va: int, vb: int, u: CType, t: CType)
    requires IsSum(op) && u.Bits() == t.Bits()
    ensures Wrap(Sum(op, Wrap(va, u), Wrap(vb, u)), t) == Wrap(Sum(op, va, vb), t)
  {
    hide CType.Bits, WrapBits, LowBits, Wrap, Cong;
    WrapCong(va, u);
    WrapCong(vb, u);
    CongSum(Wrap(va, u), va, Wrap(vb, u), vb, t.Bits());
    CongProduct(Wrap(va, u), va, Wrap(vb, u), vb, t.Bits());
    SameWrap(Sum(op, Wrap(va, u), Wrap(vb, u)), Sum(op, va, vb), t);
  }

  lemma SumValue(op: BinOp, va: int, ta: CType, vb: int, tb: CType)
    requires IsSum(op)
    ensures
      var t := Arith(ta, tb);
      var r := BinOpValue(op, va, ta, vb, tb);
      (r.Some? ==> r.value == Wrap(Sum(op, va, vb), t)) && (!t.Signed() ==> r.Some?)
  {
    hide Wrap, Arith, CType.Bits, CType.Lo, CType.Hi;
    SumWraps(op, va, vb, Arith(ta, tb), Arith(ta, tb));
  }

  /** A sum, difference or product computes the exact result, converted to the common type. */
  lemma SumMeans(op: BinOp, a: E, b: E, coin: bool, env: Env)
    requires Sound(a, env) && Sound(b, env) && IsSum(op)
    ensures
      var e, t := MakeBinary(op, a, b, coin), Arith(a.i.t, b.i.t);
      e.i.t == t && Ev(e, env) == Some(Wrap(Sum(op, Ev(a, env).value, Ev(b, env).value), t))
  {
    hide Analyze, Wrap, CType.Lo, CType.Hi, CType.Bits, Arith, Promote, UnsignedOf, BinOpValue, Ev, Sound,
         MkBinary, MkCast;
    Defined(a, env);
    Defined(b, env);
    var va, vb, t := Ev(a, env).value, Ev(b, env).value, Arith(a.i.t, b.i.t);
    if Analyze(op, a.i, b.i).safe {
      SafeBinary(op, a, b, env);
      Defined(MkBinary(op, a, b), env);
      EvBinary(op, a, b, env);
      SumValue(op, va, a.i.t, vb, b.i.t);
    } else {
      var u := UnsignedOf(t);
      UnsignedBits(t);
      EvCast(u, a, env);
      EvCast(u, b, env);
      var c := MkBinary(op, MkCast(u, a), MkCast(u, b));
      EvBinary(op, MkCast(u, a), MkCast(u, b), env);
      UnsignedIs(u);
      SumValue(op, Wrap(va, u), u, Wrap(vb, u), u);
      EvCast(t, c, env);
      Through(Sum(op, Wrap(va, u), Wrap(vb, u)), u, t);
      SumWraps(op, va, vb, u, t);
    }
  }

  lemma UnsignedIs(t: CType)
    requires t in {U, UL, ULL}
    ensures !t.Signed()
  {
  }

  // ---- shifts -----------------------------------------------------------------------------------

  /** The bits of a promoted type are a power of 2. */
  function CountBits(t: CType): nat { if t in {I, U} then 4 else if t in {L, UL} then 5 else 6 }

  lemma CountMask(t: CType)
    requires t in {I, U, L, UL, LL, ULL}
    ensures t.Bits() == Pow2(CountBits(t)) && Pow2(CountBits(t)) <= 64
  {
    assert Pow2(4) == 16;
    assert Pow2(5) == 2 * Pow2(4) && Pow2(6) == 2 * Pow2(5);
  }

  /** The count of a shift: the value of `b`, or its low bits when the analysis cannot bound it. */
  function CountMeant(a: Info, b: Info, vb: int): int {
    var t := Promote(a.t);
    if b.lo >= 0 && b.hi <= t.Bits() - 1 then vb else LowBits(vb, CountBits(t))
  }

  lemma CountMeans(a: E, b: E, env: Env)
    requires Sound(a, env) && Sound(b, env)
    ensures Ev(CountOf(a, b), env) == Some(CountMeant(a.i, b.i, Ev(b, env).value))
    ensures 0 <= CountMeant(a.i, b.i, Ev(b, env).value) < Promote(a.i.t).Bits()
  {
    hide Analyze, Wrap, CType.Lo, CType.Hi, Arith, Promote, BinOpValue, Ev, Sound, MkBinary, MkConst, LowBits,
         CType.Bits, Bitwise;
    Defined(b, env);
    CountMask(Promote(a.i.t));
    if b.i.lo >= 0 && b.i.hi <= Promote(a.i.t).Bits() - 1 {
      Inside(b, env);
    } else {
      MaskMeans(b, CountBits(Promote(a.i.t)), env);
    }
  }

  lemma MaskMeans(b: E, n: nat, env: Env)
    requires Sound(b, env) && n <= 6
    ensures Pow2(n) <= 64
    ensures Ev(MkBinary(Bits(And), b, MkConst(Pow2(n) - 1, I)), env) == Some(LowBits(Ev(b, env).value, n))
  {
    hide Analyze, Wrap, CType.Lo, CType.Hi, Arith, BinOpValue, Ev, Sound, MkBinary, MkConst, LowBits, Bitwise;
    Pow2Mono(n, 6);
    SixBits();
    Defined(b, env);
    ConstValue(Pow2(n) - 1, env);
    EvBinary(Bits(And), b, MkConst(Pow2(n) - 1, I), env);
    MaskValue(Ev(b, env).value, b.i.t, n);
  }

  lemma Inside(e: E, env: Env)
    requires Sound(e, env)
    ensures e.i.lo <= Ev(e, env).value <= e.i.hi
  {
  }

  lemma ConstValue(k: int, env: Env)
    requires 0 <= k <= 63
    ensures Ev(MkConst(k, I), env) == Some(k) && MkConst(k, I).i.t == I
  {
    hide Wrap;
    Widths();
    WrapId(k, I);
  }

  lemma MaskValue(v: int, t: CType, n: nat)
    requires t.Holds(v) && n <= 6
    ensures BinOpValue(Bits(And), v, t, Pow2(n) - 1, I) == Some(LowBits(v, n))
  {
    hide Wrap, CType.Lo, CType.Hi, Bitwise, Arith, LowBits;
    var ct := Arith(t, I);
    WithInt(t, v);
    Pow2Mono(n, 6);
    assert Pow2(6) == 64 by { SixBits(); }
    WideHolds(ct, Pow2(n) - 1);
    WrapId(Pow2(n) - 1, ct);
    Masked(v, n);
    WideHolds(ct, LowBits(v, n));
    WrapId(LowBits(v, n), ct);
  }

  lemma SixBits()
    ensures Pow2(6) == 64
  {
    assert Pow2(3) == 8;
  }

  /** What a shift computes. */
  function ShiftMeant(op: BinOp, v: int, n: nat, t: CType): int {
    if op.Shr? then ShiftRight(v, n) else Wrap(ShiftLeft(v, n), t)
  }

  /** A shift computes the shift by the count: to the right it rounds down, to the left it keeps the
      bits that fit. */
  lemma ShiftMeans(op: BinOp, a: E, b: E, coin: bool, env: Env)
    requires Sound(a, env) && Sound(b, env) && (op.Shl? || op.Shr?)
    ensures
      var e, t, n := MakeBinary(op, a, b, coin), Promote(a.i.t), CountMeant(a.i, b.i, Ev(b, env).value);
      e.i.t == t && 0 <= n < t.Bits() && Ev(e, env) == Some(ShiftMeant(op, Ev(a, env).value, n, t))
  {
    hide Analyze, Wrap, CType.Lo, CType.Hi, CType.Bits, Arith, Promote, UnsignedOf, BinOpValue, Ev, Sound,
         MkBinary, MkCast, CountOf, CountMeant;
    Defined(a, env);
    CountMeans(a, b, env);
    CountSound(a, b, env);
    var va, t, n := Ev(a, env).value, Promote(a.i.t), CountOf(a, b);
    var k := Ev(n, env).value;
    if Analyze(op, a.i, n.i).safe {
      SafeBinary(op, a, n, env);
      Defined(MkBinary(op, a, n), env);
      EvBinary(op, a, n, env);
      ShiftValue(op, va, a.i.t, k, n.i.t);
      assert BinType(op, a.i.t, n.i.t) == t;
    } else {
      var u := UnsignedOf(t);
      UnsignedBits(t);
      UnsignedIs(u);
      EvCast(u, a, env);
      var c := MkBinary(op, MkCast(u, a), n);
      EvBinary(op, MkCast(u, a), n, env);
      ShiftValue(op, Wrap(va, u), u, k, n.i.t);
      EvCast(t, c, env);
      if op.Shr? { RightSafe(op, a.i, n.i); }
      Through(ShiftLeft(Wrap(va, u), k), u, t);
      ShiftWraps(va, k, u, t);
    }
  }

  lemma RightSafe(op: BinOp, a: Info, b: Info)
    requires op.Shr? && 0 <= b.lo <= b.hi <= Promote(a.t).Bits() - 1
    ensures Analyze(op, a, b).safe
  {
  }

  lemma ShiftWraps(v: int, n: nat, u: CType, t: CType)
    requires u.Bits() == t.Bits()
    ensures Wrap(ShiftLeft(Wrap(v, u), n), t) == Wrap(ShiftLeft(v, n), t)
  {
    hide CType.Bits, WrapBits, LowBits, Wrap, Cong, ShiftLeft, Pow2;
    ShiftsAre(v, n);
    ShiftsAre(Wrap(v, u), n);
    WrapCong(v, u);
    assert Cong(Pow2(n), Pow2(n), t.Bits()) by { CongSelf(Pow2(n), t.Bits()); }
    CongProduct(Wrap(v, u), v, Pow2(n), Pow2(n), t.Bits());
    SameWrap(ShiftLeft(Wrap(v, u), n), ShiftLeft(v, n), t);
  }

  lemma CongSelf(v: int, n: nat)
    ensures Cong(v, v, n)
  {
  }

  lemma ShiftValue(op: BinOp, v: int, t: CType, n: int, tn: CType)
    requires op.Shl? || op.Shr?
    ensures
      var p := Promote(t);
      var r := BinOpValue(op, v, t, n, tn);
      (r.Some? ==> 0 <= n < p.Bits() && r.value == ShiftMeant(op, v, n, p)) &&
      (!p.Signed() && 0 <= n < p.Bits() ==> r.Some?)
  {
    hide Wrap, CType.Bits, CType.Lo, Promote, ShiftLeft, ShiftRight;
    var p := Promote(t);
    if op.Shl? && p.Signed() && 0 <= n < p.Bits() && v >= 0 && ShiftLeft(v, n) <= p.Hi() {
      TypeFacts(p);
      NotNegative(v, n);
      WrapId(ShiftLeft(v, n), p);
    }
  }

  lemma {:induction false} NotNegative(v: int, n: nat)
    requires v >= 0
    ensures ShiftLeft(v, n) >= 0
    decreases n
  {
    if n > 0 { NotNegative(v, n - 1); }
  }

  // ---- divisions ------------------------------------------------------------------------------

  /** A value with its lowest bit set. */
  function OddOf(v: int): int { if v % 2 == 1 then v else v + 1 }

  lemma OddMeans(a: E, nonzero: bool, notmin: bool, env: Env)
    requires Sound(a, env)
    ensures
      var e := MkOdd(a, nonzero, notmin);
      Ev(e, env) == Some(OddOf(Ev(a, env).value)) && e.i.t == Arith(a.i.t, I)
  {
    hide Analyze, Wrap, CType.Lo, CType.Hi, Arith, BinOpValue, Sound;
    Defined(a, env);
    ConstValue(1, env);
    OddInfo(a, nonzero, notmin);
    OddIs(Ev(a, env).value, a.i.t);
  }

  lemma OddIs(v: int, t: CType)
    requires t.Holds(v)
    ensures BinOpValue(Bits(Or), v, t, 1, I) == Some(OddOf(v))
  {
    hide Wrap, CType.Lo, CType.Hi, Bitwise, Arith;
    var ct := Arith(t, I);
    WithInt(t, v);
    WideHolds(ct, 1);
    WrapId(1, ct);
    OrOne(v);
    OddHolds(v, ct);
    WrapId(OddOf(v), ct);
  }

  lemma OddHolds(v: int, t: CType)
    requires t in {I, U, L, UL, LL, ULL} && t.Holds(v)
    ensures t.Holds(OddOf(v))
  {
    hide Pow2, CType.Bits;
    TypeFacts(t);
    EvenLo(t);
    assert Pow2(t.Bits()) % 2 == 0 by { EvenPow(t.Bits()); }
  }

  lemma EvenPow(n: nat)
    requires n >= 1
    ensures Pow2(n) % 2 == 0
  {
    assert Pow2(n) == 2 * Pow2(n - 1);
  }

  /** The operands of a guarded division: each is as it is, or odd, or its low byte made odd. */
  datatype Operands = Operands(x: int, tx: CType, y: int, ty: CType)

  function DivOperands(a: E, va: int, b: E, vb: int, coin: bool): Operands {
    var zero := MayBeZero(a.i, b.i);
    var c := if zero then MkOdd(b, true, false) else b;
    var y, ty := if zero then OddOf(vb) else vb, if zero then Arith(b.i.t, I) else b.i.t;
    if !MayOverflow(a.i, c.i) then Operands(va, a.i.t, y, ty)
    else if coin then Operands(OddOf(va), Arith(a.i.t, I), y, ty)
    else Operands(va, a.i.t, OddOf(Wrap(y, UC)), I)
  }

  /** A division computes the quotient or the remainder of these operands; without guards, of the
      operands themselves. */
  lemma DivMeans(op: BinOp, a: E, b: E, coin: bool, env: Env)
    requires Sound(a, env) && Sound(b, env) && (op.Div? || op.Mod?)
    ensures
      var e, o := MakeBinary(op, a, b, coin), DivOperands(a, Ev(a, env).value, b, Ev(b, env).value, coin);
      var r := BinOpValue(op, o.x, o.tx, o.y, o.ty);
      r.Some? && Ev(e, env) == r && e.i.t == Arith(o.tx, o.ty)
    ensures !MayBeZero(a.i, b.i) && !MayOverflow(a.i, b.i) ==>
      DivOperands(a, Ev(a, env).value, b, Ev(b, env).value, coin) ==
        Operands(Ev(a, env).value, a.i.t, Ev(b, env).value, b.i.t)
  {
    hide Analyze, Wrap, CType.Lo, CType.Hi, Arith, Promote, BinOpValue, Ev, Sound, MkBinary, MkCast, MkOdd,
         MayBeZero, MayOverflow, OddOf;
    MakeDivSound(op, a, b, coin, env);
    Defined(MakeDiv(op, a, b, coin), env);
    Defined(a, env);
    Defined(b, env);
    OddMeans(b, true, false, env);
    OddSound(b, true, false, env);
    GuardMeans(op, a, if MayBeZero(a.i, b.i) then MkOdd(b, true, false) else b, coin, env);
  }

  /** The guard against the quotient MIN / -1. */
  lemma GuardMeans(op: BinOp, a: E, c: E, coin: bool, env: Env)
    requires Sound(a, env) && Sound(c, env)
    ensures
      var x, y := Ev(a, env).value, Ev(c, env).value;
      var p := if coin then MkOdd(a, false, true) else a;
      var q := if coin then c else MkOdd(MkCast(UC, c), true, false);
      Ev(MkBinary(op, a, c), env) == BinOpValue(op, x, a.i.t, y, c.i.t) &&
      Ev(MkBinary(op, p, q), env) ==
        (if coin then BinOpValue(op, OddOf(x), Arith(a.i.t, I), y, c.i.t)
         else BinOpValue(op, x, a.i.t, OddOf(Wrap(y, UC)), I)) &&
      MkBinary(op, a, c).i.t == BinType(op, a.i.t, c.i.t) &&
      MkBinary(op, p, q).i.t == if coin then BinType(op, Arith(a.i.t, I), c.i.t) else BinType(op, a.i.t, I)
  {
    hide Analyze, Wrap, CType.Lo, CType.Hi, Arith, Promote, BinOpValue, Ev, Sound, MkBinary, MkCast, MkOdd,
         OddOf, BinType;
    Defined(a, env);
    Defined(c, env);
    EvBinary(op, a, c, env);
    if coin {
      OddMeans(a, false, true, env);
      EvBinary(op, MkOdd(a, false, true), c, env);
    } else {
      EvCast(UC, c, env);
      CastSound(UC, c, env);
      OddMeans(MkCast(UC, c), true, false, env);
      ByteType();
      EvBinary(op, a, MkOdd(MkCast(UC, c), true, false), env);
    }
  }

  lemma ByteType()
    ensures Arith(UC, I) == I
  {
  }

  // ---- every operator -----------------------------------------------------------------------------

  /** The guards of a division are not needed. */
  predicate Unguarded(op: BinOp, a: Info, b: Info) { op.Div? || op.Mod? ==> !MayBeZero(a, b) && !MayOverflow(a, b) }

  lemma OtherSafe(op: BinOp, a: Info, b: Info)
    requires op.Bits? || op.Cmp?
    ensures Analyze(op, a, b).safe
  {
    hide ConvLo, ConvHi, BitLength, Pow2, Min, Max, CType.Lo, CType.Hi, Arith;
  }

  /** Where C defines the operator on the values of the operands, and no guard of a division is needed,
      the guarded expression has that value, and always the type of the operator. */
  lemma BinMeans(op: BinOp, a: E, b: E, coin: bool, env: Env)
    requires Sound(a, env) && Sound(b, env) && Unguarded(op, a.i, b.i)
    ensures
      var e, r := MakeBinary(op, a, b, coin), BinOpValue(op, Ev(a, env).value, a.i.t, Ev(b, env).value, b.i.t);
      e.i.t == BinType(op, a.i.t, b.i.t) && (r.Some? ==> Ev(e, env) == r)
  {
    hide Analyze, Wrap, CType.Lo, CType.Hi, CType.Bits, Arith, Promote, BinOpValue, Ev, Sound, MkBinary,
         MayBeZero, MayOverflow, MakeShift, MakeDiv, DivOperands, CountMeant, ShiftMeant, Sum;
    Defined(a, env);
    Defined(b, env);
    var va, vb := Ev(a, env).value, Ev(b, env).value;
    if op.Shl? || op.Shr? {
      ShiftMeans(op, a, b, coin, env);
      ShiftValue(op, va, a.i.t, vb, b.i.t);
      CountSame(a.i, b.i, vb);
    } else if op.Div? || op.Mod? {
      DivMeans(op, a, b, coin, env);
    } else if IsSum(op) {
      SumMeans(op, a, b, coin, env);
      SumValue(op, va, a.i.t, vb, b.i.t);
    } else {
      OtherSafe(op, a.i, b.i);
      EvBinary(op, a, b, env);
    }
  }

  lemma CountSame(a: Info, b: Info, n: int)
    ensures 0 <= n < Promote(a.t).Bits() ==> CountMeant(a, b, n) == n
  {
    hide CType.Bits, Promote, Pow2, LowBits;
    CountMask(Promote(a.t));
    if 0 <= n < Promote(a.t).Bits() { LowBitsId(n, CountBits(Promote(a.t))); }
  }

  /** The same for unary operators; a negation computes the exact result, converted. */
  lemma UnaryMeans(op: UnOp, a: E, env: Env)
    requires Sound(a, env)
    ensures
      var e, t, v := MakeUnary(op, a), Promote(a.i.t), Ev(a, env).value;
      e.i.t == (if op == Not then I else t) && (op == Neg ==> Ev(e, env) == Some(Wrap(-v, t))) &&
      (UnaryValue(op, v, t).Some? ==> Ev(e, env) == UnaryValue(op, v, t))
  {
    hide Analyze, AnalyzeUnary, Wrap, CType.Lo, CType.Hi, CType.Bits, Promote, UnsignedOf, Ev, Sound, MkUnary,
         MkCast;
    Defined(a, env);
    var t, v := Promote(a.i.t), Ev(a, env).value;
    if AnalyzeUnary(op, a.i).safe {
      SafeUnary(op, a, env);
      Defined(MkUnary(op, a), env);
      EvUnary(op, a, env);
    } else {
      OnlyNeg(op, a.i);
      var u := UnsignedOf(t);
      UnsignedBits(t);
      UnsignedIs(u);
      EvCast(u, a, env);
      EvUnary(op, MkCast(u, a), env);
      EvCast(t, MkUnary(op, MkCast(u, a)), env);
      Through(-Wrap(v, u), u, t);
      SumWraps(Sub, 0, v, u, t);
      ZeroWraps(u);
    }
  }

  lemma OnlyNeg(op: UnOp, a: Info)
    requires !AnalyzeUnary(op, a).safe
    ensures op == Neg
  {
  }

  lemma ZeroWraps(t: CType)
    ensures Wrap(0, t) == 0
  {
    TypeFacts(t);
    WrapId(0, t);
  }

  // ---- intervals inside their types ---------------------------------------------------------------

  predicate Within(i: Info) { i.t.Lo() <= i.lo && i.hi <= i.t.Hi() }

  lemma ConvWithin(lo: int, hi: int, t: CType)
    ensures t.Lo() <= ConvLo(lo, hi, t) && ConvHi(lo, hi, t) <= t.Hi()
  {
  }

  lemma BinWithin(op: BinOp, a: Info, b: Info)
    requires b.lo <= b.hi
    ensures Within(BinaryInfo(op, a, b))
  {
    hide CType.Bits, Arith, Promote, ConvLo, ConvHi, CType.Lo, CType.Hi, AnalyzeSum, AnalyzeDiv, AnalyzeBits,
         AnalyzeShift;
    var t := Arith(a.t, b.t);
    var al, ah := ConvLo(a.lo, a.hi, t), ConvHi(a.lo, a.hi, t);
    var bl, bh := ConvLo(b.lo, b.hi, t), ConvHi(b.lo, b.hi, t);
    ConvWithin(a.lo, a.hi, t);
    ConvWithin(b.lo, b.hi, t);
    TypeFacts(t);
    BoolHolds();
    if op.Shl? || op.Shr? {
      ShiftWithin(op, a, b);
    } else if op.Div? || op.Mod? {
      DivWithin(op, t, al, ah, bl, bh, b.nonzero, a.notmin);
    } else if op.Bits? {
      BitsWithin(op.b, t, al, ah, bl, bh);
    } else if IsSum(op) {
      SumWithin(op, t, al, ah, bl, bh);
    }
  }

  predicate In(r: Res, t: CType) { t.Lo() <= r.lo && r.hi <= t.Hi() }

  lemma SumWithin(op: BinOp, t: CType, al: int, ah: int, bl: int, bh: int)
    requires IsSum(op)
    ensures In(AnalyzeSum(op, t, al, ah, bl, bh), t)
  {
    hide CType.Lo, CType.Hi, Min, Max;
  }

  lemma DivWithin(op: BinOp, t: CType, al: int, ah: int, bl: int, bh: int, nonzero: bool, notmin: bool)
    requires (op.Div? || op.Mod?) && t.Lo() <= al && ah <= t.Hi()
    ensures In(AnalyzeDiv(op, t, al, ah, bl, bh, nonzero, notmin), t)
  {
    hide CType.Lo, CType.Hi, Quot;
    TypeFacts(t);
  }

  lemma BitsWithin(op: BitOp, t: CType, al: int, ah: int, bl: int, bh: int)
    requires t in {I, U, L, UL, LL, ULL} && t.Lo() <= al && ah <= t.Hi() && bh <= t.Hi()
    ensures In(AnalyzeBits(op, t, al, ah, bl, bh), t)
  {
    hide CType.Lo, CType.Hi, CType.Bits, Pow2, BitLength;
    TypeFacts(t);
    var m := Max(ah, bh);
    if m >= 0 {
      var n := if t.Signed() then t.Bits() - 1 else t.Bits();
      TopOf(t);
      BitLengthLe(m, n);
      Pow2Mono(BitLength(m), n);
    }
  }

  lemma TopOf(t: CType)
    ensures t.Hi() == Pow2(if t.Signed() then t.Bits() - 1 else t.Bits()) - 1
  {
  }

  lemma ShiftWithin(op: BinOp, a: Info, b: Info)
    requires (op.Shl? || op.Shr?) && b.lo <= b.hi
    ensures In(AnalyzeShift(op, a, b), Promote(a.t))
  {
    hide CType.Lo, CType.Hi, CType.Bits, ShiftLeft, ShiftRight, Promote, ConvLo, ConvHi;
    var t := Promote(a.t);
    var al, ah := ConvLo(a.lo, a.hi, t), ConvHi(a.lo, a.hi, t);
    ConvWithin(a.lo, a.hi, t);
    TypeFacts(t);
    if b.lo >= 0 {
      ShiftRightMore(al, 0, b.lo);
      ShiftRightMore(al, 0, b.hi);
      ShiftRightMore(ah, 0, b.lo);
      ShiftRightMore(ah, 0, b.hi);
      ShiftNone(al);
      ShiftNone(ah);
      if al >= 0 { NotNegative(al, b.lo); }
    }
  }

  lemma UnaryWithin(op: UnOp, a: Info)
    requires a.lo <= a.hi
    ensures Within(UnaryInfo(op, a))
  {
    hide CType.Bits, Promote, CType.Lo, CType.Hi, ConvLo, ConvHi;
    var t := Promote(a.t);
    ConvWithin(a.lo, a.hi, t);
    TypeFacts(t);
    BoolHolds();
    ConvOrder(a.lo, a.hi, t);
  }

  lemma ConvOrder(lo: int, hi: int, t: CType)
    requires lo <= hi
    ensures ConvLo(lo, hi, t) <= ConvHi(lo, hi, t)
  {
    TypeFacts(t);
  }

  /** The interval of what a constructor builds lies in its type. */
  lemma MakeWithin(op: BinOp, a: E, b: E, coin: bool, env: Env)
    requires Sound(a, env) && Sound(b, env)
    ensures Within(MakeBinary(op, a, b, coin).i)
  {
    hide Analyze, Wrap, CType.Lo, CType.Hi, CType.Bits, Arith, Promote, BinaryInfo, Ev, Sound, MkOdd,
         MayBeZero, MayOverflow, CountOf, ConvLo, ConvHi;
    Ordered(b, env);
    if op.Shl? || op.Shr? {
      CountSound(a, b, env);
      Ordered(CountOf(a, b), env);
      BinWithin(op, a.i, CountOf(a, b).i);
      CastWithin(Promote(a.i.t), MkBinary(op, MkCast(UnsignedOf(Promote(a.i.t)), a), CountOf(a, b)));
    } else if op.Div? || op.Mod? {
      OddSound(b, true, false, env);
      DivideWithin(op, a, if MayBeZero(a.i, b.i) then MkOdd(b, true, false) else b, env);
    } else {
      BinWithin(op, a.i, b.i);
      var t := Arith(a.i.t, b.i.t);
      CastWithin(t, MkBinary(op, MkCast(UnsignedOf(t), a), MkCast(UnsignedOf(t), b)));
    }
  }

  lemma DivideWithin(op: BinOp, a: E, c: E, env: Env)
    requires Sound(c, env)
    ensures Within(MkBinary(op, a, c).i) && Within(MkBinary(op, MkOdd(a, false, true), c).i)
    ensures Within(MkBinary(op, a, MkOdd(MkCast(UC, c), true, false)).i)
  {
    hide Analyze, Wrap, CType.Lo, CType.Hi, BinaryInfo, Ev, Sound, MkOdd, MkCast, Within;
    Ordered(c, env);
    CastSound(UC, c, env);
    OddSound(MkCast(UC, c), true, false, env);
    Ordered(MkOdd(MkCast(UC, c), true, false), env);
    BinWithin(op, a.i, c.i);
    BinWithin(op, MkOdd(a, false, true).i, c.i);
    BinWithin(op, a.i, MkOdd(MkCast(UC, c), true, false).i);
  }

  lemma Ordered(e: E, env: Env)
    requires Sound(e, env)
    ensures e.i.lo <= e.i.hi
  {
  }

  lemma CastWithin(t: CType, a: E)
    ensures Within(MkCast(t, a).i)
  {
    hide ConvLo, ConvHi, CType.Lo, CType.Hi;
    ConvWithin(a.i.lo, a.i.hi, t);
  }

  /** The guard against MIN / -1 leaves the type as it is: the dividend has the size of the common
      type. */
  lemma GuardType(a: Info, b: Info)
    requires Within(a) && MayOverflow(a, b)
    ensures Arith(a.t, I) == Arith(a.t, b.t)
  {
    hide Pow2, Promote;
    var t := Arith(a.t, b.t);
    ArithIs(a.t, b.t);
    ArithIs(a.t, I);
    assert Promote(I) == I by { UnsignedBits(I); }
    if Rank(Promote(a.t)) < Rank(t) { Narrower(a, t); }
  }

  lemma Narrower(a: Info, t: CType)
    requires Within(a) && t in {I, L, LL} && Rank(Promote(a.t)) < Rank(t)
    ensures ConvLo(a.lo, a.hi, t) > t.Lo()
  {
    hide Pow2;
    Widths();
    if a.t.BF? {
      Pow2Mono(a.t.width - 1, 15);
      Pow2Mono(a.t.width, 16);
    }
  }

  /** A guard is used only where an operand may need it: with operands that the common type holds, the
      analysis allows the divisor 0, or the least dividend with the divisor -1. */
  lemma GuardsNeeded(a: Info, b: Info)
    requires Within(a) && Within(b) && a.lo <= a.hi && !b.notmin
    ensures
      var t := Arith(a.t, b.t);
      (t.Lo() <= b.lo && b.hi <= t.Hi() ==> (MayBeZero(a, b) <==> Allows(b, 0))) &&
      (t.Lo() <= a.lo && a.hi <= t.Hi() && t.Lo() <= b.lo && b.hi <= t.Hi() ==>
         (MayOverflow(a, b) <==> t.Signed() && Allows(a, t.Lo()) && Allows(b, -1)))
  {
    hide Arith, Pow2, CType.Bits;
    TypeFacts(b.t);
    TypeFacts(a.t);
    TypeFacts(Arith(a.t, b.t));
    if Arith(a.t, b.t).Signed() { ArithHolds(a.t, b.t, a.t.Lo()); }
  }

  // ---- every generated expression -------------------------------------------------------------------

  function TypeOf(g: Gen): CType {
    match g
    case GConst(_, t) => t
    case GVar(_, t) => t
    case GUnary(op, a) => if op == Not then I else Promote(TypeOf(a))
    case GBinary(op, a, b, _) => BinType(op, TypeOf(a), TypeOf(b))
    case GLogic(_, _, _) => I
    case GCond(_, a, b) => Arith(TypeOf(a), TypeOf(b))
    case GCast(t, _) => t
  }

  /** The value that C gives to the generator's choices without any guard; `None` where C gives none,
      or where the analysis asks for another divisor or dividend. */
  function Meant(g: Gen, env: Env): Option<int> {
    match g
    case GConst(v, t) => Some(Wrap(v, t))
    case GVar(id, t) => Some(env(id, t))
    case GUnary(op, a) =>
      var v := Meant(a, env);
      if v.None? then None else UnaryValue(op, v.value, Promote(TypeOf(a)))
    case GBinary(op, a, b, _) =>
      var v, w := Meant(a, env), Meant(b, env);
      if v.None? || w.None? || !Unguarded(op, Build(a).i, Build(b).i) then None
      else BinOpValue(op, v.value, TypeOf(a), w.value, TypeOf(b))
    case GLogic(isAnd, a, b) =>
      var v := Meant(a, env);
      if v.None? then None
      else if (v.value != 0) != isAnd then Some(if isAnd then 0 else 1)
      else
        var w := Meant(b, env);
        if w.None? then None else Some(if w.value != 0 then 1 else 0)
    case GCond(k, a, b) =>
      var v := Meant(k, env);
      if v.None? then None
      else
        var w := if v.value != 0 then Meant(a, env) else Meant(b, env);
        if w.None? then None else Some(Wrap(w.value, Arith(TypeOf(a), TypeOf(b))))
    case GCast(t, a) => var v := Meant(a, env); if v.None? then None else Some(Wrap(v.value, t))
  }

  /** A whole generated expression has the type of the choices, its interval lies in the type, and where
      C gives the choices a value without guards, it has that value. */
  lemma {:induction false} BuildMeans(g: Gen, env: Env)
    requires WellTyped(env)
    ensures Build(g).i.t == TypeOf(g) && Within(Build(g).i)
    ensures Meant(g, env).Some? ==> Ev(Build(g), env) == Meant(g, env)
  {
    hide Wrap, CType.Lo, CType.Hi, Arith, Promote, BinOpValue, UnaryValue, MakeUnary, MakeBinary, Unguarded,
         Sound, ConvLo, ConvHi, WellTyped, BinType;
    BuildSound(g, env);
    match g
    case GConst(v, t) => ConstWithin(v, t);
    case GVar(_, _) =>
    case GUnary(op, a) =>
      BuildMeans(a, env);
      BuildSound(a, env);
      UnaryMeans(op, Build(a), env);
      UnaryIn(op, Build(a), env);
    case GBinary(op, a, b, coin) =>
      BuildMeans(a, env);
      BuildMeans(b, env);
      BuildSound(a, env);
      BuildSound(b, env);
      BinaryMeans(op, Build(a), Build(b), coin, env);
    case GLogic(_, a, b) =>
      BuildMeans(a, env);
      BuildMeans(b, env);
      BoolHolds();
    case GCond(k, a, b) =>
      BuildMeans(k, env);
      BuildMeans(a, env);
      BuildMeans(b, env);
      BuildSound(a, env);
      BuildSound(b, env);
      Ordered(Build(a), env);
      Ordered(Build(b), env);
      CondWithin(Build(a).i, Build(b).i);
    case GCast(t, a) =>
      BuildMeans(a, env);
      CastWithin(t, Build(a));
  }

  lemma ConstWithin(v: int, t: CType)
    ensures Within(MkConst(v, t).i)
  {
  }

  lemma CondWithin(a: Info, b: Info)
    requires a.lo <= a.hi && b.lo <= b.hi
    ensures Within(CondInfo(a, b))
  {
    hide ConvLo, ConvHi, CType.Lo, CType.Hi, Arith;
    ConvWithin(a.lo, a.hi, Arith(a.t, b.t));
    ConvWithin(b.lo, b.hi, Arith(a.t, b.t));
    ConvOrder(a.lo, a.hi, Arith(a.t, b.t));
    ConvOrder(b.lo, b.hi, Arith(a.t, b.t));
  }

  lemma UnaryIn(op: UnOp, a: E, env: Env)
    requires Sound(a, env)
    ensures Within(MakeUnary(op, a).i)
  {
    hide AnalyzeUnary, Ev, Sound, ConvLo, ConvHi, CType.Lo, CType.Hi, UnaryInfo;
    Ordered(a, env);
    UnaryWithin(op, a.i);
    CastWithin(Promote(a.i.t), MkUnary(op, MkCast(UnsignedOf(Promote(a.i.t)), a)));
  }

  lemma BinaryMeans(op: BinOp, a: E, b: E, coin: bool, env: Env)
    requires Sound(a, env) && Sound(b, env) && Within(a.i)
    ensures
      var e, r := MakeBinary(op, a, b, coin), BinOpValue(op, Ev(a, env).value, a.i.t, Ev(b, env).value, b.i.t);
      e.i.t == BinType(op, a.i.t, b.i.t) && Within(e.i) &&
      (r.Some? && Unguarded(op, a.i, b.i) ==> Ev(e, env) == r)
  {
    hide Wrap, CType.Lo, CType.Hi, Arith, Promote, BinOpValue, MakeBinary, Sound, WellTyped, Ev, Within,
         MayBeZero, MayOverflow;
    Defined(a, env);
    Defined(b, env);
    MakeWithin(op, a, b, coin, env);
    if Unguarded(op, a.i, b.i) {
      BinMeans(op, a, b, coin, env);
    } else {
      GuardedType(op, a, b, coin, env);
    }
  }

  /** A guarded division has the type of the division. */
  lemma GuardedType(op: BinOp, a: E, b: E, coin: bool, env: Env)
    requires Sound(a, env) && Sound(b, env) && Within(a.i) && (op.Div? || op.Mod?)
    ensures MakeBinary(op, a, b, coin).i.t == BinType(op, a.i.t, b.i.t)
  {
    hide Wrap, CType.Lo, CType.Hi, Arith, Promote, BinOpValue, MakeBinary, Sound, Ev, Within, MayBeZero,
         MayOverflow, MkOdd, OddOf;
    Defined(a, env);
    Defined(b, env);
    DivMeans(op, a, b, coin, env);
    OddInfo(b, true, false);
    ArithOdd(a.i.t, b.i.t);
    var c := if MayBeZero(a.i, b.i) then MkOdd(b, true, false) else b;
    ArithOdd(a.i.t, c.i.t);
    if MayOverflow(a.i, c.i) { GuardType(a.i, c.i); }
  }

  // ---- the operators themselves ------------------------------------------------------------

  /** A comparison of two built operands is 1 exactly when it holds of their converted values. */
  lemma ComparisonMeans(c: CmpOp, a: E, b: E, coin: bool, env: Env)
    requires Sound(a, env) && Sound(b, env)
    ensures
      var t := Arith(a.i.t, b.i.t);
      var x, y, r := Wrap(Ev(a, env).value, t), Wrap(Ev(b, env).value, t), Ev(MakeBinary(Cmp(c), a, b, coin), env);
      (r == Some(0) || r == Some(1)) &&
      (r == Some(1) <==>
        (x < y && c in {Lt, Le, Ne}) || (x == y && c in {Le, Ge, Eq}) || (x > y && c in {Gt, Ge, Ne}))
  {
    BinMeans(Cmp(c), a, b, coin, env);
    hide MakeBinary, Ev, Sound, Arith, Wrap;
  }

  /** Quotient and remainder that C defines are the one pair that truncates; the bitwise operators go bit
      by bit. */
  lemma ExactIs(a: int, b: int, t: CType, q: int, r: int, k: nat)
    ensures Exact(Div, a, b, t).None? <==> Exact(Mod, a, b, t).None?
    ensures Exact(Div, a, b, t).Some? ==> (Exact(Div, a, b, t) == Some(q) && Exact(Mod, a, b, t) == Some(r) <==>
        Divides(a, b, q, r))
    ensures b != 0 && Divides(a, b, q, r) ==> (Exact(Div, a, b, t).None? <==> t.Signed() && !t.Holds(q))
    ensures
      var x, y, z := Exact(Bits(And), a, b, t), Exact(Bits(Or), a, b, t), Exact(Bits(Xor), a, b, t);
      x.Some? && y.Some? && z.Some? && (Has(x.value, k) <==> Has(a, k) && Has(b, k)) &&
      (Has(y.value, k) <==> Has(a, k) || Has(b, k)) && (Has(z.value, k) <==> Has(a, k) != Has(b, k))
  {
    hide TDiv, Divides, Bitwise, Has, CType.Holds;
    if b != 0 { DivisionIs(a, b, q, r); }
    BitsAre(a, b, k);
  }

  /** `!` is 1 exactly for 0, and `~` has the complement of each bit, converted. */
  lemma NotMeans(v: int, t: CType, k: nat)
    ensures UnaryValue(Not, v, t) == Some(if v == 0 then 1 else 0) && UnaryValue(Plus, v, t) == Some(v)
    ensures exists w: int :: UnaryValue(Compl, v, t) == Some(Wrap(w, t)) && (Has(w, k) <==> !Has(v, k))
  {
    hide Has, Wrap;
    BitsAre(v, v, k);
    assert UnaryValue(Compl, v, t) == Some(Wrap(-1 - v, t));
  }

  /** `&&` and `||` are 1 exactly when both operands, or one of them, are not 0. */
  lemma LogicMeans(isAnd: bool, a: E, b: E, i: Info, env: Env)
    requires Ev(a, env).Some? && Ev(b, env).Some?
    ensures
      var x, y, r := Ev(a, env).value != 0, Ev(b, env).value != 0, Ev(Logic(i, isAnd, a, b), env);
      (r == Some(0) || r == Some(1)) && (r == Some(1) <==> if isAnd then x && y else x || y)
  {
  }
}
