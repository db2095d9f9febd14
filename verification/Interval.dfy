/** The interval analysis of the random-program tester: expressions built with its guards
    never reach undefined behaviour, and every value lies in the computed interval. */
module Interval {
  import opened Wrappers
  import opened CInt

  datatype BinOp = Add | Sub | Mul | Div | Mod | Bits(b: BitOp) | Shl | Shr | Cmp(c: CmpOp)
  datatype CmpOp = Lt | Le | Gt | Ge | Eq | Ne
  datatype UnOp = Plus | Neg | Compl | Not

  /** What the analysis knows of a node: its type, its interval, and the marks of a value
      that is not 0 or not the least of its type. */
  datatype Info = Info(t: CType, lo: int, hi: int, nonzero: bool, notmin: bool)

  /** An expression; each node keeps what the analysis found when the node was made. */
  datatype E =
    | Const(i: Info, v: int)
    | Var(i: Info, id: nat)
    | Unary(i: Info, uop: UnOp, a: E)
    | Binary(i: Info, op: BinOp, a: E, b: E)
    | Logic(i: Info, isAnd: bool, a: E, b: E)
    | Cond(i: Info, k: E, a: E, b: E)
    | Cast(i: Info, a: E)

  function BinType(op: BinOp, a: CType, b: CType): CType {
    if op.Cmp? then I else if op.Shl? || op.Shr? then Promote(a) else Arith(a, b)
  }

  // ---- evaluation ---------------------------------------------------------------

  function Compare(c: CmpOp, a: int, b: int): int {
    if (match c
        case Lt => a < b case Le => a <= b case Gt => a > b
        case Ge => a >= b case Eq => a == b case Ne => a != b) then 1 else 0
  }

  /** The exact result before the conversion to `ct`; `None` is undefined behaviour. */
  function Exact(op: BinOp, a: int, b: int, ct: CType): Option<int>
  {
    match op
    case Add => Some(a + b)
    case Sub => Some(a - b)
    case Mul => Some(a * b)
    case Div =>
      if b == 0 || (ct.Signed() && !ct.Holds(TDiv(a, b))) then None else Some(TDiv(a, b))
    case Mod =>
      if b == 0 || (ct.Signed() && !ct.Holds(TDiv(a, b))) then None else Some(a - b * TDiv(a, b))
    case Bits(o) => Some(Bitwise(o, a, b))
    case _ => None
  }

  /** C semantics of `a op b`; `None` is undefined behaviour. */
  function BinOpValue(op: BinOp, va: int, ta: CType, vb: int, tb: CType): Option<int>
  {
    if op.Shl? || op.Shr? then
      var t := Promote(ta);
      if vb < 0 || vb >= t.Bits() then None
      else if op.Shr? then Some(ShiftRight(va, vb))
      else
        var r := ShiftLeft(va, vb);
        if t.Signed() then (if va < 0 || r > t.Hi() then None else Some(r)) else Some(Wrap(r, t))
    else
      var ct := Arith(ta, tb);
      var a, b := Wrap(va, ct), Wrap(vb, ct);
      if op.Cmp? then Some(Compare(op.c, a, b))
      else
        var r := Exact(op, a, b, ct);
        if r.None? || (ct.Signed() && !ct.Holds(r.value)) then None else Some(Wrap(r.value, ct))
  }

  /** A store: the value of each variable of each type. */
  type Env = (nat, CType) -> int

  /** The value of a unary operator on `v`, promoted to `t`; `None` is undefined behaviour. */
  function UnaryValue(op: UnOp, v: int, t: CType): Option<int> {
    match op
    case Not => Some(if v == 0 then 1 else 0)
    case Neg => if t.Signed() && -v > t.Hi() then None else Some(Wrap(-v, t))
    case Compl => Some(Wrap(-1 - v, t))
    case Plus => Some(v)
  }

  function Ev(e: E, env: Env): Option<int> {
    match e
    case Const(i, v) => Some(Wrap(v, i.t))
    case Var(i, id) => Some(env(id, i.t))
    case Unary(_, op, a) =>
      var v := Ev(a, env);
      if v.None? then None else UnaryValue(op, v.value, Promote(a.i.t))
    case Binary(_, op, a, b) =>
      var va, vb := Ev(a, env), Ev(b, env);
      if va.None? || vb.None? then None else BinOpValue(op, va.value, a.i.t, vb.value, b.i.t)
    case Logic(_, isAnd, a, b) =>
      var va := Ev(a, env);
      if va.None? then None
      else if (va.value != 0) != isAnd then Some(if isAnd then 0 else 1)
      else var vb := Ev(b, env); if vb.None? then None else Some(if vb.value != 0 then 1 else 0)
    case Cond(i, k, a, b) =>
      var vk := Ev(k, env);
      if vk.None? then None
      else
        var v := if vk.value != 0 then Ev(a, env) else Ev(b, env);
        if v.None? then None else Some(Wrap(v.value, i.t))
    case Cast(i, a) => var v := Ev(a, env); if v.None? then None else Some(Wrap(v.value, i.t))
  }

  // ---- the analysis -------------------------------------------------------------

  function Min(a: int, b: int): int { if a <= b then a else b }
  function Max(a: int, b: int): int { if a <= b then b else a }

  /** The interval of a value converted to `t`. */
  function ConvLo(lo: int, hi: int, t: CType): int
  {
    if t.Lo() <= lo && hi <= t.Hi() then lo else t.Lo()
  }

  function ConvHi(lo: int, hi: int, t: CType): int
  {
    if t.Lo() <= lo && hi <= t.Hi() then hi else t.Hi()
  }

  /** An interval, and whether the operation is free of undefined behaviour in it. */
  datatype Res = Res(lo: int, hi: int, safe: bool)

  /** The number of bits of a value that is not negative. */
  function BitLength(m: int): (n: nat)
    requires m >= 0
    ensures m < Pow2(n)
    decreases m
  {
    if m == 0 then 0 else 1 + BitLength(m / 2)
  }

  function Full(t: CType, safe: bool): Res
  {
    Res(t.Lo(), t.Hi(), safe)
  }

  function AnalyzeShift(op: BinOp, a: Info, b: Info): Res
    requires (op.Shl? || op.Shr?)
  {
    var t := Promote(a.t);
    var al, ah := ConvLo(a.lo, a.hi, t), ConvHi(a.lo, a.hi, t);
    if !(b.lo >= 0 && b.hi <= t.Bits() - 1) then Full(t, false)
    else if b.hi < 0 then Full(t, false)
    else if op.Shr? then
      Res(Min(ShiftRight(al, b.lo), ShiftRight(al, b.hi)), Max(ShiftRight(ah, b.lo), ShiftRight(ah, b.hi)), true)
    else if al >= 0 && ShiftLeft(ah, b.hi) <= t.Hi() then
      Res(ShiftLeft(al, b.lo), ShiftLeft(ah, b.hi), true)
    else Full(t, !t.Signed())
  }

  function AnalyzeSum(op: BinOp, t: CType, al: int, ah: int, bl: int, bh: int): Res
    requires (op.Add? || op.Sub? || op.Mul?)
  {
    var lo := match op
      case Add => al + bl
      case Sub => al - bh
      case _ => Min(Min(al * bl, al * bh), Min(ah * bl, ah * bh));
    var hi := match op
      case Add => ah + bh
      case Sub => ah - bl
      case _ => Max(Max(al * bl, al * bh), Max(ah * bl, ah * bh));
    if t.Lo() <= lo && hi <= t.Hi() then Res(lo, hi, true) else Full(t, !t.Signed())
  }

  function AnalyzeDiv(op: BinOp, t: CType, al: int, ah: int, bl: int, bh: int, nonzero: bool, notmin: bool): Res
    requires (op.Div? || op.Mod?)
  {
    var nz := nonzero || !(bl <= 0 <= bh);
    var safe := nz && !(t.Signed() && al <= t.Lo() && !notmin && bl <= -1 <= bh);
    if op.Div? then
      if al >= 0 && bl >= 1 && ah >= 0 && bh >= 1 then Res(Quot(al, bh), Quot(ah, bl), safe)
      else if !t.Signed() then Res(0, ah, safe)
      else
        var m := Max(Abs(al), Abs(ah));
        Res(Max(-m, t.Lo()), Min(m, t.Hi()), safe)
    else if !t.Signed() then Res(0, Min(ah, Max(bh - 1, 0)), safe)
    else
      var d := Max(Abs(bl), Abs(bh)) - 1;
      if al >= 0 then Res(0, Min(ah, d), safe)
      else if ah <= 0 then Res(Max(al, -d), 0, safe)
      else Res(Max(al, -d), Min(ah, d), safe)
  }

  function AnalyzeBits(op: BitOp, t: CType, al: int, ah: int, bl: int, bh: int): Res
  {
    if op == And then
      if al >= 0 && bl >= 0 then Res(0, Min(ah, bh), true)
      else if al >= 0 then Res(0, ah, true)
      else if bl >= 0 then Res(0, bh, true)
      else Full(t, true)
    else if al >= 0 && bl >= 0 && Max(ah, bh) >= 0 then Res(0, Pow2(BitLength(Max(ah, bh))) - 1, true)
    else Full(t, true)
  }

  function Analyze(op: BinOp, a: Info, b: Info): Res
  {
    if op.Cmp? then Res(0, 1, true)
    else if op.Shl? || op.Shr? then AnalyzeShift(op, a, b)
    else
      var t := Arith(a.t, b.t);
      var al, ah := ConvLo(a.lo, a.hi, t), ConvHi(a.lo, a.hi, t);
      var bl, bh := ConvLo(b.lo, b.hi, t), ConvHi(b.lo, b.hi, t);
      if op.Div? || op.Mod? then AnalyzeDiv(op, t, al, ah, bl, bh, b.nonzero, a.notmin)
      else if op.Bits? then AnalyzeBits(op.b, t, al, ah, bl, bh)
      else AnalyzeSum(op, t, al, ah, bl, bh)
  }

  function AnalyzeUnary(op: UnOp, a: Info): Res
  {
    if op == Not then Res(0, 1, true)
    else
      var t := Promote(a.t);
      var lo, hi := ConvLo(a.lo, a.hi, t), ConvHi(a.lo, a.hi, t);
      match op
      case Neg =>
        if t.Signed() then Res(Max(-hi, t.Lo()), Min(-lo, t.Hi()), lo > t.Lo() || a.notmin)
        else if lo == 0 && hi == 0 then Res(0, 0, true)
        else if lo > 0 then Res(Pow2(t.Bits()) - hi, Pow2(t.Bits()) - lo, true)
        else Full(t, true)
      case Compl => if t.Signed() then Res(-1 - hi, -1 - lo, true) else Res(t.Hi() - hi, t.Hi() - lo, true)
      case _ => Res(lo, hi, true)
  }

  // ---- nodes ------------------------------------------------------------------------

  function MkConst(v: int, t: CType): E {
    var c := Wrap(v, t);
    Const(Info(t, c, c, c != 0, c != t.Lo()), v)
  }

  function MkVar(id: nat, t: CType): E { Var(Info(t, t.Lo(), t.Hi(), false, false), id) }

  function UnaryInfo(op: UnOp, a: Info): Info {
    var r := AnalyzeUnary(op, a);
    Info(if op == Not then I else Promote(a.t), r.lo, r.hi, false, false)
  }

  function MkUnary(op: UnOp, a: E): E { Unary(UnaryInfo(op, a.i), op, a) }

  function BinaryInfo(op: BinOp, a: Info, b: Info): Info {
    var r := Analyze(op, a, b);
    Info(BinType(op, a.t, b.t), r.lo, r.hi, false, false)
  }

  function MkBinary(op: BinOp, a: E, b: E): E { Binary(BinaryInfo(op, a.i, b.i), op, a, b) }

  /** `a | 1` with the given marks. */
  function MkOdd(a: E, nonzero: bool, notmin: bool): E {
    var one := MkConst(1, I);
    Binary(BinaryInfo(Bits(Or), a.i, one.i).(nonzero := nonzero, notmin := notmin), Bits(Or), a, one)
  }

  function MkLogic(isAnd: bool, a: E, b: E): E { Logic(Info(I, 0, 1, false, false), isAnd, a, b) }

  function CondInfo(x: Info, y: Info): Info {
    var t := Arith(x.t, y.t);
    Info(t, Min(Min(ConvLo(x.lo, x.hi, t), ConvHi(x.lo, x.hi, t)), Min(ConvLo(y.lo, y.hi, t), ConvHi(y.lo, y.hi, t))),
         Max(Max(ConvLo(x.lo, x.hi, t), ConvHi(x.lo, x.hi, t)),
             Max(ConvLo(y.lo, y.hi, t), ConvHi(y.lo, y.hi, t))), false, false)
  }

  function MkCond(k: E, a: E, b: E): E { Cond(CondInfo(a.i, b.i), k, a, b) }

  function CastInfo(t: CType, a: Info): Info {
    Info(t, ConvLo(a.lo, a.hi, t), ConvHi(a.lo, a.hi, t), false, false)
  }

  function MkCast(t: CType, a: E): E { Cast(CastInfo(t, a.i), a) }

  // ---- the guarded constructors ----------------------------------------------------

  function MakeUnary(op: UnOp, a: E): E {
    if AnalyzeUnary(op, a.i).safe then MkUnary(op, a)
    else
      var t := Promote(a.i.t);
      MkCast(t, MkUnary(op, MkCast(UnsignedOf(t), a)))
  }

  /** The shift count, masked when the analysis cannot bound it. */
  function CountOf(a: E, b: E): E {
    var k := Promote(a.i.t).Bits() - 1;
    if b.i.lo >= 0 && b.i.hi <= k then b else MkBinary(Bits(And), b, MkConst(k, I))
  }

  function MakeShift(op: BinOp, a: E, b: E): E {
    var t := Promote(a.i.t);
    var n := CountOf(a, b);
    if Analyze(op, a.i, n.i).safe then MkBinary(op, a, n)
    else MkCast(t, MkBinary(op, MkCast(UnsignedOf(t), a), n))
  }

  /** The analysis cannot exclude that the divisor is 0. */
  predicate MayBeZero(a: Info, b: Info) {
    var ct := Arith(a.t, b.t);
    !b.nonzero && ConvLo(b.lo, b.hi, ct) <= 0 <= ConvHi(b.lo, b.hi, ct)
  }

  /** The analysis cannot exclude the quotient MIN / -1. */
  predicate MayOverflow(a: Info, b: Info) {
    var ct := Arith(a.t, b.t);
    && ct.Signed() && ConvLo(a.lo, a.hi, ct) <= ct.Lo() && !a.notmin
    && ConvLo(b.lo, b.hi, ct) <= -1 <= ConvHi(b.lo, b.hi, ct)
  }

  /** `coin` picks the operand that the guard against MIN / -1 changes. */
  function MakeDiv(op: BinOp, a: E, b0: E, coin: bool): E {
    var b := if MayBeZero(a.i, b0.i) then MkOdd(b0, true, false) else b0;
    if MayOverflow(a.i, b.i) then
      if coin then MkBinary(op, MkOdd(a, false, true), b)
      else MkBinary(op, a, MkOdd(MkCast(UC, b), true, false))
    else MkBinary(op, a, b)
  }

  function MakeBinary(op: BinOp, a: E, b: E, coin: bool): E {
    if op.Shl? || op.Shr? then MakeShift(op, a, b)
    else if op.Div? || op.Mod? then MakeDiv(op, a, b, coin)
    else if Analyze(op, a.i, b.i).safe then MkBinary(op, a, b)
    else
      var ct := Arith(a.i.t, b.i.t);
      var ut := UnsignedOf(ct);
      MkCast(ct, MkBinary(op, MkCast(ut, a), MkCast(ut, b)))
  }
}
