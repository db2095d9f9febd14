/** The integer types of a C with 16-bit `int`, conversion to a type, the usual
    arithmetic conversions, and the bitwise operators on unbounded integers. */
module CInt {
  function Pow2(n: nat): (p: int)
    ensures p >= 1
  {
    if n == 0 then 1 else 2 * Pow2(n - 1)
  }

  lemma {:induction false} Pow2Mono(m: nat, n: nat)
    requires m <= n
    ensures Pow2(m) <= Pow2(n)
    decreases n
  {
    if m < n { Pow2Mono(m, n - 1); }
  }

  lemma {:induction false} Pow2Add(m: nat, n: nat)
    ensures Pow2(m + n) == Pow2(m) * Pow2(n)
    decreases n
  {
    if n > 0 {
      Pow2Add(m, n - 1);
      assert Pow2(m) * (2 * Pow2(n - 1)) == 2 * (Pow2(m) * Pow2(n - 1));
    }
  }

  // ---- types --------------------------------------------------------------------

  type Width = w: nat | 1 <= w <= 16 witness 1

  /** `BF` is a bit-field of `int` or `unsigned int`. */
  datatype CType = CH | SC | UC | I | U | L | UL | LL | ULL | BF(width: Width, sgn: bool)
  {
    function Bits(): (n: nat)
      ensures n >= 1
    {
      match this
      case CH => 8 case SC => 8 case UC => 8
      case I => 16 case U => 16
      case L => 32 case UL => 32
      case LL => 64 case ULL => 64
      case BF(w, _) => w
    }

    predicate Signed() {
      match this
      case UC => false case U => false case UL => false case ULL => false
      case BF(_, s) => s
      case _ => true
    }

    function Lo(): int { Least(Bits(), Signed()) }

    function Hi(): int { Greatest(Bits(), Signed()) }

    predicate Holds(v: int) { Lo() <= v <= Hi() }
  }

  function Least(n: nat, sg: bool): int
    requires n >= 1
  {
    if sg then -Pow2(n - 1) else 0
  }

  function Greatest(n: nat, sg: bool): int
    requires n >= 1
  {
    if sg then Pow2(n - 1) - 1 else Pow2(n) - 1
  }

  /** The low `n` bits of `v`, as a value that is not negative. */
  function LowBits(v: int, n: nat): (r: int)
    ensures 0 <= r < Pow2(n)
    decreases n
  {
    if n == 0 then 0 else v % 2 + 2 * LowBits(v / 2, n - 1)
  }

  /** `v` converted to `n` bits. */
  function WrapBits(v: int, n: nat, sg: bool): (r: int)
    requires n >= 1
    ensures Least(n, sg) <= r <= Greatest(n, sg)
  {
    var m := LowBits(v, n);
    if sg && m >= Pow2(n - 1) then m - Pow2(n) else m
  }

  /** The value of `v` converted to the type `t`. */
  function Wrap(v: int, t: CType): (r: int)
    ensures t.Holds(r)
  {
    WrapBits(v, t.Bits(), t.Signed())
  }

  lemma {:induction false} LowBitsId(v: int, n: nat)
    requires -Pow2(n) <= v < Pow2(n)
    ensures LowBits(v, n) == if v >= 0 then v else v + Pow2(n)
    decreases n
  {
    if n > 0 { LowBitsId(v / 2, n - 1); }
  }

  lemma WrapBitsId(v: int, n: nat, sg: bool)
    requires n >= 1 && Least(n, sg) <= v <= Greatest(n, sg)
    ensures WrapBits(v, n, sg) == v
  {
    LowBitsId(v, n);
  }

  lemma WrapId(v: int, t: CType)
    requires t.Holds(v)
    ensures Wrap(v, t) == v
  {
    WrapBitsId(v, t.Bits(), t.Signed());
  }

  /** Adding a multiple of 2^n changes none of the low `n` bits. */
  lemma {:induction false} LowBitsShift(v: int, k: int, n: nat)
    ensures LowBits(v + k * Pow2(n), n) == LowBits(v, n)
    decreases n
  {
    if n > 0 {
      var p := Pow2(n - 1);
      var q := k * p;
      assert k * Pow2(n) == 2 * q;
      assert (v + 2 * q) / 2 == v / 2 + q && (v + 2 * q) % 2 == v % 2;
      LowBitsShift(v / 2, k, n - 1);
    }
  }

  /** Values with equal low bits differ by a multiple of 2^n. */
  lemma {:induction false} LowBitsDiff(v: int, n: nat) returns (k: int)
    ensures v == LowBits(v, n) + k * Pow2(n)
    decreases n
  {
    if n == 0 {
      k := v;
    } else {
      k := LowBitsDiff(v / 2, n - 1);
      assert k * Pow2(n) == 2 * (k * Pow2(n - 1));
    }
  }

  /** The low bits of a conversion are the low bits of the value. */
  lemma WrapLow(v: int, w: nat, sg: bool, n: nat)
    requires 1 <= w && n <= w
    ensures LowBits(WrapBits(v, w, sg), n) == LowBits(v, n)
  {
    var r := WrapBits(v, w, sg);
    var k := LowBitsDiff(v, w);
    if r == LowBits(v, w) {
      LowBitsMultiple(r, k, w, n);
    } else {
      assert (k + 1) * Pow2(w) == k * Pow2(w) + Pow2(w);
      LowBitsMultiple(r, k + 1, w, n);
    }
  }

  lemma LowBitsMultiple(r: int, k: int, w: nat, n: nat)
    requires n <= w
    ensures LowBits(r + k * Pow2(w), n) == LowBits(r, n)
  {
    Pow2Add(w - n, n);
    var p, q := Pow2(w - n), Pow2(n);
    assert k * (p * q) == (k * p) * q;
    LowBitsShift(r, k * p, n);
  }

  // ---- congruence modulo 2^n ------------------------------------------------------

  /** `a` and `b` have the same low `n` bits. */
  predicate Cong(a: int, b: int, n: nat) { LowBits(a, n) == LowBits(b, n) }

  lemma CongOf(a: int, b: int, k: int, n: nat)
    requires a == b + k * Pow2(n)
    ensures Cong(a, b, n)
  {
    LowBitsShift(b, k, n);
  }

  lemma CongDiff(a: int, b: int, n: nat) returns (k: int)
    requires Cong(a, b, n)
    ensures a == b + k * Pow2(n)
  {
    var p := LowBitsDiff(a, n);
    var q := LowBitsDiff(b, n);
    k := p - q;
    assert (p - q) * Pow2(n) == p * Pow2(n) - q * Pow2(n);
  }

  /** Sums, differences and products respect congruence. */
  lemma CongSum(a: int, a': int, b: int, b': int, n: nat)
    requires Cong(a, a', n) && Cong(b, b', n)
    ensures Cong(a + b, a' + b', n) && Cong(a - b, a' - b', n)
  {
    var p := CongDiff(a, a', n);
    var q := CongDiff(b, b', n);
    var m := Pow2(n);
    assert (p + q) * m == p * m + q * m && (p - q) * m == p * m - q * m;
    CongOf(a + b, a' + b', p + q, n);
    CongOf(a - b, a' - b', p - q, n);
  }

  lemma CongProduct(a: int, a': int, b: int, b': int, n: nat)
    requires Cong(a, a', n) && Cong(b, b', n)
    ensures Cong(a * b, a' * b', n)
  {
    var p := CongDiff(a, a', n);
    var q := CongDiff(b, b', n);
    var m := Pow2(n);
    var k := a' * q + p * b';
    ProductDiff(a', p, b', q, m);
    CongOf(a * b, a' * b', k + p * q * m, n);
  }

  lemma ProductDiff(a: int, p: int, b: int, q: int, m: int)
    ensures (a + p * m) * (b + q * m) == a * b + (a * q + p * b + p * q * m) * m
  {
    assert (a + p * m) * (b + q * m) == a * (b + q * m) + (p * m) * (b + q * m);
    assert a * (b + q * m) == a * b + (a * q) * m;
    assert (p * m) * (b + q * m) == (p * b) * m + (p * q * m) * m;
  }

  lemma CongWrap(v: int, n: nat, sg: bool)
    requires n >= 1
    ensures Cong(WrapBits(v, n, sg), v, n)
  {
    WrapLow(v, n, sg, n);
  }

  /** The quotient of values that are not negative. */
  function Quot(a: nat, b: nat): (q: nat)
    requires b >= 1
    ensures q <= a
  {
    if a < b then 0 else 1 + Quot(a - b, b)
  }

  lemma {:induction false} QuotFacts(a: nat, b: nat)
    requires b >= 1
    ensures b * Quot(a, b) <= a < b * Quot(a, b) + b
    ensures b >= 2 ==> 2 * Quot(a, b) <= a
    decreases a
  {
    if a >= b {
      QuotFacts(a - b, b);
      assert b * (1 + Quot(a - b, b)) == b + b * Quot(a - b, b);
    }
  }

  lemma {:induction false} QuotMono(a: nat, b: nat, c: nat, d: nat)
    requires a <= c && 1 <= d <= b
    ensures Quot(a, b) <= Quot(c, d)
    decreases a
  {
    if a >= b { QuotMono(a - b, b, c - d, d); }
  }

  /** The integer promotions. */
  function Promote(t: CType): (r: CType)
    ensures r in {I, U, L, UL, LL, ULL}
  {
    if t.BF? then (if t.sgn || t.width < 16 then I else U)
    else if t.Bits() < 16 then I else t
  }

  /** The usual arithmetic conversions. */
  function Arith(a: CType, b: CType): (r: CType)
    ensures r in {I, U, L, UL, LL, ULL}
  {
    var p, q := Promote(a), Promote(b);
    if p == ULL || q == ULL then ULL
    else if p == LL || q == LL then LL
    else if p == UL || q == UL then UL
    else if p == L || q == L then L
    else if p == U || q == U then U
    else I
  }

  /** The promoted types in the order of the usual arithmetic conversions. */
  function Rank(t: CType): nat {
    match t
    case U => 1 case L => 2 case UL => 3 case LL => 4 case ULL => 5
    case _ => 0
  }

  /** The common type is the higher of the promoted operand types. */
  lemma ArithIs(a: CType, b: CType)
    ensures Arith(a, b) == if Rank(Promote(a)) >= Rank(Promote(b)) then Promote(a) else Promote(b)
  {
    hide Promote;
  }

  function UnsignedOf(t: CType): CType {
    match t
    case I => U
    case L => UL
    case LL => ULL
    case _ => t
  }

  lemma {:induction false} Widths()
    ensures Pow2(7) == 128 && Pow2(8) == 256 && Pow2(15) == 0x8000 && Pow2(16) == 0x1_0000
    ensures Pow2(31) == 0x8000_0000 && Pow2(32) == 0x1_0000_0000
    ensures Pow2(63) == 0x8000_0000_0000_0000 && Pow2(64) == 0x1_0000_0000_0000_0000
  {
    assert Pow2(4) == 16;
    assert Pow2(8) == 256 by { Pow2Add(4, 4); }
    assert Pow2(16) == 0x1_0000 by { Pow2Add(8, 8); }
    assert Pow2(32) == 0x1_0000_0000 by { Pow2Add(16, 16); }
    assert Pow2(64) == 0x1_0000_0000_0000_0000 by { Pow2Add(32, 32); }
  }

  /** Promotion keeps every value. */
  lemma PromoteHolds(t: CType, v: int)
    requires t.Holds(v)
    ensures Promote(t).Holds(v)
  {
    hide Pow2;
    Widths();
    if t.BF? {
      Pow2Mono(t.width - 1, 15);
      Pow2Mono(t.width, 16);
      if t.width < 16 { Pow2Mono(t.width, 15); }
    }
  }

  /** Every value of `p` is one of `t`, among the promoted types. */
  predicate Widens(p: CType, t: CType) {
    t == p || (t == L && p in {I, U}) || (t == LL && p in {I, U, L, UL})
  }

  lemma WidensTo(p: CType, t: CType, v: int)
    requires p in {I, U, L, UL, LL, ULL} && p.Holds(v) && Widens(p, t)
    ensures t.Holds(v)
  {
    hide Pow2;
    Widths();
  }

  lemma ArithWidens(a: CType, b: CType)
    requires Arith(a, b).Signed()
    ensures Widens(Promote(a), Arith(a, b)) && Widens(Promote(b), Arith(a, b))
  {
    hide Promote, Arith;
    ArithIs(a, b);
  }

  lemma TypeFacts(t: CType)
    ensures t.Lo() <= 0 <= t.Hi() && Pow2(t.Bits()) > t.Hi()
    ensures t.Signed() ==> t.Lo() == -1 - t.Hi() && Pow2(t.Bits()) == 2 * (t.Hi() + 1)
    ensures !t.Signed() ==> t.Lo() == 0 && t.Hi() == Pow2(t.Bits()) - 1
  {
    hide CType.Bits;
    assert Pow2(t.Bits()) == 2 * Pow2(t.Bits() - 1);
  }

  /** The conversion of a negative value to an unsigned type. */
  lemma WrapNegative(v: int, t: CType)
    requires !t.Signed() && -Pow2(t.Bits()) <= v < 0
    ensures Wrap(v, t) == v + Pow2(t.Bits())
  {
    hide CType.Bits;
    LowBitsId(v, t.Bits());
  }

  /** A signed common type holds every value of both operands. */
  lemma ArithHolds(a: CType, b: CType, v: int)
    requires a.Holds(v) || b.Holds(v)
    requires Arith(a, b).Signed()
    ensures Arith(a, b).Holds(v)
  {
    hide Promote, Arith, CType.Lo, CType.Hi;
    var t := Arith(a, b);
    ArithWidens(a, b);
    var x := if a.Holds(v) then a else b;
    PromoteHolds(x, v);
    WidensTo(Promote(x), t, v);
  }

  // ---- bitwise operators on unbounded two's complement integers ---------------------

  datatype BitOp = And | Or | Xor

  function Bit(op: BitOp, x: int, y: int): (b: int)
    ensures 0 <= b <= 1
  {
    match op
    case And => if x == 1 && y == 1 then 1 else 0
    case Or => if x == 1 || y == 1 then 1 else 0
    case Xor => if x != y then 1 else 0
  }

  function Abs(x: int): nat { if x < 0 then -x else x }

  /** Division that truncates toward zero. */
  function TDiv(a: int, b: int): int
    requires b != 0
  {
    var q: int := Quot(Abs(a), Abs(b));
    if (a < 0) != (b < 0) then -q else q
  }

  /** `v >> n`, rounding down. */
  function ShiftRight(v: int, n: nat): int
    decreases n
  {
    if n == 0 then v else ShiftRight(v / 2, n - 1)
  }

  /** `v << n`. */
  function ShiftLeft(v: int, n: nat): int
    decreases n
  {
    if n == 0 then v else 2 * ShiftLeft(v, n - 1)
  }

  /** Bit by bit from the lowest; 0 and -1 are all zeros and all ones. */
  function Bitwise(op: BitOp, a: int, b: int): int
    decreases Abs(a) + Abs(b)
  {
    if a in {0, -1} && b in {0, -1} then -Bit(op, -a, -b)
    else 2 * Bitwise(op, a / 2, b / 2) + Bit(op, a % 2, b % 2)
  }

  lemma {:induction false} BitwiseRange(op: BitOp, a: int, b: int, n: nat)
    requires -Pow2(n) <= a < Pow2(n) && -Pow2(n) <= b < Pow2(n)
    ensures -Pow2(n) <= Bitwise(op, a, b) < Pow2(n)
    decreases n
  {
    if !(a in {0, -1} && b in {0, -1}) {
      assert n > 0;
      BitwiseRange(op, a / 2, b / 2, n - 1);
    }
  }

  lemma {:induction false} BitwiseNat(op: BitOp, a: int, b: int, n: nat)
    requires 0 <= a < Pow2(n) && 0 <= b < Pow2(n)
    ensures 0 <= Bitwise(op, a, b) < Pow2(n)
    decreases n
  {
    if !(a == 0 && b == 0) {
      assert n > 0;
      BitwiseNat(op, a / 2, b / 2, n - 1);
    }
  }

  lemma {:induction false} AndBound(a: int, b: int)
    requires a >= 0
    ensures 0 <= Bitwise(And, a, b) <= a
    decreases Abs(a) + Abs(b)
  {
    if !(a == 0 && b in {0, -1}) { AndBound(a / 2, b / 2); }
  }

  lemma {:induction false} BitwiseComm(op: BitOp, a: int, b: int)
    ensures Bitwise(op, a, b) == Bitwise(op, b, a)
    decreases Abs(a) + Abs(b)
  {
    if !(a in {0, -1} && b in {0, -1}) { BitwiseComm(op, a / 2, b / 2); }
  }

  /** Setting the lowest bit makes a value odd. */
  lemma OrOneOdd(a: int)
    ensures Bitwise(Or, a, 1) % 2 == 1
  {
    hide Bitwise;
    BitwiseStep(Or, a, 1);
  }

  /** The low `n` bits of the result depend on the low `n` bits of the operands only. */
  lemma {:induction false} BitwiseLow(op: BitOp, a: int, b: int, n: nat)
    ensures LowBits(Bitwise(op, a, b), n) == LowBits(Bitwise(op, LowBits(a, n), LowBits(b, n)), n)
    decreases n
  {
    hide Bit, Bitwise;
    if n > 0 {
      BitwiseLow(op, a / 2, b / 2, n - 1);
      BitwiseStep(op, a, b);
      BitwiseStep(op, LowBits(a, n), LowBits(b, n));
      Halves(a, n);
      Halves(b, n);
      DoubledLow(Bitwise(op, a / 2, b / 2), Bit(op, a % 2, b % 2), n);
      DoubledLow(Bitwise(op, LowBits(a / 2, n - 1), LowBits(b / 2, n - 1)), Bit(op, a % 2, b % 2), n);
    }
  }

  lemma Halves(a: int, n: nat)
    requires n > 0
    ensures LowBits(a, n) / 2 == LowBits(a / 2, n - 1) && LowBits(a, n) % 2 == a % 2
  {
  }

  lemma DoubledLow(h: int, b: int, n: nat)
    requires n > 0 && 0 <= b <= 1
    ensures LowBits(2 * h + b, n) == b + 2 * LowBits(h, n - 1)
  {
    assert (2 * h + b) / 2 == h && (2 * h + b) % 2 == b;
  }

  lemma BitwiseStep(op: BitOp, a: int, b: int)
    ensures Bitwise(op, a, b) == 2 * Bitwise(op, a / 2, b / 2) + Bit(op, a % 2, b % 2)
  {
  }
}
