/** Typed folding of integer constants, for every choice of the sizes of `int`, `long`
    and `long long`. */
module Fold {
  import opened Wrappers
  import opened CInt

  /** Sizes in bytes. */
  datatype Sizes = Sizes(intSize: nat, longSize: nat, llongSize: nat) {
    predicate Valid() { 1 <= intSize <= longSize <= llongSize }
  }

  datatype Rank = INT | LONG | LLONG

  function Order(r: Rank): nat { match r case INT => 1 case LONG => 2 case LLONG => 3 }

  function Bits(z: Sizes, r: Rank): (n: nat)
    requires z.Valid()
    ensures n >= 8
  {
    8 * match r case INT => z.intSize case LONG => z.longSize case LLONG => z.llongSize
  }

  /** A type of a literal or of a folded result. */
  datatype Type = Type(rank: Rank, uns: bool)

  predicate Fits(z: Sizes, v: int, t: Type)
    requires z.Valid()
  {
    if t.uns then 0 <= v < Pow2(Bits(z, t.rank))
    else -Pow2(Bits(z, t.rank) - 1) <= v < Pow2(Bits(z, t.rank) - 1)
  }

  function WrapTo(z: Sizes, v: int, t: Type): (r: int)
    requires z.Valid()
    ensures Fits(z, r, t)
  {
    WrapBits(v, Bits(z, t.rank), !t.uns)
  }

  // ---- literals ----------------------------------------------------------------------

  datatype Lit = Lit(value: int, isLong: bool, isLL: bool, isUnsigned: bool, isHex: bool)

  datatype Typed = Typed(t: Type, v: int)

  function Ranks(l: Lit): seq<Rank> {
    if l.isLL then [LLONG] else if l.isLong then [LONG, LLONG] else [INT, LONG, LLONG]
  }

  /** The type that a literal gets at one rank. */
  function AtRank(z: Sizes, l: Lit, r: Rank): Option<Typed>
    requires z.Valid()
  {
    if l.isUnsigned then
      if 0 <= l.value < Pow2(Bits(z, r)) then Some(Typed(Type(r, true), l.value)) else None
    else if -Pow2(Bits(z, r) - 1) <= l.value < Pow2(Bits(z, r) - 1) then Some(Typed(Type(r, false), l.value))
    else if l.isHex && 0 <= l.value < Pow2(Bits(z, r)) then Some(Typed(Type(r, true), l.value))
    else None
  }

  function FirstRank(z: Sizes, l: Lit, rs: seq<Rank>): Typed
    requires z.Valid()
  {
    if rs == [] then Typed(Type(LLONG, true), LowBits(l.value, Bits(z, LLONG)))
    else
      var a := AtRank(z, l, rs[0]);
      if a.Some? then a.value else FirstRank(z, l, rs[1..])
  }

  /** The type and value of a literal. */
  function LiteralType(z: Sizes, l: Lit): Typed
    requires z.Valid()
  {
    FirstRank(z, l, Ranks(l))
  }

  /** The candidate types of a literal in the table of section 6.4.4.1 of ISO/IEC 9899:2011. */
  function Candidates(l: Lit): seq<Type> {
    var from := if l.isLL then 2 else if l.isLong then 1 else 0;
    if l.isUnsigned then [Type(INT, true), Type(LONG, true), Type(LLONG, true)][from..]
    else if l.isHex then
      [Type(INT, false), Type(INT, true), Type(LONG, false), Type(LONG, true), Type(LLONG, false),
       Type(LLONG, true)][2 * from..]
    else [Type(INT, false), Type(LONG, false), Type(LLONG, false)][from..]
  }

  /** A literal has the first type of its table row that can represent its value. */
  lemma LiteralTypeIsFirst(z: Sizes, l: Lit, k: nat)
    requires z.Valid() && l.value >= 0 && k < |Candidates(l)|
    requires Fits(z, l.value, Candidates(l)[k]) && forall i: nat :: i < k ==> !Fits(z, l.value, Candidates(l)[i])
    ensures LiteralType(z, l) == Typed(Candidates(l)[k], l.value)
  {
    hide Pow2, LowBits, Bits;
    var c, rs := Candidates(l), Ranks(l);
    Unroll3(z, l, rs);
    BitsMono(z, INT, LONG);
    BitsMono(z, LONG, LLONG);
    if l.isHex && !l.isUnsigned {
      assert c[k].rank == rs[k / 2];
      assert k >= 1 ==> !Fits(z, l.value, c[0]);
      assert k >= 2 ==> !Fits(z, l.value, c[1]);
      assert k >= 3 ==> !Fits(z, l.value, c[2]);
      assert k >= 4 ==> !Fits(z, l.value, c[3]);
      assert k >= 5 ==> !Fits(z, l.value, c[4]);
    } else {
      assert c[k].rank == rs[k];
      assert k >= 1 ==> !Fits(z, l.value, c[0]);
      assert k >= 2 ==> !Fits(z, l.value, c[1]);
    }
  }

  lemma Unroll3(z: Sizes, l: Lit, rs: seq<Rank>)
    requires z.Valid() && 1 <= |rs| <= 3
    ensures FirstRank(z, l, rs) ==
      if AtRank(z, l, rs[0]).Some? then AtRank(z, l, rs[0]).value
      else if |rs| > 1 && AtRank(z, l, rs[1]).Some? then AtRank(z, l, rs[1]).value
      else if |rs| > 2 && AtRank(z, l, rs[2]).Some? then AtRank(z, l, rs[2]).value
      else Typed(Type(LLONG, true), LowBits(l.value, Bits(z, LLONG)))
  {
    hide AtRank, LowBits;
    if |rs| > 1 {
      assert rs[1..][0] == rs[1];
      if |rs| > 2 {
        assert rs[1..][1..][0] == rs[2] && rs[1..][1..][1..] == [];
      } else {
        assert rs[1..][1..] == [];
      }
    } else {
      assert rs[1..] == [];
    }
  }

  /** A literal that carries a folded value. */
  function Mint(v: int, t: Type): Lit { Lit(v, t.rank == LONG, t.rank == LLONG, t.uns, false) }

  /** Reading a minted literal gives its type and value back. */
  lemma MintRead(z: Sizes, v: int, t: Type)
    requires z.Valid() && Fits(z, v, t)
    ensures LiteralType(z, Mint(v, t)) == Typed(t, v)
  {
    hide Pow2, LowBits;
    Unroll3(z, Mint(v, t), Ranks(Mint(v, t)));
  }

  // ---- the usual arithmetic conversions --------------------------------------------------

  function MaxRank(a: Rank, b: Rank): Rank { if Order(a) >= Order(b) then a else b }

  function Common(z: Sizes, a: Type, b: Type): Type
    requires z.Valid()
  {
    var rank := MaxRank(a.rank, b.rank);
    if a.uns == b.uns then Type(rank, a.uns)
    else
      var ur, sr := if a.uns then a.rank else b.rank, if a.uns then b.rank else a.rank;
      if Order(ur) >= Order(sr) then Type(rank, true)
      else if Bits(z, sr) > Bits(z, ur) then Type(rank, false)
      else Type(rank, true)
  }

  /** Every value of type `b` is a value of type `a`. */
  ghost predicate Represents(z: Sizes, a: Type, b: Type)
    requires z.Valid()
  {
    forall v: int :: Fits(z, v, b) ==> Fits(z, v, a)
  }

  /** The rules of section 6.3.1.8 of ISO/IEC 9899:2011, for two integer types. */
  ghost predicate UsualConversion(z: Sizes, a: Type, b: Type, c: Type)
    requires z.Valid()
  {
    if a.uns == b.uns then c == if Order(a.rank) >= Order(b.rank) then a else b
    else
      var u, s := if a.uns then a else b, if a.uns then b else a;
      if Order(u.rank) >= Order(s.rank) then c == u
      else if Represents(z, s, u) then c == s
      else c == Type(s.rank, true)
  }

  lemma BitsMono(z: Sizes, a: Rank, b: Rank)
    requires z.Valid() && Order(a) <= Order(b)
    ensures Bits(z, a) <= Bits(z, b)
  {
  }

  /** The folder's common type is the common type of C. */
  lemma CommonIsC(z: Sizes, a: Type, b: Type)
    requires z.Valid()
    ensures UsualConversion(z, a, b, Common(z, a, b))
  {
    if a.uns != b.uns {
      var u, s := if a.uns then a else b, if a.uns then b else a;
      if Order(u.rank) < Order(s.rank) { SignedHolds(z, s, u); }
    }
  }

  lemma SignedHolds(z: Sizes, s: Type, u: Type)
    requires z.Valid() && !s.uns && u.uns
    ensures Represents(z, s, u) <==> Bits(z, s.rank) > Bits(z, u.rank)
  {
    hide Bits;
    var m, n := Bits(z, s.rank), Bits(z, u.rank);
    if m > n {
      Pow2Mono(n, m - 1);
    } else {
      Pow2Mono(m, n);
      assert Pow2(m) == 2 * Pow2(m - 1);
      assert Fits(z, Pow2(n) - 1, u) && !Fits(z, Pow2(n) - 1, s);
    }
  }

  /** `Common` is an associative join when two ranks agree. */
  lemma CommonAssoc(z: Sizes, x: Type, a: Type, b: Type)
    requires z.Valid() && a.rank == b.rank
    ensures Common(z, Common(z, x, a), b) == Common(z, x, Common(z, a, b))
  {
  }

  // ---- folding one operator ------------------------------------------------------------

  datatype Op = Add | Sub | Mul | Div | Mod | BitsOp(o: BitOp) | Shl | Shr | Lt | Le | Gt | Ge | Eq | Ne

  predicate IsComparison(op: Op) { op in {Lt, Le, Gt, Ge, Eq, Ne} }

  predicate Compares(op: Op, a: int, b: int) {
    match op case Lt => a < b case Le => a <= b case Gt => a > b case Ge => a >= b case Eq => a == b case _ => a != b
  }

  function Compare(op: Op, a: int, b: int): int { if Compares(op, a, b) then 1 else 0 }

  /** The exact result of an arithmetic operator; `None` for a division by zero. */
  function Result(op: Op, a: int, b: int): Option<int> {
    match op
    case Add => Some(a + b)
    case Sub => Some(a - b)
    case Mul => Some(a * b)
    case Div => if b == 0 then None else Some(TDiv(a, b))
    case Mod => if b == 0 then None else Some(a - TDiv(a, b) * b)
    case BitsOp(o) => Some(Bitwise(o, a, b))
    case _ => None
  }

  /** `left op right` as a literal; `None` when the folder leaves the expression. */
  function FoldTyped(z: Sizes, op: Op, left: Lit, right: Lit): Option<Lit>
    requires z.Valid()
  {
    var l, r := LiteralType(z, left), LiteralType(z, right);
    if op.Shl? || op.Shr? then
      if !(0 <= r.v < Bits(z, l.t.rank)) then None
      else
        var a := WrapTo(z, l.v, l.t);
        var x := if op.Shl? then ShiftLeft(a, r.v) else ShiftRight(a, r.v);
        Some(Mint(WrapTo(z, x, l.t), l.t))
    else
      var t := Common(z, l.t, r.t);
      var a, b := WrapTo(z, l.v, t), WrapTo(z, r.v, t);
      if IsComparison(op) then Some(Mint(Compare(op, a, b), Type(INT, false)))
      else
        var x := Result(op, a, b);
        if x.None? then None else Some(Mint(WrapTo(z, x.value, t), t))
  }

  /** The value of a converted to the type t, as C defines it: unchanged when the type holds
      it, reduced modulo 2^n for an unsigned type, and two's complement otherwise. */
  function Convert(z: Sizes, v: int, t: Type): int
    requires z.Valid()
  {
    if Fits(z, v, t) then v
    else
      var m := LowBits(v, Bits(z, t.rank));
      if t.uns || Fits(z, m, t) then m else m - Pow2(Bits(z, t.rank))
  }

  /** The type and value that C gives `a op b`; `None` where C leaves it undefined.  The
      right shift of a negative value keeps the sign. */
  function Meaning(z: Sizes, op: Op, l: Typed, r: Typed): Option<Typed>
    requires z.Valid()
  {
    if op.Shl? || op.Shr? then
      if r.v < 0 || r.v >= Bits(z, l.t.rank) then None
      else if op.Shr? then Some(Typed(l.t, ShiftRight(l.v, r.v)))
      else
        var x := ShiftLeft(l.v, r.v);
        if l.t.uns then Some(Typed(l.t, LowBits(x, Bits(z, l.t.rank))))
        else if l.v < 0 || !Fits(z, x, l.t) then None
        else Some(Typed(l.t, x))
    else
      var t := Common(z, l.t, r.t);
      var a, b := Convert(z, l.v, t), Convert(z, r.v, t);
      if IsComparison(op) then Some(Typed(Type(INT, false), Compare(op, a, b)))
      else
        var x := Result(op, a, b);
        if x.None? || ((op.Div? || op.Mod?) && !t.uns && !Fits(z, TDiv(a, b), t)) then None
        else if t.uns then Some(Typed(t, LowBits(x.value, Bits(z, t.rank))))
        else if Fits(z, x.value, t) then Some(Typed(t, x.value))
        else None
  }

  lemma WrapIsConvert(z: Sizes, v: int, t: Type)
    requires z.Valid()
    ensures WrapTo(z, v, t) == Convert(z, v, t)
    ensures Fits(z, v, t) ==> WrapTo(z, v, t) == v
    ensures t.uns ==> WrapTo(z, v, t) == LowBits(v, Bits(z, t.rank))
  {
    hide Bits;
    if Fits(z, v, t) { WrapBitsId(v, Bits(z, t.rank), !t.uns); }
  }

  lemma {:induction false} RightShiftBetween(v: int, n: nat)
    ensures v >= 0 ==> 0 <= ShiftRight(v, n) <= v
    ensures v < 0 ==> v <= ShiftRight(v, n) <= -1
    decreases n
  {
    if n > 0 { RightShiftBetween(v / 2, n - 1); }
  }

  lemma LiteralFits(z: Sizes, l: Lit)
    requires z.Valid()
    ensures var x := LiteralType(z, l); Fits(z, x.v, x.t)
  {
    hide Bits, Pow2, LowBits;
    Unroll3(z, l, Ranks(l));
  }

  lemma BoolFits(z: Sizes, v: int)
    requires z.Valid() && 0 <= v <= 1
    ensures Fits(z, v, Type(INT, false))
  {
    Pow2Mono(7, Bits(z, INT) - 1);
  }

  /** Typed folding agrees with C: whenever C defines the expression, the folded literal has
      the type and the value that C gives it. */
  lemma FoldIsC(z: Sizes, op: Op, left: Lit, right: Lit)
    requires z.Valid() && Meaning(z, op, LiteralType(z, left), LiteralType(z, right)).Some?
    ensures
      var f := FoldTyped(z, op, left, right);
      f.Some? && Some(LiteralType(z, f.value)) == Meaning(z, op, LiteralType(z, left), LiteralType(z, right))
  {
    hide LiteralType, Bits, Pow2, LowBits, Bitwise, Quot, Convert, TDiv, Common;
    var l, r := LiteralType(z, left), LiteralType(z, right);
    LiteralFits(z, left);
    if op.Shl? || op.Shr? {
      WrapIsConvert(z, l.v, l.t);
      var x := if op.Shl? then ShiftLeft(l.v, r.v) else ShiftRight(l.v, r.v);
      WrapIsConvert(z, x, l.t);
      RightShiftBetween(l.v, r.v);
      MintRead(z, WrapTo(z, x, l.t), l.t);
    } else {
      var t := Common(z, l.t, r.t);
      WrapIsConvert(z, l.v, t);
      WrapIsConvert(z, r.v, t);
      var a, b := WrapTo(z, l.v, t), WrapTo(z, r.v, t);
      if IsComparison(op) {
        BoolFits(z, Compare(op, a, b));
        MintRead(z, Compare(op, a, b), Type(INT, false));
      } else {
        var x := Result(op, a, b).value;
        WrapIsConvert(z, x, t);
        MintRead(z, WrapTo(z, x, t), t);
      }
    }
  }

  /** The folder leaves an expression only when C leaves it undefined. */
  lemma FoldNoneIsUndefined(z: Sizes, op: Op, left: Lit, right: Lit)
    requires z.Valid() && FoldTyped(z, op, left, right).None?
    ensures Meaning(z, op, LiteralType(z, left), LiteralType(z, right)).None?
  {
    if Meaning(z, op, LiteralType(z, left), LiteralType(z, right)).Some? {
      FoldIsC(z, op, left, right);
    }
  }

  // ---- folding one unary operator ------------------------------------------------------

  datatype UnOp = Plus | Minus | Complement

  function UnaryResult(op: UnOp, a: int): int {
    match op case Plus => a case Minus => -a case Complement => -a - 1
  }

  function FoldUnary(z: Sizes, op: UnOp, l: Lit): Lit
    requires z.Valid()
  {
    var x := LiteralType(z, l);
    Mint(WrapTo(z, UnaryResult(op, WrapTo(z, x.v, x.t)), x.t), x.t)
  }

  /** A folded unary operator keeps the type of its operand, and its value is the exact result
      when the type holds it, reduced modulo 2^n for an unsigned type. */
  lemma FoldUnaryIsC(z: Sizes, op: UnOp, l: Lit)
    requires z.Valid()
    ensures
      var x, f := LiteralType(z, l), LiteralType(z, FoldUnary(z, op, l));
      f.t == x.t &&
      (Fits(z, UnaryResult(op, x.v), x.t) ==> f.v == UnaryResult(op, x.v)) &&
      (x.t.uns ==> f.v == LowBits(UnaryResult(op, x.v), Bits(z, x.t.rank)))
  {
    hide LiteralType, Bits, Pow2, LowBits, Convert;
    var x := LiteralType(z, l);
    LiteralFits(z, l);
    WrapIsConvert(z, x.v, x.t);
    WrapIsConvert(z, UnaryResult(op, x.v), x.t);
    MintRead(z, WrapTo(z, UnaryResult(op, x.v), x.t), x.t);
  }

  // ---- nested folding -----------------------------------------------------------------------

  /** What `(x iop c1) outer c2` becomes: the same expression, `x` alone, or `x op c3`. */
  datatype Nested = Same | Alone | Replaced(op: Op, c3: Lit)

  /** The operator and the exact constant of the rewritten expression. */
  function Rule(outer: Op, iop: Op, c1: int, c2: int): Option<(Op, int)> {
    match (outer, iop)
    case (Add, Add) => Some((Add, c1 + c2))
    case (Add, Sub) => Some((Add, c2 - c1))
    case (Sub, Add) => Some((Add, c1 - c2))
    case (Sub, Sub) => Some((Sub, c1 + c2))
    case (Mul, Mul) => Some((Mul, c1 * c2))
    case _ => None
  }

  function NestedFold(z: Sizes, outer: Op, iop: Op, l1: Lit, l2: Lit): Nested
    requires z.Valid()
  {
    var t1, t2 := LiteralType(z, l1), LiteralType(z, l2);
    var r := Rule(outer, iop, WrapTo(z, t1.v, t1.t), WrapTo(z, t2.v, t2.t));
    if r.None? || t1.t.rank != t2.t.rank then Same
    else
      var t := Common(z, t1.t, t2.t);
      var op, c3 := r.value.0, r.value.1;
      if !Fits(z, c3, t) then Same
      else if op == Sub && c3 < 0 && !Fits(z, -c3, t) then Same
      else
        var op2, c4 := if op == Sub && c3 < 0 then Add else op, if op == Sub && c3 < 0 then -c3 else c3;
        if c4 == 0 && op2 != Mul then Alone else Replaced(op2, Mint(c4, t))
  }

  /** The type and value of `x op c` on a machine that wraps at the common type. */
  function Machine(z: Sizes, op: Op, x: Typed, c: Typed): Typed
    requires z.Valid() && op in {Add, Sub, Mul}
  {
    var t := Common(z, x.t, c.t);
    var a, b := WrapTo(z, x.v, t), WrapTo(z, c.v, t);
    Typed(t, WrapTo(z, match op case Add => a + b case Sub => a - b case _ => a * b, t))
  }

  function Apply(op: Op, a: int, b: int): int { match op case Add => a + b case Sub => a - b case _ => a * b }

  /** The machine's value has the low bits of the exact value. */
  lemma MachineCong(z: Sizes, op: Op, x: Typed, c: Typed, e: int, n: nat)
    requires z.Valid() && op in {Add, Sub, Mul} && n == Bits(z, Common(z, x.t, c.t).rank)
    requires Cong(x.v, e, n)
    ensures Cong(Machine(z, op, x, c).v, Apply(op, e, c.v), n)
  {
    hide Bits, Common, Cong, WrapBits;
    var t := Common(z, x.t, c.t);
    CongWrap(x.v, n, !t.uns);
    CongWrap(c.v, n, !t.uns);
    var a, b := WrapTo(z, x.v, t), WrapTo(z, c.v, t);
    CongTrans(a, x.v, e, n);
    CongSum(a, e, b, c.v, n);
    CongProduct(a, e, b, c.v, n);
    CongWrap(Apply(op, a, b), n, !t.uns);
    CongTrans(Machine(z, op, x, c).v, Apply(op, a, b), Apply(op, e, c.v), n);
  }

  lemma CongTrans(a: int, b: int, c: int, n: nat)
    requires Cong(a, b, n) && Cong(b, c, n)
    ensures Cong(a, c, n)
  {
  }

  lemma CongRefl(a: int, n: nat)
    ensures Cong(a, a, n)
  {
  }

  /** Values of one type with the same low bits are equal. */
  lemma SameValue(z: Sizes, a: int, b: int, t: Type)
    requires z.Valid() && Fits(z, a, t) && Fits(z, b, t) && Cong(a, b, Bits(z, t.rank))
    ensures a == b
  {
    hide Bits;
    WrapBitsId(a, Bits(z, t.rank), !t.uns);
    WrapBitsId(b, Bits(z, t.rank), !t.uns);
  }

  /** The value of `(x iop c1) outer c2` has the low bits of the exact value. */
  lemma NestedCong(z: Sizes, outer: Op, iop: Op, x: Typed, c1: Typed, c2: Typed)
    requires z.Valid() && outer in {Add, Sub, Mul} && iop in {Add, Sub, Mul} && c1.t.rank == c2.t.rank
    ensures
      var n := Bits(z, MaxRank(x.t.rank, c1.t.rank));
      Cong(Machine(z, outer, Machine(z, iop, x, c1), c2).v, Apply(outer, Apply(iop, x.v, c1.v), c2.v), n)
  {
    hide Bits, Cong, Machine;
    var n := Bits(z, MaxRank(x.t.rank, c1.t.rank));
    CommonRank(z, x.t, c1.t);
    CongRefl(x.v, n);
    MachineCong(z, iop, x, c1, x.v, n);
    var y := Machine(z, iop, x, c1);
    MachineType(z, iop, x, c1);
    CommonRank(z, y.t, c2.t);
    MachineCong(z, outer, y, c2, Apply(iop, x.v, c1.v), n);
  }

  lemma CommonRank(z: Sizes, a: Type, b: Type)
    requires z.Valid()
    ensures Common(z, a, b).rank == MaxRank(a.rank, b.rank)
  {
  }

  lemma MachineType(z: Sizes, op: Op, x: Typed, c: Typed)
    requires z.Valid() && op in {Add, Sub, Mul}
    ensures Machine(z, op, x, c).t == Common(z, x.t, c.t)
    ensures Fits(z, Machine(z, op, x, c).v, Machine(z, op, x, c).t)
  {
  }

  /** A replaced expression has the same type and the same value, for every `x`. */
  lemma NestedReplaced(z: Sizes, outer: Op, iop: Op, l1: Lit, l2: Lit, x: Typed)
    requires z.Valid() && NestedFold(z, outer, iop, l1, l2).Replaced?
    ensures
      var f := NestedFold(z, outer, iop, l1, l2);
      f.op in {Add, Sub, Mul} && outer in {Add, Sub, Mul} && iop in {Add, Sub, Mul} &&
      Machine(z, f.op, x, LiteralType(z, f.c3)) ==
      Machine(z, outer, Machine(z, iop, x, LiteralType(z, l1)), LiteralType(z, l2))
  {
    hide LiteralType, Bits, Common, Pow2, LowBits, WrapBits, Cong, Machine, Rule, Apply, WrapTo;
    var f := NestedFold(z, outer, iop, l1, l2);
    var c1, c2 := LiteralType(z, l1), LiteralType(z, l2);
    LiteralFits(z, l1);
    LiteralFits(z, l2);
    WrapIsConvert(z, c1.v, c1.t);
    WrapIsConvert(z, c2.v, c2.t);
    var t := Common(z, c1.t, c2.t);
    MintRead(z, f.c3.value, t);
    var c3 := LiteralType(z, f.c3);
    RuleExact(outer, iop, x.v, c1.v, c2.v);
    assert Apply(f.op, x.v, c3.v) == Apply(outer, Apply(iop, x.v, c1.v), c2.v);
    var y := Machine(z, iop, x, c1);
    var a, b := Machine(z, f.op, x, c3), Machine(z, outer, y, c2);
    MachineType(z, iop, x, c1);
    MachineType(z, f.op, x, c3);
    MachineType(z, outer, y, c2);
    CommonAssoc(z, x.t, c1.t, c2.t);
    CommonRank(z, x.t, t);
    CommonRank(z, c1.t, c2.t);
    var n := Bits(z, MaxRank(x.t.rank, c1.t.rank));
    NestedCong(z, outer, iop, x, c1, c2);
    CongRefl(x.v, n);
    MachineCong(z, f.op, x, c3, x.v, n);
    CongBoth(a.v, b.v, Apply(f.op, x.v, c3.v), n);
    SameValue(z, a.v, b.v, a.t);
  }

  /** The rewritten expression is exact over the integers. */
  lemma RuleExact(outer: Op, iop: Op, x: int, c1: int, c2: int)
    requires Rule(outer, iop, c1, c2).Some?
    ensures
      var r := Rule(outer, iop, c1, c2).value;
      Apply(r.0, x, r.1) == Apply(outer, Apply(iop, x, c1), c2) &&
      outer in {Add, Sub, Mul} && iop in {Add, Sub, Mul} && r.0 in {Add, Sub, Mul} &&
      Apply(Sub, x, r.1) == Apply(Add, x, -r.1) && Apply(Add, x, 0) == Apply(Sub, x, 0) == x
  {
    assert (x * c1) * c2 == x * (c1 * c2);
  }

  lemma CongBoth(a: int, b: int, c: int, n: nat)
    requires Cong(a, c, n) && Cong(b, c, n)
    ensures Cong(a, b, n)
  {
  }

  /** The type of an operand: one of `Type`, or a narrower one of so many bits, a bit-field or
      `_Bool` among them. */
  datatype Own = Full(t: Type) | Small(bits: nat, uns: bool)

  predicate OwnFits(z: Sizes, v: int, o: Own)
    requires z.Valid()
  {
    match o
    case Full(t) => Fits(z, v, t)
    case Small(n, uns) => 1 <= n <= Bits(z, INT) && if uns then 0 <= v < Pow2(n) else -Pow2(n - 1) <= v < Pow2(n - 1)
  }

  /** The integer promotions. */
  function Promoted(z: Sizes, o: Own): Type
    requires z.Valid()
  {
    match o
    case Full(t) => t
    case Small(n, uns) => Type(INT, uns && n == Bits(z, INT))
  }

  lemma PromotedFits(z: Sizes, v: int, o: Own)
    requires z.Valid() && OwnFits(z, v, o)
    ensures Fits(z, v, Promoted(z, o))
  {
    hide Pow2, Bits;
    if o.Small? {
      if o.bits < Bits(z, INT) { Pow2Mono(o.bits, Bits(z, INT) - 1); }
      Pow2Mono(o.bits - 1, Bits(z, INT) - 1);
    }
  }

  /** `x` alone in place of the expression: the value stays exactly when the common type of `x` and
      the constants holds it, and the type with it exactly when `x` is of that common type, and so
      of no type narrower than `int`. */
  lemma NestedAlone(z: Sizes, outer: Op, iop: Op, l1: Lit, l2: Lit, o: Own, v: int)
    requires z.Valid() && NestedFold(z, outer, iop, l1, l2).Alone? && OwnFits(z, v, o)
    ensures outer in {Add, Sub, Mul} && iop in {Add, Sub, Mul}
    ensures
      var c1, c2 := LiteralType(z, l1), LiteralType(z, l2);
      var t := Common(z, Promoted(z, o), Common(z, c1.t, c2.t));
      var whole := Machine(z, outer, Machine(z, iop, Typed(Promoted(z, o), v), c1), c2);
      whole.t == t && (whole.v == v <==> Fits(z, v, t)) && (Full(whole.t) == o && whole.v == v <==> o == Full(t))
  {
    hide LiteralType, Bits, Common, Pow2, LowBits, WrapBits, Cong, Machine, Rule, Apply, WrapTo, Fits, OwnFits;
    PromotedFits(z, v, o);
    var c1, c2, x := LiteralType(z, l1), LiteralType(z, l2), Typed(Promoted(z, o), v);
    LiteralFits(z, l1);
    LiteralFits(z, l2);
    WrapIsConvert(z, c1.v, c1.t);
    WrapIsConvert(z, c2.v, c2.t);
    RuleExact(outer, iop, x.v, c1.v, c2.v);
    var y := Machine(z, iop, x, c1);
    var b := Machine(z, outer, y, c2);
    MachineType(z, iop, x, c1);
    MachineType(z, outer, y, c2);
    CommonAssoc(z, x.t, c1.t, c2.t);
    CommonRank(z, x.t, Common(z, c1.t, c2.t));
    CommonRank(z, c1.t, c2.t);
    NestedCong(z, outer, iop, x, c1, c2);
    if Fits(z, v, b.t) { SameValue(z, b.v, v, b.t); }
  }

  /** `(i + 1u) - 1u` becomes `i`, which loses the unsigned type. */
  lemma AloneLosesType()
    ensures
      var z, one := Sizes(2, 4, 8), Lit(1, false, false, true, false);
      z.Valid() && NestedFold(z, Sub, Add, one, one) == Alone
      && Machine(z, Sub, Machine(z, Add, Typed(Type(INT, false), 5), LiteralType(z, one)), LiteralType(z, one)).t ==
           Type(INT, true)
  {
    var z, one := Sizes(2, 4, 8), Lit(1, false, false, true, false);
    Widths();
    Unroll3(z, one, Ranks(one));
    assert LiteralType(z, one) == Typed(Type(INT, true), 1);
    WrapIsConvert(z, 1, Type(INT, true));
  }
}
