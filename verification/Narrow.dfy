/** Index narrowing: a 32-bit index is computed in 16 bits, because a pointer holds 16 bits. */
module Narrow {
  import opened Wrappers
  import opened CInt
  import IntFacts

  /** An integer type, or a type that is not an integer type. */
  datatype Ty = Int(c: CType) | Other

  /** `Rest` stands for the operators that the pass does not go into. */
  datatype Op = Add | Sub | Mul | Bits(b: BitOp) | Shl | Rest(k: nat, compares: bool)

  datatype UnOp = Plus | Minus | Compl

  /** A `Leaf` is evaluated with an effect: a variable, a call, a load. */
  datatype X =
    | Lit(v: int, c: CType)
    | Leaf(id: nat, t: Ty, vol: bool)
    | Bin(op: Op, a: X, b: X)
    | Un(uop: UnOp, a: X)
    | Cast(to: Ty, a: X)

  function Type(e: X): Ty {
    match e
    case Lit(_, c) => Int(c)
    case Leaf(_, t, _) => t
    case Bin(op, a, b) =>
      if Type(a).Other? || Type(b).Other? then Other
      else if op.Shl? then Int(Promote(Type(a).c))
      else if op.Rest? && op.compares then Int(I)
      else Int(Arith(Type(a).c, Type(b).c))
    case Un(_, a) => if Type(a).Other? then Other else Int(Promote(Type(a).c))
    case Cast(t, _) => t
  }

  // ---- evaluation ------------------------------------------------------------------------------

  /** The value of a leaf after the leaves evaluated so far, and the values that the arithmetic
      of integers does not give. */
  datatype World = World(leaf: (nat, seq<nat>) -> int, rest: (Op, int, int) -> int, other: (X, int, int) -> int)

  /** `v` in the type `t`. */
  function In(t: Ty, v: int): int { if t.Int? then Wrap(v, t.c) else v }

  /** The exact result of an operator that has one for all operands. */
  function OpOf(op: Op, a: int, b: int): int {
    match op
    case Add => a + b
    case Sub => a - b
    case Mul => a * b
    case Bits(o) => Bitwise(o, a, b)
    case _ => 0
  }

  /** The operators on values already converted to their type. */
  function Apply(w: World, op: Op, a: int, b: int, bits: nat): int {
    if op.Rest? || (op.Shl? && !(0 <= b < bits)) then w.rest(op, a, b)
    else if op.Shl? then ShiftLeft(a, b)
    else OpOf(op, a, b)
  }

  function ApplyUn(op: UnOp, a: int): int { match op case Plus => a case Minus => -a case Compl => -1 - a }

  /** The operators: sums, differences and products are exact, the others go bit by bit. */
  lemma OpsAre(o: BitOp, a: int, b: int, v: int, k: nat)
    ensures OpOf(Add, a, b) == v <==> v - b == a
    ensures OpOf(Sub, a, b) == v <==> v + b == a
    ensures OpOf(Mul, a, b) == if b >= 0 then IntFacts.Copies(a, b) else -IntFacts.Copies(a, -b)
    ensures ApplyUn(Minus, a) == v <==> v + a == 0
    ensures IntFacts.Has(ApplyUn(Compl, a), k) <==> !IntFacts.Has(a, k)
    ensures ApplyUn(Plus, a) == a
    ensures
      var p, q := IntFacts.Has(a, k), IntFacts.Has(b, k);
      IntFacts.Has(OpOf(Bits(o), a, b), k) <==> if o == And then p && q else if o == Or then p || q else p != q
  {
    hide Bitwise, IntFacts.Has;
    IntFacts.CopiesAre(a, if b >= 0 then b else -b);
    IntFacts.BitsAre(a, b, k);
  }

  /** The value of an expression and the leaves evaluated, in order.  Arithmetic wraps to the type
      of the operator. */
  function Eval(w: World, e: X, h: seq<nat>): (int, seq<nat>) {
    match e
    case Lit(v, c) => (Wrap(v, c), h)
    case Leaf(id, t, _) => (In(t, w.leaf(id, h)), h + [id])
    case Bin(op, a, b) =>
      var x := Eval(w, a, h);
      var y := Eval(w, b, x.1);
      (if Type(e).Other? then w.other(e, x.0, y.0)
       else if op.Rest? then In(Type(e), w.rest(op, x.0, y.0))
       else
         var t := Type(e).c;
         Wrap(Apply(w, op, Wrap(x.0, t), if op.Shl? then y.0 else Wrap(y.0, t), t.Bits()), t), y.1)
    case Un(op, a) =>
      var x := Eval(w, a, h);
      (if Type(e).Other? then w.other(e, x.0, 0) else Wrap(ApplyUn(op, Wrap(x.0, Type(e).c)), Type(e).c), x.1)
    case Cast(t, a) =>
      var x := Eval(w, a, h);
      (if Type(a).Other? then In(t, w.other(e, x.0, 0)) else In(t, x.0), x.1)
  }

  // ---- the pass ---------------------------------------------------------------------------------

  /** The result of an operator in a type of 16 or 32 bits. */
  function Reduce(t: Ty, v: int): Option<int> {
    if t.Int? && t.c.Bits() in {16, 32} && !t.c.BF? then Some(Wrap(v, t.c)) else None
  }

  /** The value of a constant expression, as the pass finds it. */
  function ConstOf(e: X): Option<int> {
    match e
    case Lit(v, _) => Some(v)
    case Leaf(_, _, _) => None
    case Un(op, a) => var v := ConstOf(a); if v.None? then None else Reduce(Type(e), ApplyUn(op, v.value))
    case Cast(t, a) =>
      var v := ConstOf(a);
      if v.None? || t.Other? || t.c.Bits() !in {8, 16, 32} || t.c.BF? then None else Some(Wrap(v.value, t.c))
    case Bin(op, a, b) =>
      var u, v := ConstOf(a), ConstOf(b);
      if !(op.Add? || op.Sub? || op.Mul? || op.Bits?) || u.None? || v.None? then None
      else Reduce(Type(e), OpOf(op, u.value, v.value))
  }

  /** A leaf, converted to `unsigned`; `None` gives the index up. */
  function NarrowLeaf(e: X): Option<X> {
    var t := Type(e);
    if t.Other? || t.c.Bits() > 32 then None
    else if t.c == U && !(e.Leaf? && e.vol) then Some(e)
    else Some(Cast(Int(U), e))
  }

  /** The expression in 16 bits; `None` gives the index up. */
  function NarrowTo(e: X): Option<X> {
    var c := ConstOf(e);
    if c.Some? then Some(Lit(LowBits(c.value, 16), U))
    else
      match e
      case Bin(op, a, b) =>
        if op.Rest? then NarrowLeaf(e)
        else if op.Shl? then
          var k := ConstOf(b);
          if k.None? || !(0 <= k.value <= 15) then NarrowLeaf(e)
          else var x := NarrowTo(a); if x.None? then None else Some(Bin(op, x.value, Lit(k.value, I)))
        else
          var x, y := NarrowTo(a), NarrowTo(b);
          if x.None? || y.None? then None else Some(Bin(op, x.value, y.value))
      case Un(op, a) => var x := NarrowTo(a); if x.None? then None else Some(Un(op, x.value))
      case Cast(t, a) => if t.Int? && t.c.Bits() >= 16 && !t.c.BF? then NarrowTo(a) else NarrowLeaf(e)
      case _ => NarrowLeaf(e)
  }

  /** Literals alone, under operators of 16 or 32 bits and casts to 8, 16 or 32. */
  predicate Constant(e: X) {
    match e
    case Lit(_, _) => true
    case Leaf(_, _, _) => false
    case Un(_, a) => Constant(a) && Whole(Type(e), {16, 32})
    case Cast(t, a) => Constant(a) && Whole(t, {8, 16, 32})
    case Bin(op, a, b) => !op.Rest? && !op.Shl? && Constant(a) && Constant(b) && Whole(Type(e), {16, 32})
  }

  predicate Whole(t: Ty, sizes: set<nat>) { t.Int? && !t.c.BF? && t.c.Bits() in sizes }

  /** Narrowing does not go into the expression. */
  predicate AllWhole(e: X) {
    match e
    case Bin(op, _, b) => op.Rest? || (op.Shl? && !(ConstOf(b).Some? && 0 <= ConstOf(b).value <= 15))
    case Cast(t, _) => !(t.Int? && t.c.Bits() >= 16 && !t.c.BF?)
    case Leaf(_, _, _) => true
    case _ => false
  }

  /** The subexpressions that narrowing keeps whole. */
  function Kept(e: X): set<X> {
    if Constant(e) then {}
    else if AllWhole(e) then {e}
    else
      match e
      case Bin(op, a, b) => if op.Shl? then Kept(a) else Kept(a) + Kept(b)
      case Un(_, a) => Kept(a)
      case Cast(_, a) => Kept(a)
      case _ => {}
  }

  lemma {:induction false} ConstWhen(e: X)
    ensures ConstOf(e).Some? <==> Constant(e)
    decreases e
  {
    hide Wrap, OpOf, CType.Bits, ApplyUn, Promote, Arith;
    match e
    case Bin(_, a, b) =>
      ConstWhen(a);
      ConstWhen(b);
    case Un(_, a) => ConstWhen(a);
    case Cast(_, a) => ConstWhen(a);
    case _ =>
  }

  predicate TooWide(x: X) { Type(x).Other? || Type(x).c.Bits() > 32 }

  ghost predicate Wide(s: set<X>) { exists x :: x in s && TooWide(x) }

  /** An index is given up exactly when such a subexpression is no integer of at most 32 bits. */
  lemma {:induction false} GivesUp(e: X)
    ensures NarrowTo(e).None? <==> Wide(Kept(e))
    decreases e
  {
    hide ConstOf, CType.Bits, Type, Constant, Wide, NarrowLeaf, Kept, NarrowTo;
    ConstWhen(e);
    WideSets(e, {}, {});
    KeptOne(e);
    if e.Bin? {
      GivesUp(e.a);
      GivesUp(e.b);
      WideSets(e, Kept(e.a), Kept(e.b));
    } else if e.Un? || e.Cast? {
      GivesUp(e.a);
    }
  }

  /** What is kept of an expression, from what is kept of its operands. */
  lemma KeptOne(e: X)
    requires ConstOf(e).Some? <==> Constant(e)
    ensures ConstOf(e).Some? || e.Lit? ==> Kept(e) == {} && NarrowTo(e).Some?
    ensures ConstOf(e).None? && !e.Lit? && AllWhole(e) ==> Kept(e) == {e} && NarrowTo(e) == NarrowLeaf(e)
    ensures ConstOf(e).None? && !e.Lit? && !AllWhole(e) ==>
      if e.Bin? && !e.op.Shl? then
        Kept(e) == Kept(e.a) + Kept(e.b) && (NarrowTo(e).None? <==> NarrowTo(e.a).None? || NarrowTo(e.b).None?)
      else Kept(e) == Kept(e.a) && (NarrowTo(e).None? <==> NarrowTo(e.a).None?)
  {
    hide CType.Bits, Type, Constant, NarrowLeaf, LowBits;
    if e.Lit? { LitConst(e); }
  }

  lemma WideSets(e: X, a: set<X>, b: set<X>)
    ensures (Wide(a + b) <==> Wide(a) || Wide(b)) && !Wide({}) && (Wide({e}) <==> NarrowLeaf(e).None?)
  {
    hide CType.Bits, Type;
    assert e in {e};
    if Wide(a) {
      var x :| x in a && TooWide(x);
      assert x in a + b;
    }
    if Wide(b) {
      var x :| x in b && TooWide(x);
      assert x in a + b;
    }
  }

  lemma LitConst(e: X)
    requires e.Lit?
    ensures ConstOf(e) == Some(e.v)
  {
  }

  // ---- low bits -----------------------------------------------------------------------------------

  lemma CongTrans(a: int, b: int, c: int, n: nat)
    requires Cong(a, b, n) && Cong(b, c, n)
    ensures Cong(a, c, n) && Cong(b, a, n)
  {
  }

  lemma CongSame(a: int, n: nat)
    ensures Cong(a, a, n)
  {
  }

  lemma WrapCong(v: int, t: CType, n: nat)
    requires n <= t.Bits()
    ensures Cong(Wrap(v, t), v, n)
  {
    WrapLow(v, t.Bits(), t.Signed(), n);
  }

  /** Conversion to a type depends on its bits only. */
  lemma WrapSame(a: int, b: int, t: CType)
    requires Cong(a, b, t.Bits())
    ensures Wrap(a, t) == Wrap(b, t)
  {
  }

  lemma {:induction false} ShiftCong(a: int, b: int, k: nat, n: nat)
    requires Cong(a, b, n)
    ensures Cong(ShiftLeft(a, k), ShiftLeft(b, k), n)
    decreases k
  {
    hide Cong;
    if k > 0 {
      ShiftCong(a, b, k - 1, n);
      CongSum(ShiftLeft(a, k - 1), ShiftLeft(b, k - 1), ShiftLeft(a, k - 1), ShiftLeft(b, k - 1), n);
    }
  }

  /** The operators that the pass goes into depend on the low bits only. */
  lemma ApplyCong(w: World, op: Op, a: int, a': int, b: int, b': int, i: nat, j: nat, n: nat)
    requires !op.Rest? && !op.Shl? && Cong(a, a', n) && Cong(b, b', n)
    ensures Cong(Apply(w, op, a, b, i), Apply(w, op, a', b', j), n)
  {
    hide Cong;
    match op
    case Add => CongSum(a, a', b, b', n);
    case Sub => CongSum(a, a', b, b', n);
    case Mul => CongProduct(a, a', b, b', n);
    case Bits(o) => BitsCong(o, a, a', b, b', n);
  }

  lemma BitsCong(o: BitOp, a: int, a': int, b: int, b': int, n: nat)
    requires Cong(a, a', n) && Cong(b, b', n)
    ensures Cong(Bitwise(o, a, b), Bitwise(o, a', b'), n)
  {
    BitwiseLow(o, a, b, n);
    BitwiseLow(o, a', b', n);
  }

  lemma UnCong(op: UnOp, a: int, b: int, n: nat)
    requires Cong(a, b, n)
    ensures Cong(ApplyUn(op, a), ApplyUn(op, b), n)
  {
    hide Cong;
    CongSame(0, n);
    CongSame(-1, n);
    CongSum(0, 0, a, b, n);
    CongSum(-1, -1, a, b, n);
  }

  lemma AtLeast16(t: CType, u: CType)
    ensures Promote(t).Bits() >= 16 && Arith(t, u).Bits() >= 16 && Promote(U) == U && Arith(U, U) == U
  {
  }

  // ---- constants ----------------------------------------------------------------------------------

  /** Every literal is a value of its type. */
  predicate Literals(e: X) {
    match e
    case Lit(v, c) => c.Holds(v)
    case Leaf(_, _, _) => true
    case Bin(_, a, b) => Literals(a) && Literals(b)
    case Un(_, a) => Literals(a)
    case Cast(_, a) => Literals(a)
  }

  /** The constant that the pass finds is the value, and has no effect. */
  lemma {:induction false} ConstExact(w: World, e: X, h: seq<nat>)
    requires Literals(e) && ConstOf(e).Some?
    ensures Type(e).Int? && Eval(w, e, h) == (ConstOf(e).value, h)
    decreases e
  {
    hide Wrap, OpOf, CType.Bits, Apply, ApplyUn, Promote, Arith, CType.Holds;
    match e
    case Lit(v, c) => WrapId(v, c);
    case Un(op, a) =>
      ConstExact(w, a, h);
      var t, v := Type(e).c, ConstOf(a).value;
      WrapCong(v, t, t.Bits());
      UnCong(op, Wrap(v, t), v, t.Bits());
      WrapSame(ApplyUn(op, Wrap(v, t)), ApplyUn(op, v), t);
    case Cast(_, a) => ConstExact(w, a, h);
    case Bin(op, a, b) =>
      ConstExact(w, a, h);
      ConstExact(w, b, h);
      var t, u, v := Type(e).c, ConstOf(a).value, ConstOf(b).value;
      WrapCong(u, t, t.Bits());
      WrapCong(v, t, t.Bits());
      ApplyCong(w, op, Wrap(u, t), u, Wrap(v, t), v, t.Bits(), t.Bits(), t.Bits());
      WrapSame(Apply(w, op, Wrap(u, t), Wrap(v, t), t.Bits()), Apply(w, op, u, v, t.Bits()), t);
      ApplyIs(w, op, u, v, t.Bits());
  }

  lemma ApplyIs(w: World, op: Op, u: int, v: int, n: nat)
    requires op.Add? || op.Sub? || op.Mul? || op.Bits?
    ensures Apply(w, op, u, v, n) == OpOf(op, u, v)
  {
  }

  // ---- the homomorphism ---------------------------------------------------------------------------

  /** `n` is unsigned, evaluates the leaves of `e` in the same order, and has its value modulo
      65536. */
  ghost predicate Narrows(w: World, e: X, n: X, h: seq<nat>) {
    Type(e).Int? && Type(n) == Int(U) && Eval(w, n, h).1 == Eval(w, e, h).1 &&
    Cong(Eval(w, n, h).0, Eval(w, e, h).0, 16)
  }

  lemma LeafNarrows(w: World, e: X, h: seq<nat>)
    requires NarrowLeaf(e).Some?
    ensures Narrows(w, e, NarrowLeaf(e).value, h)
  {
    hide Eval, Cong, Wrap;
    var x := Eval(w, e, h);
    CongSame(x.0, 16);
    WrapCong(x.0, U, 16);
    CastIs(w, Int(U), e, h);
  }

  lemma CastIs(w: World, t: Ty, a: X, h: seq<nat>)
    requires Type(a).Int?
    ensures var x := Eval(w, a, h); Eval(w, Cast(t, a), h) == (In(t, x.0), x.1)
  {
    hide Type, Wrap, Apply, ApplyUn;
  }

  /** Narrowing keeps the value modulo 65536, the leaves and their order. */
  lemma {:induction false} NarrowSame(w: World, e: X, h: seq<nat>)
    requires Literals(e) && NarrowTo(e).Some?
    ensures Narrows(w, e, NarrowTo(e).value, h)
    decreases e
  {
    hide Eval, Cong, Wrap, CType.Bits, ConstOf, Narrows, LowBits, Apply, ApplyUn, NarrowLeaf, CType.Holds;
    if ConstOf(e).Some? {
      ConstNarrows(w, e, h);
    } else {
      match e
      case Bin(op, a, b) => BinNarrows(w, op, a, b, h);
      case Un(op, a) =>
        NarrowSame(w, a, h);
        UnNarrows(w, op, a, NarrowTo(a).value, h);
      case Cast(t, a) =>
        if t.Int? && t.c.Bits() >= 16 && !t.c.BF? {
          NarrowSame(w, a, h);
          CastNarrows(w, t, a, NarrowTo(a).value, h);
        } else {
          LeafNarrows(w, e, h);
        }
      case _ => LeafNarrows(w, e, h);
    }
  }

  lemma ConstNarrows(w: World, e: X, h: seq<nat>)
    requires Literals(e) && ConstOf(e).Some?
    ensures Narrows(w, e, Lit(LowBits(ConstOf(e).value, 16), U), h)
  {
    hide ConstOf, Wrap, LowBits, CType.Holds;
    ConstExact(w, e, h);
    var c := ConstOf(e).value;
    var k := LowBits(c, 16);
    WrapCong(k, U, 16);
    LowCong(c);
    CongTrans(Wrap(k, U), k, c, 16);
  }

  lemma LowCong(c: int)
    ensures Cong(LowBits(c, 16), c, 16)
  {
    LowBitsId(LowBits(c, 16), 16);
  }

  lemma CastNarrows(w: World, t: Ty, a: X, n: X, h: seq<nat>)
    requires Narrows(w, a, n, h) && t.Int? && t.c.Bits() >= 16
    ensures Narrows(w, Cast(t, a), n, h)
  {
    hide Eval, Cong, Wrap, CType.Bits;
    CastIs(w, t, a, h);
    var x := Eval(w, a, h).0;
    WrapCong(x, t.c, 16);
    CongSame(x, 16);
    CongTrans(Wrap(x, t.c), x, x, 16);
    CongTrans(Eval(w, n, h).0, x, Wrap(x, t.c), 16);
  }

  lemma UnNarrows(w: World, op: UnOp, a: X, n: X, h: seq<nat>)
    requires Narrows(w, a, n, h)
    ensures Narrows(w, Un(op, a), Un(op, n), h)
  {
    hide Cong, Wrap, CType.Bits, ApplyUn, Promote, Eval;
    UnValue(w, op, a, h);
    UnValue(w, op, n, h);
    var t, x, y := Promote(Type(a).c), Eval(w, a, h).0, Eval(w, n, h).0;
    AtLeast16(Type(a).c, U);
    Outer(y, x, t);
    UnCong(op, Wrap(y, U), Wrap(x, t), 16);
    Outer(ApplyUn(op, Wrap(y, U)), ApplyUn(op, Wrap(x, t)), t);
  }

  /** Both results wrapped to their types. */
  lemma Outer(y: int, x: int, t: CType)
    requires Cong(y, x, 16) && t.Bits() >= 16
    ensures Cong(Wrap(y, U), Wrap(x, t), 16)
  {
    hide Cong, Wrap, CType.Bits;
    UBits();
    WrapCong(x, t, 16);
    WrapCong(y, U, 16);
    CongSame(x, 16);
    CongTrans(Wrap(x, t), x, x, 16);
    CongTrans(y, x, Wrap(x, t), 16);
    CongTrans(Wrap(y, U), y, Wrap(x, t), 16);
  }

  lemma UBits()
    ensures U.Bits() == 16
  {
  }

  lemma {:induction false} BinNarrows(w: World, op: Op, a: X, b: X, h: seq<nat>)
    requires Literals(Bin(op, a, b)) && ConstOf(Bin(op, a, b)).None? && NarrowTo(Bin(op, a, b)).Some?
    ensures Narrows(w, Bin(op, a, b), NarrowTo(Bin(op, a, b)).value, h)
    decreases Bin(op, a, b), 0
  {
    hide Eval, Cong, Wrap, CType.Bits, ConstOf, Narrows, LowBits, Apply, NarrowLeaf, CType.Holds;
    if op.Rest? || (op.Shl? && (ConstOf(b).None? || !(0 <= ConstOf(b).value <= 15))) {
      LeafNarrows(w, Bin(op, a, b), h);
    } else {
      NarrowSame(w, a, h);
      var x := NarrowTo(a).value;
      if op.Shl? {
        ShiftNarrows(w, a, b, x, h);
      } else {
        EvalSame(w, a, x, h);
        var h1 := Eval(w, a, h).1;
        NarrowSame(w, b, h1);
        OpNarrows(w, op, a, b, x, NarrowTo(b).value, h);
      }
    }
  }

  lemma EvalSame(w: World, e: X, n: X, h: seq<nat>)
    requires Narrows(w, e, n, h)
    ensures Eval(w, n, h).1 == Eval(w, e, h).1
  {
  }

  lemma BinValue(w: World, op: Op, a: X, b: X, h: seq<nat>)
    requires Type(a).Int? && Type(b).Int? && !op.Rest? && !op.Shl?
    ensures
      var t, x := Arith(Type(a).c, Type(b).c), Eval(w, a, h);
      var y := Eval(w, b, x.1);
      Type(Bin(op, a, b)) == Int(t) &&
      Eval(w, Bin(op, a, b), h) == (Wrap(Apply(w, op, Wrap(x.0, t), Wrap(y.0, t), t.Bits()), t), y.1)
  {
    hide Arith, Wrap, Apply, CType.Bits;
  }

  lemma UnValue(w: World, op: UnOp, a: X, h: seq<nat>)
    requires Type(a).Int?
    ensures
      var t, x := Promote(Type(a).c), Eval(w, a, h);
      Type(Un(op, a)) == Int(t) && Eval(w, Un(op, a), h) == (Wrap(ApplyUn(op, Wrap(x.0, t)), t), x.1)
  {
    hide Promote, Wrap, ApplyUn;
  }

  lemma OpNarrows(w: World, op: Op, a: X, b: X, x: X, y: X, h: seq<nat>)
    requires !op.Rest? && !op.Shl? && Narrows(w, a, x, h) && Narrows(w, b, y, Eval(w, a, h).1)
    ensures Narrows(w, Bin(op, a, b), Bin(op, x, y), h)
  {
    hide Cong, Wrap, CType.Bits, Apply, Arith, Eval;
    BinValue(w, op, a, b, h);
    BinValue(w, op, x, y, h);
    var t := Arith(Type(a).c, Type(b).c);
    AtLeast16(Type(a).c, Type(b).c);
    var h1 := Eval(w, a, h).1;
    var va, vb, vx, vy := Eval(w, a, h).0, Eval(w, b, h1).0, Eval(w, x, h).0, Eval(w, y, h1).0;
    Outer(vx, va, t);
    Outer(vy, vb, t);
    ApplyCong(w, op, Wrap(vx, U), Wrap(va, t), Wrap(vy, U), Wrap(vb, t), U.Bits(), t.Bits(), 16);
    Outer(Apply(w, op, Wrap(vx, U), Wrap(vy, U), U.Bits()), Apply(w, op, Wrap(va, t), Wrap(vb, t), t.Bits()), t);
  }

  lemma ShiftNarrows(w: World, a: X, b: X, x: X, h: seq<nat>)
    requires Narrows(w, a, x, h) && Literals(b) && ConstOf(b).Some? && 0 <= ConstOf(b).value <= 15
    ensures Narrows(w, Bin(Shl, a, b), Bin(Shl, x, Lit(ConstOf(b).value, I)), h)
  {
    hide Cong, Wrap, CType.Bits, Promote, ConstOf, ShiftLeft, CType.Holds;
    var t, k := Promote(Type(a).c), ConstOf(b).value;
    AtLeast16(Type(a).c, U);
    UBits();
    var h1 := Eval(w, a, h).1;
    ConstExact(w, b, h1);
    SmallLit(k);
    var va, vx := Eval(w, a, h).0, Eval(w, x, h).0;
    Outer(vx, va, t);
    ShiftCong(Wrap(vx, U), Wrap(va, t), k, 16);
    assert Eval(w, Bin(Shl, a, b), h) == (Wrap(ShiftLeft(Wrap(va, t), k), t), h1);
    assert Eval(w, Lit(k, I), h1) == (k, h1) && Eval(w, x, h) == (vx, h1);
    assert Type(Lit(k, I)) == Int(I) && Type(Bin(Shl, x, Lit(k, I))) == Int(U);
    assert Apply(w, Shl, Wrap(vx, U), k, U.Bits()) == ShiftLeft(Wrap(vx, U), k);
    assert Eval(w, Bin(Shl, x, Lit(k, I)), h) == (Wrap(ShiftLeft(Wrap(vx, U), k), U), h1);
    Outer(ShiftLeft(Wrap(vx, U), k), ShiftLeft(Wrap(va, t), k), t);
  }

  lemma SmallLit(k: int)
    requires 0 <= k <= 15
    ensures Wrap(k, I) == k
  {
    Widths();
    WrapId(k, I);
  }

  /** The address of an element does not change when its index is narrowed: a pointer holds the
      low 16 bits. */
  lemma AddressSame(w: World, e: X, h: seq<nat>, base: int, size: int)
    requires Literals(e) && NarrowTo(e).Some?
    ensures var n := NarrowTo(e).value;
      Eval(w, n, h).1 == Eval(w, e, h).1 &&
      LowBits(base + Eval(w, n, h).0 * size, 16) == LowBits(base + Eval(w, e, h).0 * size, 16)
    ensures 0 <= Eval(w, NarrowTo(e).value, h).0 < 0x1_0000
  {
    hide Eval, NarrowTo, Literals, Wrap, LowBits;
    NarrowSame(w, e, h);
    var n := NarrowTo(e).value;
    var x, y := Eval(w, n, h).0, Eval(w, e, h).0;
    CongSame(size, 16);
    CongProduct(x, y, size, size, 16);
    CongSame(base, 16);
    CongSum(base, base, x * size, y * size, 16);
    Unsigned(w, n, h);
  }

  /** A value of type `unsigned`. */
  lemma Unsigned(w: World, n: X, h: seq<nat>)
    requires Type(n) == Int(U)
    ensures 0 <= Eval(w, n, h).0 < 0x1_0000
  {
    Widths();
    hide Pow2, LowBits, Apply, ApplyUn, Bitwise;
    assert U.Lo() == 0 && U.Hi() == 0xFFFF;
  }
}
