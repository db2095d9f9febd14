/** What the operators of the constant folder compute, apart from the folder. */
module FoldMeans {
  import opened Wrappers
  import opened CInt
  import opened IntFacts
  import opened Fold

  /** Sums, differences and products: exact, for values of any size. */
  lemma SumIs(a: int, b: int, v: int)
    ensures Result(Add, a, b) == Some(v) <==> v - b == a
    ensures Result(Sub, a, b) == Some(v) <==> v + b == a
    ensures Result(Mul, a, b) == Some(if b >= 0 then Copies(a, b) else -Copies(a, -b))
  {
    CopiesAre(a, if b >= 0 then b else -b);
  }

  /** Division truncates: quotient and remainder are the one pair with a remainder smaller than the
      divisor and of the sign of the dividend, and there is none exactly for the divisor 0. */
  lemma QuotientIs(a: int, b: int, q: int, r: int)
    ensures (Result(Div, a, b).None? <==> b == 0) && (Result(Mod, a, b).None? <==> b == 0)
    ensures b != 0 ==> (Result(Div, a, b) == Some(q) && Result(Mod, a, b) == Some(r) <==> Divides(a, b, q, r))
  {
    hide TDiv, Divides;
    if b != 0 { DivisionIs(a, b, q, r); }
  }

  /** The bitwise operators, bit by bit. */
  lemma BitsResult(o: BitOp, a: int, b: int, k: nat)
    ensures
      var x := Result(BitsOp(o), a, b);
      x.Some? &&
      (Has(x.value, k) <==>
        if o == And then Has(a, k) && Has(b, k) else if o == Or then Has(a, k) || Has(b, k) else Has(a, k) != Has(b, k))
    ensures Has(UnaryResult(Complement, a), k) <==> !Has(a, k)
  {
    hide Bitwise, Has;
    BitsAre(a, b, k);
  }

  /** A comparison is 1 exactly when it holds, and 0 otherwise. */
  lemma ComparisonIs(op: Op, a: int, b: int)
    requires IsComparison(op)
    ensures Compare(op, a, b) == 0 || Compare(op, a, b) == 1
    ensures Compare(op, a, b) == 1 <==>
      (a < b && op in {Lt, Le, Ne}) || (a == b && op in {Le, Ge, Eq}) || (a > b && op in {Gt, Ge, Ne})
  {
  }

  lemma SignIs(a: int, v: int)
    ensures UnaryResult(Minus, a) == v <==> v + a == 0
    ensures UnaryResult(Plus, a) == v <==> v == a
  {
  }

  /** The values of the types with the sizes 2, 4 and 8. */
  lemma Ranges(v: int)
    ensures
      var z := Sizes(2, 4, 8);
      z.Valid() &&
      (Fits(z, v, Type(INT, false)) <==> -0x8000 <= v <= 0x7FFF) &&
      (Fits(z, v, Type(INT, true)) <==> 0 <= v <= 0xFFFF) &&
      (Fits(z, v, Type(LONG, false)) <==> -0x8000_0000 <= v <= 0x7FFF_FFFF) &&
      (Fits(z, v, Type(LONG, true)) <==> 0 <= v <= 0xFFFF_FFFF) &&
      (Fits(z, v, Type(LLONG, false)) <==> -0x8000_0000_0000_0000 <= v <= 0x7FFF_FFFF_FFFF_FFFF) &&
      (Fits(z, v, Type(LLONG, true)) <==> 0 <= v <= 0xFFFF_FFFF_FFFF_FFFF)
  {
    Widths();
  }

  /** A literal that no type of its row holds is the largest type, and its value is reduced. */
  lemma LiteralElse(z: Sizes, l: Lit)
    requires z.Valid() && forall i: nat :: i < |Candidates(l)| ==> !Fits(z, l.value, Candidates(l)[i])
    ensures LiteralType(z, l) == Typed(Type(LLONG, true), LowBits(l.value, Bits(z, LLONG)))
  {
    hide Pow2, LowBits, Bits;
    var c, rs := Candidates(l), Ranks(l);
    Unroll3(z, l, rs);
    assert |c| >= 1 && !Fits(z, l.value, c[0]);
    assert |c| >= 2 ==> !Fits(z, l.value, c[1]);
    assert |c| >= 3 ==> !Fits(z, l.value, c[2]);
    assert |c| >= 4 ==> !Fits(z, l.value, c[3]);
    assert |c| >= 5 ==> !Fits(z, l.value, c[4]);
    assert |c| >= 6 ==> !Fits(z, l.value, c[5]);
  }
}
