/** What the operators on unbounded integers are: division that truncates, shifts as powers of 2, and
    the bitwise operators bit by bit. */
module IntFacts {
  import opened CInt

  /** `q` and `r` are quotient and remainder: the remainder is smaller than the divisor and has the
      sign of the dividend. */
  predicate Divides(a: int, b: int, q: int, r: int) {
    a == q * b + r && 0 - Abs(b) < r < Abs(b) && (r != 0 ==> (r < 0 <==> a < 0))
  }

  /** Division truncates toward 0: it gives such a pair, and no other pair is one. */
  lemma DivisionIs(a: int, b: int, q: int, r: int)
    requires b != 0
    ensures Divides(a, b, q, r) <==> q == TDiv(a, b) && r == a - TDiv(a, b) * b
  {
    hide Divides, TDiv;
    Truncates(a, b);
    if Divides(a, b, q, r) { OnlyOne(a, b, q, r, TDiv(a, b), a - TDiv(a, b) * b); }
  }

  lemma Truncates(a: int, b: int)
    requires b != 0
    ensures Divides(a, b, TDiv(a, b), a - TDiv(a, b) * b)
  {
    hide Quot;
    QuotFacts(Abs(a), Abs(b));
    Signs(a, b, Quot(Abs(a), Abs(b)));
  }

  lemma OnlyOne(a: int, b: int, q: int, r: int, m: int, s: int)
    requires b != 0 && Divides(a, b, q, r) && Divides(a, b, m, s)
    ensures q == m && r == s
  {
    var y: int := Abs(b);
    var u, v := if b < 0 then -q else q, if b < 0 then -m else m;
    Signed(q, b);
    Signed(m, b);
    assert q * b == u * y && m * b == v * y;
    if a < 0 {
      Negated(u, y);
      Negated(v, y);
      Unique(y, -u, -r, -v, -s);
    } else {
      Commute(u, y);
      Commute(v, y);
      Unique(y, u, r, v, s);
    }
  }

  lemma Signed(q: int, b: int)
    ensures q * b == (if b < 0 then -q else q) * Abs(b)
  {
  }

  lemma Negated(u: int, y: int)
    ensures y * (-u) == 0 - u * y
  {
  }

  lemma Commute(u: int, y: int)
    ensures u * y == y * u
  {
  }

  lemma Signs(a: int, b: int, m: int)
    ensures
      var q := if (a < 0) != (b < 0) then -m else m;
      q * b == if a < 0 then 0 - Abs(b) * m else Abs(b) * m
  {
    var q := if (a < 0) != (b < 0) then -m else m;
    if b < 0 { assert q * b == (-q) * (-b); }
    assert (-m) * Abs(b) == 0 - m * Abs(b) && m * Abs(b) == Abs(b) * m;
  }

  /** There is one quotient. */
  lemma Unique(y: int, q: int, r: int, m: int, s: int)
    requires y * q + r == y * m + s && 0 <= r < y && 0 <= s < y
    ensures q == m && r == s
  {
    Minus(y, q, m);
    if q > m { Multiple(y, q - m); }
    if q < m {
      Minus(y, m, q);
      Multiple(y, m - q);
    }
  }

  lemma Minus(y: int, q: int, m: int)
    ensures y * (q - m) == y * q - y * m
  {
  }

  lemma Multiple(y: int, d: int)
    requires y >= 0 && d >= 1
    ensures y * d >= y
  {
  }

  /** `n` copies of `a` added up. */
  function Copies(a: int, n: nat): int
    decreases n
  {
    if n == 0 then 0 else a + Copies(a, n - 1)
  }

  lemma {:induction false} CopiesAre(a: int, n: nat)
    ensures Copies(a, n) == a * n && -Copies(a, n) == a * (0 - n)
    decreases n
  {
    if n > 0 { CopiesAre(a, n - 1); }
  }

  /** A shift to the left is a product, a shift to the right a quotient that rounds down. */
  lemma {:induction false} ShiftsAre(v: int, n: nat)
    ensures ShiftLeft(v, n) == v * Pow2(n)
    ensures 0 <= v - ShiftRight(v, n) * Pow2(n) < Pow2(n)
    decreases n
  {
    if n > 0 {
      ShiftsAre(v, n - 1);
      ShiftsAre(v / 2, n - 1);
      var p, h := Pow2(n - 1), ShiftRight(v / 2, n - 1);
      assert Pow2(n) == 2 * p;
      Doubled(v, p);
      Doubled(h, p);
    }
  }

  lemma Doubled(v: int, p: int)
    ensures v * (2 * p) == 2 * (v * p)
  {
  }

  /** Bit `k` of a two's complement integer. */
  predicate Has(v: int, k: nat)
    decreases k
  {
    if k == 0 then v % 2 == 1 else Has(v / 2, k - 1)
  }

  /** The bitwise operators, bit by bit. */
  lemma {:induction false} BitsAre(a: int, b: int, k: nat)
    ensures Has(Bitwise(And, a, b), k) <==> Has(a, k) && Has(b, k)
    ensures Has(Bitwise(Or, a, b), k) <==> Has(a, k) || Has(b, k)
    ensures Has(Bitwise(Xor, a, b), k) <==> Has(a, k) != Has(b, k)
    ensures Has(-1 - a, k) <==> !Has(a, k)
    decreases k
  {
    hide Bitwise;
    BitwiseStep(And, a, b);
    BitwiseStep(Or, a, b);
    BitwiseStep(Xor, a, b);
    if k > 0 {
      BitsAre(a / 2, b / 2, k - 1);
      assert (-1 - a) / 2 == -1 - a / 2;
      HalfOf(Bitwise(And, a / 2, b / 2), Bit(And, a % 2, b % 2));
      HalfOf(Bitwise(Or, a / 2, b / 2), Bit(Or, a % 2, b % 2));
      HalfOf(Bitwise(Xor, a / 2, b / 2), Bit(Xor, a % 2, b % 2));
    }
  }

  lemma HalfOf(h: int, b: int)
    requires 0 <= b <= 1
    ensures (2 * h + b) / 2 == h && (2 * h + b) % 2 == b
  {
  }

  /** A mask of `n` ones keeps the low `n` bits. */
  lemma {:induction false} Masked(v: int, n: nat)
    ensures Bitwise(And, v, Pow2(n) - 1) == LowBits(v, n)
    decreases n
  {
    hide Bitwise;
    BitwiseStep(And, v, Pow2(n) - 1);
    if n > 0 {
      Masked(v / 2, n - 1);
      assert (Pow2(n) - 1) / 2 == Pow2(n - 1) - 1 && (Pow2(n) - 1) % 2 == 1;
    } else {
      AndZero(v);
    }
  }

  lemma {:induction false} AndZero(v: int)
    ensures Bitwise(And, v, 0) == 0
    decreases Abs(v)
  {
    if !(v in {0, -1}) { AndZero(v / 2); }
  }

  lemma {:induction false} OrZero(v: int)
    ensures Bitwise(Or, v, 0) == v
    decreases Abs(v)
  {
    if !(v in {0, -1}) { OrZero(v / 2); }
  }

  /** Setting the lowest bit makes an even value one more. */
  lemma OrOne(v: int)
    ensures Bitwise(Or, v, 1) == if v % 2 == 1 then v else v + 1
  {
    hide Bitwise;
    BitwiseStep(Or, v, 1);
    OrZero(v / 2);
  }
}
