/** What folding an assembler expression computes, operator by operator, and when it has no value. */
module AsmFold {
  import opened Wrappers
  import CInt
  import IntFacts
  import opened AsmExpr

  function Doubled(a: int, n: nat): int
    decreases n
  {
    if n == 0 then a else Doubled(a + a, n - 1)
  }

  /** Halved `n` times, rounding down. */
  function Halved(a: nat, n: nat): nat
    decreases n
  {
    if n == 0 then a else Halved(a / 2, n - 1)
  }

  // ---- leaves ----------------------------------------------------------------------------------------

  /** The text of a number, a character code or a symbol with a value folds to that number, code or value. */
  lemma LeafFolds(d: Dialect, nm: Naming, e: Expr, env: Symbols, env': Symbols, v: int)
    requires Readable(d, nm, e) && forall s: string :: env'(nm(s)) == env(s)
    requires e.Num? || e.Chr? || (e.Sym? && env(e.name).Some?)
    ensures Parse(d, Text(d, nm, e)).Some?
    ensures Fold(Parse(d, Text(d, nm, e)).value, env') == Val(v) <==>
      v == if e.Num? then e.value else if e.Chr? then e.code else env(e.name).value
  {
    hide Parse, Text, Readable;
    TextFolds(d, nm, e, env, env');
  }

  // ---- operators with one operand ------------------------------------------------------------------

  /** The value of a unary operator on a value `a`: the negation adds up to 0, NOT to 0xFFFF modulo 65536,
      and HIGH and LOW are the bytes of the value modulo 65536. */
  lemma UnaryFolds(e: Expr, env: Symbols, a: int, v: int)
    requires Fold(e, env) == Val(a)
    ensures Fold(Un(Neg, e), env) == Val(v) <==> v + a == 0
    ensures Fold(Un(Pos, e), env) == Fold(e, env)
    ensures Fold(Un(Not, e), env) == Val(v) <==> 0 <= v <= 0xFFFF && (v + a) % 0x1_0000 == 0xFFFF
    ensures
      var h, l := Fold(Un(Hi, e), env), Fold(Un(Lo, e), env);
      h.Val? && l.Val? && 0 <= h.v < 256 && 0 <= l.v < 256 && 256 * h.v + l.v == a % 0x1_0000
  {
    NotIs(a, v);
    BytesOf(a);
  }

  lemma NotIs(a: int, v: int)
    ensures v == Word16(-a - 1) <==> 0 <= v <= 0xFFFF && (v + a) % 0x1_0000 == 0xFFFF
  {
    var w := Word16(-a - 1);
    var q := (-a - 1) / 0x1_0000;
    assert -a - 1 == q * 0x1_0000 + w;
    assert w + a == (-q - 1) * 0x1_0000 + 0xFFFF;
  }

  lemma BytesOf(a: int)
    ensures 256 * (a / 0x100 % 0x100) + a % 0x100 == a % 0x1_0000
  {
  }

  // ---- operators with two ----------------------------------------------------------------------------

  /** Sums, differences and products of values. */
  lemma SumFolds(l: Expr, r: Expr, env: Symbols, a: int, b: int, v: int)
    requires Fold(l, env) == Val(a) && Fold(r, env) == Val(b)
    ensures Fold(Bin(Add, l, r), env) == Val(v) <==> v - b == a
    ensures Fold(Bin(Sub, l, r), env) == Val(v) <==> v + b == a
    ensures Fold(Bin(Mul, l, r), env) == Val(if b >= 0 then IntFacts.Copies(a, b) else -IntFacts.Copies(a, -b))
  {
    IntFacts.CopiesAre(a, if b >= 0 then b else -b);
  }

  /** Division and MOD truncate: together they are the quotient and the remainder, and both are errors
      exactly for the divisor 0. */
  lemma DivisionFolds(l: Expr, r: Expr, env: Symbols, a: int, b: int, q: int, m: int)
    requires Fold(l, env) == Val(a) && Fold(r, env) == Val(b)
    ensures
      var x, y := Fold(Bin(Div, l, r), env), Fold(Bin(Mod, l, r), env);
      (x == Fault <==> b == 0) && (y == Fault <==> b == 0) && !x.Unknown? && !y.Unknown? &&
      (b != 0 ==> (x == Val(q) && y == Val(m) <==> IntFacts.Divides(a, b, q, m)))
  {
    hide CInt.TDiv, IntFacts.Divides;
    if b != 0 { IntFacts.DivisionIs(a, b, q, m); }
  }

  /** SHL doubles as often as its count says and SHR halves the value modulo 65536; a negative count is
      an error. */
  lemma ShiftFolds(l: Expr, r: Expr, env: Symbols, a: int, b: int)
    requires Fold(l, env) == Val(a) && Fold(r, env) == Val(b)
    ensures Fold(Bin(Shl, l, r), env) == if b < 0 then Fault else Val(Doubled(a, b))
    ensures Fold(Bin(Shr, l, r), env) == if b < 0 then Fault else Val(Halved(a % 0x1_0000, b))
  {
    if b >= 0 {
      DoublesAre(a, b);
      HalvesAre(a % 0x1_0000, b);
    }
  }

  lemma {:induction false} DoublesAre(a: int, n: nat)
    ensures Doubled(a, n) == a * CInt.Pow2(n)
    decreases n
  {
    if n > 0 {
      DoublesAre(a + a, n - 1);
      var p := CInt.Pow2(n - 1);
      assert (a + a) * p == a * (2 * p);
    }
  }

  lemma {:induction false} HalvesAre(a: nat, n: nat)
    ensures Halved(a, n) == a / CInt.Pow2(n)
    decreases n
  {
    if n > 0 {
      HalvesAre(a / 2, n - 1);
      DivTwice(a, CInt.Pow2(n - 1));
    }
  }

  lemma DivTwice(a: nat, p: int)
    requires p >= 1
    ensures a / 2 / p == a / (2 * p)
  {
    var q, h := a / 2 / p, a / 2;
    var s := h - q * p;
    assert 0 <= s < p by { DivIs(h, p); }
    assert a == 2 * (q * p) + 2 * s + a % 2;
    assert q * (2 * p) == 2 * (q * p);
    QuotientIs(a, 2 * p, q);
  }

  lemma DivIs(a: int, p: int)
    requires p >= 1
    ensures a / p * p <= a < a / p * p + p
  {
  }

  lemma QuotientIs(a: int, p: int, q: int)
    requires p >= 1 && q * p <= a < q * p + p
    ensures a / p == q
  {
    DivIs(a, p);
    var d := a / p;
    IntFacts.Commute(d, p);
    IntFacts.Commute(q, p);
    IntFacts.Unique(p, q, a - q * p, d, a - d * p);
  }

  /** AND, OR and XOR, bit by bit. */
  lemma BitsFold(l: Expr, r: Expr, env: Symbols, a: int, b: int, k: nat)
    requires Fold(l, env) == Val(a) && Fold(r, env) == Val(b)
    ensures
      var x, y, z := Fold(Bin(And, l, r), env), Fold(Bin(Or, l, r), env), Fold(Bin(Xor, l, r), env);
      x.Val? && y.Val? && z.Val? &&
      (IntFacts.Has(x.v, k) <==> IntFacts.Has(a, k) && IntFacts.Has(b, k)) &&
      (IntFacts.Has(y.v, k) <==> IntFacts.Has(a, k) || IntFacts.Has(b, k)) &&
      (IntFacts.Has(z.v, k) <==> IntFacts.Has(a, k) != IntFacts.Has(b, k))
  {
    hide CInt.Bitwise, IntFacts.Has;
    IntFacts.BitsAre(a, b, k);
  }

  /** Each relation gives 0xFFFF exactly when it holds, and 0 otherwise. */
  lemma RelationFolds(op: BinOp, l: Expr, r: Expr, env: Symbols, a: int, b: int)
    requires Fold(l, env) == Val(a) && Fold(r, env) == Val(b) && Relation(op)
    ensures var f := Fold(Bin(op, l, r), env); f == Val(0xFFFF) || f == Val(0)
    ensures Fold(Bin(op, l, r), env) == Val(0xFFFF) <==>
      (a < b && op in {Lt, Le, Ne}) || (a == b && op in {Le, Ge, Eq}) || (a > b && op in {Gt, Ge, Ne})
  {
  }

  // ---- when there is no value ------------------------------------------------------------------------

  function SymbolsOf(e: Expr): set<string> {
    match e
    case Sym(s) => {s}
    case Un(_, a) => SymbolsOf(a)
    case Bin(_, l, r) => SymbolsOf(l) + SymbolsOf(r)
    case _ => {}
  }

  predicate HasLoc(e: Expr) {
    match e
    case Loc => true
    case Un(_, a) => HasLoc(a)
    case Bin(_, l, r) => HasLoc(l) || HasLoc(r)
    case _ => false
  }

  /** A division by 0 or a shift by a negative count anywhere in the tree. */
  predicate Fails(e: Expr, env: Symbols) {
    match e
    case Un(_, a) => Fails(a, env)
    case Bin(op, l, r) =>
      Fails(l, env) || Fails(r, env) ||
      (Fold(l, env).Val? && Fold(r, env).Val? &&
       ((op in {Div, Mod} && Fold(r, env).v == 0) || (op in {Shl, Shr} && Fold(r, env).v < 0)))
    case _ => false
  }

  /** Folding is an error exactly for such a tree; otherwise it has no value exactly when the tree has
      the location counter or a symbol without a value. */
  lemma {:induction false} ValueKnown(e: Expr, env: Symbols)
    ensures Fold(e, env) == Fault <==> Fails(e, env)
    ensures !Fails(e, env) ==>
      (Fold(e, env) == Unknown <==> HasLoc(e) || exists s :: s in SymbolsOf(e) && env(s).None?)
    decreases e
  {
    match e
    case Sym(s) => assert s in SymbolsOf(e);
    case Un(op, a) => ValueKnown(a, env);
    case Bin(op, l, r) =>
      hide CInt.TDiv, CInt.Pow2, CInt.Bitwise;
      ValueKnown(l, env);
      ValueKnown(r, env);
    case _ =>
  }
}
