/** How the operators of an assembler expression group: an expression written with parentheses only where
    the levels of the dialect ask for them is read as the tree it was written from. */
module AsmLevels {
  import opened Wrappers
  import opened AsmExpr

  /** The operators of a dialect, from the loosest level to the tightest. */
  function Levels(d: Dialect): seq<set<BinOp>> {
    if d.M80? then [{Or, Xor}, {And}, {Eq, Ne, Lt, Le, Gt, Ge}, {Add, Sub}, {Mul, Div, Mod, Shl, Shr}]
    else [{Or}, {Xor}, {And}, {Shl, Shr}, {Add, Sub}, {Mul, Div, Mod}]
  }

  predicate AtLevel(d: Dialect, op: BinOp, i: nat) { i < |Levels(d)| && op in Levels(d)[i] }

  ghost predicate Looser(d: Dialect, a: BinOp, b: BinOp) {
    exists i: nat, j: nat :: AtLevel(d, a, i) && AtLevel(d, b, j) && i < j
  }

  /** A tree of the dialect whose literals keep their spelling. */
  ghost predicate Known(d: Dialect, e: Expr) {
    match e
    case Un(op, a) => op != Pos && Known(d, a)
    case Bin(op, l, r) => (exists i: nat :: AtLevel(d, op, i)) && Known(d, l) && Known(d, r)
    case _ => Norm(s => s, e) == e
  }

  /** The tokens of a tree. The left operand is in parentheses when its operator is looser, the right one
      unless it is tighter. The NOT of MACRO-80 is in parentheses itself, and its operand is where the
      operator is AND, OR or XOR. */
  ghost function Short(d: Dialect, e: Expr): seq<Tok> {
    match e
    case Un(op, a) =>
      if d.M80? && op.Not? then ParenToks(UnToks(d, op) + Inside(a.Bin? && a.bop in {And, Or, Xor}, Short(d, a)))
      else UnToks(d, op) + Inside(a.Bin?, Short(d, a))
    case Bin(op, l, r) =>
      Inside(l.Bin? && Looser(d, l.bop, op), Short(d, l)) + BinToks(d, op) +
      Inside(r.Bin? && !Looser(d, op, r.bop), Short(d, r))
    case _ => Toks(d, s => s, e)
  }

  function Inside(b: bool, ts: seq<Tok>): seq<Tok> { if b then ParenToks(ts) else ts }

  /** Such tokens are read as the tree. */
  lemma Grouped(d: Dialect, e: Expr)
    requires Known(d, e)
    ensures Climb(d, Short(d, e), 0) == Ok(e, [])
  {
    hide Climb, Operators, Short, Known, Prec;
    ShortReads(d, e, 0, []);
    OperatorsStop(d, e, [], 0);
    assert Short(d, e) + [] == Short(d, e);
  }

  /** The levels are those of the precedences. */
  lemma LooserIs(d: Dialect, a: BinOp, b: BinOp)
    requires (exists i: nat :: AtLevel(d, a, i)) && exists j: nat :: AtLevel(d, b, j)
    ensures Looser(d, a, b) <==> Prec(d, a) < Prec(d, b)
  {
    hide AtLevel, Prec, Looser, Levels;
    var i: nat :| AtLevel(d, a, i);
    var j: nat :| AtLevel(d, b, j);
    AtOne(d, a, i);
    AtOne(d, b, j);
    LooserAt(d, a, b, i, j);
  }

  lemma LooserAt(d: Dialect, a: BinOp, b: BinOp, i: nat, j: nat)
    requires AtLevel(d, a, i) && AtLevel(d, b, j)
    ensures Looser(d, a, b) <==> i < j
  {
    hide AtLevel, Levels, Prec;
    if Looser(d, a, b) {
      var m: nat, n: nat :| AtLevel(d, a, m) && AtLevel(d, b, n) && m < n;
      AtOne(d, a, m);
      AtOne(d, b, n);
      AtOne(d, a, i);
      AtOne(d, b, j);
    }
  }

  /** The number of its level grows with the precedence of an operator. */
  lemma AtOne(d: Dialect, op: BinOp, i: nat)
    requires AtLevel(d, op, i)
    ensures Prec(d, op) == if d.M80? && i >= 2 then i + 2 else i + 1
    ensures d.Sdas? ==> !Relation(op)
  {
  }

  lemma TokIs(d: Dialect, op: BinOp, rest: seq<Tok>)
    requires exists i: nat :: AtLevel(d, op, i)
    ensures
      var ts := BinToks(d, op) + rest;
      ts != [] && BinTok(d, ts[0]) == Some(op) && ts[1..] == rest && NextPrec(d, ts) == Prec(d, op) >= 1
  {
    var i: nat :| AtLevel(d, op, i);
    AtOne(d, op, i);
  }

  /** What the operand reader makes of an operand. */
  lemma {:induction false} ShortOperand(d: Dialect, e: Expr, rest: seq<Tok>)
    requires Known(d, e) && !e.Bin?
    ensures Unary(d, Short(d, e) + rest) == Ok(e, rest)
    decreases e, 0
  {
    hide Climb, Operators, Prec, Toks, Number, BinTok;
    if e.Un? {
      var op, a := e.op, e.arg;
      if d.M80? && op.Not? {
        NotReads(d, a, rest);
      } else {
        hide Short;
        InsideReads(d, a, rest);
        var inner := Inside(a.Bin?, Short(d, a));
        assert Short(d, e) == UnToks(d, op) + inner by { ShortUn(d, op, a); }
        UnToksSize(d, op);
        FirstTok(UnToks(d, op), inner, rest);
      }
    } else {
      LeafReads(d, s => s, e, rest);
    }
  }

  lemma ShortUn(d: Dialect, op: UnOp, a: Expr)
    requires !(d.M80? && op.Not?)
    ensures Short(d, Un(op, a)) == UnToks(d, op) + Inside(a.Bin?, Short(d, a))
  {
  }

  lemma {:induction false} NotReads(d: Dialect, a: Expr, rest: seq<Tok>)
    requires Known(d, a) && d.M80?
    ensures Unary(d, Short(d, Un(Not, a)) + rest) == Ok(Un(Not, a), rest)
    decreases a, 3
  {
    var after := [TOp(")")] + rest;
    var b := a.Bin? && a.bop in {And, Or, Xor};
    var inner := Inside(b, Short(d, a));
    NoNext(d, after);
    hide Climb, Operators, Number, BinTok, Known, NextPrec, Prec, Unary, Short;
    if b {
      InsideReads(d, a, after);
      ClimbIs(d, inner + after, 3);
    } else {
      LevelOver(d, a);
      ShortReads(d, a, 3, after);
    }
    OperatorsStop(d, a, after, 3);
    var ts := UnToks(d, Not) + inner;
    assert ts + after == UnToks(d, Not) + (inner + after);
    NotUnary(d, inner + after);
    ShortNot(d, a);
    Closed(d, ts, rest, Un(Not, a));
  }

  lemma ShortNot(d: Dialect, a: Expr)
    requires d.M80?
    ensures Short(d, Un(Not, a)) == ParenToks(UnToks(d, Not) + Inside(a.Bin? && a.bop in {And, Or, Xor}, Short(d, a)))
  {
  }

  lemma Closed(d: Dialect, ts: seq<Tok>, rest: seq<Tok>, e: Expr)
    requires Unary(d, ts + ([TOp(")")] + rest)) == Ok(e, [TOp(")")] + rest)
    ensures Unary(d, ParenToks(ts) + rest) == Ok(e, rest)
  {
    hide Unary, Climb, Operators, Number, ParenToks;
    var after := [TOp(")")] + rest;
    BinTokIs(d, Add, rest);
    ClimbIs(d, ts + after, 0);
    OperatorsStop(d, e, after, 0);
    ParenReads(d, ts, rest, e);
  }

  lemma NotUnary(d: Dialect, ts: seq<Tok>)
    requires d.M80?
    ensures Unary(d, UnToks(d, Not) + ts) == Wrap(Not, Climb(d, ts, 3))
  {
    hide Climb, Operators, Number;
    assert (UnToks(d, Not) + ts)[1..] == ts;
  }

  lemma LevelOver(d: Dialect, a: Expr)
    requires Known(d, a) && d.M80?
    ensures a.Bin? && !(a.bop in {And, Or, Xor}) ==> Prec(d, a.bop) >= 3
  {
  }

  /** An operand, in parentheses when it has an operator. */
  lemma {:induction false} InsideReads(d: Dialect, a: Expr, rest: seq<Tok>)
    requires Known(d, a)
    ensures Unary(d, Inside(a.Bin?, Short(d, a)) + rest) == Ok(a, rest)
    decreases a, 2
  {
    hide Climb, Operators, Unary, Short, Number, BinTok, Known, Prec;
    if a.Bin? {
      var after := [TOp(")")] + rest;
      assert BinTok(d, TOp(")")).None? by { BinTokIs(d, Add, rest); }
      NoNext(d, after);
      ShortReads(d, a, 0, after);
      OperatorsStop(d, a, after, 0);
      ParenReads(d, Short(d, a), rest, a);
    } else {
      ShortOperand(d, a, rest);
    }
  }

  lemma {:induction false} ShortReads(d: Dialect, e: Expr, minprec: nat, rest: seq<Tok>)
    requires Known(d, e) && (e.Bin? ==> minprec <= Prec(d, e.bop) && NextPrec(d, rest) <= Prec(d, e.bop))
    ensures Climb(d, Short(d, e) + rest, minprec) == Operators(d, e, rest, minprec)
    decreases e, 1
  {
    hide Climb, Operators, Unary, Short, Prec, NextPrec;
    if e.Bin? {
      var op, l, r := e.bop, e.left, e.right;
      var right := Inside(r.Bin? && !Looser(d, op, r.bop), Short(d, r));
      var tail := BinToks(d, op) + (right + rest);
      TokIs(d, op, right + rest);
      ReadLeft(d, op, l, minprec, tail);
      OperatorsAre(d, l, tail, minprec);
      ReadRight(d, op, r, rest);
      ShortBin(d, op, l, r, rest);
    } else {
      ShortOperand(d, e, rest);
      ClimbIs(d, Short(d, e) + rest, minprec);
    }
  }

  lemma ShortBin(d: Dialect, op: BinOp, l: Expr, r: Expr, rest: seq<Tok>)
    ensures
      var left := Inside(l.Bin? && Looser(d, l.bop, op), Short(d, l));
      var right := Inside(r.Bin? && !Looser(d, op, r.bop), Short(d, r));
      Short(d, Bin(op, l, r)) + rest == left + (BinToks(d, op) + (right + rest))
  {
    hide Looser, Inside, BinToks, Toks, UnToks;
    var left := Inside(l.Bin? && Looser(d, l.bop, op), Short(d, l));
    var right := Inside(r.Bin? && !Looser(d, op, r.bop), Short(d, r));
    assert Short(d, Bin(op, l, r)) == left + BinToks(d, op) + right;
    Regroup(left, BinToks(d, op), right, rest);
  }

  lemma Regroup(a: seq<Tok>, b: seq<Tok>, c: seq<Tok>, rest: seq<Tok>)
    ensures a + b + c + rest == a + (b + (c + rest))
  {
  }

  lemma {:induction false} ReadLeft(d: Dialect, op: BinOp, l: Expr, minprec: nat, tail: seq<Tok>)
    requires Known(d, l) && (exists i: nat :: AtLevel(d, op, i)) && minprec <= Prec(d, op) == NextPrec(d, tail)
    ensures Climb(d, Inside(l.Bin? && Looser(d, l.bop, op), Short(d, l)) + tail, minprec) ==
      Operators(d, l, tail, minprec)
    decreases l, 4
  {
    hide Climb, Operators, Unary, Short, Prec, NextPrec, Looser, AtLevel;
    if l.Bin? { LooserIs(d, l.bop, op); }
    if l.Bin? && !Looser(d, l.bop, op) {
      ShortReads(d, l, minprec, tail);
    } else {
      InsideReads(d, l, tail);
      ClimbIs(d, Inside(l.Bin?, Short(d, l)) + tail, minprec);
    }
  }

  lemma {:induction false} ReadRight(d: Dialect, op: BinOp, r: Expr, rest: seq<Tok>)
    requires Known(d, r) && (exists i: nat :: AtLevel(d, op, i)) && NextPrec(d, rest) <= Prec(d, op)
    ensures Climb(d, Inside(r.Bin? && !Looser(d, op, r.bop), Short(d, r)) + rest, Prec(d, op) + 1) == Ok(r, rest)
    decreases r, 4
  {
    hide Climb, Operators, Unary, Short, Prec, NextPrec, Looser, AtLevel;
    if r.Bin? { LooserIs(d, op, r.bop); }
    if r.Bin? && Looser(d, op, r.bop) {
      ShortReads(d, r, Prec(d, op) + 1, rest);
    } else {
      InsideReads(d, r, rest);
      ClimbIs(d, Inside(r.Bin?, Short(d, r)) + rest, Prec(d, op) + 1);
    }
    OperatorsStop(d, r, rest, Prec(d, op) + 1);
  }
}
