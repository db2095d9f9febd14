/** Which trees MACRO-80 text gives back: NOT reads on past an operator that binds tighter, and so
    exactly the trees come back in which no such operator follows the operand of a NOT. */
module AsmNot {
  import opened Wrappers
  import opened AsmExpr

  // ---- the parser on operands --------------------------------------------------------------------

  /** An operator and the operand after it, at one level of parentheses. */
  datatype Item = Item(op: BinOp, u: Expr)

  function Size(e: Expr): (n: nat)
    ensures n >= 1
  {
    match e case Un(_, a) => 1 + Size(a) case Bin(_, l, r) => Size(l) + Size(r) + 2 case _ => 1
  }

  function Weight(items: seq<Item>): nat { if items == [] then 0 else 1 + Size(items[0].u) + Weight(items[1..]) }

  /** What the parser makes of operand `u` before `items`, and the items that it leaves. */
  function ReadUnary(nm: Naming, u: Expr, items: seq<Item>): (r: (Expr, seq<Item>))
    ensures Weight(r.1) <= Weight(items)
    decreases Size(u) + Weight(items), 1
  {
    match u
    case Bin(_, _, _) => (ReadExpr(nm, u, [], 0).0, items)
    case Un(op, a) =>
      if op.Not? then var x := ReadClimb(nm, a, items, 3); (Un(Not, x.0), x.1)
      else
        var x := ReadUnary(nm, a, items);
        (if op.Pos? then x.0 else Un(op, x.0), x.1)
    case _ => (Norm(nm, u), items)
  }

  function ReadClimb(nm: Naming, u: Expr, items: seq<Item>, minprec: nat): (r: (Expr, seq<Item>))
    ensures Weight(r.1) <= Weight(items) && (minprec == 0 ==> r.1 == [])
    decreases Size(u) + Weight(items), 2
  {
    var x := ReadUnary(nm, u, items);
    ReadOps(nm, x.0, x.1, minprec)
  }

  function ReadOps(nm: Naming, left: Expr, items: seq<Item>, minprec: nat): (r: (Expr, seq<Item>))
    ensures Weight(r.1) <= Weight(items) && (minprec == 0 ==> r.1 == [])
    decreases Weight(items), 0
  {
    if items == [] || PrecM80(items[0].op) < minprec then (left, items)
    else
      var x := ReadClimb(nm, items[0].u, items[1..], PrecM80(items[0].op) + 1);
      ReadOps(nm, Bin(items[0].op, left, x.0), x.1, minprec)
  }

  /** What it makes of an expression without parentheses around it. */
  function ReadExpr(nm: Naming, e: Expr, items: seq<Item>, minprec: nat): (r: (Expr, seq<Item>))
    requires e.Bin?
    ensures minprec == 0 ==> r.1 == []
    decreases Size(e) + Weight(items), 0
  {
    var more := [Item(e.bop, e.right)] + items;
    assert more[1..] == items;
    if PlainLeft(M80, e.bop, e.left) then ReadExpr(nm, e.left, more, minprec) else ReadClimb(nm, e.left, more, minprec)
  }

  // ---- the tokens read so ----------------------------------------------------------------------------

  function ItemToks(nm: Naming, items: seq<Item>, rest: seq<Tok>): seq<Tok> {
    if items == [] then rest
    else BinToks(M80, items[0].op) + (InnerToks(M80, nm, items[0].u, items[0].u.Bin?) + ItemToks(nm, items[1..], rest))
  }

  predicate Printable(items: seq<Item>) {
    forall i :: 0 <= i < |items| ==> !Relation(items[i].op) && CanPrint(items[i].u)
  }

  /** No operator comes at the level of parentheses. */
  predicate LevelEnds(rest: seq<Tok>) { rest == [] || BinTok(M80, rest[0]).None? }

  lemma {:induction false} UnaryTokens(nm: Naming, u: Expr, items: seq<Item>, rest: seq<Tok>)
    requires CanPrint(u) && Printable(items) && LevelEnds(rest)
    ensures var r := ReadUnary(nm, u, items);
      Printable(r.1) &&
      Unary(M80, InnerToks(M80, nm, u, u.Bin?) + ItemToks(nm, items, rest)) == Ok(r.0, ItemToks(nm, r.1, rest))
    decreases Size(u) + Weight(items), 1
  {
    hide Unary, Climb, Operators, Toks, ItemToks, Number, BinTok, ParenToks, BinToks, UnToks, Norm;
    var k := ItemToks(nm, items, rest);
    if u.Bin? {
      BinTokIs(M80, Add, []);
      var after := [TOp(")")] + k;
      ExprTokens(nm, u, [], 0, after);
      NoItems(nm, after);
      ParenReads(M80, Toks(M80, nm, u), k, ReadExpr(nm, u, [], 0).0);
    } else if u.Un? {
      PrefixTokens(nm, u.op, u.arg, items, rest);
    } else {
      LeafReads(M80, nm, u, k);
    }
  }

  lemma NoItems(nm: Naming, rest: seq<Tok>)
    ensures ItemToks(nm, [], rest) == rest
  {
  }

  lemma {:induction false} PrefixTokens(nm: Naming, op: UnOp, a: Expr, items: seq<Item>, rest: seq<Tok>)
    requires CanPrint(a) && Printable(items) && LevelEnds(rest)
    ensures var r := ReadUnary(nm, Un(op, a), items);
      Printable(r.1) &&
      Unary(M80, Toks(M80, nm, Un(op, a)) + ItemToks(nm, items, rest)) == Ok(r.0, ItemToks(nm, r.1, rest))
    decreases Size(a) + Weight(items), 3
  {
    hide Climb, Operators, Toks, ItemToks, Number, BinTok, ParenToks, Norm;
    var k := ItemToks(nm, items, rest);
    UnToksAre(M80, nm, op, a, k);
    if op.Not? { ClimbTokens(nm, a, items, 3, rest); } else { UnaryTokens(nm, a, items, rest); }
  }

  lemma {:induction false} ClimbTokens(nm: Naming, u: Expr, items: seq<Item>, minprec: nat, rest: seq<Tok>)
    requires CanPrint(u) && Printable(items) && LevelEnds(rest)
    ensures var r := ReadClimb(nm, u, items, minprec);
      Printable(r.1) &&
      Climb(M80, InnerToks(M80, nm, u, u.Bin?) + ItemToks(nm, items, rest), minprec) == Ok(r.0, ItemToks(nm, r.1, rest))
    decreases Size(u) + Weight(items), 2
  {
    hide Unary, Climb, Operators, Toks, ItemToks, InnerToks, BinTok, Norm;
    UnaryTokens(nm, u, items, rest);
    ClimbIs(M80, InnerToks(M80, nm, u, u.Bin?) + ItemToks(nm, items, rest), minprec);
    var x := ReadUnary(nm, u, items);
    OpsTokens(nm, x.0, x.1, minprec, rest);
  }

  lemma {:induction false} OpsTokens(nm: Naming, left: Expr, items: seq<Item>, minprec: nat, rest: seq<Tok>)
    requires Printable(items) && LevelEnds(rest)
    ensures var r := ReadOps(nm, left, items, minprec);
      Printable(r.1) && Operators(M80, left, ItemToks(nm, items, rest), minprec) == Ok(r.0, ItemToks(nm, r.1, rest))
    decreases Weight(items), 0
  {
    hide Unary, Climb, Operators, Toks, InnerToks, BinToks, BinTok, PrecM80;
    OperatorsAre(M80, left, ItemToks(nm, items, rest), minprec);
    if items != [] {
      var u, more := items[0].u, items[1..];
      BinTokIs(M80, items[0].op, InnerToks(M80, nm, u, u.Bin?) + ItemToks(nm, more, rest));
      if PrecM80(items[0].op) >= minprec {
        ClimbTokens(nm, u, more, PrecM80(items[0].op) + 1, rest);
        var x := ReadClimb(nm, u, more, PrecM80(items[0].op) + 1);
        OpsTokens(nm, Bin(items[0].op, left, x.0), x.1, minprec, rest);
      }
    }
  }

  lemma {:induction false} ExprTokens(nm: Naming, e: Expr, items: seq<Item>, minprec: nat, rest: seq<Tok>)
    requires e.Bin? && CanPrint(e) && Printable(items) && LevelEnds(rest)
    ensures var r := ReadExpr(nm, e, items, minprec);
      Printable(r.1) &&
      Climb(M80, Toks(M80, nm, e) + ItemToks(nm, items, rest), minprec) == Ok(r.0, ItemToks(nm, r.1, rest))
    decreases Size(e) + Weight(items), 0
  {
    hide Unary, Climb, Operators, Toks, BinToks, BinTok, PrecM80, PlainLeft, ParenToks;
    var more := [Item(e.bop, e.right)] + items;
    assert more[1..] == items;
    BinToksAre(M80, nm, e.bop, e.left, e.right, ItemToks(nm, items, rest));
    if PlainLeft(M80, e.bop, e.left) {
      PlainIsBin(e.bop, e.left);
      ExprTokens(nm, e.left, more, minprec, rest);
    } else {
      ClimbTokens(nm, e.left, more, minprec, rest);
    }
  }

  lemma PlainIsBin(op: BinOp, l: Expr)
    requires PlainLeft(M80, op, l)
    ensures l.Bin? && op in {Add, Sub} && l.bop in {Add, Sub}
  {
  }

  // ---- leaves ------------------------------------------------------------------------------------------

  function Leaves(e: Expr): (n: nat)
    ensures n >= 1
  {
    match e case Un(_, a) => Leaves(a) case Bin(_, l, r) => Leaves(l) + Leaves(r) case _ => 1
  }

  function LeavesIn(items: seq<Item>): nat { if items == [] then 0 else Leaves(items[0].u) + LeavesIn(items[1..]) }

  lemma {:induction false} NormLeaves(nm: Naming, e: Expr)
    ensures Leaves(Norm(nm, e)) == Leaves(e)
    decreases e
  {
    match e
    case Un(_, a) => NormLeaves(nm, a);
    case Bin(_, l, r) =>
      NormLeaves(nm, l);
      NormLeaves(nm, r);
    case _ =>
  }

  /** What is left of `items`. */
  predicate Suffix(k: seq<Item>, items: seq<Item>) { |k| <= |items| && k == items[|items| - |k|..] }

  lemma SuffixTrans(a: seq<Item>, b: seq<Item>, c: seq<Item>)
    requires Suffix(a, b) && Suffix(b, c)
    ensures Suffix(a, c)
  {
  }

  /** Nothing is read when no leaf is. */
  lemma {:induction false} SameLeaves(k: seq<Item>, items: seq<Item>)
    requires Suffix(k, items)
    ensures LeavesIn(k) <= LeavesIn(items) && (LeavesIn(k) == LeavesIn(items) <==> k == items)
    decreases |items|
  {
    if |k| < |items| { SameLeaves(k, items[1..]); } else { assert k == items; }
  }

  /** Reading moves leaves from the items into the tree, and loses none. */
  ghost predicate Moves(before: nat, items: seq<Item>, r: (Expr, seq<Item>)) {
    Suffix(r.1, items) && Leaves(r.0) + LeavesIn(r.1) == before + LeavesIn(items)
  }

  lemma {:induction false} UnaryMoves(nm: Naming, u: Expr, items: seq<Item>)
    ensures Moves(Leaves(u), items, ReadUnary(nm, u, items))
    decreases Size(u) + Weight(items), 2
  {
    match u
    case Bin(_, _, _) => ExprMoves(nm, u, [], 0);
    case Un(op, a) => if op.Not? { ClimbMoves(nm, a, items, 3); } else { UnaryMoves(nm, a, items); }
    case _ => NormLeaves(nm, u);
  }

  lemma {:induction false} ClimbMoves(nm: Naming, u: Expr, items: seq<Item>, minprec: nat)
    ensures Moves(Leaves(u), items, ReadClimb(nm, u, items, minprec))
    decreases Size(u) + Weight(items), 3
  {
    hide Leaves, LeavesIn;
    var x := ReadUnary(nm, u, items);
    UnaryMoves(nm, u, items);
    OpsMoves(nm, x.0, x.1, minprec);
    SuffixTrans(ReadOps(nm, x.0, x.1, minprec).1, x.1, items);
  }

  lemma {:induction false} OpsMoves(nm: Naming, left: Expr, items: seq<Item>, minprec: nat)
    ensures Moves(Leaves(left), items, ReadOps(nm, left, items, minprec))
    decreases Weight(items), 1
  {
    hide ReadClimb;
    if !(items == [] || PrecM80(items[0].op) < minprec) {
      OpMoves(nm, left, items, minprec);
      var x := ReadClimb(nm, items[0].u, items[1..], PrecM80(items[0].op) + 1);
      SuffixTrans(ReadOps(nm, left, items, minprec).1, x.1, items);
    }
  }

  /** An operator takes at least its own item. */
  lemma {:induction false} OpMoves(nm: Naming, left: Expr, items: seq<Item>, minprec: nat)
    requires items != [] && PrecM80(items[0].op) >= minprec
    ensures var x := ReadClimb(nm, items[0].u, items[1..], PrecM80(items[0].op) + 1);
      Moves(Leaves(items[0].u), items[1..], x) && Suffix(x.1, items) && |x.1| < |items| &&
      Moves(Leaves(left) + Leaves(x.0), x.1, ReadOps(nm, left, items, minprec))
    decreases Weight(items), 0
  {
    hide ReadClimb, ReadUnary, PrecM80;
    var p := PrecM80(items[0].op) + 1;
    var x := ReadClimb(nm, items[0].u, items[1..], p);
    ClimbMoves(nm, items[0].u, items[1..], p);
    OpsMoves(nm, Bin(items[0].op, left, x.0), x.1, minprec);
    assert Suffix(items[1..], items);
    SuffixTrans(x.1, items[1..], items);
  }

  /** A whole expression: all its leaves are read. */
  lemma {:induction false} ExprMoves(nm: Naming, e: Expr, items: seq<Item>, minprec: nat)
    requires e.Bin?
    ensures var r := ReadExpr(nm, e, items, minprec); Leaves(r.0) + LeavesIn(r.1) == Leaves(e) + LeavesIn(items)
    decreases Size(e) + Weight(items), 0
  {
    var more := [Item(e.bop, e.right)] + items;
    assert more[1..] == items;
    if PlainLeft(M80, e.bop, e.left) {
      ExprMoves(nm, e.left, more, minprec);
    } else {
      ClimbMoves(nm, e.left, more, minprec);
    }
  }

  // ---- the left spine of a tree ----------------------------------------------------------------------------

  predicate OnSpine(x: Expr, t: Expr) { x == t || (t.Bin? && OnSpine(x, t.left)) }

  lemma {:induction false} SpineLeaves(x: Expr, t: Expr)
    requires OnSpine(x, t)
    ensures Leaves(x) <= Leaves(t)
    decreases t
  {
    if x != t { SpineLeaves(x, t.left); }
  }

  /** The operators put trees with more leaves on top. */
  lemma {:induction false} SpineAbove(nm: Naming, base: Expr, items: seq<Item>, minprec: nat, x: Expr)
    requires OnSpine(x, ReadOps(nm, base, items, minprec).0)
    ensures OnSpine(x, base) || Leaves(x) > Leaves(base)
    decreases Weight(items)
  {
    hide ReadClimb;
    if !(items == [] || PrecM80(items[0].op) < minprec) {
      var y := ReadClimb(nm, items[0].u, items[1..], PrecM80(items[0].op) + 1);
      SpineAbove(nm, Bin(items[0].op, base, y.0), y.1, minprec, x);
    }
  }

  /** A tree with the leaves of the left operand and of `r` can only be the one that the first
      operator makes. */
  lemma FirstOperator(nm: Naming, left: Expr, op: BinOp, r: Expr, items: seq<Item>, minprec: nat, x: Expr)
    requires minprec <= PrecM80(op) && x.Bin? && Leaves(x) == Leaves(left) + Leaves(r)
    requires OnSpine(x, ReadOps(nm, left, [Item(op, r)] + items, minprec).0)
    ensures x == Bin(op, left, ReadClimb(nm, r, items, PrecM80(op) + 1).0)
  {
    hide ReadClimb;
    assert ([Item(op, r)] + items)[1..] == items;
    var y := ReadClimb(nm, r, items, PrecM80(op) + 1);
    var base := Bin(op, left, y.0);
    ClimbMoves(nm, r, items, PrecM80(op) + 1);
    SameLeaves(y.1, items);
    SpineAbove(nm, base, y.1, minprec, x);
    if x != base { SpineLeaves(x, left); }
  }

  // ---- what comes back right ---------------------------------------------------------------------------------

  predicate Tight(items: seq<Item>) { items != [] && PrecM80(items[0].op) >= 3 }

  /** No operator is read when no item is. */
  lemma OpsStay(nm: Naming, left: Expr, items: seq<Item>, minprec: nat)
    requires ReadOps(nm, left, items, minprec).1 == items
    ensures ReadOps(nm, left, items, minprec).0 == left && (items == [] || PrecM80(items[0].op) < minprec)
  {
    hide ReadClimb, PrecM80;
    if items != [] && PrecM80(items[0].op) >= minprec { OpMoves(nm, left, items, minprec); }
  }

  /** An operand that comes back right has read nothing more. */
  lemma {:induction false} UnaryRight(nm: Naming, u: Expr, items: seq<Item>)
    requires CanPrint(u) && WellNamed(M80, nm, u) && ReadUnary(nm, u, items).0 == Norm(nm, u)
    ensures NotSafe(u) && ReadUnary(nm, u, items).1 == items && (!u.Bin? && Open(u) ==> !Tight(items))
    decreases u, 1
  {
    hide ReadClimb, ReadExpr, ReadOps;
    match u
    case Bin(_, _, _) => ExprRight(nm, u, [], 0);
    case Un(op, a) => if op.Not? { ClimbRight(nm, a, items, 3); } else { UnaryRight(nm, a, items); }
    case _ =>
  }

  lemma {:induction false} ClimbRight(nm: Naming, u: Expr, items: seq<Item>, minprec: nat)
    requires CanPrint(u) && WellNamed(M80, nm, u) && ReadClimb(nm, u, items, minprec).0 == Norm(nm, u)
    ensures NotSafe(u) && ReadClimb(nm, u, items, minprec).1 == items && (!u.Bin? && Open(u) ==> !Tight(items))
    ensures items == [] || PrecM80(items[0].op) < minprec
    decreases u, 2
  {
    var x, r := ReadUnary(nm, u, items), ReadClimb(nm, u, items, minprec);
    hide ReadUnary, ReadExpr, ReadOps, NotSafe, Norm, Open, Tight;
    NormLeaves(nm, u);
    ClimbMoves(nm, u, items, minprec);
    SameLeaves(r.1, items);
    UnaryMoves(nm, u, items);
    OpsMoves(nm, x.0, x.1, minprec);
    assert |x.1| == |items| && x.1 == items;
    OpsStay(nm, x.0, x.1, minprec);
    UnaryRight(nm, u, items);
  }

  /** An operand that reads on is no tree with an operator on top. */
  lemma {:induction false} ReadsOn(nm: Naming, u: Expr, items: seq<Item>)
    requires ReadUnary(nm, u, items).1 != items
    ensures ReadUnary(nm, u, items).0.Un?
    decreases u
  {
    hide ReadClimb, ReadExpr;
    if u.Un? && !u.op.Not? { ReadsOn(nm, u.arg, items); }
  }

  /** An expression that comes back right, or as the left part of what comes back, is safe. */
  lemma {:induction false} ExprRight(nm: Naming, e: Expr, items: seq<Item>, minprec: nat)
    requires e.Bin? && CanPrint(e) && WellNamed(M80, nm, e) && Printable(items) && minprec <= PrecM80(e.bop)
    requires OnSpine(Norm(nm, e), ReadExpr(nm, e, items, minprec).0)
    ensures NotSafe(e) && (Open(e) ==> !Tight(items))
    decreases e, 0
  {
    hide ReadUnary, ReadClimb, ReadOps, NotSafe, PlainLeft, PrecM80, ReadExpr;
    var op, l, r := e.bop, e.left, e.right;
    var more := [Item(op, r)] + items;
    assert more[1..] == items;
    NormBin(nm, op, l, r);
    NormLeaves(nm, e);
    NormLeaves(nm, l);
    NormLeaves(nm, r);
    ExprIs(nm, e, items, minprec);
    if PlainLeft(M80, op, l) {
      PlainRight(nm, op, l, r, items, minprec);
    } else {
      var x := ReadUnary(nm, l, more);
      ClimbIsOps(nm, l, more, minprec);
      LeftAlone(nm, l, op, r, items, minprec, Norm(nm, e));
      FirstOperator(nm, x.0, op, r, items, minprec, Norm(nm, e));
      UnaryRight(nm, l, more);
    }
    ClimbRight(nm, r, items, PrecM80(op) + 1);
    SafeBin(op, l, r);
  }

  /** What is on the spine with its left part. */
  lemma {:induction false} SpineLeft(op: BinOp, a: Expr, b: Expr, t: Expr)
    requires OnSpine(Bin(op, a, b), t)
    ensures OnSpine(a, t)
    decreases t
  {
    if t != Bin(op, a, b) { SpineLeft(op, a, b, t.left); } else { assert OnSpine(a, t.left); }
  }

  /** The left operand was read alone when the tree is on the spine. */
  lemma LeftAlone(nm: Naming, l: Expr, op: BinOp, r: Expr, items: seq<Item>, minprec: nat, x: Expr)
    requires x.Bin? && Leaves(x) == Leaves(l) + Leaves(r)
    requires var y := ReadUnary(nm, l, [Item(op, r)] + items); OnSpine(x, ReadOps(nm, y.0, y.1, minprec).0)
    ensures ReadUnary(nm, l, [Item(op, r)] + items).1 == [Item(op, r)] + items
    ensures Leaves(ReadUnary(nm, l, [Item(op, r)] + items).0) == Leaves(l)
  {
    hide ReadUnary, ReadOps;
    var more := [Item(op, r)] + items;
    assert more[1..] == items;
    var y := ReadUnary(nm, l, more);
    UnaryMoves(nm, l, more);
    SpineAbove(nm, y.0, y.1, minprec, x);
    if y.1 != more {
      ReadsOn(nm, l, more);
      assert Suffix(y.1, items);
      SameLeaves(y.1, items);
      assert false;
    }
  }

  /** A sum or difference as left operand is read exactly, and so is the operand after it. */
  lemma {:induction false} PlainRight(nm: Naming, op: BinOp, l: Expr, r: Expr, items: seq<Item>, minprec: nat)
    requires CanPrint(Bin(op, l, r)) && WellNamed(M80, nm, Bin(op, l, r)) && Printable(items) && minprec <= PrecM80(op)
    requires PlainLeft(M80, op, l)
    requires OnSpine(Bin(op, Norm(nm, l), Norm(nm, r)), ReadExpr(nm, l, [Item(op, r)] + items, minprec).0)
    ensures NotSafe(l) && !Open(l) && ReadClimb(nm, r, items, PrecM80(op) + 1).0 == Norm(nm, r)
    decreases l, 1
  {
    var more := [Item(op, r)] + items;
    assert more[1..] == items && PrecM80(op) == PrecM80(l.bop) == 5;
    hide ReadUnary, ReadClimb, ReadOps, NotSafe, ReadExpr, Open, ItemToks, Toks, Climb, Operators, Norm, WellNamed,
         BinTok, BinToks;
    var x := Bin(op, Norm(nm, l), Norm(nm, r));
    WellNamedParts(nm, op, l, r);
    SpineLeft(op, Norm(nm, l), Norm(nm, r), ReadExpr(nm, l, more, minprec).0);
    ExprRight(nm, l, more, minprec);
    PlainReads(nm, op, l, r, items, minprec);
    NormLeaves(nm, l);
    NormLeaves(nm, r);
    FirstOperator(nm, Norm(nm, l), op, r, items, minprec, x);
  }

  /** A sum or difference that comes back is read whole before the operator after it. */
  lemma PlainReads(nm: Naming, op: BinOp, l: Expr, r: Expr, items: seq<Item>, minprec: nat)
    requires CanPrint(Bin(op, l, r)) && Readable(M80, nm, l) && !Open(l) && Printable(items) && minprec <= PrecM80(op)
    requires PlainLeft(M80, op, l)
    ensures ReadExpr(nm, l, [Item(op, r)] + items, minprec).0 ==
      ReadOps(nm, Norm(nm, l), [Item(op, r)] + items, minprec).0
  {
    var more := [Item(op, r)] + items;
    assert more[1..] == items && PrecM80(op) == PrecM80(l.bop) == 5;
    hide ReadUnary, ReadClimb, ReadOps, ReadExpr, ItemToks, Toks, Climb, Operators, Norm, Readable, BinTok, BinToks,
         Open;
    ExprTokens(nm, l, more, minprec, []);
    OpsTokens(nm, Norm(nm, l), more, minprec, []);
    ItemsStart(nm, op, r, items);
    ExprReads(M80, nm, l, minprec, ItemToks(nm, more, []));
  }

  lemma WellNamedParts(nm: Naming, op: BinOp, l: Expr, r: Expr)
    requires WellNamed(M80, nm, Bin(op, l, r))
    ensures WellNamed(M80, nm, l) && WellNamed(M80, nm, r)
  {
  }

  lemma ItemsStart(nm: Naming, op: BinOp, r: Expr, items: seq<Item>)
    requires !Relation(op)
    ensures NextPrec(M80, ItemToks(nm, [Item(op, r)] + items, [])) == PrecM80(op)
  {
    hide BinToks, BinTok, InnerToks, PrecM80;
    var more := [Item(op, r)] + items;
    assert more[1..] == items;
    BinTokIs(M80, op, InnerToks(M80, nm, r, r.Bin?) + ItemToks(nm, items, []));
  }

  lemma SafeBin(op: BinOp, l: Expr, r: Expr)
    ensures NotSafe(Bin(op, l, r)) <==>
      NotSafe(l) && NotSafe(r) && (PrecM80(op) >= 3 && (!l.Bin? || PlainLeft(M80, op, l)) ==> !Open(l))
  {
  }

  lemma ExprIs(nm: Naming, e: Expr, items: seq<Item>, minprec: nat)
    requires e.Bin?
    ensures var more := [Item(e.bop, e.right)] + items;
      (PlainLeft(M80, e.bop, e.left) ==> e.left.Bin?) &&
      ReadExpr(nm, e, items, minprec) ==
        if PlainLeft(M80, e.bop, e.left) then ReadExpr(nm, e.left, more, minprec)
        else ReadClimb(nm, e.left, more, minprec)
  {
    hide ReadClimb;
  }

  lemma ClimbIsOps(nm: Naming, u: Expr, items: seq<Item>, minprec: nat)
    ensures var x := ReadUnary(nm, u, items); ReadClimb(nm, u, items, minprec) == ReadOps(nm, x.0, x.1, minprec)
  {
    hide ReadUnary, ReadOps;
  }

  /** In MACRO-80 a printable tree reads back exactly when no operator that binds tighter than NOT
      follows the operand of a NOT, anywhere in it. */
  lemma M80Readable(nm: Naming, e: Expr)
    requires CanPrint(e) && WellNamed(M80, nm, e)
    ensures Parse(M80, Text(M80, nm, e)) == Some(Norm(nm, e)) <==> NotSafe(e)
  {
    hide Lex, Text, Toks, Climb, NotSafe, Norm, CanPrint, WellNamed, ReadExpr, ReadClimb, InnerToks, ItemToks, BinTok;
    if NotSafe(e) {
      PrintParse(M80, nm, e);
    } else {
      TextReads(M80, nm, e, "");
      assert Text(M80, nm, e) + "" == Text(M80, nm, e) && Toks(M80, nm, e) + [] == Toks(M80, nm, e);
      LexNothing(M80);
      NoItems(nm, []);
      if e.Bin? {
        ExprTokens(nm, e, [], 0, []);
        if ReadExpr(nm, e, [], 0).0 == Norm(nm, e) { ExprRight(nm, e, [], 0); }
      } else {
        ClimbTokens(nm, e, [], 0, []);
        PlainInner(M80, nm, e);
        if ReadClimb(nm, e, [], 0).0 == Norm(nm, e) { ClimbRight(nm, e, [], 0); }
      }
    }
  }

  function NotTimesTwo(a: string): (e: Expr)
    ensures CanPrint(e) && !NotSafe(e)
  {
    assert CanPrint(Un(Not, Sym(a))) && Open(Un(Not, Sym(a)));
    Bin(Mul, Un(Not, Sym(a)), Num(2, 10))
  }

  /** The complement of a symbol times 2 does not come back in MACRO-80. */
  lemma ProductLost(nm: Naming, a: string)
    requires ValidName(M80, nm(a))
    ensures Parse(M80, Text(M80, nm, NotTimesTwo(a))) != Some(Norm(nm, NotTimesTwo(a)))
  {
    hide Parse, Text, Norm, ValidName;
    assert WellNamed(M80, nm, Un(Not, Sym(a)));
    M80Readable(nm, NotTimesTwo(a));
  }
}
