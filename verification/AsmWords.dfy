/** The spellings of numbers, operator words and characters that the printer of assembler expressions
    never uses. */
module AsmWords {
  import opened Wrappers
  import opened AsmExpr

  /** `s` is a number of the dialect with the digits `t` in base `base`. */
  predicate Spelling(d: Dialect, base: nat, s: string, t: string) {
    t != "" && All(DigitsOf(base), t) &&
    if d.M80? then
      (base == 2 && Suffixed(s, t, "bB")) || (base == 8 && Suffixed(s, t, "oOqQ")) ||
      (base == 10 && (s == t || Suffixed(s, t, "dD"))) ||
      (base == 16 && ((Digit(t[0]) && Suffixed(s, t, "hH")) || Prefixed(s, t, "xX")))
    else
      (base == 2 && Prefixed(s, t, "bB")) || (base == 8 && Prefixed(s, t, "oOqQ")) || (base == 10 && s == t) ||
      (base == 16 && Prefixed(s, t, "xX"))
  }

  predicate Suffixed(s: string, t: string, marks: string) { s != "" && s == t + s[|s| - 1..] && s[|s| - 1] in marks }

  predicate Prefixed(s: string, t: string, marks: string) {
    |s| >= 2 && s == s[..2] + t && s[0] == '0' && s[1] in marks
  }

  /** A number in any spelling is read as the value of its digits in its base. */
  lemma NumberSpelled(d: Dialect, base: nat, s: string, t: string)
    requires Spelling(d, base, s, t) && All(HexDigits, t)
    ensures Parse(d, s) == Some(Num(Value(t, base), base))
  {
    hide Number, Lex, Parse, Value, Spelling, All, Unary;
    ValueOf(d, base, s, t);
    OneToken(d, base, s, t);
    NumberOperand(d, s);
    OneOperand(d, s, TNum(s), Num(Value(t, base), base));
  }

  lemma NumberOperand(d: Dialect, s: string)
    ensures Unary(d, [TNum(s)]) == var n := Number(d, s); if n.None? then Err else Ok(Num(n.value.0, n.value.1), [])
  {
    hide Number, Climb, Operators;
    assert [TNum(s)][1..] == [];
  }

  /** A text of one token that is an operand is that operand. */
  lemma OneOperand(d: Dialect, s: string, t: Tok, e: Expr)
    requires Lex(d, s) == Some([t]) && Unary(d, [t]) == Ok(e, [])
    ensures Parse(d, s) == Some(e)
  {
    hide Unary, Operators, Climb, Lex;
    ClimbIs(d, [t], 0);
    OperatorsStop(d, e, [], 0);
  }

  lemma ValueOf(d: Dialect, base: nat, s: string, t: string)
    requires Spelling(d, base, s, t) && All(HexDigits, t)
    ensures Number(d, s) == Some((Value(t, base), base))
  {
    hide Value, M80Number, SdasNumber, All, LowerAll;
    ValueLower(t, base);
    if s == t {
      DecimalRead(d, t);
    } else if |s| >= 2 && s[1] in "bBoOqQxX" && Prefixed(s, t, [s[1]]) && (d.Sdas? || base == 16) {
      PrefixLower(s, t, s[1]);
      PrefixValue(d, base, s, t);
    } else {
      SuffixLower(s, t, s[|s| - 1]);
      SuffixValue(base, s, t);
    }
  }

  lemma PrefixLower(s: string, t: string, c: char)
    requires Prefixed(s, t, [c])
    ensures LowerAll(s)[..2] == ['0', Lower(c)] && LowerAll(s)[2..] == LowerAll(t)
  {
    assert s[2..] == t;
  }

  lemma SuffixLower(s: string, t: string, c: char)
    requires Suffixed(s, t, [c])
    ensures LowerAll(s)[..|s| - 1] == LowerAll(t) && LowerAll(s)[|s| - 1] == Lower(c) && |s| == |t| + 1
  {
    assert s[..|s| - 1] == t;
  }

  lemma LowerDigits(base: nat, t: string)
    requires All(DigitsOf(base), t)
    ensures All(DigitsOf(base), LowerAll(t)) && (base in {2, 8, 10} ==> LowerAll(t) == t)
  {
  }

  lemma PrefixValue(d: Dialect, base: nat, s: string, t: string)
    requires Spelling(d, base, s, t) && All(HexDigits, t) && Prefixed(s, t, "xXbBoOqQ")
    requires LowerAll(s)[..2] == ['0', Lower(s[1])] && LowerAll(s)[2..] == LowerAll(t)
    ensures Number(d, s) == Some((Value(t, base), base))
  {
    hide Value, LowerAll;
    ValueLower(t, base);
    LowerDigits(base, t);
  }

  lemma SuffixValue(base: nat, s: string, t: string)
    requires Spelling(M80, base, s, t) && All(HexDigits, t) && s != t
    requires LowerAll(s)[..|s| - 1] == LowerAll(t) && LowerAll(s)[|s| - 1] == Lower(s[|s| - 1]) && |s| == |t| + 1
    ensures Number(M80, s) == Some((Value(t, base), base))
  {
    hide Value, LowerAll;
    ValueLower(t, base);
    LowerDigits(base, t);
    NoPrefix(base, LowerAll(s), LowerAll(t));
  }

  /** Digits before a suffix do not start as a hexadecimal number of C does. */
  lemma NoPrefix(base: nat, s: string, t: string)
    requires t != "" && |s| == |t| + 1 && s[..|s| - 1] == t && All(DigitsOf(base), t)
    requires base == 16 || base == 10 || base == 8 || base == 2
    ensures |s| >= 3 ==> s[..2] != "0x"
  {
    if |s| >= 3 {
      assert s[..2][1] == s[1] == s[..|s| - 1][1] == t[1];
      assert Member(DigitsOf(base), t[1]);
    }
  }

  lemma OneToken(d: Dialect, base: nat, s: string, t: string)
    requires Spelling(d, base, s, t)
    ensures Lex(d, s) == Some([TNum(s)])
  {
    hide Lex, Next;
    OneNext(d, base, s, t);
    assert s[|s|..] == "";
    NextOnly(d, s, TNum(s));
  }

  lemma NextOnly(d: Dialect, s: string, t: Tok)
    requires s != "" && !Space(s[0]) && Next(d, s) == Some((t, |s|))
    ensures Lex(d, s) == Some([t])
  {
    hide Next;
    assert s[|s|..] == "" && Lex(d, "") == Some([]);
    assert [t] + [] == [t];
  }

  lemma OneNext(d: Dialect, base: nat, s: string, t: string)
    requires Spelling(d, base, s, t)
    ensures Digit(s[0]) && Next(d, s) == Some((TNum(s), |s|))
  {
    assert s[..|s|] == s;
    if d.M80? {
      Letters(base, s, t);
      hide Spelling, NextSdas, All;
      SpanIs(AlNum, s, "");
      assert s + "" == s;
    } else {
      SdasNext(base, s, t);
    }
  }

  lemma Letters(base: nat, s: string, t: string)
    requires Spelling(M80, base, s, t)
    ensures All(AlNum, s) && s != "" && Digit(s[0])
  {
    var k := if Prefixed(s, t, "xX") then 2 else 0;
    assert k == 0 ==> s[0] == t[0];
    assert Member(DigitsOf(base), t[0]);
    forall i | 0 <= i < |s| ensures Member(AlNum, s[i]) {
      if k <= i < k + |t| {
        assert s[i] == t[i - k] && Member(DigitsOf(base), t[i - k]);
      }
    }
  }

  lemma SdasNext(base: nat, s: string, t: string)
    requires Spelling(Sdas, base, s, t)
    ensures Digit(s[0]) && NextDigits(s) == (TNum(s), |s|)
  {
    if base == 10 {
      NextDecimal(t);
    } else {
      assert s[2..] == t && s[..|s|] == s;
      NextPrefixed(base, s, t);
    }
  }

  lemma NextDecimal(t: string)
    requires t != "" && All(Digits, t)
    ensures Digit(t[0]) && NextDigits(t) == (TNum(t), |t|)
  {
    assert Member(Digits, t[0]) && (|t| >= 2 ==> Member(Digits, t[1]));
    hide Span, All;
    SpanIs(Digits, t, "");
    assert t + "" == t && t[..|t|] == t;
  }

  lemma NextPrefixed(base: nat, s: string, t: string)
    requires Spelling(Sdas, base, s, t) && base != 10 && s[2..] == t && s[..|s|] == s
    ensures NextDigits(s) == (TNum(s), |s|)
  {
    assert Member(DigitsOf(base), t[0]);
    hide Span, All, Member;
    SpanIs(DigitsOf(base), t, "");
    assert t + "" == t;
    assert s[2] == t[0];
    HexIs(t[0]);
  }

  lemma HexIs(c: char)
    ensures Member(HexDigits, c) == Hex(c)
  {
  }

  function RelationWord(op: BinOp): string
    requires Relation(op)
  {
    match op
    case Eq => "EQ" case Ne => "NE" case Lt => "LT" case Le => "LE" case Gt => "GT" case Ge => "GE"
  }

  /** The word of a relation, in upper or lower case, is the operator in MACRO-80; in sdas it is a symbol. */
  lemma RelationRead(op: BinOp, s: string)
    requires Relation(op) && UpperAll(s) == RelationWord(op)
    ensures Lex(M80, s) == Some([TWord(WBin(op))]) && Lex(Sdas, s) == Some([TSym(s)])
  {
    assert |s| == 2 && Alpha(s[0]) && Alpha(s[1]);
    hide Lex, WordOf, RelationWord;
    SpanIs(M80Sym, s, "");
    SpanIs(SdasSym, s, "");
    assert s + "" == s && s[..2] == s;
    assert WordOf(RelationWord(op)) == Some(WBin(op)) by { WordIs(op); }
    NextOnly(M80, s, TWord(WBin(op)));
    NextOnly(Sdas, s, TSym(s));
  }

  lemma WordIs(op: BinOp)
    requires Relation(op)
    ensures WordOf(RelationWord(op)) == Some(WBin(op))
  {
  }

  /** An escaped character of sdas: control characters by their letters, and otherwise the character. */
  lemma EscapeRead(c: char, n: nat)
    requires c != '\n'
    ensures Parse(Sdas, "'\\" + [c] + "'") == Some(Chr(n)) <==>
      n == if c == 'n' then 10 else if c == 't' then 9 else if c == 'r' then 13 else if c == '0' then 0 else c as int
  {
    var s := "'\\" + [c] + "'";
    assert s[1..3] == ['\\', c];
    hide Lex, Climb, Operators;
    NextOnly(Sdas, s, TChr(['\\', c]));
    assert [TChr(['\\', c])][1..] == [];
    OneOperand(Sdas, s, TChr(['\\', c]), Chr(Escape(c) as int));
  }

  // ---- symbols, operators and strings -------------------------------------------------------------

  predicate Letter(c: char) { 'a' <= c <= 'z' || 'A' <= c <= 'Z' }

  /** The characters besides letters that symbols of the dialect are made of, and its operators. */
  function Marks(d: Dialect): string { if d.M80? then "_@?.$" else "_.$" }

  function Operators1(d: Dialect): string { if d.M80? then "+-*/()<>=," else "+-*/()<>%&|^~[]" }

  predicate SymbolText(d: Dialect, s: string) {
    s != "" && (Letter(s[0]) || s[0] in Marks(d)) &&
    (forall i :: 0 <= i < |s| ==> Letter(s[i]) || '0' <= s[i] <= '9' || s[i] in Marks(d)) &&
    if d.M80? then s != "$" && WordOf(UpperAll(s)).None? else s != "."
  }

  /** Such a text is one symbol. */
  lemma SymbolRead(d: Dialect, s: string)
    requires SymbolText(d, s)
    ensures Lex(d, s) == Some([TSym(s)])
  {
    assert ValidName(d, s);
    hide ValidName, Lex;
    LexName(d, s, "");
    LexNothing(d);
    assert s + "" == s && [TSym(s)] + [] == [TSym(s)];
  }

  /** A character of an operator alone is that operator. */
  lemma OperatorRead(d: Dialect, c: char)
    requires c in Operators1(d)
    ensures Lex(d, [c]) == Some([TOp([c])])
  {
    hide Lex, NextDigits, Quoted, Span, WordOf, Operators1, OpChar, SymStart;
    OperatorChar(d, c);
    NextOnly(d, [c], TOp([c]));
  }

  lemma OperatorChar(d: Dialect, c: char)
    requires c in Operators1(d)
    ensures OpChar(d, c) && !Digit(c) && !SymStart(d, c) && !Space(c) && c != '\'' && c != '"'
  {
  }

  /** A text that starts with any other character is refused. */
  lemma NothingElse(d: Dialect, c: char, k: string)
    requires !Space(c) && !Letter(c) && !('0' <= c <= '9') && c !in Marks(d) && c !in Operators1(d)
    requires c != '\'' && (d.M80? ==> c != '"')
    ensures Lex(d, [c] + k).None?
  {
    hide NextDigits, Quoted, Span, WordOf;
    assert ([c] + k)[0] == c;
  }

  /** A text with each `q` doubled. */
  function DoubledIn(q: char, s: string): string {
    if s == "" then "" else (if s[0] == q then [q, q] else [s[0]]) + DoubledIn(q, s[1..])
  }

  lemma {:induction false} QuotedRead(q: char, s: string, k: string)
    requires k == "" || k[0] != q
    ensures Quoted(q, DoubledIn(q, s) + [q] + k) == Some((s, |DoubledIn(q, s)| + 1))
    decreases |s|
  {
    var t := DoubledIn(q, s) + [q] + k;
    if s == "" {
      assert t == [q] + k;
    } else {
      QuotedRead(q, s[1..], k);
      var first := if s[0] == q then [q, q] else [s[0]];
      Regroup(first, DoubledIn(q, s[1..]), [q], k);
      assert t[|first|..] == DoubledIn(q, s[1..]) + [q] + k;
      assert s == [s[0]] + s[1..];
    }
  }

  lemma Regroup(a: string, b: string, c: string, k: string)
    ensures a + b + c + k == a + (b + c + k)
  {
  }

  /** A string of MACRO-80 between two quotes, where a doubled quote stands for one. */
  lemma StringRead(q: char, s: string)
    requires q == '\'' || q == '"'
    ensures Lex(M80, [q] + DoubledIn(q, s) + [q]) == Some([TStr(s)])
  {
    hide Lex, Quoted, Span, DoubledIn;
    var t := [q] + DoubledIn(q, s) + [q];
    QuotedRead(q, s, "");
    assert t[1..] == DoubledIn(q, s) + [q] + "";
    NextOnly(M80, t, TStr(s));
  }

  /** Digits before a dollar sign are a symbol of sdas. */
  lemma NumberedLabel(t: string)
    requires t != "" && All(Digits, t)
    ensures Lex(Sdas, t + "$") == Some([TSym(t + "$")])
  {
    hide Lex;
    var u := t + "$";
    assert u[..|u| - 1] == t && u + "" == u && u[0] == t[0];
    NextLabel(u, "");
    NextOnly(Sdas, u, TSym(u));
  }
}
