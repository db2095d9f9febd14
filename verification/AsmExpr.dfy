/** Assembler expressions in the syntax of MACRO-80 and of sdas: a tree, its text in either
    dialect, and the tokens and the precedence climbing that read a text back. */
module AsmExpr {
  import opened Wrappers
  import CInt

  datatype Dialect = M80 | Sdas

  datatype UnOp = Neg | Pos | Not | Hi | Lo

  datatype BinOp = Add | Sub | Mul | Div | Mod | Shl | Shr | And | Or | Xor | Eq | Ne | Lt | Le | Gt | Ge

  datatype Expr =
    | Num(value: int, base: nat)
    | Chr(code: nat)
    | Sym(name: string)
    | Loc
    | Un(op: UnOp, arg: Expr)
    | Bin(bop: BinOp, left: Expr, right: Expr)

  // ---- characters ------------------------------------------------------------------------

  datatype Class = Digits | HexDigits | BinDigits | OctDigits | AlNum | M80Sym | SdasSym

  predicate Digit(c: char) { '0' <= c <= '9' }

  predicate Alpha(c: char) { 'a' <= c <= 'z' || 'A' <= c <= 'Z' }

  predicate Hex(c: char) { Digit(c) || 'a' <= c <= 'f' || 'A' <= c <= 'F' }

  predicate SdasMark(c: char) { c == '_' || c == '.' || c == '$' }

  predicate M80Mark(c: char) { SdasMark(c) || c == '@' || c == '?' }

  predicate Member(k: Class, c: char) {
    match k
    case Digits => Digit(c)
    case HexDigits => Hex(c)
    case BinDigits => c == '0' || c == '1'
    case OctDigits => '0' <= c <= '7'
    case AlNum => Digit(c) || Alpha(c)
    case M80Sym => Digit(c) || Alpha(c) || M80Mark(c)
    case SdasSym => Digit(c) || Alpha(c) || SdasMark(c)
  }

  predicate All(k: Class, s: string) { forall i :: 0 <= i < |s| ==> Member(k, s[i]) }

  /** How many characters at the start are in the class. */
  function Span(k: Class, s: string): (n: nat)
    ensures n <= |s| && All(k, s[..n]) && (n < |s| ==> !Member(k, s[n]))
  {
    if s == "" || !Member(k, s[0]) then 0 else 1 + Span(k, s[1..])
  }

  /** The span ends where a character outside the class starts. */
  lemma {:induction false} SpanIs(k: Class, a: string, b: string)
    requires All(k, a) && (b == "" || !Member(k, b[0]))
    ensures Span(k, a + b) == |a| && (a + b)[..|a|] == a && (a + b)[|a|..] == b
    decreases |a|
  {
    hide Member;
    if a == "" {
      assert a + b == b;
    } else {
      SpanIs(k, a[1..], b);
      assert (a + b)[0] == a[0] && (a + b)[1..] == a[1..] + b;
    }
  }

  function Lower(c: char): char { if 'A' <= c <= 'Z' then c - 'A' + 'a' else c }

  function Upper(c: char): char { if 'a' <= c <= 'z' then c - 'a' + 'A' else c }

  function LowerAll(s: string): (r: string)
    ensures |r| == |s| && forall i :: 0 <= i < |s| ==> r[i] == Lower(s[i])
  {
    seq(|s|, i requires 0 <= i < |s| => Lower(s[i]))
  }

  function UpperAll(s: string): (r: string)
    ensures |r| == |s| && forall i :: 0 <= i < |s| ==> r[i] == Upper(s[i])
  {
    seq(|s|, i requires 0 <= i < |s| => Upper(s[i]))
  }

  predicate Space(c: char) { c == ' ' || c == '\t' || c == '\n' || c == '\r' }

  // ---- numbers ----------------------------------------------------------------------------

  function HexValue(c: char): (n: nat)
    requires Hex(c)
    ensures n < 16
  {
    if Digit(c) then (c - '0') as int else if c <= 'F' then (c - 'A') as int + 10 else (c - 'a') as int + 10
  }

  function Value(s: string, base: nat): nat
    requires All(HexDigits, s)
  {
    if s == "" then 0 else base * Value(s[..|s| - 1], base) + HexValue(s[|s| - 1])
  }

  function HexChar(n: nat): (c: char)
    requires n < 16
    ensures Hex(c) && HexValue(c) == n && (n < 10 ==> Digit(c)) && (n < 8 ==> c <= '7') && (n < 2 ==> c <= '1')
  {
    "0123456789ABCDEF"[n]
  }

  predicate Base(b: nat) { b == 2 || b == 8 || b == 10 || b == 16 }

  function Front(v: nat, base: nat): nat
    requires Base(base)
  {
    if base == 2 then v / 2 else if base == 8 then v / 8 else if base == 10 then v / 10 else v / 16
  }

  function Back(v: nat, base: nat): (r: nat)
    requires Base(base)
    ensures r < base && v == base * Front(v, base) + r
  {
    if base == 2 then v % 2 else if base == 8 then v % 8 else if base == 10 then v % 10 else v % 16
  }

  /** The digits of a base. */
  function DigitsOf(base: nat): Class {
    if base == 2 then BinDigits else if base == 8 then OctDigits else if base == 10 then Digits else HexDigits
  }

  /** The digits of a number, with no leading zero. */
  function NumDigits(v: nat, base: nat): (s: string)
    requires Base(base)
    ensures s != "" && All(HexDigits, s) && (base == 10 ==> All(Digits, s))
    ensures All(DigitsOf(base), s)
    decreases v
  {
    if v < base then [HexChar(v)] else NumDigits(Front(v, base), base) + [HexChar(Back(v, base))]
  }

  lemma {:induction false} NumDigitsValue(v: nat, base: nat)
    requires Base(base)
    ensures Value(NumDigits(v, base), base) == v
    decreases v
  {
    hide HexChar, Back, All, Value;
    if v < base {
      Single(HexChar(v), base);
    } else {
      NumDigitsValue(Front(v, base), base);
      Longer(NumDigits(Front(v, base), base), HexChar(Back(v, base)), base);
    }
  }

  lemma Single(c: char, base: nat)
    requires Hex(c)
    ensures Value([c], base) == HexValue(c)
  {
    assert [c][..0] == "";
  }

  lemma Longer(s: string, c: char, base: nat)
    requires Hex(c) && All(HexDigits, s)
    ensures All(HexDigits, s + [c]) && Value(s + [c], base) == base * Value(s, base) + HexValue(c)
  {
    assert (s + [c])[..|s|] == s;
  }

  /** Letters in lower case have the same value. */
  lemma {:induction false} ValueLower(s: string, base: nat)
    requires All(HexDigits, s)
    ensures All(HexDigits, LowerAll(s)) && Value(LowerAll(s), base) == Value(s, base)
    decreases |s|
  {
    if s != "" {
      var t := s[..|s| - 1];
      ValueLower(t, base);
      assert LowerAll(s)[..|s| - 1] == LowerAll(t);
    }
  }

  /** The value and the base of a MACRO-80 number. */
  function M80Number(text: string): Option<(nat, nat)> {
    var s := LowerAll(text);
    var n := |s|;
    if n >= 3 && s[..2] == "0x" && All(HexDigits, s[2..]) then Some((Value(s[2..], 16), 16))
    else if n >= 2 && s[n - 1] == 'h' && All(HexDigits, s[..n - 1]) then Some((Value(s[..n - 1], 16), 16))
    else if n >= 2 && s[n - 1] == 'b' && All(BinDigits, s[..n - 1]) then Some((Value(s[..n - 1], 2), 2))
    else if n >= 2 && s[n - 1] in "oq" && All(OctDigits, s[..n - 1]) then Some((Value(s[..n - 1], 8), 8))
    else if n >= 2 && s[n - 1] == 'd' && All(Digits, s[..n - 1]) then Some((Value(s[..n - 1], 10), 10))
    else if n >= 1 && All(Digits, s) then Some((Value(s, 10), 10))
    else None
  }

  /** The value and the base of an sdas number. */
  function SdasNumber(text: string): Option<(nat, nat)> {
    var s := LowerAll(text);
    var n := |s|;
    if n >= 3 && s[..2] == "0x" && All(HexDigits, s[2..]) then Some((Value(s[2..], 16), 16))
    else if n >= 3 && s[..2] == "0b" && All(BinDigits, s[2..]) then Some((Value(s[2..], 2), 2))
    else if n >= 3 && (s[..2] == "0o" || s[..2] == "0q") && All(OctDigits, s[2..]) then Some((Value(s[2..], 8), 8))
    else if n >= 1 && All(Digits, s) then Some((Value(s, 10), 10))
    else None
  }

  function Number(d: Dialect, text: string): Option<(nat, nat)> {
    if d.M80? then M80Number(text) else SdasNumber(text)
  }

  /** The text of a number that is not negative. */
  function NumText(d: Dialect, v: nat, base: nat): (s: string)
    ensures s != "" && Digit(s[0])
  {
    if base != 16 then NumDigits(v, 10)
    else if d.Sdas? then "0x" + NumDigits(v, 16)
    else
      var h := NumDigits(v, 16);
      (if Digit(h[0]) then h else "0" + h) + "H"
  }

  function ReadBase(base: nat): nat { if base == 16 then 16 else 10 }

  /** Reading the text of a number gives its value, in base 16 or 10. */
  lemma NumberRead(d: Dialect, v: nat, base: nat)
    ensures Number(d, NumText(d, v, base)) == Some((v, ReadBase(base)))
  {
    hide NumDigits, Value, M80Number, SdasNumber;
    if base != 16 {
      DecimalRead(d, NumDigits(v, 10));
      NumDigitsValue(v, 10);
    } else {
      var h := NumDigits(v, 16);
      NumDigitsValue(v, 16);
      if d.Sdas? {
        SdasHexRead(h);
      } else {
        var g := if Digit(h[0]) then h else "0" + h;
        if !Digit(h[0]) { LeadingZero(h, 16); }
        M80HexRead(g);
      }
    }
  }

  lemma DecimalRead(d: Dialect, t: string)
    requires t != "" && All(Digits, t)
    ensures All(HexDigits, t) && Number(d, t) == Some((Value(t, 10), 10))
  {
    hide Value;
    DigitsLower(t);
    assert Digit(t[|t| - 1]);
    if |t| >= 2 { assert Digit(t[1]) && t[..2][1] == t[1]; }
  }

  lemma SdasHexRead(h: string)
    requires h != "" && All(HexDigits, h)
    ensures SdasNumber("0x" + h) == Some((Value(h, 16), 16))
  {
    hide Value;
    var s := LowerAll("0x" + h);
    ValueLower(h, 16);
    assert s[2..] == LowerAll(h) && s[..2] == "0x";
  }

  lemma M80HexRead(g: string)
    requires g != "" && All(HexDigits, g)
    ensures M80Number(g + "H") == Some((Value(g, 16), 16))
  {
    hide Value;
    var s := LowerAll(g + "H");
    ValueLower(g, 16);
    assert s[..|s| - 1] == LowerAll(g) && s[|s| - 1] == 'h';
    if |s| >= 3 {
      assert Hex(g[1]) && s[1] == Lower(g[1]) && s[..2][1] == s[1];
    }
  }

  lemma DigitsLower(t: string)
    requires All(Digits, t)
    ensures LowerAll(t) == t
  {
  }

  lemma {:induction false} LeadingZero(s: string, base: nat)
    requires All(HexDigits, s)
    ensures All(HexDigits, "0" + s) && Value("0" + s, base) == Value(s, base)
    decreases |s|
  {
    if s == "" {
      Single('0', base);
      assert "0" + s == "0";
    } else {
      LeadingZero(s[..|s| - 1], base);
      assert ("0" + s)[..|s|] == "0" + s[..|s| - 1];
    }
  }

  // ---- tokens -------------------------------------------------------------------------------

  datatype Word = WBin(bop: BinOp) | WUn(op: UnOp)

  /** `TChr` and `TStr` hold the text between the quotes. */
  datatype Tok =
    | TNum(text: string) | TChr(body: string) | TStr(body: string) | TSym(name: string) | TLoc | TWord(w: Word)
    | TOp(text: string)

  function WordOf(s: string): Option<Word> {
    if s == "MOD" then Some(WBin(Mod)) else if s == "SHL" then Some(WBin(Shl)) else if s == "SHR" then Some(WBin(Shr))
    else if s == "AND" then Some(WBin(And)) else if s == "OR" then Some(WBin(Or))
    else if s == "XOR" then Some(WBin(Xor))
    else if s == "NOT" then Some(WUn(Not)) else if s == "HIGH" then Some(WUn(Hi)) else if s == "LOW" then Some(WUn(Lo))
    else if s == "EQ" then Some(WBin(Eq)) else if s == "NE" then Some(WBin(Ne)) else if s == "LT" then Some(WBin(Lt))
    else if s == "LE" then Some(WBin(Le)) else if s == "GT" then Some(WBin(Gt)) else if s == "GE" then Some(WBin(Ge))
    else None
  }

  predicate SymStart(d: Dialect, c: char) { Alpha(c) || if d.M80? then M80Mark(c) else SdasMark(c) }

  /** The characters of the operators of both dialects. */
  predicate CommonOp(c: char) { c == '-' || c == '+' || c == '*' || c == '/' || c == '(' || c == ')' }

  predicate OpChar(d: Dialect, c: char) {
    CommonOp(c) || c == '<' || c == '>' ||
    if d.M80? then c == '=' || c == ',' else SdasOnly(c) || c == '[' || c == ']'
  }

  predicate SdasOnly(c: char) { c == '%' || c == '&' || c == '|' || c == '^' || c == '~' }

  /** A quoted string from after its first quote: its text, where a doubled quote is one, and
      how many characters it takes. */
  function Quoted(q: char, s: string): (r: Option<(string, nat)>)
    ensures r.Some? ==> 1 <= r.value.1 <= |s|
    decreases |s|
  {
    if s == "" then None
    else if s[0] != q then
      var r := Quoted(q, s[1..]);
      if r.None? then None else Some(([s[0]] + r.value.0, r.value.1 + 1))
    else if |s| >= 2 && s[1] == q then
      var r := Quoted(q, s[2..]);
      if r.None? then None else Some(([q] + r.value.0, r.value.1 + 2))
    else Some(("", 1))
  }

  /** The first token of a text that does not start with a space, and its length. */
  function NextM80(s: string): (r: Option<(Tok, nat)>)
    requires s != "" && !Space(s[0])
    ensures r.Some? ==> 1 <= r.value.1 <= |s|
  {
    var c := s[0];
    if Digit(c) then
      var n := Span(AlNum, s);
      Some((TNum(s[..n]), if n == 0 then 1 else n))
    else if c == '\'' || c == '"' then
      var r := Quoted(c, s[1..]);
      if r.None? then None else Some((TStr(r.value.0), r.value.1 + 1))
    else if SymStart(M80, c) then
      var n := Span(M80Sym, s);
      var t := s[..n];
      var w := WordOf(UpperAll(t));
      Some((if w.Some? then TWord(w.value) else if t == "$" then TLoc else TSym(t), if n == 0 then 1 else n))
    else if OpChar(M80, c) then Some((TOp([c]), 1))
    else None
  }

  /** A number, or a numbered label. */
  function NextDigits(s: string): (r: (Tok, nat))
    requires s != "" && Digit(s[0])
    ensures 1 <= r.1 <= |s|
  {
    var prefix := if |s| >= 3 && s[0] == '0' then s[1] else ' ';
    if (prefix == 'x' || prefix == 'X') && Hex(s[2]) then Prefixed(HexDigits, s)
    else if (prefix == 'b' || prefix == 'B') && Member(BinDigits, s[2]) then Prefixed(BinDigits, s)
    else if prefix in {'o', 'O', 'q', 'Q'} && Member(OctDigits, s[2]) then Prefixed(OctDigits, s)
    else
      var n := Span(Digits, s);
      if n < |s| && s[n] == '$' then (TSym(s[..n + 1]), n + 1) else (TNum(s[..n]), if n == 0 then 1 else n)
  }

  function Prefixed(k: Class, s: string): (r: (Tok, nat))
    requires |s| >= 3
    ensures 1 <= r.1 <= |s|
  {
    var n := 2 + Span(k, s[2..]);
    (TNum(s[..n]), n)
  }

  function NextSdas(s: string): (r: Option<(Tok, nat)>)
    requires s != "" && !Space(s[0])
    ensures r.Some? ==> 1 <= r.value.1 <= |s|
  {
    var c := s[0];
    if Digit(c) then Some(NextDigits(s))
    else if c == '\'' then
      if |s| >= 3 && s[1] != '\'' && s[1] != '\\' && s[2] == '\'' then Some((TChr([s[1]]), 3))
      else if |s| >= 4 && s[1] == '\\' && s[2] != '\n' && s[3] == '\'' then Some((TChr(s[1..3]), 4))
      else None
    else if SymStart(Sdas, c) then
      var n := Span(SdasSym, s);
      Some((if s[..n] == "." then TLoc else TSym(s[..n]), if n == 0 then 1 else n))
    else if |s| >= 2 && (c == '<' || c == '>') && s[1] == c then Some((TOp(s[..2]), 2))
    else if OpChar(Sdas, c) then Some((TOp([c]), 1))
    else None
  }

  function Next(d: Dialect, s: string): (r: Option<(Tok, nat)>)
    requires s != "" && !Space(s[0])
    ensures r.Some? ==> 1 <= r.value.1 <= |s|
  {
    if d.M80? then NextM80(s) else NextSdas(s)
  }

  /** The tokens of a text. */
  function Lex(d: Dialect, s: string): Option<seq<Tok>>
    decreases |s|
  {
    if s == "" then Some([])
    else if Space(s[0]) then Lex(d, s[1..])
    else
      var t := Next(d, s);
      if t.None? then None
      else
        var r := Lex(d, s[t.value.1..]);
        if r.None? then None else Some([t.value.0] + r.value)
  }

  function After(out: seq<Tok>, r: Option<seq<Tok>>): Option<seq<Tok>> { if r.None? then None else Some(out + r.value) }

  lemma AfterAfter(out: seq<Tok>, t: Tok, r: Option<seq<Tok>>)
    ensures After(out, After([t], r)) == After(out + [t], r)
  {
    if r.Some? { assert out + ([t] + r.value) == (out + [t]) + r.value; }
  }

  lemma AfterNothing(out: seq<Tok>, r: Option<seq<Tok>>)
    ensures After([], r) == r && After(out, Some([])) == Some(out)
  {
    if r.Some? { assert [] + r.value == r.value; }
    assert out + [] == out;
  }

  method Tokens(d: Dialect, text: string) returns (r: Option<seq<Tok>>)
    ensures r == Lex(d, text)
  {
    hide Next;
    var pos, out := 0, [];
    assert text[0..] == text;
    AfterNothing(out, Lex(d, text));
    while pos < |text|
      invariant 0 <= pos <= |text|
      invariant Lex(d, text) == After(out, Lex(d, text[pos..]))
    {
      var s := text[pos..];
      assert s[1..] == text[pos + 1..];
      if Space(s[0]) {
        pos := pos + 1;
      } else {
        var t := Next(d, s);
        if t.None? { return None; }
        assert s[t.value.1..] == text[pos + t.value.1..];
        AfterAfter(out, t.value.0, Lex(d, s[t.value.1..]));
        pos, out := pos + t.value.1, out + [t.value.0];
      }
    }
    AfterNothing(out, None);
    r := Some(out);
  }

  // ---- the parser -----------------------------------------------------------------------------

  function PrecM80(op: BinOp): nat {
    match op
    case Or => 1 case Xor => 1 case And => 2
    case Add => 5 case Sub => 5
    case Mul => 6 case Div => 6 case Mod => 6 case Shl => 6 case Shr => 6
    case _ => 4
  }

  /** The precedence of the operators that sdas has. */
  function PrecSdas(op: BinOp): nat {
    match op
    case Or => 1 case Xor => 2 case And => 3
    case Shl => 4 case Shr => 4
    case Add => 5 case Sub => 5
    case _ => 6
  }

  function Prec(d: Dialect, op: BinOp): nat { if d.M80? then PrecM80(op) else PrecSdas(op) }

  function SdasOp(s: string): Option<BinOp> {
    if s == "|" then Some(Or) else if s == "^" then Some(Xor) else if s == "&" then Some(And)
    else if s == "<<" then Some(Shl) else if s == ">>" then Some(Shr)
    else if s == "+" then Some(Add) else if s == "-" then Some(Sub)
    else if s == "*" then Some(Mul) else if s == "/" then Some(Div) else if s == "%" then Some(Mod)
    else None
  }

  /** The binary operator that a token is. */
  function BinTok(d: Dialect, t: Tok): Option<BinOp> {
    if d.M80? then
      match t
      case TOp(s) =>
        if s == "+" then Some(Add) else if s == "-" then Some(Sub) else if s == "*" then Some(Mul)
        else if s == "/" then Some(Div) else None
      case TWord(WBin(op)) => Some(op)
      case _ => None
    else if t.TOp? then SdasOp(t.text) else None
  }

  datatype Parsed = Ok(e: Expr, rest: seq<Tok>) | Err

  function Escape(c: char): char {
    if c == 'n' then '\n' else if c == 't' then '\t' else if c == 'r' then '\r' else if c == '0' then '\0' else c
  }

  /** An operand. */
  function Unary(d: Dialect, ts: seq<Tok>): (r: Parsed)
    ensures r.Ok? ==> |r.rest| < |ts|
    decreases |ts|, 0
  {
    if ts == [] then Err
    else
      var r := ts[1..];
      match ts[0]
      case TNum(text) => var n := Number(d, text); if n.None? then Err else Ok(Num(n.value.0, n.value.1), r)
      case TStr(b) => if |b| == 1 then Ok(Chr(b[0] as int), r) else Err
      case TChr(b) =>
        if |b| == 2 && b[0] == '\\' then Ok(Chr(Escape(b[1]) as int), r)
        else if |b| == 1 then Ok(Chr(b[0] as int), r)
        else Err
      case TLoc => Ok(Loc, r)
      case TSym(name) => Ok(Sym(name), r)
      case TWord(w) => if w.WBin? then Err else if w.op.Not? then Wrap(Not, Climb(d, r, 3)) else Wrap(w.op, Unary(d, r))
      case TOp(s) =>
        if s == "-" then Wrap(Neg, Unary(d, r))
        else if s == "+" then Unary(d, r)
        else if s == "~" then Wrap(Not, Unary(d, r))
        else if s == "<" && d.Sdas? then Wrap(Lo, Unary(d, r))
        else if s == ">" && d.Sdas? then Wrap(Hi, Unary(d, r))
        else if s == "(" || s == "[" then
          var e := Climb(d, r, 0);
          if e.Ok? && e.rest != [] && e.rest[0] == TOp(if s == "(" then ")" else "]") then Ok(e.e, e.rest[1..]) else Err
        else Err
  }

  function Wrap(op: UnOp, p: Parsed): Parsed { if p.Err? then Err else Ok(Un(op, p.e), p.rest) }

  /** An expression whose operators bind at least as tightly as `minprec`. */
  function Climb(d: Dialect, ts: seq<Tok>, minprec: nat): (r: Parsed)
    ensures r.Ok? ==> |r.rest| < |ts|
    decreases |ts|, 1
  {
    var l := Unary(d, ts);
    if l.Err? then Err else Operators(d, l.e, l.rest, minprec)
  }

  /** The operators after a left operand. */
  function Operators(d: Dialect, left: Expr, ts: seq<Tok>, minprec: nat): (r: Parsed)
    ensures r.Ok? ==> |r.rest| <= |ts|
    decreases |ts|, 2
  {
    var b := if ts == [] then None else BinTok(d, ts[0]);
    if b.None? || Prec(d, b.value) < minprec then Ok(left, ts)
    else
      var r := Climb(d, ts[1..], Prec(d, b.value) + 1);
      if r.Err? then Err else Operators(d, Bin(b.value, left, r.e), r.rest, minprec)
  }

  lemma ClimbIs(d: Dialect, ts: seq<Tok>, minprec: nat)
    ensures var l := Unary(d, ts); Climb(d, ts, minprec) == if l.Err? then Err else Operators(d, l.e, l.rest, minprec)
  {
    hide Unary, Operators;
  }

  lemma OperatorsAre(d: Dialect, left: Expr, ts: seq<Tok>, minprec: nat)
    ensures
      var b := if ts == [] then None else BinTok(d, ts[0]);
      if b.None? || Prec(d, b.value) < minprec then Operators(d, left, ts, minprec) == Ok(left, ts)
      else
        var r := Climb(d, ts[1..], Prec(d, b.value) + 1);
        Operators(d, left, ts, minprec) ==
          if r.Err? then Err else Operators(d, Bin(b.value, left, r.e), r.rest, minprec)
  {
    hide Unary, Climb, BinTok, Prec;
  }

  /** What an operator that starts an operand does. */
  lemma UnaryOp(d: Dialect, s: string, rest: seq<Tok>)
    ensures
      var op := if s == "-" then Some(Neg) else if s == "~" then Some(Not)
                else if s == "<" && d.Sdas? then Some(Lo) else if s == ">" && d.Sdas? then Some(Hi) else None;
      var u := Unary(d, [TOp(s)] + rest);
      if s == "(" || s == "[" then
        var e := Climb(d, rest, 0);
        u ==
          if e.Ok? && e.rest != [] && e.rest[0] == TOp(if s == "(" then ")" else "]") then Ok(e.e, e.rest[1..]) else Err
      else if op.Some? then u == Wrap(op.value, Unary(d, rest))
      else if s == "+" then u == Unary(d, rest)
      else u == Err
  {
    hide Climb, Number;
    assert ([TOp(s)] + rest)[1..] == rest;
  }

  function Parse(d: Dialect, text: string): Option<Expr> {
    var ts := Lex(d, text);
    if ts.None? then None
    else
      var r := Climb(d, ts.value, 0);
      if r.Ok? && r.rest == [] then Some(r.e) else None
  }

  /** The parser goes through the tokens with an index. */
  class Parser {
    const d: Dialect
    const toks: seq<Tok>
    var i: nat

    constructor (dialect: Dialect, ts: seq<Tok>)
      ensures d == dialect && toks == ts && i == 0
    {
      d, toks, i := dialect, ts, 0;
    }

    /** The tokens from the index on. */
    function Rest(): seq<Tok>
      reads this
    {
      if i <= |toks| then toks[i..] else []
    }

    ghost predicate Agrees(r: Option<Expr>, p: Parsed)
      reads this
    {
      if p.Err? then r.None? else r == Some(p.e) && i <= |toks| && Rest() == p.rest
    }

    method ClimbLoop(minprec: nat) returns (r: Option<Expr>)
      requires i <= |toks|
      modifies this
      ensures Agrees(r, Climb(d, old(Rest()), minprec))
      decreases |Rest()|, 1
    {
      hide Unary, Climb, Operators;
      ClimbIs(d, Rest(), minprec);
      r := Operand();
      if r.Some? { r := OperatorLoop(r.value, minprec); }
    }

    method OperatorLoop(left: Expr, minprec: nat) returns (r: Option<Expr>)
      requires i <= |toks|
      modifies this
      ensures Agrees(r, Operators(d, left, old(Rest()), minprec))
      decreases |Rest()|, 2
    {
      hide Unary, Climb, Operators, BinTok, Prec;
      ghost var start := Rest();
      r := Some(left);
      while true
        invariant r.Some? && i <= |toks| && |Rest()| <= |start|
        invariant Operators(d, left, start, minprec) == Operators(d, r.value, Rest(), minprec)
        decreases |Rest()|
      {
        OperatorsAre(d, r.value, Rest(), minprec);
        var b := if i < |toks| then BinTok(d, toks[i]) else None;
        if b.None? || Prec(d, b.value) < minprec { return; }
        ghost var before := Rest();
        i := i + 1;
        assert Rest() == before[1..];
        var right := ClimbLoop(Prec(d, b.value) + 1);
        if right.None? { return None; }
        r := Some(Bin(b.value, r.value, right.value));
      }
    }

    method Operand() returns (r: Option<Expr>)
      requires i <= |toks|
      modifies this
      ensures Agrees(r, Unary(d, old(Rest())))
      ensures r.Some? ==> i > old(i)
      decreases |Rest()|, 0
    {
      hide Number, Climb, Operators;
      ghost var before := Rest();
      if i == |toks| {
        i := i + 1;
        return None;
      }
      var t := toks[i];
      i := i + 1;
      assert Rest() == before[1..] && before == [t] + Rest();
      match t {
        case TNum(text) =>
          var n := Number(d, text);
          r := if n.None? then None else Some(Num(n.value.0, n.value.1));
        case TStr(b) => r := if |b| == 1 then Some(Chr(b[0] as int)) else None;
        case TChr(b) =>
          r := if |b| == 2 && b[0] == '\\' then Some(Chr(Escape(b[1]) as int))
               else if |b| == 1 then Some(Chr(b[0] as int)) else None;
        case TLoc => r := Some(Loc);
        case TSym(name) => r := Some(Sym(name));
        case TWord(w) =>
          if w.WBin? { return None; }
          if w.op.Not? { r := ClimbLoop(3); } else { r := Operand(); }
          if r.Some? { r := Some(Un(w.op, r.value)); }
        case TOp(s) => r := Prefixed(s);
      }
    }

    /** What follows an operator that starts an operand. */
    method Prefixed(s: string) returns (r: Option<Expr>)
      requires 1 <= i <= |toks| && toks[i - 1] == TOp(s)
      modifies this
      ensures Agrees(r, Unary(d, [TOp(s)] + old(Rest())))
      ensures r.Some? ==> i >= old(i)
      decreases |Rest()|, 3
    {
      hide Unary, Climb, Operators;
      UnaryOp(d, s, Rest());
      if s == "(" || s == "[" {
        r := ClimbLoop(0);
        if r.Some? {
          if i == |toks| || toks[i] != TOp(if s == "(" then ")" else "]") { r := None; }
          i := i + 1;
        }
      } else {
        var op := if s == "-" then Some(Neg) else if s == "~" then Some(Not)
                  else if s == "<" && d.Sdas? then Some(Lo) else if s == ">" && d.Sdas? then Some(Hi) else None;
        if op.None? && s != "+" { return None; }
        r := Operand();
        if r.Some? && op.Some? { r := Some(Un(op.value, r.value)); }
      }
    }
  }

  // ---- the printer ------------------------------------------------------------------------------

  predicate Relation(op: BinOp) { op in {Eq, Ne, Lt, Le, Gt, Ge} }

  /** The relations have no form for a value that is not a constant. */
  predicate CanPrint(e: Expr) {
    match e
    case Un(_, a) => CanPrint(a)
    case Bin(op, l, r) => !Relation(op) && CanPrint(l) && CanPrint(r)
    case _ => true
  }

  function UnText(d: Dialect, op: UnOp): string {
    match op
    case Pos => ""
    case Neg => "-"
    case Not => if d.M80? then "NOT " else "~"
    case Hi => if d.M80? then "HIGH " else ">"
    case Lo => if d.M80? then "LOW " else "<"
  }

  function BinText(d: Dialect, op: BinOp): string {
    match op
    case Add => "+" case Sub => "-" case Mul => "*" case Div => "/"
    case Mod => if d.M80? then " MOD " else "%"
    case Shl => if d.M80? then " SHL " else "<<"
    case Shr => if d.M80? then " SHR " else ">>"
    case And => if d.M80? then " AND " else "&"
    case Or => if d.M80? then " OR " else "|"
    case Xor => if d.M80? then " XOR " else "^"
    case _ => ""
  }

  predicate Safe(c: char) {
    Digit(c) || Alpha(c) || CommonOp(c) || SdasOnly(c) || c == ' ' || c == '!' || c == '#' || c == '.' || c == ':' ||
    c == '<' ||
    c == '=' || c == '>' || c == '?' || c == '@' || c == '[' || c == ']' || c == '_' || c == '`' || c == '{' || c == '}'
  }

  predicate SafeCode(n: nat) { n < 128 && Safe(n as char) }

  /** A left operand that is an expression keeps no parentheses when its operator climbs at the
      same level: in MACRO-80 only among sums and differences. */
  predicate PlainLeft(d: Dialect, op: BinOp, x: Expr) {
    x.Bin? && if d.M80? then op in {Add, Sub} && x.bop in {Add, Sub} else PrecSdas(op) == PrecSdas(x.bop)
  }

  type Naming = string -> string

  function Text(d: Dialect, nm: Naming, e: Expr): string
    requires CanPrint(e)
  {
    match e
    case Num(v, b) => if v < 0 then "-" + NumText(d, -v, b) else NumText(d, v, b)
    case Chr(n) => if SafeCode(n) then "'" + [n as char] + "'" else NumDigits(n, 10)
    case Sym(s) => nm(s)
    case Loc => if d.M80? then "$" else "."
    case Un(op, a) => UnText(d, op) + if a.Bin? then Parens(Text(d, nm, a)) else Text(d, nm, a)
    case Bin(op, l, r) =>
      (if l.Bin? && !PlainLeft(d, op, l) then Parens(Text(d, nm, l)) else Text(d, nm, l)) + BinText(d, op) +
      if r.Bin? then Parens(Text(d, nm, r)) else Text(d, nm, r)
  }

  function Parens(s: string): string { "(" + s + ")" }

  function Print(d: Dialect, nm: Naming, e: Expr): Option<string> {
    if CanPrint(e) then Some(Text(d, nm, e)) else None
  }

  // ---- the tree that comes back ---------------------------------------------------------------------

  /** The tree up to the spelling of its literals: a negative number is a negation, a number has
      base 16 or 10, a character that is not printable is a number, and a unary plus is gone. */
  function Norm(nm: Naming, e: Expr): Expr {
    match e
    case Num(v, b) => if v < 0 then Un(Neg, Num(-v, ReadBase(b))) else Num(v, ReadBase(b))
    case Chr(n) => if SafeCode(n) then e else Num(n, 10)
    case Sym(s) => Sym(nm(s))
    case Loc => Loc
    case Un(op, a) => if op.Pos? then Norm(nm, a) else Un(op, Norm(nm, a))
    case Bin(op, l, r) => Bin(op, Norm(nm, l), Norm(nm, r))
  }

  /** A symbol of the dialect. */
  predicate ValidName(d: Dialect, s: string) {
    s != "" &&
    if d.M80? then SymStart(M80, s[0]) && All(M80Sym, s) && WordOf(UpperAll(s)).None? && s != "$"
    else
      (SymStart(Sdas, s[0]) && All(SdasSym, s) && s != ".") ||
      (|s| >= 2 && All(Digits, s[..|s| - 1]) && s[|s| - 1] == '$')
  }

  predicate WellNamed(d: Dialect, nm: Naming, e: Expr) {
    match e
    case Sym(s) => ValidName(d, nm(s))
    case Un(_, a) => WellNamed(d, nm, a)
    case Bin(_, l, r) => WellNamed(d, nm, l) && WellNamed(d, nm, r)
    case _ => true
  }

  /** The prefix that the text of an operand starts with. */
  function Lead(e: Expr): Option<UnOp> {
    match e
    case Num(v, _) => if v < 0 then Some(Neg) else None
    case Un(op, a) => if op.Pos? then (if a.Bin? then None else Lead(a)) else Some(op)
    case _ => None
  }

  /** No LOW directly under LOW, and no HIGH directly under HIGH: sdas text would have `<<`. */
  predicate NoDouble(e: Expr) {
    match e
    case Un(op, a) => NoDouble(a) && (op in {Hi, Lo} && !a.Bin? ==> Lead(a) != Some(op))
    case Bin(_, l, r) => NoDouble(l) && NoDouble(r)
    case _ => true
  }

  /** The text ends with the operand of a NOT, which in MACRO-80 reads on. */
  predicate Open(e: Expr) {
    match e
    case Un(op, a) => op.Not? || (!a.Bin? && Open(a))
    case Bin(_, _, r) => !r.Bin? && Open(r)
    case _ => false
  }

  /** In MACRO-80 an operator that binds tighter than NOT does not follow the operand of one. */
  predicate NotSafe(e: Expr) {
    match e
    case Un(_, a) => NotSafe(a)
    case Bin(op, l, r) =>
      NotSafe(l) && NotSafe(r) && (PrecM80(op) >= 3 && (!l.Bin? || PlainLeft(M80, op, l)) ==> !Open(l))
    case _ => true
  }

  /** The trees whose text reads back. */
  predicate Readable(d: Dialect, nm: Naming, e: Expr) {
    CanPrint(e) && WellNamed(d, nm, e) && if d.M80? then NotSafe(e) else NoDouble(e)
  }

  function NumToks(d: Dialect, v: int, b: nat): seq<Tok> {
    if v < 0 then [TOp("-"), TNum(NumText(d, -v, b))] else [TNum(NumText(d, v, b))]
  }

  function UnToks(d: Dialect, op: UnOp): seq<Tok> {
    if op.Pos? then [] else if d.M80? && !op.Neg? then [TWord(WUn(op))] else [TOp(UnText(d, op))]
  }

  function BinToks(d: Dialect, op: BinOp): seq<Tok> {
    if d.M80? && op !in {Add, Sub, Mul, Div} then [TWord(WBin(op))] else [TOp(BinText(d, op))]
  }

  function ParenToks(ts: seq<Tok>): seq<Tok> { [TOp("(")] + ts + [TOp(")")] }

  /** The tokens of a text. */
  function Toks(d: Dialect, nm: Naming, e: Expr): seq<Tok> {
    match e
    case Num(v, b) => NumToks(d, v, b)
    case Chr(n) =>
      if SafeCode(n) then [if d.M80? then TStr([n as char]) else TChr([n as char])] else [TNum(NumDigits(n, 10))]
    case Sym(s) => [TSym(nm(s))]
    case Loc => [TLoc]
    case Un(op, a) => UnToks(d, op) + if a.Bin? then ParenToks(Toks(d, nm, a)) else Toks(d, nm, a)
    case Bin(op, l, r) =>
      (if l.Bin? && !PlainLeft(d, op, l) then ParenToks(Toks(d, nm, l)) else Toks(d, nm, l)) + BinToks(d, op) +
      if r.Bin? then ParenToks(Toks(d, nm, r)) else Toks(d, nm, r)
  }

  // ---- parsing the tokens ------------------------------------------------------------------------------

  /** The precedence of the operator that comes next, or 0. */
  function NextPrec(d: Dialect, ts: seq<Tok>): nat {
    if ts == [] then 0 else var b := BinTok(d, ts[0]); if b.None? then 0 else Prec(d, b.value)
  }

  lemma OperatorsStop(d: Dialect, left: Expr, ts: seq<Tok>, minprec: nat)
    requires NextPrec(d, ts) < minprec || ts == [] || BinTok(d, ts[0]).None?
    ensures Operators(d, left, ts, minprec) == Ok(left, ts)
  {
    hide Unary, Climb;
  }

  lemma BinTokIs(d: Dialect, op: BinOp, rest: seq<Tok>)
    requires !Relation(op)
    ensures
      var ts := BinToks(d, op) + rest;
      ts != [] && BinTok(d, ts[0]) == Some(op) && ts[1..] == rest && NextPrec(d, ts) == Prec(d, op) >= 1
    ensures BinTok(d, TOp(")")) == None
  {
  }

  /** An operand that is not an expression with an operator. */
  predicate Follows(d: Dialect, e: Expr, rest: seq<Tok>) { d.M80? && Open(e) ==> NextPrec(d, rest) < 3 }

  lemma {:induction false} UnaryReads(d: Dialect, nm: Naming, e: Expr, rest: seq<Tok>)
    requires Readable(d, nm, e) && !e.Bin? && Follows(d, e, rest)
    ensures Unary(d, Toks(d, nm, e) + rest) == Ok(Norm(nm, e), rest)
    decreases e, 0
  {
    hide Number, NumText, NumDigits, ValidName, WellNamed, NoDouble, Climb, Operators, Prec, BinTok, SafeCode;
    match e
    case Un(op, a) => UnReads(d, nm, op, a, rest);
    case _ => LeafReads(d, nm, e, rest);
  }

  lemma LeafReads(d: Dialect, nm: Naming, e: Expr, rest: seq<Tok>)
    requires !e.Bin? && !e.Un?
    ensures Unary(d, Toks(d, nm, e) + rest) == Ok(Norm(nm, e), rest)
  {
    hide Number, NumText, NumDigits, Climb, Operators, Safe;
    var ts := Toks(d, nm, e);
    if e.Num? {
      var v, b := e.value, e.base;
      if v < 0 {
        NumberRead(d, -v, b);
        var one := [TNum(NumText(d, -v, b))] + rest;
        assert (ts + rest)[1..] == one && one[1..] == rest;
        assert Unary(d, one) == Ok(Num(-v, ReadBase(b)), rest);
      } else {
        NumberRead(d, v, b);
        assert (ts + rest)[1..] == rest;
      }
    } else {
      if e.Chr? {
        NumberRead(d, e.code, 10);
        PlainNumber(d, e.code);
      }
      assert (ts + rest)[1..] == rest;
    }
  }

  lemma PlainNumber(d: Dialect, n: nat)
    ensures NumText(d, n, 10) == NumDigits(n, 10)
  {
  }

  lemma {:induction false} UnReads(d: Dialect, nm: Naming, op: UnOp, a: Expr, rest: seq<Tok>)
    requires Readable(d, nm, Un(op, a)) && Follows(d, Un(op, a), rest)
    ensures Unary(d, Toks(d, nm, Un(op, a)) + rest) == Ok(Norm(nm, Un(op, a)), rest)
    decreases a, 4
  {
    hide Toks, Number, ValidName, Climb, Operators, BinTok, Prec, Norm;
    var inner := if a.Bin? then ParenToks(Toks(d, nm, a)) else Toks(d, nm, a);
    InnerReads(d, nm, a, rest);
    assert Unary(d, inner + rest) == Ok(Norm(nm, a), rest);
    UnToksAre(d, nm, op, a, rest);
    NormUn(nm, op, a);
    if op.Not? && d.M80? {
      ClimbIs(d, inner + rest, 3);
      OperatorsStop(d, Norm(nm, a), rest, 3);
    }
  }

  lemma NormUn(nm: Naming, op: UnOp, a: Expr)
    ensures Norm(nm, Un(op, a)) == if op.Pos? then Norm(nm, a) else Un(op, Norm(nm, a))
  {
  }

  lemma UnToksAre(d: Dialect, nm: Naming, op: UnOp, a: Expr, rest: seq<Tok>)
    ensures
      var inner := if a.Bin? then ParenToks(Toks(d, nm, a)) else Toks(d, nm, a);
      var ts := Toks(d, nm, Un(op, a)) + rest;
      if op.Pos? then ts == inner + rest
      else ts != [] && ts[0] == UnToks(d, op)[0] && ts[1..] == inner + rest
  {
    hide UnToks, ParenToks;
    var inner := if a.Bin? then ParenToks(Toks(d, nm, a)) else Toks(d, nm, a);
    assert Toks(d, nm, Un(op, a)) == UnToks(d, op) + inner;
    UnToksSize(d, op);
    FirstTok(UnToks(d, op), inner, rest);
  }

  lemma UnToksSize(d: Dialect, op: UnOp)
    ensures |UnToks(d, op)| == if op.Pos? then 0 else 1
  {
  }

  lemma FirstTok(p: seq<Tok>, inner: seq<Tok>, rest: seq<Tok>)
    requires |p| <= 1
    ensures
      if p == [] then p + inner + rest == inner + rest
      else (p + inner + rest)[0] == p[0] && (p + inner + rest)[1..] == inner + rest
  {
    assert p + inner + rest == p + (inner + rest);
  }

  /** The operand of a prefix: parenthesized when it has an operator. */
  lemma {:induction false} InnerReads(d: Dialect, nm: Naming, a: Expr, rest: seq<Tok>)
    requires Readable(d, nm, a) && (!a.Bin? ==> Follows(d, a, rest))
    ensures Unary(d, (if a.Bin? then ParenToks(Toks(d, nm, a)) else Toks(d, nm, a)) + rest) == Ok(Norm(nm, a), rest)
    decreases a, 3
  {
    hide Toks, Number, ValidName, Operators, BinTok, Prec, Norm, Unary;
    if a.Bin? {
      var after := [TOp(")")] + rest;
      BinTokIs(d, Add, rest);
      NoNext(d, after);
      ExprReads(d, nm, a, 0, after);
      OperatorsStop(d, Norm(nm, a), after, 0);
      ParenReads(d, Toks(d, nm, a), rest, Norm(nm, a));
    } else {
      UnaryReads(d, nm, a, rest);
    }
  }

  lemma NoNext(d: Dialect, ts: seq<Tok>)
    requires ts != [] && BinTok(d, ts[0]).None?
    ensures NextPrec(d, ts) == 0
  {
  }

  lemma ParenReads(d: Dialect, ts: seq<Tok>, rest: seq<Tok>, e: Expr)
    requires Climb(d, ts + ([TOp(")")] + rest), 0) == Ok(e, [TOp(")")] + rest)
    ensures Unary(d, ParenToks(ts) + rest) == Ok(e, rest)
  {
    hide Climb, Number;
    var s := ParenToks(ts) + rest;
    assert s[1..] == ts + ([TOp(")")] + rest);
    assert ([TOp(")")] + rest)[1..] == rest;
  }

  /** A whole expression: the climb reaches its end and goes on with what follows. */
  lemma {:induction false} ExprReads(d: Dialect, nm: Naming, e: Expr, minprec: nat, rest: seq<Tok>)
    requires Readable(d, nm, e) && Follows(d, e, rest)
    requires e.Bin? ==> minprec <= Prec(d, e.bop) && NextPrec(d, rest) <= Prec(d, e.bop)
    ensures Climb(d, Toks(d, nm, e) + rest, minprec) == Operators(d, Norm(nm, e), rest, minprec)
    decreases e, 2
  {
    hide Toks, Number, ValidName, Operators, BinTok, Prec, Norm, Unary, Climb, Lead, PlainLeft;
    if e.Bin? {
      BinReads(d, nm, e.bop, e.left, e.right, minprec, rest);
    } else {
      UnaryReads(d, nm, e, rest);
      ClimbIs(d, Toks(d, nm, e) + rest, minprec);
    }
  }

  lemma {:induction false} BinReads(d: Dialect, nm: Naming, op: BinOp, l: Expr, r: Expr, minprec: nat, rest: seq<Tok>)
    requires Readable(d, nm, Bin(op, l, r)) && Follows(d, Bin(op, l, r), rest)
    requires minprec <= Prec(d, op) && NextPrec(d, rest) <= Prec(d, op)
    ensures Climb(d, Toks(d, nm, Bin(op, l, r)) + rest, minprec) == Operators(d, Norm(nm, Bin(op, l, r)), rest, minprec)
    decreases Bin(op, l, r), 1
  {
    hide Toks, Number, ValidName, Operators, BinTok, Norm, Unary, Climb, Lead, NextPrec;
    var right := if r.Bin? then ParenToks(Toks(d, nm, r)) else Toks(d, nm, r);
    LeftReads(d, nm, op, l, r, minprec, rest);
    InnerReads(d, nm, r, rest);
    ClimbIs(d, right + rest, Prec(d, op) + 1);
    OperatorsStop(d, Norm(nm, r), rest, Prec(d, op) + 1);
    NormBin(nm, op, l, r);
  }

  /** The operator at the top of a tree, no tighter than NOT when the left operand is open. */
  predicate TopSafe(d: Dialect, op: BinOp, l: Expr) {
    d.M80? && PrecM80(op) >= 3 && (!l.Bin? || PlainLeft(M80, op, l)) ==> !Open(l)
  }

  /** The left operand is read, then the operator, and the right operand is read next. */
  lemma {:induction false} LeftReads(d: Dialect, nm: Naming, op: BinOp, l: Expr, r: Expr, minprec: nat, rest: seq<Tok>)
    requires Readable(d, nm, l) && !Relation(op) && TopSafe(d, op, l) && minprec <= Prec(d, op)
    ensures
      var right := if r.Bin? then ParenToks(Toks(d, nm, r)) else Toks(d, nm, r);
      var x := Climb(d, right + rest, Prec(d, op) + 1);
      Climb(d, Toks(d, nm, Bin(op, l, r)) + rest, minprec) ==
        if x.Err? then Err else Operators(d, Bin(op, Norm(nm, l), x.e), x.rest, minprec)
    decreases l, 5
  {
    hide Toks, Number, ValidName, Operators, BinTok, Norm, Unary, Climb, Lead, NextPrec;
    var right := if r.Bin? then ParenToks(Toks(d, nm, r)) else Toks(d, nm, r);
    var tail := BinToks(d, op) + (right + rest);
    BinTokIs(d, op, right + rest);
    BinToksAre(d, nm, op, l, r, rest);
    var left := if l.Bin? && !PlainLeft(d, op, l) then ParenToks(Toks(d, nm, l)) else Toks(d, nm, l);
    if PlainLeft(d, op, l) {
      ExprReads(d, nm, l, minprec, tail);
    } else {
      InnerReads(d, nm, l, tail);
      ClimbIs(d, left + tail, minprec);
    }
    assert Climb(d, left + tail, minprec) == Operators(d, Norm(nm, l), tail, minprec);
    OperatorsAre(d, Norm(nm, l), tail, minprec);
  }

  lemma NormBin(nm: Naming, op: BinOp, l: Expr, r: Expr)
    ensures Norm(nm, Bin(op, l, r)) == Bin(op, Norm(nm, l), Norm(nm, r))
  {
  }

  lemma BinToksAre(d: Dialect, nm: Naming, op: BinOp, l: Expr, r: Expr, rest: seq<Tok>)
    ensures
      var left := if l.Bin? && !PlainLeft(d, op, l) then ParenToks(Toks(d, nm, l)) else Toks(d, nm, l);
      var right := if r.Bin? then ParenToks(Toks(d, nm, r)) else Toks(d, nm, r);
      Toks(d, nm, Bin(op, l, r)) + rest == left + (BinToks(d, op) + (right + rest))
  {
    hide ParenToks, BinToks, PlainLeft;
    var left := if l.Bin? && !PlainLeft(d, op, l) then ParenToks(Toks(d, nm, l)) else Toks(d, nm, l);
    var right := if r.Bin? then ParenToks(Toks(d, nm, r)) else Toks(d, nm, r);
    assert Toks(d, nm, Bin(op, l, r)) == left + BinToks(d, op) + right;
    FourParts(left, BinToks(d, op), right, rest);
  }

  lemma FourParts(a: seq<Tok>, b: seq<Tok>, c: seq<Tok>, k: seq<Tok>)
    ensures a + b + c + k == a + (b + (c + k))
  {
  }

  // ---- reading the text -----------------------------------------------------------------------------

  /** A character that ends a number and a symbol, and does not double a quote. */
  predicate Stop(c: char) { !Digit(c) && !Alpha(c) && !M80Mark(c) && c != '\'' && c != '"' }

  predicate Ends(k: string) { k == "" || Stop(k[0]) }

  lemma LexToken(d: Dialect, t: string, tok: Tok, k: string)
    requires t != "" && !Space(t[0]) && (t + k)[0] == t[0] && Next(d, t + k) == Some((tok, |t|))
    ensures Lex(d, t + k) == After([tok], Lex(d, k))
  {
    hide Next;
    assert (t + k)[|t|..] == k;
  }

  lemma LexNumber(d: Dialect, v: nat, b: nat, k: string)
    requires Ends(k)
    ensures var t := NumText(d, v, b); Lex(d, t + k) == After([TNum(t)], Lex(d, k))
  {
    hide NumDigits, Lex, Span, All;
    var t := NumText(d, v, b);
    if d.M80? {
      NextM80Number(v, b, k);
    } else if b == 16 {
      NextHex(NumDigits(v, 16), k);
    } else {
      NextDecimal(t, k);
    }
    LexToken(d, t, TNum(t), k);
  }

  lemma NextM80Number(v: nat, b: nat, k: string)
    requires Ends(k)
    ensures var t := NumText(M80, v, b); NextM80(t + k) == Some((TNum(t), |t|))
  {
    hide NumDigits, Span, Quoted, WordOf;
    SpanIs(AlNum, NumText(M80, v, b), k);
  }

  lemma NextHex(h: string, k: string)
    requires h != "" && All(HexDigits, h) && Ends(k)
    ensures NextSdas("0x" + h + k) == Some((TNum("0x" + h), 2 + |h|))
  {
    hide Span;
    var s := "0x" + h + k;
    SpanIs(HexDigits, h, k);
    assert s[2..] == h + k && s[2] == h[0] && s[..2 + |h|] == "0x" + h;
  }

  lemma NextDecimal(t: string, k: string)
    requires t != "" && All(Digits, t) && Ends(k)
    ensures NextSdas(t + k) == Some((TNum(t), |t|))
  {
    hide Span;
    assert (t + k)[0] == t[0];
    SpanIs(Digits, t, k);
    DecimalPrefix(t, k);
  }

  /** A decimal number does not start with a base prefix. */
  lemma DecimalPrefix(t: string, k: string)
    requires t != "" && All(Digits, t) && Ends(k)
    ensures |t + k| >= 2 ==> Digit((t + k)[1]) || Stop((t + k)[1])
    ensures |t + k| > |t| ==> Stop((t + k)[|t|])
  {
    if |t| >= 2 { assert (t + k)[1] == t[1]; }
  }

  lemma LexOp(d: Dialect, c: char, k: string)
    requires CommonOp(c) || (d.Sdas? && SdasOnly(c)) || (d.Sdas? && (c == '<' || c == '>') && (k == "" || k[0] != c))
    ensures Lex(d, [c] + k) == After([TOp([c])], Lex(d, k))
  {
    hide Lex, Span, Quoted, WordOf, NextDigits;
    LexToken(d, [c], TOp([c]), k);
  }

  lemma LexShift(c: char, k: string)
    requires c == '<' || c == '>'
    ensures Lex(Sdas, [c, c] + k) == After([TOp([c, c])], Lex(Sdas, k))
  {
    hide Lex, Span, NextDigits;
    assert ([c, c] + k)[..2] == [c, c];
    LexToken(Sdas, [c, c], TOp([c, c]), k);
  }

  lemma LexSpace(d: Dialect, k: string)
    ensures Lex(d, " " + k) == Lex(d, k)
  {
    hide Next;
    assert (" " + k)[1..] == k;
  }

  /** A word and the space after it. */
  lemma LexWord(w: string, word: Word, k: string)
    requires w != "" && SymStart(M80, w[0]) && All(M80Sym, w) && WordOf(UpperAll(w)) == Some(word)
    ensures Lex(M80, w + " " + k) == After([TWord(word)], Lex(M80, k))
  {
    hide Lex, Span, Quoted, WordOf;
    var s := w + (" " + k);
    SpanIs(M80Sym, w, " " + k);
    assert s[0] == w[0] && w + " " + k == s;
    LexToken(M80, w, TWord(word), " " + k);
    LexSpace(M80, k);
  }

  lemma LexName(d: Dialect, t: string, k: string)
    requires ValidName(d, t) && Ends(k)
    ensures Lex(d, t + k) == After([TSym(t)], Lex(d, k))
  {
    hide Lex, Span, Quoted, WordOf;
    var s := t + k;
    assert s[0] == t[0];
    if d.M80? {
      SpanIs(M80Sym, t, k);
    } else if SymStart(Sdas, t[0]) && All(SdasSym, t) && t != "." {
      SpanIs(SdasSym, t, k);
    } else {
      NextLabel(t, k);
    }
    LexToken(d, t, TSym(t), k);
  }

  lemma NextLabel(t: string, k: string)
    requires |t| >= 2 && All(Digits, t[..|t| - 1]) && t[|t| - 1] == '$'
    ensures NextSdas(t + k) == Some((TSym(t), |t|))
  {
    hide Span;
    var n, s := |t| - 1, t + k;
    var a, b := t[..n], "$" + k;
    assert t == a + "$" && s == a + b;
    SpanIs(Digits, a, b);
    assert s[0] == a[0] && s[..n + 1] == t;
    assert s[1] == t[1] && (n >= 2 ==> t[1] == a[1]);
  }

  lemma LexHere(d: Dialect, k: string)
    requires Ends(k)
    ensures Lex(d, (if d.M80? then "$" else ".") + k) == After([TLoc], Lex(d, k))
  {
    hide Lex, Span, Quoted;
    var t := if d.M80? then "$" else ".";
    assert Member(M80Sym, '$') && Member(SdasSym, '.') && (k != "" ==> !Member(M80Sym, k[0]) && !Member(SdasSym, k[0]));
    if d.M80? { SpanIs(M80Sym, "$", k); } else { SpanIs(SdasSym, ".", k); }
    assert WordOf(UpperAll("$")).None? by { assert UpperAll("$") == "$"; }
    LexToken(d, t, TLoc, k);
  }

  lemma LexChar(d: Dialect, c: char, k: string)
    requires Safe(c) && Ends(k)
    ensures Lex(d, ("'" + [c] + "'") + k) == After([if d.M80? then TStr([c]) else TChr([c])], Lex(d, k))
  {
    hide Lex, Span, WordOf;
    var t := "'" + [c] + "'";
    assert c != '\'' && c != '\\';
    if d.M80? {
      assert (t + k)[1..] == [c] + ("'" + k) && ([c] + ("'" + k))[1..] == "'" + k;
      assert Quoted('\'', "'" + k) == Some(("", 1));
      assert Quoted('\'', [c] + ("'" + k)) == Some(([c], 2)) by { assert [c] + "" == [c]; }
      LexToken(d, t, TStr([c]), k);
    } else {
      assert (t + k)[1] == c && (t + k)[2] == '\'';
      LexToken(d, t, TChr([c]), k);
    }
  }

  // ---- the text reads as the tokens --------------------------------------------------------------------

  lemma AfterBoth(a: seq<Tok>, b: seq<Tok>, r: Option<seq<Tok>>)
    ensures After(a, After(b, r)) == After(a + b, r) && After([], r) == r
  {
    if r.Some? {
      assert a + (b + r.value) == (a + b) + r.value;
      assert [] + r.value == r.value;
    }
  }

  lemma OpEnds(c: char, k: string)
    requires CommonOp(c) || SdasOnly(c) || c == '<' || c == '>' || c == ' '
    ensures Ends([c] + k)
  {
  }

  lemma LexPrefix(d: Dialect, op: UnOp, k: string)
    requires d.Sdas? && op in {Hi, Lo} ==> k != "" && k[0] != UnText(d, op)[0]
    ensures Lex(d, UnText(d, op) + k) == After(UnToks(d, op), Lex(d, k))
  {
    hide Lex, Next, After;
    AfterNothing([], Lex(d, k));
    match op
    case Pos => assert UnText(d, op) + k == k;
    case Neg => LexOp(d, '-', k);
    case _ =>
      if d.Sdas? {
        LexOp(d, UnText(d, op)[0], k);
      } else {
        LexPrefixWord(op, k);
      }
  }

  lemma LexPrefixWord(op: UnOp, k: string)
    requires op in {Not, Hi, Lo}
    ensures Lex(M80, UnText(M80, op) + k) == After([TWord(WUn(op))], Lex(M80, k))
  {
    hide Lex, Next, After;
    var w := if op.Not? then "NOT" else if op.Hi? then "HIGH" else "LOW";
    assert UpperAll(w) == w;
    LexWord(w, WUn(op), k);
    assert UnText(M80, op) + k == w + " " + k;
  }

  lemma LexInfix(d: Dialect, op: BinOp, k: string)
    requires !Relation(op)
    ensures Lex(d, BinText(d, op) + k) == After(BinToks(d, op), Lex(d, k))
    ensures Ends(BinText(d, op) + k)
  {
    hide Lex, Next, Stop, CommonOp, SdasOnly, After;
    var t := BinText(d, op);
    OpChars();
    if |t| == 1 {
      LexOp(d, t[0], k);
      OpEnds(t[0], k);
      assert t == [t[0]];
    } else if d.Sdas? {
      LexShift(t[0], k);
      OpEnds(t[0], [t[0]] + k);
      assert t + k == [t[0]] + ([t[0]] + k) && t == [t[0], t[0]];
    } else {
      LexInfixWord(op, k);
    }
  }

  lemma OpChars()
    ensures CommonOp('+') && CommonOp('-') && CommonOp('*') && CommonOp('/')
    ensures SdasOnly('%') && SdasOnly('&') && SdasOnly('|') && SdasOnly('^')
  {
  }

  lemma LexInfixWord(op: BinOp, k: string)
    requires !Relation(op) && |BinText(M80, op)| > 1
    ensures Lex(M80, BinText(M80, op) + k) == After([TWord(WBin(op))], Lex(M80, k)) && Ends(BinText(M80, op) + k)
  {
    hide Lex, BinText, After, WordOf, Stop;
    var t := BinText(M80, op);
    var w := t[1..|t| - 1];
    InfixWord(op);
    LexWord(w, WBin(op), k);
    LexSpace(M80, w + " " + k);
    assert t + k == " " + (w + " " + k);
    OpEnds(' ', w + " " + k);
  }

  lemma InfixWord(op: BinOp)
    requires !Relation(op) && |BinText(M80, op)| > 1
    ensures
      var t := BinText(M80, op); var w := t[1..|t| - 1];
      t == " " + w + " " && w != "" && SymStart(M80, w[0]) && All(M80Sym, w) && WordOf(UpperAll(w)) == Some(WBin(op))
  {
    match op
    case Mod => InfixWordIs(op, "MOD");
    case Shl => InfixWordIs(op, "SHL");
    case Shr => InfixWordIs(op, "SHR");
    case And => InfixWordIs(op, "AND");
    case Or => InfixWordIs(op, "OR");
    case Xor => InfixWordIs(op, "XOR");
  }

  lemma InfixWordIs(op: BinOp, w: string)
    requires BinText(M80, op) == " " + w + " " && w != "" && All(AlNum, w) && Alpha(w[0])
    requires (forall i :: 0 <= i < |w| ==> Upper(w[i]) == w[i]) && WordOf(w) == Some(WBin(op))
    ensures
      var t := BinText(M80, op); var v := t[1..|t| - 1];
      t == " " + v + " " && v != "" && SymStart(M80, v[0]) && All(M80Sym, v) && WordOf(UpperAll(v)) == Some(WBin(op))
  {
    hide WordOf, BinText;
    var t := BinText(M80, op);
    assert t[1..|t| - 1] == w && UpperAll(w) == w;
  }

  /** The first character of an operand's text. */
  lemma {:induction false} FirstChar(d: Dialect, nm: Naming, e: Expr)
    requires CanPrint(e) && WellNamed(d, nm, e) && !e.Bin? && d.Sdas?
    ensures
      var t := Text(d, nm, e);
      t != "" && (t[0] == '<' ==> Lead(e) == Some(Lo)) && (t[0] == '>' ==> Lead(e) == Some(Hi))
    decreases e
  {
    hide NumText, NumDigits, Safe;
    if e.Un? {
      if e.op.Pos? && !e.arg.Bin? { FirstChar(d, nm, e.arg); }
    } else if e.Chr? {
      if !SafeCode(e.code) { DigitsFirst(e.code); }
    } else if e.Sym? {
      var t := nm(e.name);
      assert |t| >= 2 ==> t[..|t| - 1][0] == t[0];
    }
  }

  lemma DigitsFirst(n: nat)
    ensures Digit(NumDigits(n, 10)[0])
  {
  }

  /** The text of a tree, then `k`, reads as the tokens of the tree, then those of `k`. */
  lemma {:induction false} TextReads(d: Dialect, nm: Naming, e: Expr, k: string)
    requires CanPrint(e) && WellNamed(d, nm, e) && (d.Sdas? ==> NoDouble(e)) && Ends(k)
    ensures Lex(d, Text(d, nm, e) + k) == After(Toks(d, nm, e), Lex(d, k))
    decreases e, 1
  {
    hide Lex, Next, NumText, NumDigits, ValidName, After, Safe, PlainLeft, UnText, BinText, UnToks, BinToks;
    match e
    case Num(v, b) => NumReads(d, nm, v, b, k);
    case Chr(n) => ChrReads(d, nm, n, k);
    case Sym(s) => LexName(d, nm(s), k);
    case Loc =>
      LexHere(d, k);
      assert Text(d, nm, e) == (if d.M80? then "$" else ".") && Toks(d, nm, e) == [TLoc];
    case Un(op, a) => PrefixReads(d, nm, op, a, k);
    case Bin(op, l, r) => InfixReads(d, nm, op, l, r, k);
  }

  lemma NumReads(d: Dialect, nm: Naming, v: int, b: nat, k: string)
    requires Ends(k)
    ensures Lex(d, Text(d, nm, Num(v, b)) + k) == After(Toks(d, nm, Num(v, b)), Lex(d, k))
  {
    hide Lex, NumText, After;
    if v < 0 {
      var t := NumText(d, -v, b);
      LexNumber(d, -v, b, k);
      LexOp(d, '-', t + k);
      assert Text(d, nm, Num(v, b)) + k == ['-'] + (t + k) && "-" == ['-'];
      AfterBoth([TOp(['-'])], [TNum(t)], Lex(d, k));
      assert NumToks(d, v, b) == [TOp(['-'])] + [TNum(t)];
    } else {
      LexNumber(d, v, b, k);
    }
  }

  lemma ChrReads(d: Dialect, nm: Naming, n: nat, k: string)
    requires Ends(k)
    ensures Lex(d, Text(d, nm, Chr(n)) + k) == After(Toks(d, nm, Chr(n)), Lex(d, k))
  {
    hide Lex, NumDigits, After, Safe;
    if SafeCode(n) {
      LexChar(d, n as char, k);
    } else {
      PlainNumber(d, n);
      LexNumber(d, n, 10, k);
    }
  }

  function InnerText(d: Dialect, nm: Naming, a: Expr, parens: bool): string
    requires CanPrint(a)
  {
    if parens then Parens(Text(d, nm, a)) else Text(d, nm, a)
  }

  function InnerToks(d: Dialect, nm: Naming, a: Expr, parens: bool): seq<Tok> {
    if parens then ParenToks(Toks(d, nm, a)) else Toks(d, nm, a)
  }

  lemma {:induction false} InnerTextReads(d: Dialect, nm: Naming, a: Expr, parens: bool, k: string)
    requires CanPrint(a) && WellNamed(d, nm, a) && (d.Sdas? ==> NoDouble(a)) && Ends(k)
    ensures Lex(d, InnerText(d, nm, a, parens) + k) == After(InnerToks(d, nm, a, parens), Lex(d, k))
    decreases a, 2
  {
    hide Lex, Text, Toks, After, ValidName, WellNamed, NoDouble, CanPrint;
    var t := Text(d, nm, a);
    if parens {
      OpEnds(')', k);
      TextReads(d, nm, a, [')'] + k);
      LexOp(d, ')', k);
      LexOp(d, '(', t + ([')'] + k));
      assert Parens(t) + k == ['('] + (t + ([')'] + k));
      var ts := Toks(d, nm, a);
      AfterBoth(ts, [TOp([')'])], Lex(d, k));
      AfterBoth([TOp(['('])], ts + [TOp([')'])], Lex(d, k));
      assert ParenToks(ts) == [TOp(['('])] + (ts + [TOp([')'])]);
    } else {
      TextReads(d, nm, a, k);
    }
  }

  lemma {:induction false} PrefixReads(d: Dialect, nm: Naming, op: UnOp, a: Expr, k: string)
    requires CanPrint(a) && WellNamed(d, nm, a) && (d.Sdas? ==> NoDouble(Un(op, a))) && Ends(k)
    ensures Lex(d, Text(d, nm, Un(op, a)) + k) == After(Toks(d, nm, Un(op, a)), Lex(d, k))
    decreases a, 3
  {
    hide Lex, After, ValidName, WellNamed, UnToks, ParenToks, Text, Toks, InnerText, InnerToks, UnText;
    var t := InnerText(d, nm, a, a.Bin?);
    InnerTextReads(d, nm, a, a.Bin?, k);
    if d.Sdas? { InnerFirst(nm, op, a, k); }
    LexPrefix(d, op, t + k);
    TextOfUn(d, nm, op, a);
    assert UnText(d, op) + t + k == UnText(d, op) + (t + k);
    AfterBoth(UnToks(d, op), InnerToks(d, nm, a, a.Bin?), Lex(d, k));
  }

  lemma TextOfUn(d: Dialect, nm: Naming, op: UnOp, a: Expr)
    requires CanPrint(a)
    ensures Text(d, nm, Un(op, a)) == UnText(d, op) + InnerText(d, nm, a, a.Bin?)
    ensures Toks(d, nm, Un(op, a)) == UnToks(d, op) + InnerToks(d, nm, a, a.Bin?)
  {
    hide UnText, UnToks, Parens, ParenToks;
  }

  /** The operand of LOW or HIGH does not start with the same character. */
  lemma InnerFirst(nm: Naming, op: UnOp, a: Expr, k: string)
    requires CanPrint(a) && WellNamed(Sdas, nm, a) && NoDouble(Un(op, a))
    ensures var s := InnerText(Sdas, nm, a, a.Bin?) + k; op in {Hi, Lo} ==> s != "" && s[0] != UnText(Sdas, op)[0]
  {
    hide ValidName, WellNamed, Text, Parens;
    var t := InnerText(Sdas, nm, a, a.Bin?);
    if a.Bin? { ParensFirst(Text(Sdas, nm, a)); } else { FirstChar(Sdas, nm, a); }
    assert (t + k)[0] == t[0];
  }

  lemma {:induction false} InfixReads(d: Dialect, nm: Naming, op: BinOp, l: Expr, r: Expr, k: string)
    requires CanPrint(Bin(op, l, r)) && WellNamed(d, nm, l) && WellNamed(d, nm, r) &&
      (d.Sdas? ==> NoDouble(l) && NoDouble(r)) && Ends(k)
    ensures Lex(d, Text(d, nm, Bin(op, l, r)) + k) == After(Toks(d, nm, Bin(op, l, r)), Lex(d, k))
    decreases Bin(op, l, r), 0
  {
    hide Lex, After, ValidName, WellNamed, NoDouble, InnerText, InnerToks, BinText, BinToks, PlainLeft, Text, Toks,
         Stop;
    var p := l.Bin? && !PlainLeft(d, op, l);
    var a, b, c := InnerText(d, nm, l, p), BinText(d, op), InnerText(d, nm, r, r.Bin?);
    InnerTextReads(d, nm, r, r.Bin?, k);
    LexInfix(d, op, c + k);
    InnerTextReads(d, nm, l, p, b + (c + k));
    TextOfBin(d, nm, op, l, r);
    FourStrings(a, b, c, k);
    var ta, tb, tc := InnerToks(d, nm, l, p), BinToks(d, op), InnerToks(d, nm, r, r.Bin?);
    AfterBoth(tb, tc, Lex(d, k));
    AfterBoth(ta, tb + tc, Lex(d, k));
    FourParts(ta, tb, tc, []);
    assert ta + tb + tc + [] == ta + tb + tc && tc + [] == tc;
  }

  lemma FourStrings(a: string, b: string, c: string, k: string)
    ensures a + b + c + k == a + (b + (c + k))
  {
  }

  lemma TextOfBin(d: Dialect, nm: Naming, op: BinOp, l: Expr, r: Expr)
    requires CanPrint(Bin(op, l, r))
    ensures
      var p := l.Bin? && !PlainLeft(d, op, l);
      Text(d, nm, Bin(op, l, r)) == InnerText(d, nm, l, p) + BinText(d, op) + InnerText(d, nm, r, r.Bin?) &&
      Toks(d, nm, Bin(op, l, r)) == InnerToks(d, nm, l, p) + BinToks(d, op) + InnerToks(d, nm, r, r.Bin?)
  {
    hide BinText, BinToks, PlainLeft, Parens, ParenToks;
  }

  /** Print, then parse: the tree comes back, up to the spelling of its literals. */
  lemma PrintParse(d: Dialect, nm: Naming, e: Expr)
    requires Readable(d, nm, e)
    ensures Print(d, nm, e).Some? && Parse(d, Print(d, nm, e).value) == Some(Norm(nm, e))
  {
    hide Lex, Text, Toks, Climb, Operators, WellNamed, CanPrint, NoDouble, NotSafe, BinTok, Norm;
    var t, ts := Text(d, nm, e), Toks(d, nm, e);
    TextReads(d, nm, e, "");
    assert t + "" == t && ts + [] == ts;
    LexNothing(d);
    ExprReads(d, nm, e, 0, []);
    OperatorsStop(d, Norm(nm, e), [], 0);
  }

  lemma LexNothing(d: Dialect)
    ensures Lex(d, "") == Some([])
  {
  }

  // ---- the trees that do not read back --------------------------------------------------------------------

  /** Reading fails, whether in the tokens or in the climb over them. */
  predicate Fails(d: Dialect, r: Option<seq<Tok>>, minprec: nat) { r.Some? ==> Climb(d, r.value, minprec).Err? }

  predicate NoOperand(d: Dialect, r: Option<seq<Tok>>) { r.Some? ==> Unary(d, r.value).Err? }

  lemma NoOperandFails(d: Dialect, r: Option<seq<Tok>>, minprec: nat)
    requires NoOperand(d, r)
    ensures Fails(d, r, minprec)
  {
    hide Unary, Climb;
    if r.Some? { ClimbIs(d, r.value, minprec); }
  }

  /** `<<` and `>>` start no operand. */
  lemma ShiftStarts(c: char, k: string)
    requires c == '<' || c == '>'
    ensures NoOperand(Sdas, Lex(Sdas, [c, c] + k))
  {
    hide Lex, Climb, Number;
    LexShift(c, k);
  }

  lemma {:induction false} LeadChar(nm: Naming, e: Expr, op: UnOp)
    requires CanPrint(e) && !e.Bin? && op in {Hi, Lo} && Lead(e) == Some(op)
    ensures var t := Text(Sdas, nm, e); t != "" && t[0] == UnText(Sdas, op)[0]
    decreases e
  {
    if e.Un? && e.op.Pos? { LeadChar(nm, e.arg, op); }
  }

  lemma PrefixFails(op: UnOp, r: Option<seq<Tok>>)
    requires NoOperand(Sdas, r)
    ensures NoOperand(Sdas, After(UnToks(Sdas, op), r))
  {
    hide Climb, Number;
    if r.Some? {
      if op.Pos? {
        assert [] + r.value == r.value;
      } else {
        assert (UnToks(Sdas, op) + r.value)[1..] == r.value;
      }
    }
  }

  lemma ParenFails(r: Option<seq<Tok>>)
    requires Fails(Sdas, r, 0)
    ensures NoOperand(Sdas, After([TOp(['('])], r))
  {
    hide Climb, Number;
    assert ['('] == "(";
    if r.Some? { assert ([TOp(['('])] + r.value)[1..] == r.value; }
  }

  /** The text of an operand with a doubled LOW or HIGH inside, with its parentheses if it has an
      operator, fails. */
  lemma {:induction false} DoubleInner(nm: Naming, a: Expr, k: string)
    requires CanPrint(a) && WellNamed(Sdas, nm, a) && !NoDouble(a)
    ensures NoOperand(Sdas, Lex(Sdas, InnerText(Sdas, nm, a, a.Bin?) + k))
    decreases a, 3
  {
    hide Lex, Text, Unary, Climb, WellNamed, CanPrint, ValidName;
    if a.Bin? {
      var t := Text(Sdas, nm, a);
      DoubleExpr(nm, a, 0, ")" + k);
      LexOp(Sdas, '(', t + (")" + k));
      assert Parens(t) + k == ['('] + (t + (")" + k));
      ParenFails(Lex(Sdas, t + (")" + k)));
    } else {
      DoubleUnary(nm, a, k);
    }
  }

  lemma {:induction false} DoubleUnary(nm: Naming, e: Expr, k: string)
    requires CanPrint(e) && WellNamed(Sdas, nm, e) && !NoDouble(e) && e.Un?
    ensures NoOperand(Sdas, Lex(Sdas, Text(Sdas, nm, e) + k))
    decreases e, 1
  {
    hide Lex, Unary, Climb, ValidName, Parens, After, UnToks, NoOperand;
    assert WellNamed(Sdas, nm, e.arg);
    var op, a := e.op, e.arg;
    var t := InnerText(Sdas, nm, a, a.Bin?);
    assert Text(Sdas, nm, e) + k == UnText(Sdas, op) + (t + k);
    if op in {Hi, Lo} && !a.Bin? && Lead(a) == Some(op) {
      LeadChar(nm, a, op);
      DoubleHere(op, t + k);
    } else {
      DoubleInner(nm, a, k);
      if !a.Bin? {
        FirstChar(Sdas, nm, a);
      } else {
        ParensFirst(Text(Sdas, nm, a));
      }
      assert (t + k)[0] == t[0];
      LexPrefix(Sdas, op, t + k);
      PrefixFails(op, Lex(Sdas, t + k));
    }
  }

  lemma DoubleHere(op: UnOp, s: string)
    requires op in {Hi, Lo} && s != "" && s[0] == UnText(Sdas, op)[0]
    ensures NoOperand(Sdas, Lex(Sdas, UnText(Sdas, op) + s))
  {
    hide Lex, NoOperand;
    var c := s[0];
    assert UnText(Sdas, op) + s == [c, c] + s[1..];
    ShiftStarts(c, s[1..]);
  }

  lemma ParensFirst(t: string)
    ensures Parens(t) != "" && Parens(t)[0] == '('
  {
  }

  lemma {:induction false} DoubleExpr(nm: Naming, e: Expr, minprec: nat, k: string)
    requires CanPrint(e) && WellNamed(Sdas, nm, e) && !NoDouble(e) && (e.Bin? ==> minprec <= Prec(Sdas, e.bop))
    ensures Fails(Sdas, Lex(Sdas, Text(Sdas, nm, e) + k), minprec)
    decreases e, 2
  {
    hide Lex, Text, Unary, Climb, WellNamed, ValidName, Parens, After, InnerText, Prec, PlainLeft, Fails, NoOperand;
    if e.Bin? {
      DoubleBin(nm, e.bop, e.left, e.right, minprec, k);
    } else {
      DoubleUnary(nm, e, k);
      NoOperandFails(Sdas, Lex(Sdas, Text(Sdas, nm, e) + k), minprec);
    }
  }

  lemma {:induction false} DoubleBin(nm: Naming, op: BinOp, l: Expr, r: Expr, minprec: nat, k: string)
    requires CanPrint(Bin(op, l, r)) && WellNamed(Sdas, nm, Bin(op, l, r)) && !(NoDouble(l) && NoDouble(r)) &&
      minprec <= Prec(Sdas, op)
    ensures Fails(Sdas, Lex(Sdas, Text(Sdas, nm, Bin(op, l, r)) + k), minprec)
    decreases Bin(op, l, r), 0
  {
    hide Lex, Text, Toks, Unary, Climb, ValidName, Parens, After, InnerText, InnerToks, BinText, BinToks, Fails,
         NoOperand;
    var p := l.Bin? && !PlainLeft(Sdas, op, l);
    var a, b, c := InnerText(Sdas, nm, l, p), BinText(Sdas, op), InnerText(Sdas, nm, r, r.Bin?);
    TextOfBin(Sdas, nm, op, l, r);
    FourStrings(a, b, c, k);
    if !NoDouble(l) {
      if PlainLeft(Sdas, op, l) {
        PlainInner(Sdas, nm, l);
        DoubleExpr(nm, l, minprec, b + (c + k));
      } else {
        DoubleInner(nm, l, b + (c + k));
        NoOperandFails(Sdas, Lex(Sdas, a + (b + (c + k))), minprec);
      }
    } else {
      DoubleInner(nm, r, k);
      LexInfix(Sdas, op, c + k);
      InnerTextReads(Sdas, nm, l, p, b + (c + k));
      var ts := Lex(Sdas, c + k);
      AfterBoth(InnerToks(Sdas, nm, l, p), BinToks(Sdas, op), ts);
      RightFails(nm, op, l, minprec, ts);
    }
  }

  lemma PlainInner(d: Dialect, nm: Naming, l: Expr)
    requires CanPrint(l)
    ensures InnerText(d, nm, l, false) == Text(d, nm, l) && InnerToks(d, nm, l, false) == Toks(d, nm, l)
  {
  }

  /** When no operand follows the operator, the whole expression fails. */
  lemma RightFails(nm: Naming, op: BinOp, l: Expr, minprec: nat, ts: Option<seq<Tok>>)
    requires Readable(Sdas, nm, l) && !Relation(op) && minprec <= Prec(Sdas, op) && NoOperand(Sdas, ts)
    ensures Fails(Sdas, After(InnerToks(Sdas, nm, l, l.Bin? && !PlainLeft(Sdas, op, l)) + BinToks(Sdas, op), ts),
                  minprec)
  {
    hide Lex, Text, Toks, Unary, Climb, ValidName, ParenToks, BinToks, NextPrec, BinTok, Operators, Norm;
    if ts.Some? {
      var p := l.Bin? && !PlainLeft(Sdas, op, l);
      var left, tail := InnerToks(Sdas, nm, l, p), BinToks(Sdas, op) + ts.value;
      assert left + BinToks(Sdas, op) + ts.value == left + tail;
      BinTokIs(Sdas, op, ts.value);
      if PlainLeft(Sdas, op, l) {
        ExprReads(Sdas, nm, l, minprec, tail);
      } else {
        InnerReads(Sdas, nm, l, tail);
        ClimbIs(Sdas, left + tail, minprec);
      }
      assert Climb(Sdas, left + tail, minprec) == Operators(Sdas, Norm(nm, l), tail, minprec);
      OperatorsAre(Sdas, Norm(nm, l), tail, minprec);
      ClimbIs(Sdas, ts.value, Prec(Sdas, op) + 1);
      assert Climb(Sdas, left + tail, minprec).Err?;
    }
  }

  /** In sdas a printable tree reads back exactly when it has no doubled LOW or HIGH. */
  lemma SdasReadable(nm: Naming, e: Expr)
    requires CanPrint(e) && WellNamed(Sdas, nm, e)
    ensures Parse(Sdas, Text(Sdas, nm, e)) == Some(Norm(nm, e)) <==> NoDouble(e)
  {
    hide Lex, Text, Climb, NoDouble, Norm, CanPrint, WellNamed;
    if NoDouble(e) {
      PrintParse(Sdas, nm, e);
    } else {
      DoubleExpr(nm, e, 0, "");
      assert Text(Sdas, nm, e) + "" == Text(Sdas, nm, e);
    }
  }

  function LowLow(a: string): (e: Expr)
    ensures CanPrint(e) && !NoDouble(e)
  {
    assert CanPrint(Un(Lo, Sym(a)));
    Un(Lo, Un(Lo, Sym(a)))
  }

  /** LOW of LOW of a symbol does not come back in sdas. */
  lemma DoubleLost(nm: Naming, a: string)
    requires ValidName(Sdas, nm(a))
    ensures Parse(Sdas, Text(Sdas, nm, LowLow(a))) != Some(Norm(nm, LowLow(a)))
  {
    hide Parse, Text, Norm, ValidName;
    assert WellNamed(Sdas, nm, Un(Lo, Sym(a)));
    SdasReadable(nm, LowLow(a));
  }

  // ---- folding ----------------------------------------------------------------------------------------------

  /** A value, no value because a symbol or the location counter has none, or an error. */
  datatype Folded = Val(v: int) | Unknown | Fault

  function Word16(v: int): int { v % 0x1_0000 }

  function Truth(b: bool): Folded { Val(if b then 0xFFFF else 0) }

  function FoldUn(op: UnOp, a: int): int {
    match op
    case Neg => -a
    case Pos => a
    case Not => Word16(-a - 1)
    case Hi => a / 0x100 % 0x100
    case Lo => a % 0x100
  }

  function FoldBin(op: BinOp, a: int, b: int): Folded {
    match op
    case Add => Val(a + b)
    case Sub => Val(a - b)
    case Mul => Val(a * b)
    case Div => if b == 0 then Fault else Val(CInt.TDiv(a, b))
    case Mod => if b == 0 then Fault else Val(a - CInt.TDiv(a, b) * b)
    case Shl => if b < 0 then Fault else Val(a * CInt.Pow2(b))
    case Shr => if b < 0 then Fault else Val(Word16(a) / CInt.Pow2(b))
    case And => Val(CInt.Bitwise(CInt.And, a, b))
    case Or => Val(CInt.Bitwise(CInt.Or, a, b))
    case Xor => Val(CInt.Bitwise(CInt.Xor, a, b))
    case Eq => Truth(a == b)
    case Ne => Truth(a != b)
    case Lt => Truth(a < b)
    case Le => Truth(a <= b)
    case Gt => Truth(a > b)
    case Ge => Truth(a >= b)
  }

  type Symbols = string -> Option<int>

  function Fold(e: Expr, env: Symbols): Folded {
    match e
    case Num(v, _) => Val(v)
    case Chr(n) => Val(n)
    case Sym(s) => if env(s).Some? then Val(env(s).value) else Unknown
    case Loc => Unknown
    case Un(op, a) => var x := Fold(a, env); if x.Val? then Val(FoldUn(op, x.v)) else x
    case Bin(op, l, r) =>
      var x, y := Fold(l, env), Fold(r, env);
      if x.Fault? then Fault else if y.Fault? then Fault
      else if x.Unknown? || y.Unknown? then Unknown
      else FoldBin(op, x.v, y.v)
  }

  /** The tree that comes back has the value of the tree that was printed, in either dialect. */
  lemma {:induction false} NormFolds(nm: Naming, e: Expr, env: Symbols, env': Symbols)
    requires forall s: string :: env'(nm(s)) == env(s)
    ensures Fold(Norm(nm, e), env') == Fold(e, env)
    decreases e
  {
    hide FoldBin, SafeCode;
    match e
    case Un(_, a) => NormFolds(nm, a, env, env');
    case Bin(_, l, r) =>
      NormFolds(nm, l, env, env');
      NormFolds(nm, r, env, env');
    case _ =>
  }

  /** A text means in its dialect what the tree means. */
  lemma TextFolds(d: Dialect, nm: Naming, e: Expr, env: Symbols, env': Symbols)
    requires Readable(d, nm, e) && forall s: string :: env'(nm(s)) == env(s)
    ensures Parse(d, Text(d, nm, e)).Some? && Fold(Parse(d, Text(d, nm, e)).value, env') == Fold(e, env)
  {
    hide Parse, Text, Fold, Norm, WellNamed, NotSafe, NoDouble;
    PrintParse(d, nm, e);
    NormFolds(nm, e, env, env');
  }
}
