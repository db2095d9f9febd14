/** A 24 by 80 character terminal: what it shows after a sequence of bytes, for the control
    functions CUP, ED and SGR of ECMA-48 (sections 8.3.21, 8.3.39 and 8.3.117).

    Where those functions and plain characters do not fix what the terminal does, it shows
    anything: a `Device` chooses. */
module Terminal {
  const NR := 24
  const NC := 80

  const BLANK := 32

  /** A cell is a character, plus 128 in standout. */
  type Cells = s: seq<int> | |s| == NR * NC witness seq(NR * NC, _ => 32)

  datatype Cursor = Unknown | At(y: nat, x: nat)

  datatype Parser = Ground | Escape | Control(params: seq<nat>)

  /** `writes` counts the characters drawn. */
  datatype Term = Term(cells: Cells, cursor: Cursor, standout: bool, parser: Parser, writes: nat)

  type Device = (Term, int) -> Cells

  predicate Graphic(c: int) { 32 <= c <= 126 }

  /** A graphic character, in standout or not. */
  predicate Drawable(c: int) { 0 <= c < 256 && Graphic(c % 128) }

  function Erased(): (s: Cells)
    ensures forall i :: 0 <= i < NR * NC ==> s[i] == BLANK
  {
    seq(NR * NC, _ => BLANK)
  }

  function Param(ps: seq<nat>, k: nat, limit: nat): nat
    requires limit > 0
  {
    if k >= |ps| || ps[k] == 0 then 0 else if ps[k] > limit then limit - 1 else ps[k] - 1
  }

  function Rendition(ps: seq<nat>, on: bool): bool {
    if ps == [] then on
    else Rendition(ps[1..], if ps[0] == 0 then false else if ps[0] == 7 then true else on)
  }

  function Digit(ps: seq<nat>, d: nat): seq<nat> {
    if ps == [] then [d] else ps[..|ps| - 1] + [10 * ps[|ps| - 1] + d]
  }

  function Unspecified(d: Device, t: Term, c: int): Term {
    t.(cells := d(t, c), cursor := Unknown, parser := Ground)
  }

  function Feed(d: Device, t: Term, c: int): Term {
    match t.parser
    case Ground =>
      if c == 27 then t.(parser := Escape)
      else if c == 7 then t
      else if Graphic(c) then Draw(d, t, c)
      else Unspecified(d, t, c)
    case Escape => if c == '[' as int then t.(parser := Control([0])) else Unspecified(d, t, c)
    case Control(ps) =>
      if '0' as int <= c <= '9' as int then t.(parser := Control(Digit(ps, c - '0' as int)))
      else if c == ';' as int then t.(parser := Control(ps + [0]))
      else if c == 'H' as int then t.(parser := Ground, cursor := At(Param(ps, 0, NR), Param(ps, 1, NC)))
      else if c == 'm' as int then t.(parser := Ground, standout := Rendition(ps, t.standout))
      else if c == 'J' as int && ps == [2] then t.(parser := Ground, cells := Erased(), cursor := Unknown)
      else Unspecified(d, t, c)
  }

  /** A character goes to the cursor, which then moves right; after the last column it is
      anywhere. */
  function Draw(d: Device, t: Term, c: int): Term {
    var drawn := t.(writes := t.writes + 1);
    if t.cursor.At? && t.cursor.y < NR && t.cursor.x < NC then
      var y, x := t.cursor.y, t.cursor.x;
      drawn.(cells := t.cells[y * NC + x := c + if t.standout then 128 else 0],
             cursor := if x + 1 < NC then At(y, x + 1) else Unknown)
    else Unspecified(d, drawn, c)
  }

  /** What the terminal shows after the bytes `out`. */
  function After(d: Device, t: Term, out: seq<int>): Term {
    if out == [] then t else Feed(d, After(d, t, out[..|out| - 1]), out[|out| - 1])
  }

  // ---- what the terminal does with one byte ----------------------------------------------

  lemma FeedEscape(d: Device, t: Term)
    ensures t.parser == Ground ==> Feed(d, t, 27) == t.(parser := Escape) && Feed(d, t, 7) == t
  {
  }

  lemma FeedBracket(d: Device, t: Term)
    ensures t.parser == Escape ==> Feed(d, t, '[' as int) == t.(parser := Control([0]))
  {
  }

  lemma FeedDigit(d: Device, t: Term, ps: seq<nat>, n: nat, k: int)
    requires 0 <= k <= 9
    ensures t.parser == Control(ps + [n]) ==> Feed(d, t, '0' as int + k) == t.(parser := Control(ps + [10 * n + k]))
  {
    assert Digit(ps + [n], k) == ps + [10 * n + k];
  }

  lemma FeedNext(d: Device, t: Term, ps: seq<nat>)
    ensures t.parser == Control(ps) ==> Feed(d, t, ';' as int) == t.(parser := Control(ps + [0]))
  {
  }

  lemma FeedGoTo(d: Device, t: Term, y: nat, x: nat)
    requires y < NR && x < NC
    ensures t.parser == Control([y + 1, x + 1]) ==> Feed(d, t, 'H' as int) == t.(parser := Ground, cursor := At(y, x))
  {
  }

  lemma FeedErase(d: Device, t: Term)
    ensures t.parser == Control([2]) ==>
      Feed(d, t, 'J' as int) == t.(parser := Ground, cells := Erased(), cursor := Unknown)
  {
  }

  lemma FeedRendition(d: Device, t: Term, on: bool)
    ensures t.parser == Control([if on then 7 else 0]) ==>
      Feed(d, t, 'm' as int) == t.(parser := Ground, standout := on)
  {
    assert Rendition([if on then 7 else 0], t.standout) == on;
  }

  lemma FeedGraphic(d: Device, t: Term, c: int, y: nat, x: nat)
    requires t.parser == Ground && Graphic(c) && t.cursor == At(y, x) && y < NR && x < NC
    ensures Feed(d, t, c) ==
      Term(t.cells[y * NC + x := c + if t.standout then 128 else 0], if x + 1 < NC then At(y, x + 1) else Unknown,
           t.standout, Ground, t.writes + 1)
  {
  }

  lemma FeedOther(d: Device, t: Term, c: int)
    ensures t.parser == Ground && c != 27 ==> Feed(d, t, c).parser == Ground
  {
  }

  /** How many of the first `n` cells of two screens differ. */
  function Differ(a: Cells, b: Cells, n: nat): nat
    requires n <= NR * NC
  {
    if n == 0 then 0 else Differ(a, b, n - 1) + if a[n - 1] != b[n - 1] then 1 else 0
  }

  lemma {:induction false} NoDiffer(a: Cells, b: Cells, n: nat)
    requires n <= NR * NC
    ensures Differ(a, b, n) == 0 <==> a[..n] == b[..n]
    decreases n
  {
    if n > 0 {
      NoDiffer(a, b, n - 1);
      assert a[..n] == a[..n - 1] + [a[n - 1]] && b[..n] == b[..n - 1] + [b[n - 1]];
    }
  }

  // ---- a device that draws nothing of its own ------------------------------------------------

  ghost predicate Keeps(d: Device) { forall t, c :: d(t, c) == t.cells }

  /** One byte changes a cell only into a graphic character. */
  lemma FedDrawable(d: Device, t: Term, c: int, i: nat)
    requires Keeps(d) && i < NR * NC
    ensures var v := Feed(d, t, c).cells[i]; v == t.cells[i] || Drawable(v)
  {
    hide Rendition, Param, Digit;
  }

  /** Whatever is sent, on such a device a cell never comes to show what is not a graphic
      character. */
  lemma {:induction false} NotDrawn(d: Device, t: Term, a: seq<int>, b: seq<int>, i: nat, v: int)
    requires Keeps(d) && a <= b && i < NR * NC && !Drawable(v) && After(d, t, a).cells[i] != v
    ensures After(d, t, b).cells[i] != v
    decreases |b|
  {
    hide Feed;
    if |b| > |a| {
      NotDrawn(d, t, a, b[..|b| - 1], i, v);
      FedDrawable(d, After(d, t, b[..|b| - 1]), b[|b| - 1], i);
    } else {
      assert a == b;
    }
  }
}
