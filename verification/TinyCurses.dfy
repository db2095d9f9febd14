/** The small curses library: a virtual screen, a shadow of the terminal's screen, and a
    refresh that sends only the cells that differ. */
module TinyCurses {
  import opened Wrappers
  import opened Terminal

  const INT_MAX := 32767

  /** A window: cursor, top left corner, size and standout flag. */
  datatype Win = Win(cury: int, curx: int, begy: int, begx: int, maxy: int, maxx: int, attr: bool, used: bool)
  {
    /** Set up at least once. */
    predicate Opened() { maxy > 0 && maxx > 0 }

    predicate InBounds() {
      0 <= begy && 0 <= begx && begy + maxy <= NR && begx + maxx <= NC && 0 <= cury < maxy && 0 <= curx < maxx
    }

    /** The screen index of a cell of the window. */
    function Index(y: int, x: int): int { (begy + y) * NC + begx + x }

    function Cursor(): int { Index(cury, curx) }
  }

  // ---- drawing in one window ---------------------------------------------------------

  /** A screen and one window on it. */
  datatype Pad = Pad(cells: Cells, win: Win) {
    predicate Ok() { win.Opened() && win.InBounds() && forall i :: 0 <= i < NR * NC ==> 0 <= cells[i] < 256 }
  }

  /** Cells change into graphic characters alone. */
  ghost predicate Draws(a: Cells, b: Cells) { forall i :: 0 <= i < NR * NC ==> b[i] == a[i] || Drawable(b[i]) }

  lemma DrawsSends(a: Cells, b: Cells)
    requires Draws(a, b)
    ensures Sendable(a, b)
  {
  }

  ghost predicate AllDrawable(s: Cells) { forall i :: 0 <= i < NR * NC ==> Drawable(s[i]) }

  lemma DrawnStill(a: Cells, b: Cells)
    requires Draws(a, b)
    ensures AllDrawable(a) ==> AllDrawable(b)
  {
  }

  lemma AllSendable(a: Cells, b: Cells)
    ensures AllDrawable(b) ==> Sendable(a, b)
  {
  }

  lemma DrawsBoth(a: Cells, b: Cells, c: Cells)
    requires Draws(a, b) && Draws(b, c)
    ensures Draws(a, c)
  {
  }

  /** Where `b` differs from `a` it can be drawn. */
  ghost predicate Sendable(a: Cells, b: Cells) { forall i :: 0 <= i < NR * NC && b[i] != a[i] ==> Drawable(b[i]) }

  function Blanked(s: Cells, lo: int, hi: int): (r: Cells)
    ensures forall i :: 0 <= i < NR * NC ==> r[i] == if lo <= i < hi then BLANK else s[i]
  {
    seq(NR * NC, i requires 0 <= i < NR * NC => if lo <= i < hi then BLANK else s[i])
  }

  function ClearLine(p: Pad): Pad {
    p.(cells := Blanked(p.cells, p.win.Cursor(), p.win.Index(p.win.cury, p.win.maxx)))
  }

  /** The window after its cursor moved one cell, and whether it could. */
  function Advance(w: Win): (Win, bool) {
    if w.curx + 1 < w.maxx then (w.(curx := w.curx + 1), true)
    else if w.cury + 1 >= w.maxy then (w.(curx := w.maxx - 1), false)
    else (w.(curx := 0, cury := w.cury + 1), true)
  }

  function PutCell(p: Pad, c: int): (r: (Pad, bool))
    requires p.Ok() && Drawable(c)
    ensures r.0.Ok()
  {
    var a := Advance(p.win);
    (Pad(p.cells[p.win.Cursor() := c], a.0), a.1)
  }

  function Attr(so: bool): int { if so then 128 else 0 }

  /** Spaces one after the other, up to the first that reports the end of the window. */
  function Spaces(p: Pad, n: nat): (r: (Pad, bool))
    requires p.Ok()
    ensures r.0.Ok()
    decreases n
  {
    if n == 0 then (p, true)
    else
      var q := PutCell(p, BLANK + Attr(p.win.attr));
      if !q.1 then q else Spaces(q.0, n - 1)
  }

  /** One character `c`, with its standout bit. */
  function AddChar(nl: bool, p: Pad, c: int): (r: (Pad, bool))
    requires p.Ok()
    ensures r.0.Ok()
  {
    var so, k, w := p.win.attr || c / 256 % 2 == 1, c % 256, p.win;
    if k == 10 then
      var q := ClearLine(p);
      if w.cury + 1 >= w.maxy then (q, false)
      else (q.(win := w.(cury := w.cury + 1, curx := if nl then 0 else w.curx)), true)
    else if k == 13 then (p.(win := w.(curx := 0)), true)
    else if k == 8 then (p.(win := w.(curx := if w.curx > 0 then w.curx - 1 else 0)), true)
    else if k == 9 then Spaces(p, 8 - w.curx % 8)
    else if !Graphic(k) then (p, true)
    else PutCell(p, k + Attr(so))
  }

  lemma SpacesStep(nl: bool, p: Pad, n: nat)
    requires p.Ok()
    ensures n == 0 ==> Spaces(p, n) == (p, true)
    ensures n > 0 ==> var q := AddChar(nl, p, BLANK); Spaces(p, n) == if !q.1 then q else Spaces(q.0, n - 1)
  {
    hide PutCell, ClearLine, Pad.Ok, Win.Cursor;
  }

  /** The characters of a string, up to the first that reports the end of the window. */
  function AddString(nl: bool, p: Pad, s: seq<int>): (r: (Pad, bool))
    requires p.Ok()
    ensures r.0.Ok()
    decreases |s|
  {
    if s == [] then (p, true)
    else
      var q := AddChar(nl, p, s[0] % 256);
      if !q.1 then q else AddString(nl, q.0, s[1..])
  }

  /** `c` is a cell as `InCh` reads it: the character, and the standout bit 256. */
  predicate Reads(cell: int, c: int) { 0 <= c < 512 && c % 256 < 128 && cell == c % 256 + Attr(c >= 256) }

  function Row(i: int): int { i / NC }

  function Col(i: int): (x: int)
    ensures 0 <= x < NC && i == Row(i) * NC + x
  {
    i % NC
  }

  /** Window `w` blanked from column `left` of its line `top` to its end. */
  function BlankBelow(s: Cells, w: Win, top: int, left: int): (r: Cells)
    ensures forall i :: 0 <= i < NR * NC ==>
      r[i] ==
        (if InLines(w, top, Row(i), Col(i)) && (Row(i) > w.begy + top || Col(i) >= w.begx + left) then BLANK else s[i])
  {
    seq(NR * NC, i requires 0 <= i < NR * NC =>
      if InLines(w, top, Row(i), Col(i)) && (Row(i) > w.begy + top || Col(i) >= w.begx + left) then BLANK else s[i])
  }

  /** Screen position `(y, x)` is in the window, at its line `top` or below. */
  predicate InLines(w: Win, top: int, y: int, x: int) {
    w.begy + top <= y < w.begy + w.maxy && w.begx <= x < w.begx + w.maxx
  }

  /** A cell of the screen after a box was drawn around the window. */
  function BoxCell(w: Win, side: int, bar: int, y: int, x: int, old_: int): int {
    var top, left := y == w.begy || y == w.begy + w.maxy - 1, x == w.begx || x == w.begx + w.maxx - 1;
    if !InLines(w, 0, y, x) then old_
    else if top && left then '+' as int
    else if top then bar
    else if left then side
    else old_
  }

  function BoxChar(c: int, default: char): int { if c == 0 then default as int else c % 256 }

  /** Every character that a box puts on the screen can be drawn: a window of two columns or
      less has no bar, one of two lines or less no side. */
  predicate BoxDraws(w: Win, v: int, h: int) {
    (w.maxx > 2 ==> Drawable(BoxChar(h, '-'))) && (w.maxy > 2 ==> Drawable(BoxChar(v, '|')))
  }

  lemma BoxDrawn(w: Win, v: int, h: int, a: Cells, b: Cells)
    requires w.Opened() && w.InBounds()
    requires forall i :: 0 <= i < NR * NC ==> b[i] == BoxCell(w, BoxChar(v, '|'), BoxChar(h, '-'), Row(i), Col(i), a[i])
    ensures BoxDraws(w, v, h) ==> Draws(a, b)
    ensures !BoxDraws(w, v, h) ==> !AllDrawable(b)
  {
    hide Row, Col, InLines;
    if BoxDraws(w, v, h) {
      forall i | 0 <= i < NR * NC ensures b[i] == a[i] || Drawable(b[i]) { InBox(w, i); }
    } else if w.maxx > 2 && !Drawable(BoxChar(h, '-')) {
      Place(w.begy, w.begx + 1);
      InBox(w, w.Index(0, 1));
      assert !Drawable(b[w.Index(0, 1)]);
    } else {
      Place(w.begy + 1, w.begx);
      InBox(w, w.Index(1, 0));
      assert !Drawable(b[w.Index(1, 0)]);
    }
  }

  /** A cell of the border that is no corner needs a third column or line. */
  lemma InBox(w: Win, i: int)
    ensures InLines(w, 0, Row(i), Col(i)) <==> w.begy <= Row(i) < w.begy + w.maxy && w.begx <= Col(i) < w.begx + w.maxx
  {
  }

  lemma Place(y: int, x: int)
    requires 0 <= x < NC
    ensures Row(y * NC + x) == y && Col(y * NC + x) == x
  {
  }

  /** `n` without its last `k` decimal digits. */
  function Tail(n: nat, k: nat): nat { if k == 0 then n else Tail(n, k - 1) / 10 }

  lemma Five()
    ensures Tail(INT_MAX, 5) == 0
  {
    assert Tail(INT_MAX, 2) == 327;
  }

  // ---- what drawing does ---------------------------------------------------------------

  /** The window after `k` cells were written, when there is room for them. */
  function Moved(w: Win, k: nat): Win
    decreases k
  {
    if k == 0 then w else Moved(Advance(w).0, k - 1)
  }

  /** `k` cells can be written at the cursor without reaching the end of the window. */
  predicate Room(w: Win, k: nat)
    decreases k
  {
    k == 0 || (Advance(w).1 && Room(Advance(w).0, k - 1))
  }

  /** There is room up to the last cell of the window, and not for it. */
  lemma {:induction false} RoomCount(w: Win, k: nat)
    requires w.InBounds()
    ensures Room(w, k) <==> k <= (w.maxy - 1 - w.cury) * w.maxx + (w.maxx - 1 - w.curx)
    decreases k
  {
    var a, below := Advance(w), w.maxy - 1 - w.cury;
    RowsNotNegative(below, w.maxx);
    if k > 0 && a.1 {
      var v := a.0;
      RoomCount(v, k - 1);
      if w.curx + 1 < w.maxx {
        assert v.cury == w.cury && v.curx == w.curx + 1;
      } else {
        assert v.cury == w.cury + 1 && v.curx == 0;
        assert below * w.maxx == (below - 1) * w.maxx + w.maxx;
      }
    }
  }

  lemma RowsNotNegative(a: nat, b: nat)
    ensures a * b >= 0
  {
  }

  /** Later positions lie further on the screen. */
  lemma {:induction false} MovedForward(w: Win, k: nat)
    requires w.InBounds() && Room(w, k)
    ensures Moved(w, k).InBounds() && Moved(w, k) == w.(cury := Moved(w, k).cury, curx := Moved(w, k).curx)
    ensures k > 0 ==> Moved(w, k).Cursor() > w.Cursor()
    decreases k
  {
    if k > 0 { MovedForward(Advance(w).0, k - 1); }
  }

  predicate Printable(s: seq<int>) { forall k :: 0 <= k < |s| ==> Graphic(s[k] % 256) }

  /** Text with room for it goes, character by character, to the cells from the cursor on, line
      after line inside the window; nothing else changes. */
  lemma TextFlows(nl: bool, p: Pad, s: seq<int>)
    requires p.Ok() && Printable(s) && Room(p.win, |s|)
    ensures AddString(nl, p, s).1 && AddString(nl, p, s).0.win == Moved(p.win, |s|)
    ensures forall k: nat :: k < |s| ==>
      0 <= Moved(p.win, k).Cursor() < NR * NC &&
      AddString(nl, p, s).0.cells[Moved(p.win, k).Cursor()] == s[k] % 256 + Attr(p.win.attr)
    ensures forall i :: 0 <= i < NR * NC && (forall k: nat :: k < |s| ==> Moved(p.win, k).Cursor() != i) ==>
      AddString(nl, p, s).0.cells[i] == p.cells[i]
  {
    hide Advance, Room, AddString, Moved;
    FlowWin(nl, p, s);
    forall k: nat | k < |s|
      ensures 0 <= Moved(p.win, k).Cursor() < NR * NC
      ensures AddString(nl, p, s).0.cells[Moved(p.win, k).Cursor()] == s[k] % 256 + Attr(p.win.attr)
    {
      FlowAt(nl, p, s, k);
    }
    forall i | 0 <= i < NR * NC && (forall k: nat :: k < |s| ==> Moved(p.win, k).Cursor() != i)
      ensures AddString(nl, p, s).0.cells[i] == p.cells[i]
    {
      FlowElse(nl, p, s, i);
    }
  }

  lemma FlowStep(nl: bool, p: Pad, s: seq<int>)
    requires p.Ok() && Printable(s) && Room(p.win, |s|) && s != []
    ensures
      var q := AddChar(nl, p, s[0] % 256);
      q.1 && q.0.Ok() && 0 <= p.win.Cursor() < NR * NC && q.0.win == Advance(p.win).0 && q.0.win.attr == p.win.attr &&
      q.0.cells == p.cells[p.win.Cursor() := s[0] % 256 + Attr(p.win.attr)] &&
      AddString(nl, p, s) == AddString(nl, q.0, s[1..]) && Room(q.0.win, |s| - 1) && Printable(s[1..])
  {
    hide Spaces, ClearLine;
    assert Graphic(s[0] % 256);
  }

  lemma {:induction false} FlowWin(nl: bool, p: Pad, s: seq<int>)
    requires p.Ok() && Printable(s) && Room(p.win, |s|)
    ensures AddString(nl, p, s).1 && AddString(nl, p, s).0.win == Moved(p.win, |s|)
    decreases |s|
  {
    hide AddChar, Advance, Room, Printable;
    if s != [] {
      FlowStep(nl, p, s);
      FlowWin(nl, AddChar(nl, p, s[0] % 256).0, s[1..]);
    }
  }

  lemma {:induction false} FlowAt(nl: bool, p: Pad, s: seq<int>, k: nat)
    requires p.Ok() && Printable(s) && Room(p.win, |s|) && k < |s|
    ensures 0 <= Moved(p.win, k).Cursor() < NR * NC
    ensures AddString(nl, p, s).0.cells[Moved(p.win, k).Cursor()] == s[k] % 256 + Attr(p.win.attr)
    decreases |s|
  {
    hide AddChar, Advance, Room, Printable, AddString;
    FlowStep(nl, p, s);
    var q, t := AddChar(nl, p, s[0] % 256).0, s[1..];
    if k == 0 {
      forall j: nat | j < |t| ensures Moved(q.win, j).Cursor() != p.win.Cursor() {
        RoomLess(p.win, |s|, j + 1);
        MovedForward(p.win, j + 1);
        assert Moved(p.win, j + 1) == Moved(q.win, j);
      }
      FlowElse(nl, q, t, p.win.Cursor());
      assert Moved(p.win, 0) == p.win;
    } else {
      FlowAt(nl, q, t, k - 1);
      assert Moved(p.win, k) == Moved(q.win, k - 1);
    }
  }

  lemma {:induction false} FlowElse(nl: bool, p: Pad, s: seq<int>, i: int)
    requires p.Ok() && Printable(s) && Room(p.win, |s|) && 0 <= i < NR * NC
    requires forall k: nat :: k < |s| ==> Moved(p.win, k).Cursor() != i
    ensures AddString(nl, p, s).0.cells[i] == p.cells[i]
    decreases |s|
  {
    if s != [] {
      hide AddChar, Advance, Room, Printable, Win.Cursor;
      FlowStep(nl, p, s);
      var q, t := AddChar(nl, p, s[0] % 256).0, s[1..];
      assert Moved(p.win, 0) == p.win;
      forall j: nat | j < |t| ensures Moved(q.win, j).Cursor() != i {
        assert Moved(q.win, j) == Moved(p.win, j + 1);
      }
      FlowElse(nl, q, t, i);
    }
  }

  lemma {:induction false} RoomLess(w: Win, k: nat, j: nat)
    requires Room(w, k) && j <= k
    ensures Room(w, j)
    decreases j
  {
    if j > 0 { RoomLess(Advance(w).0, k - 1, j - 1); }
  }

  /** At the last cell of the window a character is still drawn, but the end is reported and
      the cursor stays. */
  lemma LastCell(nl: bool, p: Pad, c: int)
    requires p.Ok() && Graphic(c % 256) && !Room(p.win, 1)
    ensures
      p.win.cury == p.win.maxy - 1 && p.win.curx == p.win.maxx - 1 &&
      AddChar(nl, p, c) ==
        (Pad(p.cells[p.win.Cursor() := c % 256 + Attr(p.win.attr || c / 256 % 2 == 1)], p.win), false)
  {
    assert Room(Advance(p.win).0, 0);
  }

  /** On the lines of the window laid end to end the cursor moves `k` cells on. */
  lemma {:induction false} MovedAt(w: Win, k: nat)
    requires w.InBounds() && Room(w, k)
    ensures Moved(w, k).cury * w.maxx + Moved(w, k).curx == w.cury * w.maxx + w.curx + k
    ensures w.curx + k < w.maxx ==> Moved(w, k) == w.(curx := w.curx + k)
    decreases k
  {
    if k > 0 {
      MovedAt(Advance(w).0, k - 1);
      Next(w.cury, w.maxx);
    }
  }

  lemma Next(a: int, b: int)
    ensures (a + 1) * b == a * b + b
  {
  }

  lemma {:induction false} MovedOn(w: Win, k: nat, j: nat)
    requires Room(w, k + j)
    ensures Room(w, k) && Room(Moved(w, k), j) && Moved(Moved(w, k), j) == Moved(w, k + j)
    decreases k
  {
    hide Advance;
    if k > 0 { MovedOn(Advance(w).0, k - 1, j); }
  }

  /** A text is added piece by piece. */
  lemma {:induction false} Append(nl: bool, p: Pad, s: seq<int>, t: seq<int>)
    requires p.Ok()
    ensures
      var q := AddString(nl, p, s);
      AddString(nl, p, s + t) == if q.1 then AddString(nl, q.0, t) else q
    decreases |s|
  {
    hide AddChar;
    if s == [] {
      assert s + t == t;
    } else {
      assert (s + t)[1..] == s[1..] + t;
      Append(nl, AddChar(nl, p, s[0] % 256).0, s[1..], t);
    }
  }

  /** Where the cursor `w` goes at a newline: a line down, to column 0 or in its column. */
  function LineDown(nl: bool, w: Win): Win { w.(cury := w.cury + 1, curx := if nl then 0 else w.curx) }

  lemma AtNewline(nl: bool, p: Pad)
    requires p.Ok()
    ensures
      var q, w := AddString(nl, p, [10]), p.win;
      q.0.cells == Blanked(p.cells, w.Cursor(), w.Index(w.cury, w.maxx)) &&
      (q.1 <==> w.cury + 1 < w.maxy) && q.0.win == if q.1 then LineDown(nl, w) else w
  {
    hide Spaces, PutCell;
    var q := AddChar(nl, p, 10);
    assert [10][1..] == [];
    assert AddString(nl, q.0, []) == (q.0, true);
  }

  /** Text, a newline and more text: the first text flows from the cursor, the rest of its last line is
      blank, and the second text flows from the next line on. Nothing else changes. */
  lemma NewlineFlows(nl: bool, p: Pad, s: seq<int>, t: seq<int>)
    requires p.Ok() && Printable(s) && Printable(t) && Room(p.win, |s|)
    requires var w := Moved(p.win, |s|); w.cury + 1 < w.maxy && Room(LineDown(nl, w), |t|)
    ensures
      var r, w := AddString(nl, p, s + [10] + t), Moved(p.win, |s|);
      var v := LineDown(nl, w);
      r.1 && r.0.win == Moved(v, |t|) &&
      forall i :: 0 <= i < NR * NC ==> LineOf(r.0.cells, p, s, w, v, t, i)
  {
    hide Advance, AddString, LineOf, Win.Cursor, Win.Index, Blanked;
    var a := AddString(nl, p, s);
    FlowWin(nl, p, s);
    MovedForward(p.win, |s|);
    Append(nl, p, s + [10], t);
    Append(nl, p, s, [10]);
    AtNewline(nl, a.0);
    FlowWin(nl, AddString(nl, a.0, [10]).0, t);
    var r := AddString(nl, p, s + [10] + t).0;
    forall i | 0 <= i < NR * NC ensures LineOf(r.cells, p, s, a.0.win, LineDown(nl, a.0.win), t, i) {
      NewlineAt(nl, p, s, t, i);
    }
  }

  /** Cell `i` after text `s` from the cursor of `p` to cursor `w`, the rest of a line blanked and text `t`
      from cursor `v`. */
  ghost predicate LineOf(r: Cells, p: Pad, s: seq<int>, w: Win, v: Win, t: seq<int>, i: int)
    requires 0 <= i < NR * NC
  {
    (forall k: nat :: k < |s| && Moved(p.win, k).Cursor() == i ==> r[i] == s[k] % 256 + Attr(p.win.attr)) &&
    (forall k: nat :: k < |t| && Moved(v, k).Cursor() == i ==> r[i] == t[k] % 256 + Attr(p.win.attr)) &&
    (w.Cursor() <= i < w.Index(w.cury, w.maxx) ==> r[i] == BLANK) &&
    (((forall k: nat :: k < |s| ==> Moved(p.win, k).Cursor() != i) &&
      (forall k: nat :: k < |t| ==> Moved(v, k).Cursor() != i) &&
      !(w.Cursor() <= i < w.Index(w.cury, w.maxx))) ==> r[i] == p.cells[i])
  }

  lemma NewlineAt(nl: bool, p: Pad, s: seq<int>, t: seq<int>, i: int)
    requires p.Ok() && Printable(s) && Printable(t) && Room(p.win, |s|) && 0 <= i < NR * NC
    requires var w := Moved(p.win, |s|); w.cury + 1 < w.maxy && Room(LineDown(nl, w), |t|)
    ensures
      var r, w := AddString(nl, p, s + [10] + t), Moved(p.win, |s|);
      LineOf(r.0.cells, p, s, w, LineDown(nl, w), t, i)
  {
    hide Advance, AddString, Moved, Room, Win.Cursor, Win.Index, Blanked, LineDown;
    var a := AddString(nl, p, s);
    FlowWin(nl, p, s);
    MovedForward(p.win, |s|);
    var w := a.0.win;
    var b := AddString(nl, a.0, [10]);
    AtNewline(nl, a.0);
    var v := LineDown(nl, w);
    Append(nl, p, s + [10], t);
    Append(nl, p, s, [10]);
    assert b.0.win == v;
    TextFlows(nl, p, s);
    TextFlows(nl, b.0, t);
    Below(nl, w);
    forall k: nat | k < |s| ensures Moved(p.win, k).Cursor() < w.Cursor() {
      MovedOn(p.win, k, |s| - k);
      MovedForward(p.win, k);
      MovedForward(Moved(p.win, k), |s| - k);
    }
    forall k: nat | k < |t| ensures Moved(v, k).Cursor() >= v.Cursor() {
      RoomLess(v, |t|, k);
      MovedForward(v, k);
      assert k == 0 ==> Moved(v, k) == v by { Still(v); }
    }
  }

  lemma Still(w: Win)
    ensures Moved(w, 0) == w
  {
  }

  lemma Below(nl: bool, w: Win)
    requires w.InBounds() && w.cury + 1 < w.maxy
    ensures w.Cursor() < w.Index(w.cury, w.maxx) <= LineDown(nl, w).Cursor() && LineDown(nl, w).InBounds()
    ensures LineDown(nl, w).attr == w.attr
  {
  }

  /** A newline on the last line blanks the rest of it, reports the end and leaves the cursor; what follows
      is not added. */
  lemma LastLine(nl: bool, p: Pad, s: seq<int>, t: seq<int>)
    requires p.Ok() && Printable(s) && Room(p.win, |s|) && Moved(p.win, |s|).cury + 1 >= p.win.maxy
    ensures
      var r, q, w := AddString(nl, p, s + [10] + t), AddString(nl, p, s), Moved(p.win, |s|);
      !r.1 && r.0.win == w &&
      forall i :: 0 <= i < NR * NC ==>
        r.0.cells[i] == if w.Cursor() <= i < w.Index(w.cury, w.maxx) then BLANK else q.0.cells[i]
  {
    hide Advance, AddString, Moved, Room, Win.Cursor, Win.Index;
    FlowWin(nl, p, s);
    MovedForward(p.win, |s|);
    AtNewline(nl, AddString(nl, p, s).0);
    Append(nl, p, s + [10], t);
    Append(nl, p, s, [10]);
  }

  /** Text after a carriage return flows from column 0 of the line; the return itself changes no cell. */
  lemma ReturnFlows(nl: bool, p: Pad, t: seq<int>)
    requires p.Ok() && Printable(t) && Room(p.win.(curx := 0), |t|)
    ensures
      var r, w := AddString(nl, p, [13] + t), p.win.(curx := 0);
      r.1 && r.0.win == Moved(w, |t|) &&
      (forall k: nat :: k < |t| ==>
        0 <= Moved(w, k).Cursor() < NR * NC && r.0.cells[Moved(w, k).Cursor()] == t[k] % 256 + Attr(w.attr)) &&
      (forall i :: 0 <= i < NR * NC && (forall k: nat :: k < |t| ==> Moved(w, k).Cursor() != i) ==>
        r.0.cells[i] == p.cells[i])
  {
    hide Advance, Moved, Room, Spaces, ClearLine, PutCell, Win.Cursor;
    assert ([13] + t)[1..] == t;
    TextFlows(nl, AddChar(nl, p, 13).0, t);
  }

  /** After a backspace on its line a character is replaced by the next one. */
  lemma BackOver(nl: bool, p: Pad, a: int, b: int)
    requires p.Ok() && Graphic(a % 256) && Graphic(b % 256) && p.win.curx + 1 < p.win.maxx
    ensures
      var r, w := AddString(nl, p, [a, 8, b]), p.win;
      r.1 && r.0.win == w.(curx := w.curx + 1) &&
      forall i :: 0 <= i < NR * NC ==>
        r.0.cells[i] == if i == w.Cursor() then b % 256 + Attr(w.attr) else p.cells[i]
  {
    hide Spaces, ClearLine;
    var q := AddChar(nl, p, a % 256);
    assert [a, 8, b][1..] == [8, b] && [8, b][1..] == [b] && [b][1..] == [];
    var m := AddChar(nl, q.0, 8);
    var n := AddChar(nl, m.0, b % 256);
    assert AddString(nl, n.0, []) == (n.0, true);
    assert AddString(nl, m.0, [b]) == AddString(nl, n.0, []);
    assert AddString(nl, q.0, [8, b]) == AddString(nl, m.0, [b]);
  }

  /** A backspace at column 0 and every other control character leave no trace in a text. */
  lemma NoTrace(nl: bool, p: Pad, s: seq<int>, c: int, t: seq<int>)
    requires p.Ok() && !Graphic(c % 256) && !(c % 256 in {9, 10, 13})
    requires c % 256 == 8 ==> AddString(nl, p, s).0.win.curx == 0
    ensures AddString(nl, p, s + [c] + t) == AddString(nl, p, s + t)
  {
    hide Spaces, ClearLine, PutCell;
    var q := AddString(nl, p, s);
    Append(nl, p, s, [c] + t);
    Append(nl, p, s, t);
    assert s + [c] + t == s + ([c] + t) && ([c] + t)[1..] == t;
    assert AddChar(nl, q.0, c % 256) == (q.0, true);
  }

  /** Reading a cell where a character was added gives that character and its standout. */
  lemma ReadBack(nl: bool, p: Pad, ch: int, c: int)
    requires p.Ok() && Graphic(ch % 256)
    ensures Reads(AddChar(nl, p, ch).0.cells[p.win.Cursor()], c) <==>
      c == ch % 256 + if p.win.attr || ch / 256 % 2 == 1 then 256 else 0
  {
    hide Spaces, ClearLine, Advance;
  }

  /** What is read from a cell, and it alone, puts the cell back, outside standout mode. */
  lemma PutBack(nl: bool, p: Pad, c: int)
    requires p.Ok() && !p.win.attr && 0 <= c < 512 && Drawable(p.cells[p.win.Cursor()]) && Graphic(c % 256)
    ensures AddChar(nl, p, c).0.cells == p.cells <==> Reads(p.cells[p.win.Cursor()], c)
  {
    hide Spaces, ClearLine, Advance;
    var i := p.win.Cursor();
    assert AddChar(nl, p, c).0.cells == p.cells[i := c % 256 + Attr(c / 256 % 2 == 1)];
    assert p.cells[i := p.cells[i]] == p.cells;
  }

  /** A tab that stays on its line moves to the next column that is a multiple of 8, and
      blanks the cells between. */
  lemma {:induction false} TabStop(p: Pad, n: nat)
    requires p.Ok() && p.win.curx + n < p.win.maxx
    ensures
      var r := Spaces(p, n);
      r.1 && r.0.win == p.win.(curx := p.win.curx + n) &&
      forall i :: 0 <= i < NR * NC ==>
        r.0.cells[i] == if p.win.Cursor() <= i < p.win.Cursor() + n then BLANK + Attr(p.win.attr) else p.cells[i]
    decreases n
  {
    if n > 0 { TabStop(PutCell(p, BLANK + Attr(p.win.attr)).0, n - 1); }
  }

  lemma TabColumn(nl: bool, p: Pad)
    requires p.Ok() && p.win.curx / 8 * 8 + 8 < p.win.maxx
    ensures
      var r := AddChar(nl, p, 9);
      r.1 && r.0.win == p.win.(curx := p.win.curx / 8 * 8 + 8)
  {
    TabStop(p, 8 - p.win.curx % 8);
  }

  /** Nothing outside the window changes. */
  ghost predicate OnlyIn(w: Win, before: Cells, after: Cells) {
    forall i :: 0 <= i < NR * NC && !InLines(w, 0, Row(i), Col(i)) ==> after[i] == before[i]
  }

  lemma OnlyInBoth(w: Win, v: Win, a: Cells, b: Cells, c: Cells)
    requires v == w.(cury := v.cury, curx := v.curx) && OnlyIn(w, a, b) && OnlyIn(v, b, c)
    ensures OnlyIn(w, a, c)
  {
  }

  lemma PutInWindow(p: Pad, c: int)
    requires p.Ok() && Drawable(c)
    ensures OnlyIn(p.win, p.cells, PutCell(p, c).0.cells)
    ensures var w := PutCell(p, c).0.win; w == p.win.(cury := w.cury, curx := w.curx)
  {
  }

  lemma {:induction false} SpacesInWindow(p: Pad, n: nat)
    requires p.Ok()
    ensures OnlyIn(p.win, p.cells, Spaces(p, n).0.cells)
    ensures var w := Spaces(p, n).0.win; w == p.win.(cury := w.cury, curx := w.curx)
    decreases n
  {
    if n > 0 {
      hide PutCell, OnlyIn;
      var c := BLANK + Attr(p.win.attr);
      PutInWindow(p, c);
      var q := PutCell(p, c);
      if q.1 {
        SpacesInWindow(q.0, n - 1);
        OnlyInBoth(p.win, q.0.win, p.cells, q.0.cells, Spaces(p, n).0.cells);
      }
    } else {
      assert Spaces(p, n) == (p, true);
    }
  }

  lemma CharInWindow(nl: bool, p: Pad, c: int)
    requires p.Ok()
    ensures OnlyIn(p.win, p.cells, AddChar(nl, p, c).0.cells)
    ensures var w := AddChar(nl, p, c).0.win; w == p.win.(cury := w.cury, curx := w.curx)
  {
    hide Spaces;
    if c % 256 == 9 { SpacesInWindow(p, 8 - p.win.curx % 8); }
  }

  /** Spaces, a character and a string put only what can be drawn on the screen. */
  lemma {:induction false} SpacesDraw(p: Pad, n: nat)
    requires p.Ok()
    ensures Draws(p.cells, Spaces(p, n).0.cells)
    decreases n
  {
    hide Advance;
    if n > 0 {
      var q := PutCell(p, BLANK + Attr(p.win.attr));
      if q.1 {
        SpacesDraw(q.0, n - 1);
        DrawsBoth(p.cells, q.0.cells, Spaces(q.0, n - 1).0.cells);
      }
    }
  }

  lemma CharDraws(nl: bool, p: Pad, c: int)
    requires p.Ok()
    ensures Draws(p.cells, AddChar(nl, p, c).0.cells)
  {
    hide Spaces, Advance;
    if c % 256 == 9 { SpacesDraw(p, 8 - p.win.curx % 8); }
  }

  lemma {:induction false} StringDraws(nl: bool, p: Pad, s: seq<int>)
    requires p.Ok()
    ensures Draws(p.cells, AddString(nl, p, s).0.cells)
    decreases |s|
  {
    assert Draws(p.cells, p.cells);
    hide AddChar, Draws;
    if s != [] {
      CharDraws(nl, p, s[0] % 256);
      var q := AddChar(nl, p, s[0] % 256);
      if q.1 {
        StringDraws(nl, q.0, s[1..]);
        DrawsBoth(p.cells, q.0.cells, AddString(nl, q.0, s[1..]).0.cells);
      }
    }
  }

  /** Whatever the text, only cells of the window change, and the window keeps its place. */
  lemma {:induction false} StringInWindow(nl: bool, p: Pad, s: seq<int>)
    requires p.Ok()
    ensures OnlyIn(p.win, p.cells, AddString(nl, p, s).0.cells)
    ensures var w := AddString(nl, p, s).0.win; w == p.win.(cury := w.cury, curx := w.curx)
    decreases |s|
  {
    if s != [] {
      hide AddChar, OnlyIn;
      CharInWindow(nl, p, s[0] % 256);
      var q := AddChar(nl, p, s[0] % 256);
      if q.1 {
        StringInWindow(nl, q.0, s[1..]);
        OnlyInBoth(p.win, q.0.win, p.cells, q.0.cells, AddString(nl, p, s).0.cells);
      }
    }
  }

  // ---- whole runs ----------------------------------------------------------------------

  /** The calls of a program. */
  datatype Call =
    | Init
    | End
    | New(nlines: int, ncols: int, begy: int, begx: int)
    | Delete(w: int)
    | Move(w: int, y: int, x: int)
    | Standout(w: int, on: bool)
    | Char(w: int, c: int)
    | String(w: int, s: seq<int>)
    | ToEol(w: int)
    | ToBottom(w: int)
    | EraseAll(w: int)
    | ClearAll(w: int)
    | Border(w: int, v: int, h: int)
    | Refresh(w: int)
    | Get(w: int, key: Key)
    | Echo(on: bool)
    | NewLines(on: bool)
    | Bell
  {
    predicate Draws() { Char? || String? || ToEol? || ToBottom? || EraseAll? || ClearAll? || Border? }

    predicate Sets() { New? || Delete? || Move? || Standout? || Echo? || NewLines? }
  }

  /** No addition overflows an `int`. */
  predicate Sensible(c: Call) { c.New? ==> c.nlines <= INT_MAX - NR && c.ncols <= INT_MAX - NC }

  /** Box characters can be drawn. */
  predicate Graphics(c: Call) { c.Border? ==> Drawable(BoxChar(c.v, '|')) && Drawable(BoxChar(c.h, '-')) }

  predicate Updates(c: Call) { c.Refresh? || c.Get? }

  datatype Key = Eof | Key(code: int)

  // ---- the library -------------------------------------------------------------------

  class Screen {
    const vi: array<int>
    const ph: array<int>
    var py: int
    var px: int
    var pa: bool
    var dr: bool
    var nm: bool
    var eo: bool
    var wins: seq<Win>

    /** The bytes sent, and the terminal that receives them. */
    ghost const dev: Device
    ghost const first: Term
    ghost var out: seq<int>
    ghost var term: Term

    ghost predicate Drawing()
      reads this`wins, vi
    {
      vi.Length == NR * NC && |wins| == 3 &&
      (forall w :: 0 <= w < 3 && wins[w].Opened() ==> wins[w].InBounds()) &&
      forall i :: 0 <= i < NR * NC ==> 0 <= vi[i] < 256
    }

    /** Every cell of the virtual screen can be drawn. */
    ghost predicate Drawables()
      reads vi
    {
      vi.Length == NR * NC && AllDrawable(vi[..])
    }

    /** `term` received the bytes sent. */
    ghost predicate Wire()
      reads this`out, this`term
    {
      term == After(dev, first, out)
    }

    /** What the library knows of the terminal. */
    ghost predicate Synced()
      reads this`term, this`py, this`px, this`pa, this`dr, ph
    {
      ph.Length == NR * NC && term.parser == Ground &&
      (0 <= py ==> 0 <= px && term.cursor == At(py, px)) &&
      (!dr ==> term.cells == ph[..] && term.standout == pa)
    }

    ghost predicate Valid()
      reads this, vi, ph
    {
      Drawing() && Wire() && vi != ph && ph.Length == NR * NC
    }

    /** The terminal is as the library knows it, and shows all that it is sent. */
    ghost predicate Good()
      reads this, vi, ph
    {
      Synced() && Drawables()
    }

    /** The terminal shows the virtual screen, without standout, with its cursor at the cursor
        of window `w`. */
    ghost predicate Shows(w: int)
      reads this, vi
    {
      0 <= w < |wins| && term.cells == vi[..] && !term.standout &&
      var v := wins[w];
      0 <= v.begy + v.cury && 0 <= v.begx + v.curx && term.cursor == At(v.begy + v.cury, v.begx + v.curx)
    }

    predicate Live(w: int)
      reads this
    {
      0 <= w < |wins| && wins[w].Opened()
    }

    ghost function PadOf(w: int): (p: Pad)
      reads this, vi
      requires Drawing() && Live(w)
      ensures p.Ok()
    {
      Pad(vi[..], wins[w])
    }

    /** The static data before the first call. */
    constructor (d: Device, t: Term)
      requires t.parser == Ground
      ensures Valid() && Good() && dr && out == [] && first == t && dev == d && term == t && fresh(vi) && fresh(ph)
    {
      var zero := Win(0, 0, 0, 0, 0, 0, false, false);
      vi, ph := new int[NR * NC](_ => BLANK), new int[NR * NC](_ => BLANK);
      py, px, pa, dr, nm, eo := -1, 0, false, true, true, true;
      wins := [zero, zero, zero];
      dev, first, out, term := d, t, [], t;
    }

    // ---- bytes to the terminal ---------------------------------------------------------

    method PutChar(c: int)
      requires Wire()
      modifies this`out, this`term
      ensures Wire() && out == old(out) + [c] && term == Feed(dev, old(term), c)
    {
      out, term := out + [c], Feed(dev, term, c);
      assert out[..|out| - 1] == old(out);
    }

    method Csi()
      requires Wire()
      modifies this`out, this`term
      ensures Wire() && old(out) <= out
      ensures old(term).parser == Ground ==> term == old(term).(parser := Control([0]))
    {
      hide Wire, Feed;
      FeedEscape(dev, term);
      PutChar(27);
      FeedBracket(dev, term);
      PutChar('[' as int);
    }

    /** A number in decimal: the terminal reads it back as its last parameter. */
    method PutNumber(n: int, ghost ps: seq<nat>)
      requires 0 <= n <= INT_MAX && Wire()
      modifies this`out, this`term
      ensures Wire() && old(out) <= out
      ensures old(term).parser == Control(ps + [0]) ==> term == old(term).(parser := Control(ps + [n]))
    {
      hide Wire, Feed;
      var b, i, v := new int[6], 0, n;
      if n == 0 {
        FeedDigit(dev, term, ps, 0, 0);
        PutChar('0' as int);
        return;
      }
      while v > 0
        invariant 0 <= i <= 5 && v == Tail(n, i) <= Tail(INT_MAX, i)
        invariant forall k: nat :: k < i ==> b[k] == '0' as int + Tail(n, k) % 10
        invariant Wire() && term == old(term) && out == old(out)
        decreases v
      {
        Five();
        b[i] := '0' as int + v % 10;
        v := v / 10;
        i := i + 1;
      }
      SendDigits(b, i, n, ps);
    }

    /** Sends the digits of `n` that `b` holds from the lowest, the `i` last ones. */
    method SendDigits(b: array<int>, i: nat, n: nat, ghost ps: seq<nat>)
      requires i <= b.Length && forall k: nat :: k < i ==> b[k] == '0' as int + Tail(n, k) % 10
      requires Wire()
      modifies this`out, this`term
      ensures Wire() && old(out) <= out
      ensures old(term).parser == Control(ps + [Tail(n, i)]) ==> term == old(term).(parser := Control(ps + [n]))
    {
      hide Wire, Feed;
      var j := i;
      while j > 0
        invariant 0 <= j <= i && Wire() && old(out) <= out
        invariant old(term).parser == Control(ps + [Tail(n, i)]) ==>
          term == old(term).(parser := Control(ps + [Tail(n, j)]))
      {
        FeedDigit(dev, term, ps, Tail(n, j), Tail(n, j - 1) % 10);
        j := j - 1;
        PutChar(b[j]);
      }
    }

    /** Moves the terminal's cursor. */
    method GoTo(y: int, x: int)
      requires 0 <= y < NR && 0 <= x < NC && Wire()
      modifies this`out, this`term, this`py, this`px
      ensures Wire() && old(out) <= out && py == y && px == x
      ensures old(term).parser == Ground ==> term == old(term).(cursor := At(y, x))
    {
      hide Wire, Feed;
      Csi();
      assert [] + [0] == [0] && [] + [y + 1] == [y + 1];
      PutNumber(y + 1, []);
      FeedNext(dev, term, [y + 1]);
      PutChar(';' as int);
      PutNumber(x + 1, [y + 1]);
      assert [y + 1] + [x + 1] == [y + 1, x + 1];
      FeedGoTo(dev, term, y, x);
      PutChar('H' as int);
      py, px := y, x;
    }

    method SetStandout(a: bool)
      requires Wire()
      modifies this`out, this`term, this`pa
      ensures Wire() && old(out) <= out && pa == a
      ensures old(term).parser == Ground ==> term == old(term).(standout := a)
    {
      hide Wire, Feed;
      Csi();
      assert [] + [0] == [0];
      FeedDigit(dev, term, [], 0, if a then 7 else 0);
      PutChar(if a then '7' as int else '0' as int);
      FeedRendition(dev, term, a);
      PutChar('m' as int);
      pa := a;
    }

    // ---- refresh -----------------------------------------------------------------------

    /** Clears the terminal. */
    method Repaint()
      requires Valid()
      modifies this`out, this`term, this`py, this`pa, this`dr, ph
      ensures Valid() && !dr && ph[..] == Erased() && old(out) <= out
      ensures old(Synced()) ==> Synced() && term.writes == old(term.writes)
    {
      hide Wire, Feed;
      Csi();
      assert [] + [0] == [0] && [] + [2] == [2];
      FeedDigit(dev, term, [], 0, 2);
      PutChar('2' as int);
      FeedErase(dev, term);
      PutChar('J' as int);
      SetStandout(false);
      ghost var t := term;
      for i := 0 to NR * NC
        invariant forall k :: 0 <= k < i ==> ph[k] == BLANK
        invariant Drawing() && Wire() && term == t && !pa && old(out) <= out
      {
        ph[i] := BLANK;
      }
      assert ph[..] == Erased();
      py, dr := -1, false;
    }

    /** Has the cursor and the standout of the terminal as the cell at `(y, x)` needs them. */
    method Aim(y: int, x: int, a: bool)
      requires Wire() && 0 <= y < NR && 0 <= x < NC
      modifies this`out, this`term, this`py, this`px, this`pa
      ensures Wire() && old(out) <= out && py == y && px == x && pa == a
      ensures old(term.parser == Ground && (0 <= py ==> 0 <= px && term.cursor == At(py, px)) &&
                  term.standout == pa) ==>
        term == old(term).(cursor := At(y, x), standout := a)
    {
      hide Wire, Feed;
      if py != y || px != x { GoTo(y, x); }
      if a != pa { SetStandout(a); }
    }

    /** Draws the character of cell `c` at the cursor, and follows the cursor. */
    method DrawHere(y: int, x: int, c: int)
      requires Wire() && 0 <= y < NR && 0 <= x < NC && py == y && px == x && 0 <= c < 256
      modifies this`out, this`term, this`py, this`px
      ensures Wire() && old(out) <= out
      ensures
        var t := old(term);
        t.parser == Ground && t.cursor == At(y, x) && t.standout == (c >= 128) && Drawable(c) ==>
          term.parser == Ground && term.cells == t.cells[y * NC + x := c] && term.standout == t.standout &&
          term.writes == t.writes + 1 && (0 <= py ==> 0 <= px && term.cursor == At(py, px))
    {
      hide Wire, Feed;
      ghost var t := term;
      if t.parser == Ground && t.cursor == At(y, x) && Drawable(c) { FeedGraphic(dev, t, c % 128, y, x); }
      PutChar(c % 128);
      px := px + 1;
      if px >= NC { py := -1; }
    }

    /** Sends the cell at `(y, x)`. */
    method SendCell(y: int, x: int)
      requires Valid() && !dr && 0 <= y < NR && 0 <= x < NC
      modifies this`out, this`term, this`py, this`px, this`pa, ph
      ensures Valid() && old(out) <= out
      ensures old(Synced()) && Drawable(vi[y * NC + x]) ==> Synced() && term.writes == old(term.writes) + 1
      ensures ph[..] == old(ph[..])[y * NC + x := vi[y * NC + x]]
    {
      var i := y * NC + x;
      assert 0 <= i < vi.Length == ph.Length && 0 <= vi[i] < 256;
      hide Wire, Feed, Drawing, Drawable;
      var c := vi[i];
      Aim(y, x, c >= 128);
      DrawHere(y, x, c);
      ph[i] := c;
    }

    /** The first `n` cells are sent. When `ok`, those of `was` that differ were drawn; if none
        does, nothing changed since `start`. */
    ghost predicate Sent(n: int, was: Cells, start: (seq<int>, Term, int, int, bool), ok: bool)
      reads vi, ph, this`out, this`term, this`py, this`px, this`pa, this`dr
    {
      vi.Length == ph.Length == NR * NC && 0 <= n <= NR * NC && start.0 <= out &&
      (forall k :: 0 <= k < NR * NC ==> ph[k] == if k < n then vi[k] else was[k]) &&
      (ok ==> Synced() && Sendable(was, vi[..]) && term.writes == start.1.writes + Differ(vi[..], was, n)) &&
      (Differ(vi[..], was, n) == 0 ==> (out, term, py, px, pa) == start)
    }

    method SendIfChanged(y: int, x: int, ghost was: Cells, ghost start: (seq<int>, Term, int, int, bool),
                         ghost ok: bool)
      requires Valid() && !dr && 0 <= y < NR && 0 <= x < NC && Sent(y * NC + x, was, start, ok)
      modifies this`out, this`term, this`py, this`px, this`pa, ph
      ensures Valid() && Sent(y * NC + x + 1, was, start, ok)
    {
      var i := y * NC + x;
      assert ph[i] == was[i] && vi[..][i] == vi[i];
      hide Wire, Drawable, Drawing;
      if vi[i] != ph[i] { SendCell(y, x); }
    }

    /** Sends the cells that differ from the terminal's: as many characters are drawn as there
        are such cells, when they can be drawn, and when there are none nothing is sent. */
    method SendChanged()
      requires Valid() && !dr
      modifies this`out, this`term, this`py, this`px, this`pa, ph
      ensures Valid() && ph[..] == vi[..] && old(out) <= out
      ensures old(Synced()) && Sendable(old(ph[..]), vi[..]) ==>
        Synced() && term.writes == old(term.writes) + Differ(vi[..], old(ph[..]), NR * NC)
      ensures vi[..] == old(ph[..]) ==>
        out == old(out) && term == old(term) && py == old(py) && px == old(px) && pa == old(pa)
    {
      ghost var was, start, ok := ph[..], (out, term, py, px, pa), Synced() && Sendable(ph[..], vi[..]);
      NoDiffer(vi[..], was, NR * NC);
      assert Sent(0, was, start, ok);
      {
        hide Sent, Drawing, Synced, Wire;
        var y := 0;
        while y < NR
          invariant 0 <= y <= NR && Valid() && !dr && Sent(y * NC, was, start, ok)
        {
          var x := 0;
          while x < NC
            invariant 0 <= x <= NC && Valid() && !dr && Sent(y * NC + x, was, start, ok)
          {
            SendIfChanged(y, x, was, start, ok);
            x := x + 1;
          }
          y := y + 1;
        }
      }
    }

    /** What the terminal is taken to show before a refresh sends its cells. */
    ghost function Base(): Cells
      reads this`dr, ph
      requires ph.Length == NR * NC
    {
      if dr then Erased() else ph[..]
    }

    /** Refreshes: when every cell that it sends can be drawn, the terminal then shows the
        virtual screen, with its cursor at the cursor of window `w`; as many characters are drawn
        as there are cells that differ, and nothing is sent when the terminal is already right.
        When some cell cannot, a device that draws nothing of its own does not show the screen. */
    method Refresh(w: int)
      requires Valid() && Live(w)
      modifies this`out, this`term, this`py, this`px, this`pa, this`dr, ph
      ensures Valid() && !dr && 0 <= py && ph[..] == vi[..]
      ensures old(Synced()) && Sendable(old(Base()), vi[..]) ==>
        Synced() && Shows(w) && term.writes == old(term.writes) + Differ(vi[..], old(Base()), NR * NC)
      ensures old(Synced()) && Keeps(dev) && !Sendable(old(Base()), vi[..]) ==> !Shows(w)
      ensures old(Synced() && Shows(w)) && !old(dr) && old(py) >= 0 ==> out == old(out)
    {
      assert vi.Length == ph.Length == NR * NC;
      hide Wire, Feed, Drawing, Differ, Sendable;
      if dr { Repaint(); }
      assert ph[..] == old(Base());
      ghost var sent, shown := out, term;
      SendChanged();
      Park(w);
      if old(Synced()) && Keeps(dev) && !Sendable(old(Base()), vi[..]) { StillUnlike(sent, shown); }
    }

    /** Standout off, and the cursor at that of window `w`. */
    method Park(w: int)
      requires Valid() && Live(w) && !dr
      modifies this`out, this`term, this`py, this`px, this`pa
      ensures Valid() && old(out) <= out && 0 <= py
      ensures old(Synced()) && ph[..] == vi[..] ==> Synced() && Shows(w) && term.writes == old(term.writes)
      ensures old(Synced() && Shows(w)) && old(py) >= 0 ==> out == old(out)
    {
      assert wins[w].InBounds();
      hide Wire, Feed, Drawing;
      if pa { SetStandout(false); }
      var v := wins[w];
      if py != v.begy + v.cury || px != v.begx + v.curx { GoTo(v.begy + v.cury, v.begx + v.curx); }
    }

    /** A cell that cannot be drawn and was not there before `sent` is not there now. */
    lemma StillUnlike(sent: seq<int>, shown: Term)
      requires Wire() && shown == After(dev, first, sent) && sent <= out && vi.Length == NR * NC
      requires Keeps(dev) && !Sendable(shown.cells, vi[..])
      ensures term.cells != vi[..]
    {
      hide After;
      var i :| 0 <= i < NR * NC && vi[..][i] != shown.cells[i] && !Drawable(vi[..][i]);
      NotDrawn(dev, first, sent, out, i, vi[..][i]);
    }

    // ---- windows -----------------------------------------------------------------------

    method InitScreen() returns (w: int)
      requires Valid()
      modifies this`wins, this`dr, this`py, vi
      ensures Valid() && w == 0 && Live(0) && dr && vi[..] == Erased() && Drawables()
      ensures old(Synced()) ==> Synced()
      ensures wins[0] == Win(0, 0, 0, 0, NR, NC, false, true)
      ensures forall k :: 1 <= k < 3 ==> wins[k] == old(wins[k]).(used := false)
    {
      wins := [Win(0, 0, 0, 0, NR, NC, false, true), wins[1].(used := false), wins[2].(used := false)];
      ghost var ws := wins;
      for i := 0 to NR * NC
        invariant forall k :: 0 <= k < i ==> vi[k] == BLANK
        invariant Drawing() && wins == ws
      {
        vi[i] := BLANK;
      }
      assert vi[..] == Erased();
      dr, py := true, -1;
      w := 0;
    }

    method EndScreen()
      requires Valid()
      modifies this`out, this`term, this`py, this`px, this`pa, this`dr
      ensures Valid() && dr
      ensures old(Synced()) ==> Synced()
    {
      hide Wire, Feed;
      GoTo(NR - 1, 0);
      SetStandout(false);
      FeedOther(dev, term, 10);
      PutChar(10);
      py, dr := -1, true;
    }

    /** A new window, when one is free and it lies on the screen; a size of 0 or less reaches
        the edge of the screen. */
    method NewWindow(nlines: int, ncols: int, begy: int, begx: int) returns (r: Option<int>)
      requires Valid() && nlines <= INT_MAX - NR && ncols <= INT_MAX - NC
      modifies this`wins
      ensures Valid()
      ensures
        var h, v := if nlines <= 0 then NR - begy else nlines, if ncols <= 0 then NC - begx else ncols;
        r.Some? ==
          (0 <= begy < NR && 0 <= begx < NC && begy + h <= NR && begx + v <= NC &&
           !old(wins[1].used && wins[2].used)) &&
        (r.Some? ==> 1 <= r.value < 3 && !old(wins)[r.value].used && Live(r.value)) &&
        (r.Some? ==> wins == old(wins)[r.value := Win(0, 0, begy, begx, h, v, false, true)])
      ensures r.None? ==> wins == old(wins)
    {
      if begy < 0 || begx < 0 || begy >= NR || begx >= NC { return None; }
      var h, v := nlines, ncols;
      if h <= 0 { h := NR - begy; }
      if v <= 0 { v := NC - begx; }
      if begy + h > NR || begx + v > NC { return None; }
      for i := 1 to 3
        invariant wins == old(wins) && forall k :: 1 <= k < i ==> wins[k].used
      {
        if !wins[i].used {
          wins := wins[i := Win(0, 0, begy, begx, h, v, false, true)];
          return Some(i);
        }
      }
      r := None;
    }

    method DeleteWindow(w: Option<int>) returns (ok: bool)
      requires Valid() && (w.Some? ==> 0 <= w.value < 3)
      modifies this`wins
      ensures Valid() && ok == (w.Some? && w.value != 0)
      ensures wins == if ok then old(wins)[w.value := old(wins)[w.value].(used := false)] else old(wins)
    {
      if w.None? || w.value == 0 { return false; }
      wins := wins[w.value := wins[w.value].(used := false)];
      ok := true;
    }

    method MoveCursor(w: int, y: int, x: int) returns (ok: bool)
      requires Valid() && Live(w)
      modifies this`wins
      ensures Valid() && ok == (0 <= y < old(wins)[w].maxy && 0 <= x < old(wins)[w].maxx)
      ensures wins == if ok then old(wins)[w := old(wins)[w].(cury := y, curx := x)] else old(wins)
    {
      if y < 0 || x < 0 || y >= wins[w].maxy || x >= wins[w].maxx { return false; }
      wins := wins[w := wins[w].(cury := y, curx := x)];
      ok := true;
    }

    method SetAttr(w: int, on: bool)
      requires Valid() && Live(w)
      modifies this`wins
      ensures Valid() && wins == old(wins)[w := old(wins)[w].(attr := on)]
    {
      wins := wins[w := wins[w].(attr := on)];
    }

    // ---- drawing -----------------------------------------------------------------------

    /** Blanks the cells `x..` of line `y` of window `w`. */
    method BlankLine(w: int, y: int, from: int)
      requires Valid() && Live(w) && 0 <= y < wins[w].maxy && 0 <= from
      modifies vi
      ensures Valid() && vi[..] == Blanked(old(vi[..]), wins[w].Index(y, from), wins[w].Index(y, wins[w].maxx))
    {
      var v := wins[w];
      var x := from;
      while x < v.maxx
        invariant from <= x && (x <= v.maxx || x == from)
        invariant Valid()
        invariant vi[..] == Blanked(old(vi[..]), v.Index(y, from), v.Index(y, x))
      {
        vi[v.Index(y, x)] := BLANK;
        x := x + 1;
      }
    }

    method ClearToEnd(w: int)
      requires Valid() && Live(w)
      modifies vi
      ensures Valid() && vi[..] == ClearLine(old(PadOf(w))).cells && Draws(old(vi[..]), vi[..])
    {
      BlankLine(w, wins[w].cury, wins[w].curx);
    }

    /** Blanks the lines `top..` of window `w`, and nothing else. */
    method BlankLines(w: int, top: int)
      requires Valid() && Live(w) && 0 <= top <= wins[w].maxy
      modifies vi
      ensures Valid()
      ensures vi[..] == BlankBelow(old(vi[..]), wins[w], top, 0)
    {
      var v := wins[w];
      var y := top;
      while y < v.maxy
        invariant top <= y <= v.maxy && Valid()
        invariant forall i :: 0 <= i < NR * NC ==>
          vi[i] == (if InLines(v, top, Row(i), Col(i)) && Row(i) < v.begy + y then BLANK else old(vi[i]))
      {
        ghost var was := vi[..];
        BlankLine(w, y, 0);
        forall i | 0 <= i < NR * NC
          ensures vi[i] == if Row(i) == v.begy + y && v.begx <= Col(i) < v.begx + v.maxx then BLANK else was[i]
        {
          assert vi[..][i] == vi[i];
        }
        y := y + 1;
      }
      assert vi[..] == BlankBelow(old(vi[..]), v, top, 0);
    }

    /** Clears from the cursor to the end of the window. */
    method ClearToBottom(w: int)
      requires Valid() && Live(w)
      modifies vi
      ensures Valid()
      ensures vi[..] == BlankBelow(old(vi[..]), wins[w], wins[w].cury, wins[w].curx) && Draws(old(vi[..]), vi[..])
    {
      ClearToEnd(w);
      BlankLines(w, wins[w].cury + 1);
    }

    method Erase(w: int)
      requires Valid() && Live(w)
      modifies vi, this`wins
      ensures Valid() && wins == old(wins)[w := old(wins)[w].(cury := 0, curx := 0)]
      ensures vi[..] == BlankBelow(old(vi[..]), wins[w], 0, 0) && Draws(old(vi[..]), vi[..])
    {
      BlankLines(w, 0);
      wins := wins[w := wins[w].(cury := 0, curx := 0)];
    }

    /** Erases the window, and has the next refresh repaint the terminal. */
    method Clear(w: int)
      requires Valid() && Live(w)
      modifies vi, this`wins, this`dr
      ensures Valid() && dr && wins == old(wins)[w := old(wins)[w].(cury := 0, curx := 0)]
      ensures vi[..] == BlankBelow(old(vi[..]), wins[w], 0, 0) && Draws(old(vi[..]), vi[..])
    {
      Erase(w);
      dr := true;
    }

    /** Adds one character at the cursor. */
    method AddCh(w: int, ch: int) returns (ok: bool)
      requires Valid() && Live(w)
      modifies vi, this`wins
      ensures Valid() && Live(w)
      ensures var r := AddChar(nm, old(PadOf(w)), ch); PadOf(w) == r.0 && ok == r.1 && wins == old(wins)[w := r.0.win]
      decreases if ch % 256 == 9 then 1 else 0, 1
    {
      hide Synced, Spaces, PutCell, Draws, Advance;
      var so := wins[w].attr;
      if ch / 256 % 2 == 1 { so := true; }
      var c := ch % 256;
      if c == 10 {
        ClearToEnd(w);
        if wins[w].cury + 1 >= wins[w].maxy { return false; }
        wins := wins[w := wins[w].(cury := wins[w].cury + 1)];
        if nm { wins := wins[w := wins[w].(curx := 0)]; }
        return true;
      }
      if c == 13 {
        wins := wins[w := wins[w].(curx := 0)];
        return true;
      }
      if c == 8 {
        if wins[w].curx > 0 { wins := wins[w := wins[w].(curx := wins[w].curx - 1)]; }
        return true;
      }
      if c == 9 {
        ok := Tab(w);
        return;
      }
      if c < 32 || c > 126 { return true; }
      ok := Put(w, c + Attr(so));
    }

    method Tab(w: int) returns (ok: bool)
      requires Valid() && Live(w)
      modifies vi, this`wins
      ensures Valid() && Live(w)
      ensures var p := old(PadOf(w)); var r := Spaces(p, 8 - p.win.curx % 8);
        PadOf(w) == r.0 && ok == r.1 && wins == old(wins)[w := r.0.win]
      decreases 1, 0
    {
      hide Synced, Drawing, AddChar, Spaces, PutCell, Pad.Ok;
      var n := 8 - wins[w].curx % 8;
      ghost var p, m := PadOf(w), n;
      while n > 0
        invariant Valid() && Live(w) && 0 <= n && wins == old(wins)[w := wins[w]]
        invariant Spaces(p, m) == Spaces(PadOf(w), n)
        decreases n
      {
        SpacesStep(nm, PadOf(w), n);
        var more := AddCh(w, BLANK);
        if !more { return false; }
        n := n - 1;
      }
      SpacesStep(nm, PadOf(w), 0);
      ok := true;
    }

    /** Writes a cell at the cursor and moves on. */
    method Put(w: int, c: int) returns (ok: bool)
      requires Valid() && Live(w) && Drawable(c)
      modifies vi, this`wins
      ensures Valid() && Live(w)
      ensures var r := PutCell(old(PadOf(w)), c); PadOf(w) == r.0 && ok == r.1 && wins == old(wins)[w := r.0.win]
    {
      hide Synced;
      vi[wins[w].Cursor()] := c;
      wins := wins[w := wins[w].(curx := wins[w].curx + 1)];
      if wins[w].curx >= wins[w].maxx {
        if wins[w].cury + 1 >= wins[w].maxy {
          wins := wins[w := wins[w].(curx := wins[w].maxx - 1)];
          assert wins == old(wins)[w := wins[w]];
          return false;
        }
        wins := wins[w := wins[w].(curx := 0, cury := wins[w].cury + 1)];
      }
      ok := true;
    }

    /** Adds a string: the characters up to the first that reports the end of the window. */
    method AddStr(w: int, s: seq<int>) returns (ok: bool)
      requires Valid() && Live(w)
      modifies vi, this`wins
      ensures Valid() && Live(w)
      ensures var r := AddString(nm, old(PadOf(w)), s); PadOf(w) == r.0 && ok == r.1 && wins == old(wins)[w := r.0.win]
    {
      var k := 0;
      while k < |s|
        invariant 0 <= k <= |s| && Valid() && Live(w) && wins == old(wins)[w := wins[w]]
        invariant AddString(nm, old(PadOf(w)), s) == AddString(nm, PadOf(w), s[k..])
      {
        var more := AddCh(w, s[k] % 256);
        assert s[k..][1..] == s[k + 1..];
        if !more { return false; }
        k := k + 1;
      }
      ok := true;
    }

    /** The character under the cursor, with its standout bit. */
    method InCh(w: int) returns (c: int)
      requires Valid() && Live(w)
      ensures Reads(PadOf(w).cells[wins[w].Cursor()], c)
    {
      var k := vi[wins[w].Cursor()];
      c := k % 128 + if k >= 128 then 256 else 0;
    }

    /** Draws the border of window `w`. */
    method Box(w: int, v: int, h: int)
      requires Valid() && Live(w)
      modifies vi
      ensures Valid()
      ensures forall i :: 0 <= i < NR * NC ==>
        vi[i] == BoxCell(wins[w], BoxChar(v, '|'), BoxChar(h, '-'), Row(i), Col(i), old(vi[i]))
      ensures BoxDraws(wins[w], v, h) ==> Draws(old(vi[..]), vi[..])
      ensures !BoxDraws(wins[w], v, h) ==> !Drawables()
    {
      var k := wins[w];
      ghost var was := vi[..];
      HorizontalSides(k, if h == 0 then '-' as int else h);
      VerticalSides(k, if v == 0 then '|' as int else v);
      Corners(k);
      forall i | 0 <= i < NR * NC
        ensures vi[..][i] == BoxCell(k, BoxChar(v, '|'), BoxChar(h, '-'), Row(i), Col(i), was[i])
      {
        assert vi[..][i] == vi[i];
      }
      BoxDrawn(k, v, h, was, vi[..]);
    }

    method Corners(k: Win)
      requires Drawing() && k.Opened() && k.InBounds()
      modifies vi
      ensures Drawing()
      ensures forall i :: 0 <= i < NR * NC ==>
        vi[i] ==
          (if (Row(i) == k.begy || Row(i) == k.begy + k.maxy - 1) && (Col(i) == k.begx || Col(i) == k.begx + k.maxx - 1)
                  then '+' as int else old(vi[i]))
    {
      vi[k.Index(0, 0)] := '+' as int;
      vi[k.Index(0, k.maxx - 1)] := '+' as int;
      vi[k.Index(k.maxy - 1, 0)] := '+' as int;
      vi[k.Index(k.maxy - 1, k.maxx - 1)] := '+' as int;
    }

    method HorizontalSides(k: Win, h: int)
      requires Drawing() && k.Opened() && k.InBounds()
      modifies vi
      ensures Drawing()
      ensures forall i :: 0 <= i < NR * NC ==>
        vi[i] ==
          (if (Row(i) == k.begy || Row(i) == k.begy + k.maxy - 1) &&
           k.begx + 1 <= Col(i) < k.begx + k.maxx - 1 then h % 256 else old(vi[i]))
    {
      var x := 1;
      while x < k.maxx - 1
        invariant 1 <= x && (x == 1 || x <= k.maxx - 1) && Drawing()
        invariant forall i :: 0 <= i < NR * NC ==>
          vi[i] ==
            (if (Row(i) == k.begy || Row(i) == k.begy + k.maxy - 1) &&
             k.begx + 1 <= Col(i) < k.begx + x then h % 256 else old(vi[i]))
      {
        vi[k.Index(0, x)] := h % 256;
        vi[k.Index(k.maxy - 1, x)] := h % 256;
        x := x + 1;
      }
    }

    method VerticalSides(k: Win, v: int)
      requires Drawing() && k.Opened() && k.InBounds()
      modifies vi
      ensures Drawing()
      ensures forall i :: 0 <= i < NR * NC ==>
        vi[i] ==
          (if (Col(i) == k.begx || Col(i) == k.begx + k.maxx - 1) &&
           k.begy + 1 <= Row(i) < k.begy + k.maxy - 1 then v % 256 else old(vi[i]))
    {
      var y := 1;
      while y < k.maxy - 1
        invariant 1 <= y && (y == 1 || y <= k.maxy - 1) && Drawing()
        invariant forall i :: 0 <= i < NR * NC ==>
          vi[i] ==
            (if (Col(i) == k.begx || Col(i) == k.begx + k.maxx - 1) &&
             k.begy + 1 <= Row(i) < k.begy + y then v % 256 else old(vi[i]))
      {
        vi[k.Index(y, 0)] := v % 256;
        vi[k.Index(y, k.maxx - 1)] := v % 256;
        y := y + 1;
      }
    }

    /** Refreshes, then reads a key and echoes it. */
    method GetCh(w: int, key: Key) returns (c: Option<int>)
      requires Valid() && Live(w)
      modifies vi, this`wins, this`out, this`term, this`py, this`px, this`pa, this`dr, ph
      ensures Valid() && Live(w) && !dr
      ensures old(Synced()) && Sendable(old(Base()), old(vi[..])) ==> Synced() && Shows(w)
      ensures Draws(old(vi[..]), vi[..])
      ensures c == if key.Eof? then None else Some(key.code % 256)
      ensures
        var echo := key.Key? && eo;
        PadOf(w) == if echo then AddChar(nm, old(PadOf(w)), key.code % 256).0 else old(PadOf(w))
      ensures wins == old(wins)[w := wins[w]]
    {
      assert Draws(vi[..], vi[..]) && Sendable(vi[..], vi[..]);
      hide Drawing, Synced, Wire, Draws, Sendable, Shows, Pad.Ok;
      Refresh(w);
      if key.Eof? { return None; }
      var k := key.code % 256;
      if eo {
        CharDraws(nm, PadOf(w), k);
        var _ := AddCh(w, k);
        DrawsSends(ph[..], vi[..]);
        Refresh(w);
      }
      c := Some(k);
    }

    method Beep()
      requires Valid()
      modifies this`out, this`term
      ensures Valid() && (old(term).parser == Ground ==> term == old(term))
    {
      FeedEscape(dev, term);
      PutChar(7);
    }

    // ---- a run -------------------------------------------------------------------------

    /** One call; a call on a window that was never set up is not made. */
    method Do(c: Call)
      requires Valid() && Sensible(c)
      modifies this, vi, ph
      ensures Valid()
      ensures old(Good()) && (c.Border? && old(Live(c.w)) ==> BoxDraws(old(wins[c.w]), c.v, c.h)) ==>
        Good() && (Updates(c) && Live(c.w) ==> Shows(c.w))
    {
      assert vi.Length == ph.Length == NR * NC && vi != ph;
      AllSendable(Base(), vi[..]);
      hide Synced, Drawing, Shows, Wire, Draws, AllDrawable, Sendable;
      ghost var was := vi[..];
      if c.Draws() {
        DrawCall(c);
      } else if c.Sets() {
        SetCall(c);
      } else {
        match c
        case Init => var _ := InitScreen();
        case End => EndScreen();
        case Bell => Beep();
        case Refresh(w) => if Live(w) { Refresh(w); }
        case Get(w, key) =>
          if Live(w) {
            var _ := GetCh(w, key);
            DrawnStill(was, vi[..]);
          }
        case _ =>
      }
    }

    /** A call that changes windows or settings alone. */
    method SetCall(c: Call)
      requires Valid() && Sensible(c)
      modifies this`wins, this`nm, this`eo
      ensures Valid()
    {
      hide Synced, Wire, Live;
      match c
      case New(n, m, y, x) => var _ := NewWindow(n, m, y, x);
      case Echo(on) => eo := on;
      case NewLines(on) => nm := on;
      case Delete(w) => if 0 <= w < 3 { var _ := DeleteWindow(Some(w)); }
      case Move(w, y, x) => if Live(w) { var _ := MoveCursor(w, y, x); }
      case Standout(w, on) => if Live(w) { SetAttr(w, on); }
      case _ =>
    }

    /** A call that draws on the virtual screen. */
    method DrawCall(c: Call)
      requires Valid()
      modifies vi, this`wins, this`dr
      ensures Valid() && (dr || dr == old(dr))
      ensures old(Drawables()) && (c.Border? && old(Live(c.w)) ==> BoxDraws(old(wins[c.w]), c.v, c.h)) ==> Drawables()
    {
      assert vi.Length == NR * NC;
      hide Synced, Drawing, Wire, Draws, AllDrawable, BlankBelow;
      ghost var was := vi[..];
      ghost var drew := true;
      match c {
        case Char(w, k) =>
          if Live(w) {
            CharDraws(nm, PadOf(w), k);
            var _ := AddCh(w, k);
          }
        case String(w, s) =>
          if Live(w) {
            StringDraws(nm, PadOf(w), s);
            var _ := AddStr(w, s);
          }
        case ToEol(w) => if Live(w) { ClearToEnd(w); }
        case ToBottom(w) => if Live(w) { ClearToBottom(w); }
        case EraseAll(w) => if Live(w) { Erase(w); }
        case ClearAll(w) => if Live(w) { Clear(w); }
        case Border(w, v, h) =>
          if Live(w) {
            drew := BoxDraws(wins[w], v, h);
            Box(w, v, h);
          }
        case _ =>
      }
      if drew { DrawnStill(was, vi[..]); }
    }

    /** Any sequence of calls, and so each beginning of one: a call that refreshes leaves the
        terminal showing the virtual screen. */
    method Run(calls: seq<Call>)
      requires Valid() && forall k :: 0 <= k < |calls| ==> Sensible(calls[k])
      modifies this, vi, ph
      ensures Valid()
      ensures old(Good()) && (forall k :: 0 <= k < |calls| ==> Graphics(calls[k])) ==>
        Good() &&
        (calls != [] && Updates(calls[|calls| - 1]) && Live(calls[|calls| - 1].w) ==> Shows(calls[|calls| - 1].w))
    {
      hide Drawing, Synced, Shows;
      ghost var ok := Good() && forall k :: 0 <= k < |calls| ==> Graphics(calls[k]);
      for n := 0 to |calls|
        invariant Valid() && (ok ==> Good())
        invariant ok && n > 0 && Updates(calls[n - 1]) && Live(calls[n - 1].w) ==> Shows(calls[n - 1].w)
      {
        Do(calls[n]);
      }
    }

    /** A box on a screen that could be drawn, then a refresh: on a device that draws nothing of
        its own the terminal shows the screen exactly when the box has graphic characters alone. */
    method BoxThenRefresh(w: int, v: int, h: int)
      requires Valid() && Live(w) && Good() && AllDrawable(Base())
      modifies vi, ph, this`out, this`term, this`py, this`px, this`pa, this`dr
      ensures Valid() && !dr && ph[..] == vi[..]
      ensures forall i :: 0 <= i < NR * NC ==>
        vi[i] == BoxCell(wins[w], BoxChar(v, '|'), BoxChar(h, '-'), Row(i), Col(i), old(vi[i]))
      ensures BoxDraws(old(wins[w]), v, h) ==> Good() && Shows(w)
      ensures !BoxDraws(old(wins[w]), v, h) && Keeps(dev) ==> !Shows(w)
    {
      hide Synced, Drawing, Shows;
      Box(w, v, h);
      Refresh(w);
    }
  }

  /** A box with sides of character 1 around the whole screen is drawn on the virtual screen and
      refreshed, and the terminal does not show it. */
  method BoxNotShown(d: Device, t: Term) returns (s: Screen)
    requires Keeps(d) && t.parser == Ground
    ensures fresh(s) && s.Valid() && s.Live(0) && s.dev == d && s.first == t
    ensures s.wins[0] == Win(0, 0, 0, 0, NR, NC, false, true)
    ensures forall i :: 0 <= i < NR * NC ==> s.vi[i] == BoxCell(s.wins[0], 1, '-' as int, Row(i), Col(i), BLANK)
    ensures !s.dr && s.ph[..] == s.vi[..] && !s.Shows(0)
  {
    s := new Screen(d, t);
    var w := s.InitScreen();
    assert forall i :: 0 <= i < NR * NC ==> s.vi[i] == s.vi[..][i] == BLANK;
    hide BoxCell, Screen.Drawing, Screen.Synced, Screen.Shows, Screen.Wire, Screen.Base, Row, Col, Keeps;
    s.BoxThenRefresh(w, 1, 0);
  }
}
