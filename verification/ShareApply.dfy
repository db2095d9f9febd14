/** Sharing one key over all its runs in a block: the edited block, and the runs of the function
    that holds it. */
module ShareApply {
  import opened Wrappers
  import opened CLang
  import opened Frames
  import opened DeadLocals
  import opened AddrShare
  import opened ShareRuns

  // ---- every occurrence replaced -----------------------------------------------------------------

  /** `e` with every occurrence of the key replaced by a use of the pointer. */
  function Replace(sh: Share, e: Expr): Expr
    decreases e, 1
  {
    if Occurs(sh, e).Some? then UseOf(sh, Occurs(sh, e).value)
    else
      match e
      case Un(op, a) => Un(op, Replace(sh, a))
      case Bin(op, a, b) => Bin(op, Replace(sh, a), Replace(sh, b))
      case Logic(k, a, b) => Logic(k, Replace(sh, a), Replace(sh, b))
      case Cond(c, a, b) => Cond(Replace(sh, c), Replace(sh, a), Replace(sh, b))
      case Cast(ty, a) => Cast(ty, Replace(sh, a))
      case Deref(a, v) => Deref(Replace(sh, a), v)
      case AddrOf(a) => AddrOf(Replace(sh, a))
      case Index(a, i, size, arr, v) => Index(Replace(sh, a), Replace(sh, i), size, arr, v)
      case Member(a, off, arr, v) => Member(Replace(sh, a), off, arr, v)
      case Assign(op, l, r) => Assign(op, Replace(sh, l), Replace(sh, r))
      case IncDec(p, i, l) => IncDec(p, i, Replace(sh, l))
      case Comma(a, b) => Comma(Replace(sh, a), Replace(sh, b))
      case Call(f, args) => Call(f, ReplaceArgs(sh, args))
      case _ => e
  }

  function ReplaceArgs(sh: Share, es: seq<Expr>): seq<Expr>
    decreases es, 0
  {
    if es == [] then [] else [Replace(sh, es[0])] + ReplaceArgs(sh, es[1..])
  }

  function ReplaceOpt(sh: Share, e: Option<Expr>): Option<Expr> {
    if e.Some? then Some(Replace(sh, e.value)) else None
  }

  function ReplaceDecls(sh: Share, ds: seq<Declr>): seq<Declr> {
    if ds == [] then []
    else
      var i := match ds[0].init
        case NoInit => NoInit
        case InitE(e) => InitE(Replace(sh, e))
        case InitList(es) => InitList(ReplaceArgs(sh, es));
      [Declr(ds[0].name, ds[0].simple, i)] + ReplaceDecls(sh, ds[1..])
  }

  function ReplaceInit(sh: Share, i: ForInit): ForInit {
    match i
    case FNone => FNone
    case FExpr(e) => FExpr(Replace(sh, e))
    case FDecl(ok, ds) => FDecl(ok, ReplaceDecls(sh, ds))
  }

  function ReplaceS(sh: Share, x: Stmt): Stmt
    decreases x, 1
  {
    match x
    case ExprS(e) => ExprS(Replace(sh, e))
    case Block(items) => Block(ReplaceAll(sh, items))
    case DeclS(ok, ds) => DeclS(ok, ReplaceDecls(sh, ds))
    case If(c, thn, els) =>
      If(Replace(sh, c), ReplaceS(sh, thn), if els.Some? then Some(ReplaceS(sh, els.value)) else None)
    case While(c, body) => While(Replace(sh, c), ReplaceS(sh, body))
    case DoWhile(body, c) => DoWhile(ReplaceS(sh, body), Replace(sh, c))
    case For(i, c, u, body) => For(ReplaceInit(sh, i), ReplaceOpt(sh, c), ReplaceOpt(sh, u), ReplaceS(sh, body))
    case Switch(e, body) => Switch(Replace(sh, e), ReplaceS(sh, body))
    case LabelS(l, body) => LabelS(l, ReplaceS(sh, body))
    case Return(r) => Return(ReplaceOpt(sh, r))
    case _ => x
  }

  function ReplaceAll(sh: Share, items: seq<Stmt>): (r: seq<Stmt>)
    ensures |r| == |items|
    decreases items, 0
  {
    if items == [] then [] else [ReplaceS(sh, items[0])] + ReplaceAll(sh, items[1..])
  }

  lemma {:induction false} ReplaceShared(sh: Share, e: Expr)
    ensures Shared(sh, e, Replace(sh, e))
    decreases e, 1
  {
    hide Occurs, UseOf;
    if Occurs(sh, e).None? {
      match e
      case Un(_, a) => ReplaceShared(sh, a);
      case Bin(_, a, b) => ReplaceShared(sh, a); ReplaceShared(sh, b);
      case Logic(_, a, b) => ReplaceShared(sh, a); ReplaceShared(sh, b);
      case Cond(c, a, b) => ReplaceShared(sh, c); ReplaceShared(sh, a); ReplaceShared(sh, b);
      case Cast(_, a) => ReplaceShared(sh, a);
      case Deref(a, _) => ReplaceShared(sh, a);
      case AddrOf(a) => ReplaceShared(sh, a);
      case Index(a, i, _, _, _) => ReplaceShared(sh, a); ReplaceShared(sh, i);
      case Member(a, _, _, _) => ReplaceShared(sh, a);
      case Assign(_, l, r) => ReplaceShared(sh, l); ReplaceShared(sh, r);
      case IncDec(_, _, l) => ReplaceShared(sh, l);
      case Comma(a, b) => ReplaceShared(sh, a); ReplaceShared(sh, b);
      case Call(_, args) => ReplaceSharedArgs(sh, args);
      case _ =>
    }
  }

  lemma {:induction false} ReplaceVars(sh: Share, e: Expr)
    ensures Vars(Replace(sh, e)) <= Vars(e) + {sh.tmp}
    decreases e, 1
  {
    hide Occurs, UseOf, SplitIndex, PureBase, PureInt;
    if Occurs(sh, e).Some? {
      UseVars(sh, Occurs(sh, e).value);
    } else {
      match e
      case Un(_, a) => ReplaceVars(sh, a);
      case Bin(_, a, b) => ReplaceVars(sh, a); ReplaceVars(sh, b);
      case Logic(_, a, b) => ReplaceVars(sh, a); ReplaceVars(sh, b);
      case Cond(c, a, b) => ReplaceVars(sh, c); ReplaceVars(sh, a); ReplaceVars(sh, b);
      case Cast(_, a) => ReplaceVars(sh, a);
      case Deref(a, _) => ReplaceVars(sh, a);
      case AddrOf(a) => ReplaceVars(sh, a);
      case Index(a, i, _, _, _) => ReplaceVars(sh, a); ReplaceVars(sh, i);
      case Member(a, _, _, _) => ReplaceVars(sh, a);
      case Assign(_, l, r) => ReplaceVars(sh, l); ReplaceVars(sh, r);
      case IncDec(_, _, l) => ReplaceVars(sh, l);
      case Comma(a, b) => ReplaceVars(sh, a); ReplaceVars(sh, b);
      case Call(_, args) => ReplaceVarsArgs(sh, args);
      case _ =>
    }
  }

  lemma UseVars(sh: Share, off: int)
    ensures Vars(UseOf(sh, off)) == {sh.tmp}
  {
    assert Vars(Lit(off)) == {};
  }

  lemma {:induction false} ReplaceSharedArgs(sh: Share, es: seq<Expr>)
    ensures SharedArgs(sh, es, ReplaceArgs(sh, es))
    decreases es, 0
  {
    if es != [] {
      ReplaceShared(sh, es[0]);
      ReplaceSharedArgs(sh, es[1..]);
    }
  }

  lemma {:induction false} ReplaceVarsArgs(sh: Share, es: seq<Expr>)
    ensures VarsArgs(ReplaceArgs(sh, es)) <= VarsArgs(es) + {sh.tmp}
    decreases es, 0
  {
    if es != [] {
      ReplaceVars(sh, es[0]);
      ReplaceVarsArgs(sh, es[1..]);
    }
  }

  lemma ReplaceSharedOpt(sh: Share, e: Option<Expr>)
    ensures RelOpt(sh, true, e, ReplaceOpt(sh, e)) && VarsOpt(ReplaceOpt(sh, e)) <= VarsOpt(e) + {sh.tmp}
  {
    if e.Some? { ReplaceShared(sh, e.value); ReplaceVars(sh, e.value); }
  }

  lemma {:induction false} ReplaceSharedDecls(sh: Share, ds: seq<Declr>)
    ensures RelDecls(sh, true, ds, ReplaceDecls(sh, ds)) &&
      NamesDecls(ReplaceDecls(sh, ds)) <= NamesDecls(ds) + {sh.tmp}
    decreases ds
  {
    if ds != [] {
      hide Shared, SharedArgs, Replace, ReplaceArgs;
      match ds[0].init {
        case NoInit =>
        case InitE(e) => ReplaceShared(sh, e); ReplaceVars(sh, e);
        case InitList(es) => ReplaceSharedArgs(sh, es); ReplaceVarsArgs(sh, es);
      }
      ReplaceSharedDecls(sh, ds[1..]);
    }
  }

  lemma {:induction false} ReplaceRel(sh: Share, cut: Cut, x: Stmt)
    ensures RelS(sh, cut, true, x, ReplaceS(sh, x)) && Names(ReplaceS(sh, x)) <= Names(x) + {sh.tmp}
    decreases x, 1
  {
    hide Shared, Replace, RelDecls, ReplaceDecls, RelOpt, ReplaceOpt, VarsOpt;
    match x
    case ExprS(e) => ReplaceShared(sh, e); ReplaceVars(sh, e);
    case Block(items) => ReplaceRelAll(sh, cut, items);
    case DeclS(_, ds) => ReplaceSharedDecls(sh, ds);
    case If(c, thn, els) =>
      ReplaceShared(sh, c); ReplaceVars(sh, c);
      ReplaceRel(sh, cut, thn);
      if els.Some? { ReplaceRel(sh, cut, els.value); }
    case While(c, body) => ReplaceShared(sh, c); ReplaceVars(sh, c); ReplaceRel(sh, cut, body);
    case DoWhile(body, c) => ReplaceShared(sh, c); ReplaceVars(sh, c); ReplaceRel(sh, cut, body);
    case For(i, c, u, body) =>
      ReplaceSharedOpt(sh, c);
      ReplaceSharedOpt(sh, u);
      match i {
        case FNone =>
        case FExpr(e) => ReplaceShared(sh, e); ReplaceVars(sh, e);
        case FDecl(_, ds) => ReplaceSharedDecls(sh, ds);
      }
      ReplaceRel(sh, cut, body);
    case Switch(e, body) => ReplaceShared(sh, e); ReplaceVars(sh, e); ReplaceRel(sh, cut, body);
    case LabelS(_, body) => ReplaceRel(sh, cut, body);
    case Return(r) => ReplaceSharedOpt(sh, r);
    case _ =>
  }

  lemma {:induction false} ReplaceRelAll(sh: Share, cut: Cut, items: seq<Stmt>)
    ensures RelList(sh, cut, true, items, ReplaceAll(sh, items)) &&
      NamesIn(ReplaceAll(sh, items)) <= NamesIn(items) + {sh.tmp}
    decreases items, 0
  {
    if items != [] {
      hide RelS, Names, ReplaceS;
      ReplaceRel(sh, cut, items[0]);
      ReplaceRelAll(sh, cut, items[1..]);
    }
  }

  // ---- one run cut out of its block ---------------------------------------------------------------

  /** A run of the items from `i` up to, not including, `j`, with its pointer and the base and index
      of its first occurrence. */
  datatype Piece = Piece(tmp: Name, arr: Expr, idx: Expr, i: nat, j: nat)

  function With(sh: Share, p: Piece): Share { sh.(tmp := p.tmp) }

  function Declare(sh: Share, p: Piece): Stmt {
    DeclS(true, [Declr(p.tmp, true, InitE(AddrOf(Index(p.arr, p.idx, sh.size, false, false))))])
  }

  /** The block with the pointer declared in front of the run and used in it. */
  function CutOut(sh: Share, p: Piece, items: seq<Stmt>): seq<Stmt>
    requires p.i < p.j <= |items|
  {
    items[..p.i] + ([Declare(sh, p)] + (ReplaceAll(With(sh, p), items[p.i..p.j]) + items[p.j..]))
  }

  /** The run has an occurrence to take the address of, and no item that ends it. */
  predicate Runs(sh: Share, p: Piece, items: seq<Stmt>) {
    && p.i < p.j <= |items| && PureBase(sh.T, p.arr) == Some(sh.base) && PureInt(sh.T, p.idx) == Some(sh.core)
    && forall k :: p.i <= k < p.j ==> !Bad(sh, items[k])
  }

  lemma {:induction false} ReplaceAt(sh: Share, items: seq<Stmt>, k: nat)
    requires k < |items|
    ensures ReplaceAll(sh, items)[k] == ReplaceS(sh, items[k])
    decreases items
  {
    if k > 0 { ReplaceAt(sh, items[1..], k - 1); }
  }

  lemma BadSame(sh: Share, tmp: Name, x: Stmt)
    ensures Bad(sh.(tmp := tmp), x) == Bad(sh, x)
  {
    hide InfoS, KeyNames, Roots, Labels;
    assert Addr(sh.(tmp := tmp)) == Addr(sh);
  }

  lemma CutOutIsCut(sh: Share, p: Piece, items: seq<Stmt>)
    requires Runs(sh, p, items)
    ensures IsCut(With(sh, p), Cut(p.i, p.j), items, CutOut(sh, p, items))
  {
    hide Bad, RelS, ReplaceS, PureBase, PureInt;
    var own, cut, b, run := With(sh, p), Cut(p.i, p.j), CutOut(sh, p, items), items[p.i..p.j];
    assert b[..p.i] == items[..p.i] && b[p.i] == Declare(sh, p) && b[p.j + 1..] == items[p.j..];
    var k := p.j;
    while k > p.i
      invariant p.i <= k <= p.j && RelRun(own, cut, items, b, k)
    {
      k := k - 1;
      ReplaceAt(own, run, k - p.i);
      ReplaceRel(own, cut, items[k]);
      BadSame(sh, p.tmp, items[k]);
      assert b[k + 1] == ReplaceAll(own, run)[k - p.i];
    }
  }

  lemma CutOutNames(sh: Share, p: Piece, items: seq<Stmt>)
    requires p.i < p.j <= |items|
    ensures NamesIn(CutOut(sh, p, items)) <= NamesIn(items) + {p.tmp} + Vars(p.arr) + Vars(p.idx)
  {
    hide Names, ReplaceS, RelS;
    var own, d, run, post := With(sh, p), Declare(sh, p), items[p.i..p.j], items[p.j..];
    ReplaceRelAll(own, Cut(p.i, p.j), run);
    NamesAppend(items[..p.i], [d] + (ReplaceAll(own, run) + post));
    NamesAppend([d], ReplaceAll(own, run) + post);
    NamesAppend(ReplaceAll(own, run), post);
    Parted3(items, p.i, p.j);
    NamesAppend(items[..p.i], run + post);
    NamesAppend(run, post);
    DeclareNames(sh, p);
  }

  lemma DeclareNames(sh: Share, p: Piece)
    ensures NamesIn([Declare(sh, p)]) == {p.tmp} + Vars(p.arr) + Vars(p.idx)
  {
    var d, e := Declare(sh, p), AddrOf(Index(p.arr, p.idx, sh.size, false, false));
    assert [d][1..] == [] && d.ds[1..] == [];
    assert Vars(e) == Vars(e.e) == Vars(p.arr) + Vars(p.idx);
    assert NamesDecls(d.ds) == {p.tmp} + Vars(e);
  }

  // ---- all the runs of a block ------------------------------------------------------------------------

  /** The runs are in order and apart. */
  predicate Ordered(sh: Share, ps: seq<Piece>, items: seq<Stmt>) {
    && (forall q :: 0 <= q < |ps| ==> Runs(sh, ps[q], items))
    && forall q :: 0 <= q < |ps| - 1 ==> ps[q].j <= ps[q + 1].i
  }

  lemma OrderedTail(sh: Share, ps: seq<Piece>, items: seq<Stmt>)
    requires Ordered(sh, ps, items) && ps != []
    ensures Ordered(sh, ps[1..], items)
  {
    hide Runs;
    assert forall q :: 0 <= q < |ps| - 1 ==> ps[1..][q] == ps[q + 1];
  }

  lemma OrderedFrom(sh: Share, ps: seq<Piece>, items: seq<Stmt>, n: nat)
    requires Ordered(sh, ps, items) && n <= |ps|
    ensures Ordered(sh, ps[n..], items)
  {
    hide Runs;
    assert forall q :: 0 <= q < |ps| - n ==> ps[n..][q] == ps[q + n];
  }

  /** The block with every run cut out, the last first. */
  function CutAll(sh: Share, ps: seq<Piece>, items: seq<Stmt>): (r: seq<Stmt>)
    requires Ordered(sh, ps, items)
    ensures |r| == |items| + |ps|
    decreases |ps|
  {
    if ps == [] then items
    else
      OrderedTail(sh, ps, items);
      CutOut(sh, ps[0], CutAll(sh, ps[1..], items))
  }

  /** What lies before the first run stays. */
  lemma {:induction false} CutAllBefore(sh: Share, ps: seq<Piece>, items: seq<Stmt>, k: nat)
    requires Ordered(sh, ps, items) && k <= |items| && (ps != [] ==> k <= ps[0].i)
    ensures CutAll(sh, ps, items)[..k] == items[..k]
    decreases |ps|
  {
    if ps != [] {
      hide Runs;
      OrderedTail(sh, ps, items);
      assert Runs(sh, ps[0], items);
      RunLies(sh, ps[0], items);
      CutAllBefore(sh, ps[1..], items, k);
    }
  }

  lemma RunLies(sh: Share, p: Piece, items: seq<Stmt>)
    requires Runs(sh, p, items)
    ensures p.i < p.j <= |items|
  {
  }

  /** The first run is a run of the block in which the others are cut out. */
  lemma FirstStillRuns(sh: Share, ps: seq<Piece>, items: seq<Stmt>)
    requires Ordered(sh, ps, items) && ps != []
    ensures Ordered(sh, ps[1..], items) && Runs(sh, ps[0], CutAll(sh, ps[1..], items))
  {
    OrderedTail(sh, ps, items);
    hide PureBase, PureInt, Bad, CutOut;
    var p, b := ps[0], CutAll(sh, ps[1..], items);
    CutAllBefore(sh, ps[1..], items, p.j);
    assert forall k :: 0 <= k < p.j ==> b[..p.j][k] == b[k] && items[..p.j][k] == items[k];
  }

  function Tmps(ps: seq<Piece>): set<Name> { set q | 0 <= q < |ps| :: ps[q].tmp }

  lemma TmpsTail(ps: seq<Piece>)
    requires ps != []
    ensures Tmps(ps) == {ps[0].tmp} + Tmps(ps[1..])
  {
    assert forall q :: 0 <= q < |ps| - 1 ==> ps[1..][q] == ps[q + 1];
  }

  /** The names in what the pointers take the address of. */
  predicate NamesWithin(ps: seq<Piece>, names: set<Name>) {
    forall q :: 0 <= q < |ps| ==> Vars(ps[q].arr) + Vars(ps[q].idx) <= names
  }

  lemma {:induction false} CutAllNames(sh: Share, ps: seq<Piece>, items: seq<Stmt>, names: set<Name>)
    requires Ordered(sh, ps, items) && NamesIn(items) <= names && NamesWithin(ps, names)
    ensures NamesIn(CutAll(sh, ps, items)) <= names + Tmps(ps)
    decreases |ps|
  {
    if ps != [] {
      FirstStillRuns(sh, ps, items);
      hide Runs, CutOut, Tmps, Ordered, PureBase, PureInt;
      RunLies(sh, ps[0], CutAll(sh, ps[1..], items));
      CutAllNames(sh, ps[1..], items, names);
      CutOutNames(sh, ps[0], CutAll(sh, ps[1..], items));
      TmpsTail(ps);
    }
  }

  // ---- a block inside a function -------------------------------------------------------------------------

  /** The items of the block at `path` in `x`. */
  function BlockAt(x: Stmt, path: seq<nat>): Option<seq<Stmt>>
    decreases x
  {
    match x
    case Block(items) =>
      if path == [] then Some(items) else if path[0] < |items| then BlockAt(items[path[0]], path[1..]) else None
    case If(_, thn, els) =>
      if path == [] then None
      else if path[0] == 0 then BlockAt(thn, path[1..])
      else if els.Some? then BlockAt(els.value, path[1..]) else None
    case While(_, body) => if path == [] then None else BlockAt(body, path[1..])
    case DoWhile(body, _) => if path == [] then None else BlockAt(body, path[1..])
    case For(_, _, _, body) => if path == [] then None else BlockAt(body, path[1..])
    case Switch(_, body) => if path == [] then None else BlockAt(body, path[1..])
    case LabelS(_, body) => if path == [] then None else BlockAt(body, path[1..])
    case _ => None
  }

  /** `x` with the items `b` in that block. */
  function Put(x: Stmt, path: seq<nat>, b: seq<Stmt>): Stmt
    requires BlockAt(x, path).Some?
    decreases x
  {
    match x
    case Block(items) => if path == [] then Block(b) else Block(items[path[0] := Put(items[path[0]], path[1..], b)])
    case If(c, thn, els) =>
      if path[0] == 0 then If(c, Put(thn, path[1..], b), els) else If(c, thn, Some(Put(els.value, path[1..], b)))
    case While(c, body) => While(c, Put(body, path[1..], b))
    case DoWhile(body, c) => DoWhile(Put(body, path[1..], b), c)
    case For(i, c, u, body) => For(i, c, u, Put(body, path[1..], b))
    case Switch(e, body) => Switch(e, Put(body, path[1..], b))
    case LabelS(l, body) => LabelS(l, Put(body, path[1..], b))
  }

  lemma {:induction false} PutTwice(x: Stmt, path: seq<nat>, b: seq<Stmt>, c: seq<Stmt>)
    requires BlockAt(x, path).Some?
    ensures BlockAt(Put(x, path, b), path) == Some(b) && Put(Put(x, path, b), path, c) == Put(x, path, c)
    decreases x
  {
    match x
    case Block(items) =>
      if path != [] {
        var k := path[0];
        PutTwice(items[k], path[1..], b, c);
        assert items[k := Put(items[k], path[1..], b)][k := Put(items[k], path[1..], c)] ==
          items[k := Put(items[k], path[1..], c)];
      }
    case If(_, thn, els) =>
      if path[0] == 0 {
        PutTwice(thn, path[1..], b, c);
      } else {
        PutTwice(els.value, path[1..], b, c);
      }
    case While(_, body) => PutTwice(body, path[1..], b, c);
    case DoWhile(body, _) => PutTwice(body, path[1..], b, c);
    case For(_, _, _, body) => PutTwice(body, path[1..], b, c);
    case Switch(_, body) => PutTwice(body, path[1..], b, c);
    case LabelS(_, body) => PutTwice(body, path[1..], b, c);
  }

  lemma {:induction false} PutSame(x: Stmt, path: seq<nat>)
    requires BlockAt(x, path).Some?
    ensures Put(x, path, BlockAt(x, path).value) == x && NamesIn(BlockAt(x, path).value) <= Names(x)
    decreases x
  {
    match x
    case Block(items) =>
      if path != [] {
        PutSame(items[path[0]], path[1..]);
        NamesOf(items, path[0]);
      }
    case If(_, thn, els) => if path[0] == 0 { PutSame(thn, path[1..]); } else { PutSame(els.value, path[1..]); }
    case While(_, body) => PutSame(body, path[1..]);
    case DoWhile(body, _) => PutSame(body, path[1..]);
    case For(_, _, _, body) => PutSame(body, path[1..]);
    case Switch(_, body) => PutSame(body, path[1..]);
    case LabelS(_, body) => PutSame(body, path[1..]);
  }

  lemma {:induction false} NamesOf(items: seq<Stmt>, k: nat)
    requires k < |items|
    ensures Names(items[k]) <= NamesIn(items)
    decreases items
  {
    if k > 0 { NamesOf(items[1..], k - 1); }
  }

  lemma {:induction false} NamesUpdate(items: seq<Stmt>, k: nat, y: Stmt)
    requires k < |items|
    ensures NamesIn(items[k := y]) <= NamesIn(items) + Names(y)
    decreases items
  {
    var u := items[k := y];
    if k > 0 {
      NamesUpdate(items[1..], k - 1, y);
      assert u[1..] == items[1..][k - 1 := y];
    } else {
      assert u[1..] == items[1..];
    }
  }

  lemma {:induction false} PutNames(x: Stmt, path: seq<nat>, b: seq<Stmt>)
    requires BlockAt(x, path).Some?
    ensures Names(Put(x, path, b)) <= Names(x) + NamesIn(b)
    decreases x
  {
    match x
    case Block(items) =>
      if path != [] {
        PutNames(items[path[0]], path[1..], b);
        NamesOf(items, path[0]);
        NamesUpdate(items, path[0], Put(items[path[0]], path[1..], b));
      }
    case If(_, thn, els) => if path[0] == 0 { PutNames(thn, path[1..], b); } else { PutNames(els.value, path[1..], b); }
    case While(_, body) => PutNames(body, path[1..], b);
    case DoWhile(body, _) => PutNames(body, path[1..], b);
    case For(_, _, _, body) => PutNames(body, path[1..], b);
    case Switch(_, body) => PutNames(body, path[1..], b);
    case LabelS(_, body) => PutNames(body, path[1..], b);
  }

  // ---- outside the block nothing changes -------------------------------------------------------------

  lemma {:induction false} DeclsSame(sh: Share, ds: seq<Declr>)
    ensures RelDecls(sh, false, ds, ds)
    decreases ds
  {
    if ds != [] { DeclsSame(sh, ds[1..]); }
  }

  lemma {:induction false} SameRel(sh: Share, cut: Cut, x: Stmt)
    ensures RelS(sh, cut, false, x, x)
    decreases x, 1
  {
    hide IsCut, RelDecls;
    match x
    case Block(items) => SameRelAll(sh, cut, items);
    case DeclS(_, ds) => DeclsSame(sh, ds);
    case If(_, thn, els) => SameRel(sh, cut, thn); if els.Some? { SameRel(sh, cut, els.value); }
    case While(_, body) => SameRel(sh, cut, body);
    case DoWhile(body, _) => SameRel(sh, cut, body);
    case For(i, _, _, body) => SameRel(sh, cut, body); if i.FDecl? { DeclsSame(sh, i.ds); }
    case Switch(_, body) => SameRel(sh, cut, body);
    case LabelS(_, body) => SameRel(sh, cut, body);
    case _ =>
  }

  lemma {:induction false} SameRelAll(sh: Share, cut: Cut, items: seq<Stmt>)
    ensures RelList(sh, cut, false, items, items)
    decreases items, 0
  {
    if items != [] {
      hide RelS;
      SameRel(sh, cut, items[0]);
      SameRelAll(sh, cut, items[1..]);
    }
  }

  lemma {:induction false} UpdateRel(sh: Share, cut: Cut, items: seq<Stmt>, k: nat, y: Stmt)
    requires k < |items| && RelS(sh, cut, false, items[k], y)
    ensures RelList(sh, cut, false, items, items[k := y])
    decreases items
  {
    hide RelS;
    var u := items[k := y];
    if k > 0 {
      SameRel(sh, cut, items[0]);
      assert u[1..] == items[1..][k - 1 := y];
      UpdateRel(sh, cut, items[1..], k - 1, y);
    } else {
      assert u[1..] == items[1..];
      SameRelAll(sh, cut, items[1..]);
    }
  }

  /** A function with one run cut out of one of its blocks. */
  lemma {:induction false} PutRel(sh: Share, cut: Cut, x: Stmt, path: seq<nat>, b: seq<Stmt>)
    requires BlockAt(x, path).Some? && IsCut(sh, cut, BlockAt(x, path).value, b)
    ensures RelS(sh, cut, false, x, Put(x, path, b))
    decreases x
  {
    hide IsCut, RelDecls;
    match x
    case Block(items) =>
      if path != [] {
        PutRel(sh, cut, items[path[0]], path[1..], b);
        UpdateRel(sh, cut, items, path[0], Put(items[path[0]], path[1..], b));
      }
    case If(_, thn, els) =>
      if path[0] == 0 { PutRel(sh, cut, thn, path[1..], b); } else { PutRel(sh, cut, els.value, path[1..], b); }
      SameRel(sh, cut, thn);
      if els.Some? { SameRel(sh, cut, els.value); }
    case While(_, body) => PutRel(sh, cut, body, path[1..], b);
    case DoWhile(body, _) => PutRel(sh, cut, body, path[1..], b);
    case For(i, _, _, body) => PutRel(sh, cut, body, path[1..], b); if i.FDecl? { DeclsSame(sh, i.ds); }
    case Switch(_, body) => PutRel(sh, cut, body, path[1..], b);
    case LabelS(_, body) => PutRel(sh, cut, body, path[1..], b);
  }

  // ---- every run shared ------------------------------------------------------------------------------

  /** The pointers are new and different, and each is one that the world keeps. */
  ghost predicate Fresh(w: World, sh: Share, ps: seq<Piece>, names: set<Name>) {
    && (forall q :: 0 <= q < |ps| ==> Suits(w, With(sh, ps[q])) && ps[q].tmp !in names)
    && forall q, r :: 0 <= q < r < |ps| ==> ps[q].tmp != ps[r].tmp
  }

  lemma FreshTail(w: World, sh: Share, ps: seq<Piece>, names: set<Name>)
    requires Fresh(w, sh, ps, names) && ps != []
    ensures Fresh(w, sh, ps[1..], names) && ps[0].tmp !in names + Tmps(ps[1..]) && Suits(w, With(sh, ps[0]))
  {
    hide Suits;
    assert forall q :: 0 <= q < |ps| - 1 ==> ps[1..][q] == ps[q + 1];
  }

  /** Sharing a key over all its runs in a block changes no run of the function: same end, same
      memory and same effects, for every start and every fuel. */
  lemma {:induction false} AllRunsSame(w: World, fuel: nat, sh: Share, ps: seq<Piece>, x: Stmt, path: seq<nat>, m: Mode,
                                       s: State)
    requires BlockAt(x, path).Some? && Ordered(sh, ps, BlockAt(x, path).value)
    requires Fresh(w, sh, ps, Names(x)) && NamesWithin(ps, Names(x))
    ensures SameEnd(Tmps(ps), RunBody(w, fuel, [x], m, s),
                    RunBody(w, fuel, [Put(x, path, CutAll(sh, ps, BlockAt(x, path).value))], m, s))
    decreases |ps|
  {
    hide Suits, Bad, RunBody, IsCut, RelS, Runs, CutOut, Ordered, Fresh, Names, Tmps;
    var items := BlockAt(x, path).value;
    PutSame(x, path);
    if ps != [] {
      FirstStillRuns(sh, ps, items);
      FreshTail(w, sh, ps, Names(x));
      var rest, p := CutAll(sh, ps[1..], items), ps[0];
      AllRunsSame(w, fuel, sh, ps[1..], x, path, m, s);
      CutAllNames(sh, ps[1..], items, Names(x));
      PutNames(x, path, rest);
      PutTwice(x, path, rest, CutAll(sh, ps, items));
      OneMore(w, fuel, sh, p, Put(x, path, rest), path, m, s);
      TmpsTail(ps);
    }
  }

  lemma OneMore(w: World, fuel: nat, sh: Share, p: Piece, y: Stmt, path: seq<nat>, m: Mode, s: State)
    requires BlockAt(y, path).Some? && Runs(sh, p, BlockAt(y, path).value) && Suits(w, With(sh, p)) &&
      p.tmp !in Names(y)
    ensures SameEnd({p.tmp}, RunBody(w, fuel, [y], m, s),
                    RunBody(w, fuel, [Put(y, path, CutOut(sh, p, BlockAt(y, path).value))], m, s))
  {
    hide Suits, Bad, RunBody, IsCut, Runs, CutOut, Names;
    var own, cut, b := With(sh, p), Cut(p.i, p.j), BlockAt(y, path).value;
    RunLies(sh, p, b);
    CutOutIsCut(sh, p, b);
    var z := Put(y, path, CutOut(sh, p, b));
    PutRel(own, cut, y, path, CutOut(sh, p, b));
    assert [y][1..] == [z][1..] == [] && RelList(own, cut, false, [y], [z]);
    OneName(y);
    ShareBodySame(w, fuel, own, cut, [y], [z], m, s, s);
  }

  lemma OneName(y: Stmt)
    ensures NamesIn([y]) == Names(y)
  {
    assert [y][1..] == [] && NamesIn([]) == {};
  }

  // ---- the runs that the pass finds ---------------------------------------------------------------------

  lemma {:induction false} ChainAt(bad: seq<bool>, runs: seq<seq<nat>>, q: nat)
    requires Chain(bad, runs) && q < |runs|
    ensures GoodRun(bad, runs[q])
    ensures q + 1 < |runs| ==> runs[q] != [] && runs[q + 1] != [] && runs[q][|runs[q]| - 1] < runs[q + 1][0]
    decreases |runs|
  {
    hide GoodRun;
    var n := |runs|;
    if q + 1 < n {
      ChainAt(bad, runs[..n - 1], q);
      assert runs[..n - 1][q] == runs[q];
      if q + 2 < n { assert runs[..n - 1][q + 1] == runs[q + 1]; }
    }
  }

  lemma GoodRuns(sh: Share, items: seq<Stmt>, run: seq<nat>)
    requires GoodRun(BadItems(sh, items), run)
    ensures run[0] <= run[|run| - 1] < |items| && forall k :: run[0] <= k <= run[|run| - 1] ==> !Bad(sh, items[k])
  {
    hide Bad;
    var bad := BadItems(sh, items);
    forall k | run[0] <= k <= run[|run| - 1] ensures !Bad(sh, items[k]) { assert !bad[k]; }
  }

  /** The runs as pieces, with a pointer and a first occurrence for each. */
  function PiecesOf(runs: seq<seq<nat>>, firsts: seq<(Name, Expr, Expr)>): seq<Piece>
    requires |firsts| == |runs| && forall q :: 0 <= q < |runs| ==> runs[q] != []
  {
    seq(|runs|, q requires 0 <= q < |runs| =>
      Piece(firsts[q].0, firsts[q].1, firsts[q].2, runs[q][0], runs[q][|runs[q]| - 1] + 1))
  }

  /** The runs that `RunsOf` finds can all be cut out. */
  lemma RunsOrdered(sh: Share, items: seq<Stmt>, runs: seq<seq<nat>>, firsts: seq<(Name, Expr, Expr)>)
    requires Chain(BadItems(sh, items), runs) && |firsts| == |runs|
    requires forall q :: 0 <= q < |firsts| ==>
      PureBase(sh.T, firsts[q].1) == Some(sh.base) && PureInt(sh.T, firsts[q].2) == Some(sh.core)
    ensures (forall q :: 0 <= q < |runs| ==> runs[q] != []) && Ordered(sh, PiecesOf(runs, firsts), items)
  {
    hide PureBase, PureInt, Bad, Chain;
    var bad := BadItems(sh, items);
    forall q: nat | q < |runs|
      ensures GoodRun(bad, runs[q]) && (q + 1 < |runs| ==> runs[q + 1] != [] && runs[q][|runs[q]| - 1] < runs[q + 1][0])
    {
      ChainAt(bad, runs, q);
    }
    var ps := PiecesOf(runs, firsts);
    forall q | 0 <= q < |ps| ensures Runs(sh, ps[q], items) {
      GoodRuns(sh, items, runs[q]);
    }
  }

  // ---- the edit in place ------------------------------------------------------------------------------------

  /** Cuts one run out of the block. */
  method Apply(sh: Share, p: Piece, items: seq<Stmt>) returns (r: seq<Stmt>)
    requires p.i < p.j <= |items|
    ensures r == CutOut(sh, p, items)
  {
    hide ReplaceAll, ReplaceS;
    var run := items[p.i..p.j];
    r := items[..p.i] + [Declare(sh, p)] + items[p.i..];
    for k := p.i to p.j
      invariant |r| == |items| + 1 && r[..p.i] == items[..p.i] && r[p.i] == Declare(sh, p) && r[k + 1..] == items[k..]
      invariant r[p.i + 1..k + 1] == ReplaceAll(With(sh, p), run)[..k - p.i]
    {
      ReplaceAt(With(sh, p), run, k - p.i);
      assert r[k + 1] == r[k + 1..][0] == items[k..][0] == run[k - p.i];
      r := r[k + 1 := ReplaceS(With(sh, p), r[k + 1])];
      assert r[k + 2..] == items[k + 1..];
    }
    assert r[p.i + 1..p.j + 1] == ReplaceAll(With(sh, p), run);
    assert r == r[..p.i] + ([r[p.i]] + (r[p.i + 1..p.j + 1] + r[p.j + 1..]));
  }

  /** Cuts every run out of the block. */
  method ApplyAll(sh: Share, ps: seq<Piece>, items: seq<Stmt>) returns (r: seq<Stmt>)
    requires Ordered(sh, ps, items)
    ensures r == CutAll(sh, ps, items)
  {
    hide Runs, CutOut;
    r := items;
    var n := |ps|;
    assert ps[n..] == [];
    while n > 0
      invariant 0 <= n <= |ps| && Ordered(sh, ps[n..], items) && r == CutAll(sh, ps[n..], items)
    {
      n := n - 1;
      OrderedFrom(sh, ps, items, n);
      RunLies(sh, ps[n], items);
      assert ps[n..][0] == ps[n] && ps[n..][1..] == ps[n + 1..];
      r := Apply(sh, ps[n], r);
    }
    assert ps[0..] == ps;
  }
}
