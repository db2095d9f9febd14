/** Sharing of an element address over a run of statements: keys, what a statement may
    change, runs, and the proof that using the shared pointer changes no run. */
module AddrShare {
  import opened Wrappers
  import opened CLang
  import opened Frames
  import opened DeadLocals
  import opened Overwrites

  /** What the pass knows about the names and types of a function. */
  datatype Types = Types(inMem: set<Name>, arrays: set<Name>, vol: set<Name>, ints: set<Name>,
                         ptrs: set<Name>, structs: set<Name>, intTypes: set<string>, memOk: bool)

  /** A key: an index or address expression up to the names it depends on. */
  datatype Key =
    | KConst(n: int)
    | KLocal(x: Name)
    | KGlobal(x: Name)
    | KBin(op: BinOp, a: Key, b: Key)
    | KUn(uop: UnOp, a: Key)
    | KCast(ty: string, a: Key)
    | KLoad(base: Key, idx: Key, size: int)
    | KArray(x: Name)
    | KPointer(x: Name)
    | KObject(x: Name)
    | KMember(base: Key, off: int)
    | KArrow(x: Name, off: int)
    | KElem(base: Key, idx: Key, size: int)

  predicate Plainly(T: Types, x: Name) { x !in T.inMem && x !in T.arrays && x !in T.vol }

  /** The named object that a store to the lvalue changes, when no pointer is followed. */
  function RootOf(T: Types, e: Expr): Option<Name> {
    match e
    case Var(x) => Some(x)
    case Index(arr, _, _, _, _) => if ArrayTyped(T, arr) then RootOf(T, arr) else None
    case Member(e1, _, _, _) => RootOf(T, e1)
    case _ => None
  }

  predicate ArrayTyped(T: Types, e: Expr) {
    match e
    case Var(x) => x in T.arrays
    case Index(_, _, _, isArray, _) => isArray
    case Member(_, _, isArray, _) => isArray
    case _ => false
  }

  /** The key of an integer expression whose value depends on plain locals and on named
      memory objects only. */
  function PureInt(T: Types, e: Expr): Option<Key> {
    match e
    case Num(v) => Some(KConst(v))
    case Var(x) =>
      if x !in T.ints || x in T.vol || x in T.arrays then None
      else if x !in T.inMem then Some(KLocal(x))
      else if T.memOk then Some(KGlobal(x))
      else None
    case Bin(op, a, b) =>
      if op !in {Add, Sub, Mul, Shl, Shr, BAnd, BOr, BXor} then None
      else
        var ka, kb := PureInt(T, a), PureInt(T, b);
        if ka.Some? && kb.Some? then Some(KBin(op, ka.value, kb.value)) else None
    case Un(op, a) =>
      if op == LNot then None
      else var ka := PureInt(T, a); if ka.Some? then Some(KUn(op, ka.value)) else None
    case Cast(ty, a) =>
      if ty !in T.intTypes then None
      else var ka := PureInt(T, a); if ka.Some? then Some(KCast(ty, ka.value)) else None
    case Index(arr, idx, size, isArray, vol) =>
      if !T.memOk || isArray || vol || !ArrayTyped(T, arr) || RootOf(T, arr).None? then None
      else
        var ka, ki := PureBase(T, arr), PureInt(T, idx);
        if ka.Some? && ki.Some? then Some(KLoad(ka.value, ki.value, size)) else None
    case _ => None
  }

  /** The key of an array, or of a local pointer. */
  function PureBase(T: Types, e: Expr): Option<Key> {
    match e
    case Var(x) =>
      if x in T.arrays then Some(KArray(x))
      else if x in T.ptrs && Plainly(T, x) then Some(KPointer(x))
      else None
    case Member(Deref(Var(x), _), off, true, _) =>
      if x in T.ptrs && Plainly(T, x) then Some(KArrow(x, off)) else None
    case Member(e1, off, true, _) =>
      var k := PureLvalue(T, e1);
      if k.Some? then Some(KMember(k.value, off)) else None
    case Index(arr, idx, size, true, _) =>
      var ka, ki := PureBase(T, arr), PureInt(T, idx);
      if ka.Some? && ki.Some? then Some(KElem(ka.value, ki.value, size)) else None
    case _ => None
  }

  /** The key of a named structure object. */
  function PureLvalue(T: Types, e: Expr): Option<Key> {
    match e
    case Var(x) => if x in T.structs && x in T.inMem then Some(KObject(x)) else None
    case Member(e1, off, false, _) =>
      var k := PureLvalue(T, e1);
      if k.Some? then Some(KMember(k.value, off)) else None
    case Index(arr, idx, size, false, _) =>
      var ka, ki := PureBase(T, arr), PureInt(T, idx);
      if ka.Some? && ki.Some? then Some(KElem(ka.value, ki.value, size)) else None
    case _ => None
  }

  /** The nodes of an index that stand for integers. */
  function IntNodes(e: Expr): set<Expr> {
    {e} +
    match e
    case Bin(_, a, b) => IntNodes(a) + IntNodes(b)
    case Un(_, a) => IntNodes(a)
    case Cast(_, a) => IntNodes(a)
    case Index(_, i, _, _, _) => IntNodes(i)
    case _ => {}
  }

  /** A number, a variable that may be read, an operator that keeps congruence, a cast to an integer type, or
      an element of a named array that memory may be read from. */
  predicate IntNode(T: Types, n: Expr) {
    n.Num? ||
    (n.Var? && n.x in T.ints && n.x !in T.vol && n.x !in T.arrays && (n.x in T.inMem ==> T.memOk)) ||
    (n.Bin? && n.op2 in {Add, Sub, Mul, Shl, Shr, BAnd, BOr, BXor}) || (n.Un? && n.op != LNot) ||
    (n.Cast? && n.ty in T.intTypes) ||
    (n.Index? && T.memOk && !n.isArray && !n.vol && ArrayTyped(T, n.arr) && RootOf(T, n.arr).Some? &&
     PureBase(T, n.arr).Some?)
  }

  ghost predicate AllInts(T: Types, ns: set<Expr>) { forall n :: n in ns ==> IntNode(T, n) }

  lemma IntsSum(T: Types, e: Expr, a: set<Expr>, b: set<Expr>)
    ensures AllInts(T, {e} + {}) <==> IntNode(T, e)
    ensures AllInts(T, {e} + a) <==> IntNode(T, e) && AllInts(T, a)
    ensures AllInts(T, {e} + (a + b)) <==> IntNode(T, e) && AllInts(T, a) && AllInts(T, b)
  {
    hide IntNode;
    assert e in {e};
    assert forall n :: n in {e} + (a + b) <==> n == e || n in a || n in b;
    assert forall n :: n in a ==> n in {e} + a && n in {e} + (a + b);
    assert forall n :: n in b ==> n in {e} + (a + b);
  }

  /** An index has a key exactly when each of its integer nodes is of these kinds. */
  lemma {:induction false} PureIntExact(T: Types, e: Expr)
    ensures PureInt(T, e).Some? <==> AllInts(T, IntNodes(e))
    decreases e
  {
    hide AllInts, PureBase, RootOf, ArrayTyped;
    IntsSum(T, e, {}, {});
    match e
    case Bin(_, a, b) =>
      PureIntExact(T, a);
      PureIntExact(T, b);
      IntsSum(T, e, IntNodes(a), IntNodes(b));
    case Un(_, a) =>
      PureIntExact(T, a);
      IntsSum(T, e, IntNodes(a), {});
    case Cast(_, a) =>
      PureIntExact(T, a);
      IntsSum(T, e, IntNodes(a), {});
    case Index(_, i, _, _, _) =>
      PureIntExact(T, i);
      IntsSum(T, e, IntNodes(i), {});
    case _ =>
  }

  // ---- what a key means --------------------------------------------------------

  function ElemLoc(l: (Name, int), i: Value, size: int): (Name, int) {
    (l.0, (l.1 + AsInt(i) * size) % 0x1_0000)
  }

  function KVal(w: World, k: Key, s: State): Value
    decreases k, 1
  {
    match k
    case KConst(n) => I(n)
    case KLocal(x) => Get(s.env, x)
    case KGlobal(x) => Load(s.mem, (x, 0))
    case KBin(op, a, b) => w.bin(op, KVal(w, a, s), KVal(w, b, s))
    case KUn(op, a) => w.un(op, KVal(w, a, s))
    case KCast(ty, a) => w.cast(ty, KVal(w, a, s))
    case KLoad(b, i, size) => Load(s.mem, ElemLoc(KLoc(w, b, s), KVal(w, i, s), size))
    case _ => I(0)
  }

  function KLoc(w: World, k: Key, s: State): (Name, int)
    decreases k, 0
  {
    match k
    case KArray(x) => (x, 0)
    case KObject(x) => (x, 0)
    case KPointer(x) => Loc(Get(s.env, x))
    case KArrow(x, off) => var l := Loc(Get(s.env, x)); (l.0, (l.1 + off) % 0x1_0000)
    case KMember(b, off) => var l := KLoc(w, b, s); (l.0, (l.1 + off) % 0x1_0000)
    case KElem(b, i, size) => ElemLoc(KLoc(w, b, s), KVal(w, i, s), size)
    case _ => ("", 0)
  }

  /** The plain locals a key depends on. */
  function Leaves(k: Key): set<Name> {
    match k
    case KLocal(x) => {x}
    case KPointer(x) => {x}
    case KArrow(x, _) => {x}
    case KBin(_, a, b) => Leaves(a) + Leaves(b)
    case KUn(_, a) => Leaves(a)
    case KCast(_, a) => Leaves(a)
    case KLoad(b, i, _) => Leaves(b) + Leaves(i)
    case KMember(b, _) => Leaves(b)
    case KElem(b, i, _) => Leaves(b) + Leaves(i)
    case _ => {}
  }

  function BaseRoot(k: Key): set<Name> {
    match k
    case KArray(x) => {x}
    case KObject(x) => {x}
    case KMember(b, _) => BaseRoot(b)
    case KElem(b, _, _) => BaseRoot(b)
    case _ => {}
  }

  /** The memory objects whose contents a key depends on. */
  function Roots(k: Key): set<Name> {
    match k
    case KGlobal(x) => {x}
    case KBin(_, a, b) => Roots(a) + Roots(b)
    case KUn(_, a) => Roots(a)
    case KCast(_, a) => Roots(a)
    case KLoad(b, i, _) => BaseRoot(b) + Roots(b) + Roots(i)
    case KMember(b, _) => Roots(b)
    case KElem(b, i, _) => Roots(b) + Roots(i)
    case _ => {}
  }

  /** The base of every load is a named object, not a pointer. */
  predicate NamedLoads(k: Key) {
    match k
    case KBin(_, a, b) => NamedLoads(a) && NamedLoads(b)
    case KUn(_, a) => NamedLoads(a)
    case KCast(_, a) => NamedLoads(a)
    case KLoad(b, i, _) => BaseRoot(b) != {} && NamedLoads(b) && NamedLoads(i)
    case KMember(b, _) => NamedLoads(b)
    case KElem(b, i, _) => NamedLoads(b) && NamedLoads(i)
    case _ => true
  }

  ghost predicate Knows(w: World, T: Types) {
    w.inMem == T.inMem && w.arrays == T.arrays && w.vol == T.vol && T.arrays <= T.inMem
  }

  lemma {:induction false} RootKey(T: Types, e: Expr)
    requires ArrayTyped(T, e) && RootOf(T, e).Some? && PureBase(T, e).Some?
    ensures BaseRoot(PureBase(T, e).value) != {}
    decreases e, 1
  {
    match e
    case Index(arr, _, _, _, _) => RootKey(T, arr);
    case Member(e1, _, _, _) => if !e1.Deref? { RootLvalue(T, e1); }
    case _ =>
  }

  lemma {:induction false} RootLvalue(T: Types, e: Expr)
    requires RootOf(T, e).Some? && PureLvalue(T, e).Some?
    ensures BaseRoot(PureLvalue(T, e).value) != {}
    decreases e, 1
  {
    match e
    case Index(arr, _, _, _, _) => RootKey(T, arr);
    case Member(e1, _, _, _) => RootLvalue(T, e1);
    case _ =>
  }

  /** A key says what the expression computes, and the expression computes it without an effect. */
  lemma {:induction false} IntSound(w: World, T: Types, e: Expr, s: State)
    requires Knows(w, T) && PureInt(T, e).Some?
    ensures Eval(w, e, s) == (KVal(w, PureInt(T, e).value, s), s)
    ensures NamedLoads(PureInt(T, e).value)
    decreases e, 1
  {
    match e
    case Bin(_, a, b) => IntSound(w, T, a, s); IntSound(w, T, b, s);
    case Un(_, a) => IntSound(w, T, a, s);
    case Cast(_, a) => IntSound(w, T, a, s);
    case Index(arr, idx, _, _, _) =>
      BaseSound(w, T, arr, s);
      IntSound(w, T, idx, s);
      RootKey(T, arr);
    case _ =>
  }

  lemma {:induction false} BaseSound(w: World, T: Types, e: Expr, s: State)
    requires Knows(w, T) && PureBase(T, e).Some?
    ensures Eval(w, e, s).1 == s && Loc(Eval(w, e, s).0) == KLoc(w, PureBase(T, e).value, s)
    ensures NamedLoads(PureBase(T, e).value)
    decreases e, 1
  {
    match e
    case Index(arr, idx, _, _, _) => BaseSound(w, T, arr, s); IntSound(w, T, idx, s);
    case Member(e1, _, _, _) =>
      if e1.Deref? && e1.e.Var? {
        ArrowSound(w, T, e, s);
      } else {
        LvalueSound(w, T, e1, s);
      }
    case _ =>
  }

  lemma ArrowSound(w: World, T: Types, e: Expr, s: State)
    requires Knows(w, T) && PureBase(T, e).Some?
    requires e.Member? && e.e.Deref? && e.e.e.Var?
    ensures Eval(w, e, s).1 == s && Loc(Eval(w, e, s).0) == KLoc(w, PureBase(T, e).value, s)
  {
    var x := e.e.e.x;
    assert Eval(w, Var(x), s) == (Get(s.env, x), s);
    var l := Loc(Get(s.env, x));
    assert EvalPlace(w, e.e, s) == (PMem(l.0, l.1, e.e.vol), s);
    assert EvalPlace(w, e, s) == (PMem(l.0, (l.1 + e.off) % 0x1_0000, e.e.vol), s);
  }

  lemma {:induction false} LvalueSound(w: World, T: Types, e: Expr, s: State)
    requires Knows(w, T) && PureLvalue(T, e).Some?
    ensures EvalPlace(w, e, s).1 == s && EvalPlace(w, e, s).0.PMem?
    ensures (EvalPlace(w, e, s).0.obj, EvalPlace(w, e, s).0.off) == KLoc(w, PureLvalue(T, e).value, s)
    ensures NamedLoads(PureLvalue(T, e).value)
    decreases e, 1
  {
    match e
    case Index(arr, idx, _, _, _) => BaseSound(w, T, arr, s); IntSound(w, T, idx, s);
    case Member(e1, _, _, _) => LvalueSound(w, T, e1, s);
    case _ =>
  }

  /** Two states agree on what the key depends on. */
  ghost predicate AgreeOn(k: Key, s: State, t: State) {
    && (forall x :: x in Leaves(k) ==> Get(s.env, x) == Get(t.env, x))
    && (forall o: Name, f: int :: o in Roots(k) ==> Load(s.mem, (o, f)) == Load(t.mem, (o, f)))
  }

  lemma {:induction false} RootObject(w: World, k: Key, s: State)
    requires BaseRoot(k) != {}
    ensures KLoc(w, k, s).0 in BaseRoot(k)
  {
    match k
    case KMember(b, _) => RootObject(w, b, s);
    case KElem(b, _, _) => RootObject(w, b, s);
    case _ =>
  }

  /** A key has one meaning in all states that agree on its leaves and roots. */
  lemma {:induction false} KeyFrame(w: World, k: Key, s: State, t: State)
    requires AgreeOn(k, s, t) && NamedLoads(k)
    ensures KVal(w, k, s) == KVal(w, k, t) && KLoc(w, k, s) == KLoc(w, k, t)
  {
    match k
    case KBin(_, a, b) => KeyFrame(w, a, s, t); KeyFrame(w, b, s, t);
    case KUn(_, a) => KeyFrame(w, a, s, t);
    case KCast(_, a) => KeyFrame(w, a, s, t);
    case KLoad(b, i, _) => KeyFrame(w, b, s, t); KeyFrame(w, i, s, t); RootObject(w, b, s);
    case KMember(b, _) => KeyFrame(w, b, s, t);
    case KElem(b, i, _) => KeyFrame(w, b, s, t); KeyFrame(w, i, s, t);
    case _ =>
  }

  // ---- what one statement does ----------------------------------------------------

  /** Plain locals assigned or declared, named objects stored into, whether there is a
      store through a pointer, a call, a volatile access. */
  datatype Info = Info(writes: set<Name>, memW: set<Name>, anyW: bool, call: bool, vol: bool)

  const Nothing := Info({}, {}, false, false, false)

  function Join(a: Info, b: Info): Info {
    Info(a.writes + b.writes, a.memW + b.memW, a.anyW || b.anyW, a.call || b.call, a.vol || b.vol)
  }

  /** What a store to the lvalue is noted as. */
  function NoteStore(T: Types, lv: Expr): Info {
    if lv.Var? && lv.x !in T.inMem then Nothing.(writes := {lv.x})
    else
      var r := RootOf(T, lv);
      if r.Some? then Nothing.(memW := {r.value}) else Nothing.(anyW := true)
  }

  function InfoE(T: Types, e: Expr): Info
    decreases e, 1
  {
    match e
    case Num(_) => Nothing
    case Var(x) => Nothing.(vol := x in T.vol)
    case Un(_, a) => InfoE(T, a)
    case Bin(_, a, b) => Join(InfoE(T, a), InfoE(T, b))
    case Logic(_, a, b) => Join(InfoE(T, a), InfoE(T, b))
    case Cond(c, a, b) => Join(InfoE(T, c), Join(InfoE(T, a), InfoE(T, b)))
    case Cast(_, a) => InfoE(T, a)
    case Sizeof(a) => InfoE(T, a)
    case Deref(a, v) => Join(Nothing.(vol := v), InfoE(T, a))
    case AddrOf(a) => InfoE(T, a)
    case Index(a, i, _, _, v) => Join(Nothing.(vol := v), Join(InfoE(T, a), InfoE(T, i)))
    case Member(a, _, _, v) => Join(Nothing.(vol := v), InfoE(T, a))
    case Assign(_, l, r) => Join(NoteStore(T, l), Join(InfoE(T, l), InfoE(T, r)))
    case IncDec(_, _, l) => Join(NoteStore(T, l), InfoE(T, l))
    case Comma(a, b) => Join(InfoE(T, a), InfoE(T, b))
    case Call(_, args) => Join(Nothing.(call := true), InfoArgs(T, args))
  }

  function InfoArgs(T: Types, es: seq<Expr>): Info
    decreases es, 0
  {
    if es == [] then Nothing else Join(InfoE(T, es[0]), InfoArgs(T, es[1..]))
  }

  function InfoOpt(T: Types, e: Option<Expr>): Info {
    if e.Some? then InfoE(T, e.value) else Nothing
  }

  function InfoDecls(T: Types, ds: seq<Declr>): Info {
    if ds == [] then Nothing
    else
      var d := ds[0];
      var i := match d.init
        case NoInit => Nothing
        case InitE(e) => InfoE(T, e)
        case InitList(es) => Join(Nothing.(memW := {d.name}), InfoArgs(T, es));
      Join(Join(Nothing.(writes := {d.name}), i), InfoDecls(T, ds[1..]))
  }

  function InfoInit(T: Types, i: ForInit): Info {
    match i
    case FNone => Nothing
    case FExpr(e) => InfoE(T, e)
    case FDecl(_, ds) => InfoDecls(T, ds)
  }

  function InfoS(T: Types, s: Stmt): Info
    decreases s, 1
  {
    match s
    case ExprS(e) => InfoE(T, e)
    case Block(items) => InfoList(T, items)
    case DeclS(_, ds) => InfoDecls(T, ds)
    case If(c, thn, els) =>
      Join(InfoE(T, c), Join(InfoS(T, thn), if els.Some? then InfoS(T, els.value) else Nothing))
    case While(c, body) => Join(InfoE(T, c), InfoS(T, body))
    case DoWhile(body, c) => Join(InfoS(T, body), InfoE(T, c))
    case For(init, cond, upd, body) =>
      Join(InfoInit(T, init), Join(InfoOpt(T, cond), Join(InfoOpt(T, upd), InfoS(T, body))))
    case Switch(e, body) => Join(InfoE(T, e), InfoS(T, body))
    case LabelS(_, body) => InfoS(T, body)
    case Return(r) => InfoOpt(T, r)
    case _ => Nothing
  }

  function InfoList(T: Types, items: seq<Stmt>): Info
    decreases items, 0
  {
    if items == [] then Nothing else Join(InfoS(T, items[0]), InfoList(T, items[1..]))
  }

  /** A label that code outside the statement can jump to; the cases of a `switch` inside
      the statement are its own. */
  predicate Labels(s: Stmt, inSwitch: bool)
    decreases s, 1
  {
    match s
    case Block(items) => LabelsIn(items, inSwitch)
    case If(_, thn, els) => Labels(thn, inSwitch) || (els.Some? && Labels(els.value, inSwitch))
    case While(_, body) => Labels(body, inSwitch)
    case DoWhile(body, _) => Labels(body, inSwitch)
    case For(_, _, _, body) => Labels(body, inSwitch)
    case Switch(_, body) => Labels(body, true)
    case LabelS(l, body) => l.Named? || !inSwitch || Labels(body, inSwitch)
    case _ => false
  }

  predicate LabelsIn(items: seq<Stmt>, inSwitch: bool)
    decreases items, 0
  {
    items != [] && (Labels(items[0], inSwitch) || LabelsIn(items[1..], inSwitch))
  }

  lemma {:induction false} NoLabel(s: Stmt, inSwitch: bool, l: Label)
    requires !Labels(s, inSwitch) && (inSwitch ==> l.Named?)
    ensures !HasLabel(s, l)
    decreases s, 1
  {
    match s
    case Block(items) => NoLabelIn(items, inSwitch, l);
    case If(_, thn, els) =>
      NoLabel(thn, inSwitch, l);
      if els.Some? { NoLabel(els.value, inSwitch, l); }
    case While(_, body) => NoLabel(body, inSwitch, l);
    case DoWhile(body, _) => NoLabel(body, inSwitch, l);
    case For(_, _, _, body) => NoLabel(body, inSwitch, l);
    case Switch(_, body) => if l.Named? { NoLabel(body, true, l); }
    case LabelS(_, body) => NoLabel(body, inSwitch, l);
    case _ =>
  }

  lemma {:induction false} NoLabelIn(items: seq<Stmt>, inSwitch: bool, l: Label)
    requires !LabelsIn(items, inSwitch) && (inSwitch ==> l.Named?)
    ensures !HasLabelIn(items, l)
    decreases items, 0
  {
    if items != [] {
      NoLabel(items[0], inSwitch, l);
      NoLabelIn(items[1..], inSwitch, l);
    }
  }

  // ---- the shared pointer -----------------------------------------------------------

  /** The pointer `tmp` holds the address of `base[core]` with elements of `size` bytes. */
  datatype Share = Share(T: Types, tmp: Name, base: Key, core: Key, size: int)

  function Addr(sh: Share): Key { KElem(sh.base, sh.core, sh.size) }

  /** Every name in a key. */
  function KeyNames(k: Key): set<Name> { Leaves(k) + ArrayNames(k) }

  function ArrayNames(k: Key): set<Name> {
    match k
    case KGlobal(x) => {x}
    case KArray(x) => {x}
    case KObject(x) => {x}
    case KBin(_, a, b) => ArrayNames(a) + ArrayNames(b)
    case KUn(_, a) => ArrayNames(a)
    case KCast(_, a) => ArrayNames(a)
    case KLoad(b, i, _) => ArrayNames(b) + ArrayNames(i)
    case KMember(b, _) => ArrayNames(b)
    case KElem(b, i, _) => ArrayNames(b) + ArrayNames(i)
    case _ => {}
  }

  lemma {:induction false} RootsNamed(k: Key)
    ensures BaseRoot(k) + Roots(k) <= ArrayNames(k)
  {
    match k
    case KBin(_, a, b) => RootsNamed(a); RootsNamed(b);
    case KUn(_, a) => RootsNamed(a);
    case KCast(_, a) => RootsNamed(a);
    case KLoad(b, i, _) => RootsNamed(b); RootsNamed(i);
    case KMember(b, _) => RootsNamed(b);
    case KElem(b, i, _) => RootsNamed(b); RootsNamed(i);
    case _ =>
  }

  /** The statement cannot change the shared address. */
  predicate Quiet(sh: Share, i: Info) {
    && i.writes !! KeyNames(Addr(sh))
    && (Roots(Addr(sh)) != {} ==> !i.call && !i.anyW && !i.vol && i.memW !! Roots(Addr(sh)))
  }

  /** The statement ends a run of the key. */
  predicate Bad(sh: Share, x: Stmt) {
    Labels(x, false) || !Quiet(sh, InfoS(sh.T, x))
  }

  /** An index as (core, constant). */
  function SplitIndex(i: Expr): (Expr, int) {
    match i
    case Bin(Add, l, Num(k)) => if -100 <= k <= 100 then (l, k) else (i, 0)
    case Bin(Sub, l, Num(k)) => if -100 <= k <= 100 then (l, -k) else (i, 0)
    case Bin(Add, Num(k), r) => if -100 <= k <= 100 then (r, k) else (i, 0)
    case _ => (i, 0)
  }

  /** The constant distance of an occurrence of the key from the shared address. */
  function Occurs(sh: Share, e: Expr): Option<int> {
    match e
    case Index(arr, idx, size, isArray, vol) =>
      var c := SplitIndex(idx);
      if !isArray && !vol && size == sh.size && !Touches(sh.T.vol, e)
         && PureBase(sh.T, arr) == Some(sh.base) && PureInt(sh.T, c.0) == Some(sh.core)
      then Some(c.1) else None
    case _ => None
  }

  /** When `a[c]` is an occurrence, so are `a[c + k]`, `a[k + c]` and `a[c - k]`, each at its distance,
      exactly for constants from -100 to 100. */
  lemma OccursNear(sh: Share, arr: Expr, c: Expr, k: int)
    requires Occurs(sh, Index(arr, c, sh.size, false, false)) == Some(0) && SplitIndex(c) == (c, 0) && !c.Num?
    ensures
      var near := -100 <= k <= 100;
      Occurs(sh, Index(arr, Bin(Add, c, Num(k)), sh.size, false, false)) == (if near then Some(k) else None) &&
      Occurs(sh, Index(arr, Bin(Add, Num(k), c), sh.size, false, false)) == (if near then Some(k) else None) &&
      Occurs(sh, Index(arr, Bin(Sub, c, Num(k)), sh.size, false, false)) == (if near then Some(-k) else None)
  {
    ConstOn(sh.T, Add, c, k);
    ConstOn(sh.T, Sub, c, k);
    hide PureBase, PureInt, Touches;
    OneOccurs(sh, arr, Bin(Add, c, Num(k)));
    OneOccurs(sh, arr, Bin(Add, Num(k), c));
    OneOccurs(sh, arr, Bin(Sub, c, Num(k)));
    OneOccurs(sh, arr, c);
    TouchesIndex(sh, arr, c);
    TouchesIndex(sh, arr, Bin(Add, c, Num(k)));
    TouchesIndex(sh, arr, Bin(Add, Num(k), c));
    TouchesIndex(sh, arr, Bin(Sub, c, Num(k)));
  }

  lemma OneOccurs(sh: Share, arr: Expr, i: Expr)
    ensures
      var c := SplitIndex(i);
      Occurs(sh, Index(arr, i, sh.size, false, false)) ==
        if !Touches(sh.T.vol, Index(arr, i, sh.size, false, false)) && PureBase(sh.T, arr) == Some(sh.base) &&
           PureInt(sh.T, c.0) == Some(sh.core)
        then Some(c.1) else None
  {
    hide PureBase, PureInt, Touches, SplitIndex;
  }

  lemma TouchesIndex(sh: Share, arr: Expr, i: Expr)
    ensures Touches(sh.T.vol, Index(arr, i, sh.size, false, false)) == (Touches(sh.T.vol, arr) || Touches(sh.T.vol, i))
  {
  }

  lemma ConstOn(T: Types, op: BinOp, c: Expr, k: int)
    requires op in {Add, Sub} && PureInt(T, c).Some?
    ensures
      var core := PureInt(T, c).value;
      PureInt(T, Bin(op, c, Num(k))) == Some(KBin(op, core, KConst(k))) && KBin(op, core, KConst(k)) != core &&
      PureInt(T, Bin(op, Num(k), c)) == Some(KBin(op, KConst(k), core)) && KBin(op, KConst(k), core) != core
    ensures Touches(T.vol, Bin(op, c, Num(k))) == Touches(T.vol, c)
    ensures Touches(T.vol, Bin(op, Num(k), c)) == Touches(T.vol, c)
  {
    Smaller(op, PureInt(T, c).value, k);
  }

  lemma Smaller(op: BinOp, a: Key, k: int)
    ensures KBin(op, a, KConst(k)) != a && KBin(op, KConst(k), a) != a
  {
    assert a < KBin(op, a, KConst(k)) && a < KBin(op, KConst(k), a);
  }

  function Lit(k: int): Expr { if k < 0 then Un(Neg, Num(-k)) else Num(k) }

  function UseOf(sh: Share, off: int): Expr {
    if off == 0 then Deref(Var(sh.tmp), false) else Index(Var(sh.tmp), Lit(off), sh.size, false, false)
  }

  /** `e2` is `e` with some occurrences of the key replaced by uses of the pointer.  The
      operand of `sizeof` stays as it is. */
  predicate Shared(sh: Share, e: Expr, e2: Expr)
    decreases e, 1
  {
    || (Occurs(sh, e).Some? && e2 == UseOf(sh, Occurs(sh, e).value))
    || match e
       case Un(op, a) => e2.Un? && e2.op == op && Shared(sh, a, e2.e)
       case Bin(op, a, b) => e2.Bin? && e2.op2 == op && Shared(sh, a, e2.a) && Shared(sh, b, e2.b)
       case Logic(k, a, b) => e2.Logic? && e2.isAnd == k && Shared(sh, a, e2.a) && Shared(sh, b, e2.b)
       case Cond(c, a, b) => e2.Cond? && Shared(sh, c, e2.c) && Shared(sh, a, e2.a) && Shared(sh, b, e2.b)
       case Cast(ty, a) => e2.Cast? && e2.ty == ty && Shared(sh, a, e2.e)
       case Deref(a, v) => e2.Deref? && e2.vol == v && Shared(sh, a, e2.e)
       case AddrOf(a) => e2.AddrOf? && Shared(sh, a, e2.e)
       case Index(a, i, size, arr, v) =>
         e2.Index? && e2.size == size && e2.isArray == arr && e2.vol == v && Shared(sh, a, e2.arr) &&
         Shared(sh, i, e2.idx)
       case Member(a, off, arr, v) =>
         e2.Member? && e2.off == off && e2.isArray == arr && e2.vol == v && Shared(sh, a, e2.e)
       case Assign(op, l, r) => e2.Assign? && e2.aop == op && Shared(sh, l, e2.lhs) && Shared(sh, r, e2.rhs)
       case IncDec(p, i, l) => e2.IncDec? && e2.prefix == p && e2.inc == i && Shared(sh, l, e2.lhs)
       case Comma(a, b) => e2.Comma? && Shared(sh, a, e2.a) && Shared(sh, b, e2.b)
       case Call(f, args) => e2.Call? && e2.f == f && SharedArgs(sh, args, e2.args)
       case _ => e2 == e
  }

  predicate SharedArgs(sh: Share, es: seq<Expr>, es2: seq<Expr>)
    decreases es, 0
  {
    |es| == |es2| && (es != [] ==> Shared(sh, es[0], es2[0]) && SharedArgs(sh, es[1..], es2[1..]))
  }

  /** What the proof needs of a world: the names as the pass knows them, a fresh pointer
      that keeps an address, and index arithmetic that is exact modulo the 16 bits of a
      pointer. */
  ghost predicate Suits(w: World, sh: Share) {
    && Knows(w, sh.T) && Plainly(sh.T, sh.tmp)
    && sh.tmp !in KeyNames(Addr(sh)) && "" !in ArrayNames(Addr(sh))
    && NamedLoads(Addr(sh))
    && (forall v: Value, k: int :: AsInt(w.bin(Add, v, I(k))) % 0x1_0000 == (AsInt(v) + k) % 0x1_0000)
    && (forall v: Value, k: int :: AsInt(w.bin(Add, I(k), v)) % 0x1_0000 == (AsInt(v) + k) % 0x1_0000)
    && (forall v: Value, k: int :: AsInt(w.bin(Sub, v, I(k))) % 0x1_0000 == (AsInt(v) - k) % 0x1_0000)
    && (forall n: int :: AsInt(w.un(Neg, I(n))) % 0x1_0000 == (-n) % 0x1_0000)
    && (forall o: Name, f: int :: w.conv(PVar(sh.tmp, false), P(o, f)) == P(o, f))
  }

  /** The states differ at most in the pointer, and the pointer holds the address. */
  ghost predicate Holds(w: World, sh: Share, s: State, t: State) {
    && AgreeOff({sh.tmp}, s, t)
    && Get(t.env, sh.tmp) == P(KLoc(w, Addr(sh), s).0, KLoc(w, Addr(sh), s).1)
  }

  lemma ScaleMod(b: int, x: int, v: int, k: int, size: int)
    requires x % 0x1_0000 == (v + k) % 0x1_0000
    ensures (b + x * size) % 0x1_0000 == ((b + v * size) % 0x1_0000 + k * size) % 0x1_0000
  {
    var M := 0x1_0000;
    var q := x / M - (v + k) / M;
    assert x == v + k + M * q;
    var c := (b + v * size) / M;
    assert b + v * size == c * M + (b + v * size) % M;
    assert x * size == (v + k) * size + M * (q * size) by {
      assert x * size == (v + k + M * q) * size;
      assert (v + k + M * q) * size == (v + k) * size + M * (q * size);
    }
    assert b + x * size == ((b + v * size) % M + k * size) + M * (c + q * size);
    ModShift((b + v * size) % M + k * size, c + q * size);
  }

  lemma ModShift(a: int, q: int)
    ensures (a + 0x1_0000 * q) % 0x1_0000 == a % 0x1_0000
  {
  }

  lemma OccurrencePlace(w: World, sh: Share, e: Expr, s: State)
    requires Suits(w, sh) && Occurs(sh, e).Some?
    ensures
      var l := KLoc(w, Addr(sh), s);
      EvalPlace(w, e, s) == (PMem(l.0, (l.1 + Occurs(sh, e).value * sh.size) % 0x1_0000, false), s)
  {
    var off := Occurs(sh, e).value;
    BaseSound(w, sh.T, e.arr, s);
    IndexValue(w, sh, e.idx, s);
    var b, v := KLoc(w, sh.base, s), KVal(w, sh.core, s);
    var x := AsInt(Eval(w, e.idx, s).0);
    assert EvalPlace(w, e, s) == (PMem(b.0, (b.1 + x * sh.size) % 0x1_0000, false), s);
    ScaleMod(b.1, x, AsInt(v), off, sh.size);
  }

  lemma UsePlace(w: World, sh: Share, off: int, l: (Name, int), t: State)
    requires Suits(w, sh) && Get(t.env, sh.tmp) == P(l.0, l.1) && 0 <= l.1 < 0x1_0000
    ensures EvalPlace(w, UseOf(sh, off), t) == (PMem(l.0, (l.1 + off * sh.size) % 0x1_0000, false), t)
  {
    hide Addr, KLoc, KVal, NamedLoads, KeyNames, ArrayNames;
    assert Eval(w, Var(sh.tmp), t) == (P(l.0, l.1), t);
    if off == 0 {
      assert 0 * sh.size == 0;
    } else {
      var y := AsInt(Eval(w, Lit(off), t).0);
      if off < 0 {
        assert Eval(w, Num(-off), t) == (I(-off), t);
        assert Eval(w, Lit(off), t) == (w.un(Neg, I(-off)), t);
      }
      ScaleMod(l.1, y, off, 0, sh.size);
      assert 0 * sh.size == 0;
      assert EvalPlace(w, UseOf(sh, off), t) == (PMem(l.0, (l.1 + y * sh.size) % 0x1_0000, false), t);
    }
  }

  /** An occurrence and the use of the pointer denote the same element. */
  lemma OccurrenceSame(w: World, sh: Share, e: Expr, s: State, t: State)
    requires Suits(w, sh) && Holds(w, sh, s, t) && Occurs(sh, e).Some?
    ensures
      var p := EvalPlace(w, e, s);
      p.1 == s && p.0.PMem? && !p.0.vol && EvalPlace(w, UseOf(sh, Occurs(sh, e).value), t) == (p.0, t)
  {
    OccurrencePlace(w, sh, e, s);
    UsePlace(w, sh, Occurs(sh, e).value, KLoc(w, Addr(sh), s), t);
  }

  lemma IndexValue(w: World, sh: Share, i: Expr, s: State)
    requires Suits(w, sh) && PureInt(sh.T, SplitIndex(i).0).Some?
    ensures Eval(w, i, s).1 == s
    ensures AsInt(Eval(w, i, s).0) % 0x1_0000 ==
      (AsInt(KVal(w, PureInt(sh.T, SplitIndex(i).0).value, s)) + SplitIndex(i).1) % 0x1_0000
  {
    hide KLoc, KVal, NamedLoads, KeyNames, ArrayNames, PureInt, Leaves, Roots;
    var c := SplitIndex(i);
    IntSound(w, sh.T, c.0, s);
    if i.Bin? && c.0 == i.a {
      assert Eval(w, i.b, s) == (I(i.b.v), s);
    } else if i.Bin? && c.0 == i.b {
      assert Eval(w, i.a, s) == (I(i.a.v), s);
    }
  }
}
