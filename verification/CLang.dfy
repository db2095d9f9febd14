/** The C-like language on which the AST passes work: expressions with effects,
    structured statements, `goto` and labels, and a definitional interpreter.

    Every operator, conversion, call and volatile access is a field of a
    `World`, so a theorem over all worlds holds for every interpretation of
    them.  Named objects that have no address live in `env`; all other objects
    live in `mem`, addressed by (object, offset) with 16-bit offsets.  Calls see and change `mem`
    only, and each effect is one event of the trace. */
module CLang {
  import opened Wrappers

  type Name = string

  datatype Value = I(n: int) | P(obj: Name, off: int)

  datatype UnOp = Plus | Neg | Compl | LNot
  datatype BinOp = Add | Sub | Mul | Div | Mod | BAnd | BOr | BXor | Shl | Shr
    | Lt | Le | Gt | Ge | Eq | Ne

  datatype Expr =
    | Num(v: int)
    | Var(x: Name)
    | Un(op: UnOp, e: Expr)
    | Bin(op2: BinOp, a: Expr, b: Expr)
    | Logic(isAnd: bool, a: Expr, b: Expr)
    | Cond(c: Expr, a: Expr, b: Expr)
    | Cast(ty: string, e: Expr)
    | Sizeof(e: Expr)
    | Deref(e: Expr, vol: bool)
    | AddrOf(e: Expr)
    | Index(arr: Expr, idx: Expr, size: int, isArray: bool, vol: bool)
    | Member(e: Expr, off: int, isArray: bool, vol: bool)
    | Assign(aop: Option<BinOp>, lhs: Expr, rhs: Expr)
    | IncDec(prefix: bool, inc: bool, lhs: Expr)
    | Comma(a: Expr, b: Expr)
    | Call(f: Name, args: seq<Expr>)

  datatype Init = NoInit | InitE(e: Expr) | InitList(es: seq<Expr>)

  /** One declarator; `simple` holds for a plain scalar or pointer. */
  datatype Declr = Declr(name: Name, simple: bool, init: Init)

  datatype ForInit = FNone | FExpr(e: Expr) | FDecl(specsOk: bool, ds: seq<Declr>)

  datatype Label = Named(l: Name) | CaseOf(v: int) | Default

  datatype Stmt =
    | Empty
    | ExprS(e: Expr)
    | Block(items: seq<Stmt>)
    | DeclS(specsOk: bool, ds: seq<Declr>)
    | If(c: Expr, thn: Stmt, els: Option<Stmt>)
    | While(c: Expr, body: Stmt)
    | DoWhile(body: Stmt, c: Expr)
    | For(init: ForInit, cond: Option<Expr>, upd: Option<Expr>, body: Stmt)
    | Switch(e: Expr, body: Stmt)
    | LabelS(lab: Label, body: Stmt)
    | Goto(l: Name)
    | Break
    | Continue
    | Return(r: Option<Expr>)

  // ---- states and worlds -------------------------------------------------

  datatype Place = PVar(x: Name, vol: bool) | PMem(obj: Name, off: int, vol: bool) | PNone

  datatype Event = ECall(f: Name, args: seq<Value>) | ERead(p: Place) | EWrite(p: Place, v: Value)

  type Mem = map<(Name, int), Value>

  datatype State = State(env: map<Name, Value>, mem: Mem, trace: seq<Event>)

  datatype World = World(
    un: (UnOp, Value) -> Value,
    bin: (BinOp, Value, Value) -> Value,
    cast: (string, Value) -> Value,
    sizeOf: Expr -> Value,
    truth: Value -> bool,
    caseOf: Value -> int,
    conv: (Place, Value) -> Value,
    call: (Name, seq<Value>, Mem, seq<Event>) -> (Value, Mem),
    volRead: (Place, Mem, seq<Event>) -> Value,
    inMem: set<Name>,
    arrays: set<Name>,
    vol: set<Name>)

  function Get(env: map<Name, Value>, x: Name): Value {
    if x in env then env[x] else I(0)
  }

  function Load(mem: Mem, k: (Name, int)): Value {
    if k in mem then mem[k] else I(0)
  }

  /** The location a pointer value denotes; an integer is an absolute address. */
  function Loc(v: Value): (Name, int) {
    match v
    case P(o, f) => (o, f)
    case I(n) => ("", n)
  }

  function AsInt(v: Value): int {
    match v
    case P(_, f) => f
    case I(n) => n
  }

  function Offset(p: Place, k: int): Place {
    if p.PMem? then PMem(p.obj, (p.off + k) % 0x1_0000, p.vol) else PNone
  }

  /** Element `i` of the array at `a`; a pointer holds 16 bits. */
  function ElemPlace(a: Value, i: Value, size: int, vol: bool): Place {
    var l := Loc(a);
    PMem(l.0, (l.1 + AsInt(i) * size) % 0x1_0000, vol)
  }

  function AddrOfPlace(p: Place): Value {
    match p
    case PMem(o, f, _) => P(o, f)
    case PVar(x, _) => P(x, 0)
    case PNone => I(0)
  }

  function Read(w: World, p: Place, s: State): (Value, State) {
    match p
    case PNone => (I(0), s)
    case PVar(x, vol) =>
      if vol then (w.volRead(p, s.mem, s.trace), s.(trace := s.trace + [ERead(p)])) else (Get(s.env, x), s)
    case PMem(o, f, vol) =>
      if vol then (w.volRead(p, s.mem, s.trace), s.(trace := s.trace + [ERead(p)])) else (Load(s.mem, (o, f)), s)
  }

  /** Store `v`, converted to the type of the place; the value is the result. */
  function Write(w: World, p: Place, v: Value, s: State): (Value, State) {
    var c := w.conv(p, v);
    match p
    case PNone => (c, s)
    case PVar(x, vol) =>
      (c, State(s.env[x := c], s.mem, if vol then s.trace + [EWrite(p, c)] else s.trace))
    case PMem(o, f, vol) =>
      (c, State(s.env, s.mem[(o, f) := c], if vol then s.trace + [EWrite(p, c)] else s.trace))
  }

  /** `p = v` or `p op= v`. */
  function Modify(w: World, p: Place, aop: Option<BinOp>, v: Value, s: State): (Value, State) {
    if aop.None? then Write(w, p, v, s)
    else
      var ro := Read(w, p, s);
      Write(w, p, w.bin(aop.value, ro.0, v), ro.1)
  }

  function DoCall(w: World, f: Name, vs: seq<Value>, s: State): (Value, State) {
    var r := w.call(f, vs, s.mem, s.trace);
    (r.0, State(s.env, r.1, s.trace + [ECall(f, vs)]))
  }

  // ---- expressions -------------------------------------------------------

  function VarPlace(w: World, x: Name): Place {
    if x in w.inMem then PMem(x, 0, x in w.vol) else PVar(x, x in w.vol)
  }

  function EvalPlace(w: World, e: Expr, s: State): (Place, State)
    decreases e, 0
  {
    match e
    case Var(x) => (VarPlace(w, x), s)
    case Deref(e1, vol) =>
      var r := Eval(w, e1, s);
      var l := Loc(r.0);
      (PMem(l.0, l.1, vol), r.1)
    case Index(arr, idx, size, _, vol) =>
      var ra := Eval(w, arr, s);
      var ri := Eval(w, idx, ra.1);
      (ElemPlace(ra.0, ri.0, size, vol), ri.1)
    case Member(e1, off, _, vol) =>
      var r := EvalPlace(w, e1, s);
      (Offset(r.0, off), r.1)
    case _ => (PNone, s)
  }

  function Eval(w: World, e: Expr, s: State): (Value, State)
    decreases e, 1
  {
    match e
    case Num(v) => (I(v), s)
    case Var(x) => if x in w.arrays then (P(x, 0), s) else Read(w, VarPlace(w, x), s)
    case Un(op, e1) => var r := Eval(w, e1, s); (w.un(op, r.0), r.1)
    case Bin(op, a, b) =>
      var ra := Eval(w, a, s);
      var rb := Eval(w, b, ra.1);
      (w.bin(op, ra.0, rb.0), rb.1)
    case Logic(isAnd, a, b) =>
      var ra := Eval(w, a, s);
      if w.truth(ra.0) == isAnd then
        var rb := Eval(w, b, ra.1);
        (I(if w.truth(rb.0) then 1 else 0), rb.1)
      else (I(if isAnd then 0 else 1), ra.1)
    case Cond(c, a, b) =>
      var rc := Eval(w, c, s);
      if w.truth(rc.0) then Eval(w, a, rc.1) else Eval(w, b, rc.1)
    case Cast(ty, e1) => var r := Eval(w, e1, s); (w.cast(ty, r.0), r.1)
    case Sizeof(e1) => (w.sizeOf(e1), s)
    case AddrOf(e1) => var r := EvalPlace(w, e1, s); (AddrOfPlace(r.0), r.1)
    case Deref(_, _) => var r := EvalPlace(w, e, s); Read(w, r.0, r.1)
    case Index(_, _, _, isArray, _) =>
      var r := EvalPlace(w, e, s);
      if isArray then (AddrOfPlace(r.0), r.1) else Read(w, r.0, r.1)
    case Member(_, _, isArray, _) =>
      var r := EvalPlace(w, e, s);
      if isArray then (AddrOfPlace(r.0), r.1) else Read(w, r.0, r.1)
    case Assign(aop, lhs, rhs) =>
      var rr := Eval(w, rhs, s);
      var rl := EvalPlace(w, lhs, rr.1);
      Modify(w, rl.0, aop, rr.0, rl.1)
    case IncDec(prefix, inc, lhs) =>
      var rl := EvalPlace(w, lhs, s);
      var ro := Read(w, rl.0, rl.1);
      var rw := Write(w, rl.0, w.bin(if inc then Add else Sub, ro.0, I(1)), ro.1);
      (if prefix then rw.0 else ro.0, rw.1)
    case Comma(a, b) => Eval(w, b, Eval(w, a, s).1)
    case Call(f, args) =>
      var r := EvalArgs(w, args, s);
      DoCall(w, f, r.0, r.1)
  }

  function EvalArgs(w: World, es: seq<Expr>, s: State): (seq<Value>, State)
    decreases es, 0
  {
    if es == [] then ([], s)
    else
      var r := Eval(w, es[0], s);
      var q := EvalArgs(w, es[1..], r.1);
      ([r.0] + q.0, q.1)
  }

  // ---- statements --------------------------------------------------------

  /** `Run` executes from the start; `Seek(l)` enters at the label `l`, which is
      how a `goto` or a `switch` arrives. */
  datatype Mode = Run | Seek(lab: Label)

  /** How a statement ends.  `Timeout` means that the fuel, which pays for loop
      iterations and jumps, ran out. */
  datatype Out = Norm | Brk | Cont | Jump(l: Name) | Ret(v: Option<Value>) | Timeout

  predicate HasLabel(s: Stmt, l: Label)
    decreases s, 1
  {
    match s
    case Block(items) => HasLabelIn(items, l)
    case If(_, thn, els) => HasLabel(thn, l) || (els.Some? && HasLabel(els.value, l))
    case While(_, body) => HasLabel(body, l)
    case DoWhile(body, _) => HasLabel(body, l)
    case For(_, _, _, body) => HasLabel(body, l)
    case Switch(_, body) => l.Named? && HasLabel(body, l)
    case LabelS(lab, body) => lab == l || HasLabel(body, l)
    case _ => false
  }

  predicate HasLabelIn(items: seq<Stmt>, l: Label)
    decreases items, 0
  {
    items != [] && (HasLabel(items[0], l) || HasLabelIn(items[1..], l))
  }

  function EvalInits(w: World, x: Name, es: seq<Expr>, k: int, s: State): State
  {
    if es == [] then s
    else
      var r := Eval(w, es[0], s);
      EvalInits(w, x, es[1..], k + 1, Write(w, PMem(x, k, false), r.0, r.1).1)
  }

  function ExecDeclr(w: World, d: Declr, s: State): State {
    match d.init
    case NoInit => s
    case InitE(e) => var r := Eval(w, e, s); Write(w, VarPlace(w, d.name), r.0, r.1).1
    case InitList(es) => EvalInits(w, d.name, es, 0, s)
  }

  function ExecDecls(w: World, ds: seq<Declr>, s: State): State {
    if ds == [] then s else ExecDecls(w, ds[1..], ExecDeclr(w, ds[0], s))
  }

  /** Evaluate an expression whose value is not used. */
  function EvalOpt(w: World, e: Option<Expr>, s: State): State {
    if e.Some? then Eval(w, e.value, s).1 else s
  }

  function ExecInit(w: World, i: ForInit, s: State): State {
    match i
    case FNone => s
    case FExpr(e) => Eval(w, e, s).1
    case FDecl(_, ds) => ExecDecls(w, ds, s)
  }

  /** The test of a loop; a missing condition is true, and `enter` skips the test. */
  function Test(w: World, c: Option<Expr>, enter: bool, s: State): (bool, State) {
    if enter || c.None? then (true, s) else var r := Eval(w, c.value, s); (w.truth(r.0), r.1)
  }

  /** The label at which a `switch` enters its body. */
  function SwitchTarget(body: Stmt, v: int): Option<Label> {
    if HasLabel(body, CaseOf(v)) then Some(CaseOf(v))
    else if HasLabel(body, Default) then Some(Default)
    else None
  }

  function Exec(w: World, fuel: nat, s: Stmt, m: Mode, st: State): (Out, State)
    decreases fuel, s, 1
  {
    match s
    case Empty => (Norm, st)
    case ExprS(e) => (Norm, Eval(w, e, st).1)
    case Block(items) => ExecList(w, fuel, items, m, st)
    case DeclS(_, ds) => (Norm, ExecDecls(w, ds, st))
    case If(c, thn, els) =>
      if m.Seek? then
        if HasLabel(thn, m.lab) || els.None? then Exec(w, fuel, thn, m, st)
        else Exec(w, fuel, els.value, m, st)
      else
        var r := Eval(w, c, st);
        if w.truth(r.0) then Exec(w, fuel, thn, Run, r.1)
        else if els.Some? then Exec(w, fuel, els.value, Run, r.1)
        else (Norm, r.1)
    case While(c, body) => Loop(w, fuel, Some(c), None, body, m, m.Seek?, st)
    case DoWhile(body, c) => Loop(w, fuel, Some(c), None, body, m, true, st)
    case For(init, cond, upd, body) =>
      if m.Seek? then Loop(w, fuel, cond, upd, body, m, true, st)
      else Loop(w, fuel, cond, upd, body, Run, false, ExecInit(w, init, st))
    case Switch(e, body) =>
      if m.Seek? then EndSwitch(Exec(w, fuel, body, m, st))
      else
        var r := Eval(w, e, st);
        var t := SwitchTarget(body, w.caseOf(r.0));
        if t.None? then (Norm, r.1) else EndSwitch(Exec(w, fuel, body, Seek(t.value), r.1))
    case LabelS(lab, body) =>
      Exec(w, fuel, body, if m == Seek(lab) then Run else m, st)
    case Goto(l) => (Jump(l), st)
    case Break => (Brk, st)
    case Continue => (Cont, st)
    case Return(r) =>
      if r.None? then (Ret(None), st) else var v := Eval(w, r.value, st); (Ret(Some(v.0)), v.1)
  }

  function EndSwitch(r: (Out, State)): (Out, State) {
    if r.0 == Brk then (Norm, r.1) else r
  }

  /** One test and one pass of a loop body: how the loop ends, or `None` to go on. */
  function Turn(w: World, fuel: nat, c: Option<Expr>, body: Stmt, m: Mode, enter: bool, st: State): (Option<Out>, State)
    decreases fuel, body, 2
  {
    var t := Test(w, c, enter, st);
    if !t.0 then (Some(Norm), t.1) else EndTurn(Exec(w, fuel, body, m, t.1))
  }

  function EndTurn(r: (Out, State)): (Option<Out>, State) {
    (if r.0 == Brk then Some(Norm) else if r.0 == Norm || r.0 == Cont then None else Some(r.0), r.1)
  }

  /** A loop; `enter` goes into the body without the test (a `do` loop, or a jump
      into the body). */
  function Loop(w: World, fuel: nat, c: Option<Expr>, u: Option<Expr>, body: Stmt, m: Mode,
                enter: bool, st: State): (Out, State)
    decreases fuel, body, 3
  {
    var t := Turn(w, fuel, c, body, m, enter, st);
    if t.0.Some? then (t.0.value, t.1)
    else if fuel == 0 then (Timeout, t.1)
    else Loop(w, fuel - 1, c, u, body, Run, false, EvalOpt(w, u, t.1))
  }

  function ExecList(w: World, fuel: nat, items: seq<Stmt>, m: Mode, st: State): (Out, State)
    decreases fuel, items, 0
  {
    if items == [] then (Norm, st)
    else if m.Seek? && !HasLabel(items[0], m.lab) then ExecList(w, fuel, items[1..], m, st)
    else
      var r := Exec(w, fuel, items[0], m, st);
      if r.0 == Norm then ExecList(w, fuel, items[1..], Run, r.1) else r
  }

  /** Run a function body; a jump that leaves the body enters it again at the label. */
  function RunBody(w: World, fuel: nat, items: seq<Stmt>, m: Mode, st: State): (Out, State)
    decreases fuel
  {
    var r := ExecList(w, fuel, items, m, st);
    if r.0.Jump? && HasLabelIn(items, Named(r.0.l)) then
      if fuel == 0 then (Timeout, r.1)
      else RunBody(w, fuel - 1, items, Seek(Named(r.0.l)), r.1)
    else r
  }

  /** What a caller can see of a run: how it ended, the memory and the effects. */
  function Obs(r: (Out, State)): (Out, Mem, seq<Event>) {
    (r.0, r.1.mem, r.1.trace)
  }
}
