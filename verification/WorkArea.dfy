/** The code with which an interrupt function saves the work areas of the runtime library on the
    stack and restores them. */
module WorkArea {
  import opened Wrappers
  import opened Z80
  import opened BlockOps

  /** A work area: its address as the assembler has it, and its bytes. */
  datatype Area = Area(addr: int, size: nat)

  const WORD_LIMIT := 6

  /** What one push, or one LDIR, saves. */
  datatype Piece = WordAt(a: int) | ByteAt(a: int) | BlockAt(a: int, n: nat)
  {
    predicate Ok() { this.BlockAt? ==> WORD_LIMIT < n <= 0xFFFF }

    function Length(): nat { match this case WordAt(_) => 2 case ByteAt(_) => 1 case BlockAt(_, n) => n }

    /** The bytes it takes on the stack. */
    function Depth(): nat { match this case WordAt(_) => 2 case ByteAt(_) => 2 case BlockAt(_, n) => n }

    predicate Holds(x: Word) { Within(x, a, Length()) }
  }

  function Save(p: Piece): (c: seq<Instr>)
    ensures Straight(c)
  {
    match p
    case WordAt(a) => [LD_HL_at(a), PUSH_HL]
    case ByteAt(a) => [LD_A_at(a), PUSH_AF]
    case BlockAt(a, n) => [LD_HL_nn(0 - n), ADD_HL_SP, LD_SP_HL, EX_DE_HL, LD_HL_nn(a), LD_BC_nn(n), LDIR]
  }

  function Restore(p: Piece): (c: seq<Instr>)
    ensures Straight(c)
  {
    match p
    case WordAt(a) => [POP_HL, LD_at_HL(a)]
    case ByteAt(a) => [POP_AF, LD_at_A(a)]
    case BlockAt(a, n) => [LD_HL_nn(0), ADD_HL_SP, LD_DE_nn(a), LD_BC_nn(n), LDIR, LD_SP_HL]
  }

  function SaveAll(ps: seq<Piece>): (c: seq<Instr>)
    ensures Straight(c)
  {
    if ps == [] then [] else Save(ps[0]) + SaveAll(ps[1..])
  }

  /** The last piece saved comes back first. */
  function RestoreAll(ps: seq<Piece>): (c: seq<Instr>)
    ensures Straight(c)
  {
    if ps == [] then [] else RestoreAll(ps[1..]) + Restore(ps[0])
  }

  function DepthAll(ps: seq<Piece>): nat { if ps == [] then 0 else ps[0].Depth() + DepthAll(ps[1..]) }

  predicate HoldsAll(ps: seq<Piece>, x: Word) { ps != [] && (ps[0].Holds(x) || HoldsAll(ps[1..], x)) }

  predicate AllOk(ps: seq<Piece>) { forall i :: 0 <= i < |ps| ==> ps[i].Ok() }

  // ---- the stack ------------------------------------------------------------------------------

  /** `x` is one of the `d` bytes below `sp`. */
  predicate Below(x: Word, sp: Word, d: nat) { Addr(sp - 1 - x) < d }

  lemma BelowSplit(x: Word, sp: Word, i: nat, j: nat)
    requires i + j <= 0x1_0000
    ensures Below(x, sp, i + j) <==> Below(x, sp, i) || Below(x, Addr(sp - i), j)
    ensures !(Below(x, sp, i) && Below(x, Addr(sp - i), j))
  {
    hide Addr;
    AddrAdd(sp - i, 0 - 1 - x);
    AddrAdd(sp - 1 - x, 0 - i);
    AddrNear(Addr(sp - 1 - x) - i);
    AddrNear(0);
  }

  lemma BelowWithin(x: Word, sp: Word, n: nat)
    requires n <= 0x1_0000
    ensures Below(x, sp, n) <==> Within(x, Addr(sp - n), n)
  {
    hide Addr;
    AddrAdd(sp - n, x);
    AddrAdd(sp - 1 - x, 1 - n);
    AddrAdd(0 - (sp - 1 - x), n - 1);
    var o := Addr(sp - 1 - x);
    AddrAdd(sp - 1 - x, n - 1);
    AddrNear(n - 1 - o);
    assert x - (sp - n) == n - 1 - (sp - 1 - x);
  }

  lemma PairParts(h: Byte, l: Byte)
    ensures High(Pair(h, l)) == h && Low(Pair(h, l)) == l
  {
    LowIs(Pair(h, l));
  }

  /** What a piece needs of the state: its bytes and the stack bytes below `s.SP` are apart, and
      none is read-only. */
  ghost predicate Apart(p: Piece, s: State) {
    forall x: Word ::
      (p.Holds(x) || Below(x, s.SP, p.Depth()) ==> x !in s.rom) && !(p.Holds(x) && Below(x, s.SP, p.Depth()))
  }

  /** What a save leaves: the stack pointer below the saved bytes, and nothing else changed. */
  ghost predicate Saved(s: State, t: State, d: nat) {
    t.SP == Addr(s.SP - d) && t.rom == s.rom && forall x: Word :: !Below(x, s.SP, d) ==> t.mem[x] == s.mem[x]
  }

  /** `u` has the stack pointer and the `d` stack bytes that the save left in `t`. */
  ghost predicate Kept(s: State, t: State, u: State, d: nat) {
    u.SP == t.SP && u.rom == t.rom && forall x: Word :: Below(x, s.SP, d) ==> u.mem[x] == t.mem[x]
  }

  /** What a restore gives: the stack pointer and the bytes of the piece as they were before the
      save, and no other byte changed. */
  ghost predicate Restored(p: Piece, s: State, u: State, r: State) {
    r.SP == s.SP && r.rom == s.rom && forall x: Word :: r.mem[x] == if p.Holds(x) then s.mem[x] else u.mem[x]
  }

  // ---- a word ----------------------------------------------------------------------------------

  lemma SaveWord(a: int, s: State)
    requires Addr(s.SP - 1) !in s.rom && Addr(s.SP - 2) !in s.rom
    ensures
      var t := Exec(Save(WordAt(a)), s);
      t.SP == Addr(s.SP - 2) && t.rom == s.rom && t.T == s.T + 27 &&
      t.mem == s.mem[Addr(s.SP - 1) := s.mem[Addr(Addr(a) + 1)]][Addr(s.SP - 2) := s.mem[Addr(a)]]
  {
    hide Exec, Addr, High, Low, Pair, LdirAll, Transfer;
    ExecTwo(LD_HL_at(a), PUSH_HL, s);
    var h, l := s.mem[Addr(Addr(a) + 1)], s.mem[Addr(a)];
    PairParts(h, l);
    PairSplit(Pair(h, l));
  }

  lemma RestoreWord(a: int, u: State)
    requires Addr(a) !in u.rom && Addr(Addr(a) + 1) !in u.rom
    ensures
      var r := Exec(Restore(WordAt(a)), u);
      r.SP == Addr(u.SP + 2) && r.rom == u.rom && r.T == u.T + 26 &&
      r.mem == u.mem[Addr(a) := u.mem[u.SP]][Addr(Addr(a) + 1) := u.mem[Addr(u.SP + 1)]]
  {
    hide Exec, Addr, High, Low, Pair, LdirAll, Transfer;
    ExecTwo(POP_HL, LD_at_HL(a), u);
    var h, l := u.mem[Addr(u.SP + 1)], u.mem[u.SP];
    PairParts(h, l);
    PairSplit(Pair(h, l));
  }

  /** The two bytes from `a` on, and the two below `sp`. */
  lemma TwoBytes(a: int, sp: Word, x: Word)
    ensures Within(x, a, 2) <==> x == Addr(a) || x == Addr(Addr(a) + 1)
    ensures Below(x, sp, 2) <==> x == Addr(sp - 1) || x == Addr(sp - 2)
    ensures Addr(Addr(sp - 2) + 1) == Addr(sp - 1) && Addr(Addr(sp - 2) + 2) == sp
    ensures Addr(a) != Addr(Addr(a) + 1) && Addr(sp - 1) != Addr(sp - 2)
  {
    hide Addr;
    AddrAdd(a, x);
    AddrNear(x - Addr(a));
    AddrNear(Addr(a) + 1);
    AddrNear(sp - 1 - x);
    AddrNear(sp - 1);
    AddrNear(sp - 2);
    AddrNear(Addr(sp - 2) + 1);
    AddrNear(Addr(sp - 2) + 2);
  }

  lemma WordUndone(a: int, s: State, u: State)
    requires Apart(WordAt(a), s)
    ensures var t := Exec(Save(WordAt(a)), s); Saved(s, t, 2) && t.T == s.T + 27
    ensures Kept(s, Exec(Save(WordAt(a)), s), u, 2) ==>
      var r := Exec(Restore(WordAt(a)), u); Restored(WordAt(a), s, u, r) && r.T == u.T + 26
  {
    hide Exec, Addr, Save, Restore, Within, Below;
    forall x: Word
      ensures Within(x, a, 2) <==> x == Addr(a) || x == Addr(Addr(a) + 1)
      ensures Below(x, s.SP, 2) <==> x == Addr(s.SP - 1) || x == Addr(s.SP - 2)
    {
      TwoBytes(a, s.SP, x);
    }
    TwoBytes(a, s.SP, s.SP);
    assert WordAt(a).Holds(Addr(a)) && WordAt(a).Holds(Addr(Addr(a) + 1));
    SaveWord(a, s);
    if Kept(s, Exec(Save(WordAt(a)), s), u, 2) { RestoreWord(a, u); }
  }

  // ---- a byte ----------------------------------------------------------------------------------

  lemma SaveByte(a: int, s: State)
    requires Addr(s.SP - 1) !in s.rom && Addr(s.SP - 2) !in s.rom
    ensures
      var t := Exec(Save(ByteAt(a)), s);
      t.SP == Addr(s.SP - 2) && t.rom == s.rom && t.T == s.T + 24 &&
      t.mem == s.mem[Addr(s.SP - 1) := s.mem[Addr(a)]][Addr(s.SP - 2) := FlagsByte(s.F)]
  {
    hide Exec, Addr, High, Low, Pair, LdirAll, Transfer, FlagsByte;
    ExecTwo(LD_A_at(a), PUSH_AF, s);
    PairParts(s.mem[Addr(a)], FlagsByte(s.F));
  }

  lemma RestoreByte(a: int, u: State)
    requires Addr(a) !in u.rom
    ensures
      var r := Exec(Restore(ByteAt(a)), u);
      r.SP == Addr(u.SP + 2) && r.rom == u.rom && r.T == u.T + 23 && r.mem == u.mem[Addr(a) := u.mem[Addr(u.SP + 1)]]
  {
    hide Exec, Addr, High, Low, Pair, LdirAll, Transfer, ByteFlags;
    ExecTwo(POP_AF, LD_at_A(a), u);
    PairParts(u.mem[Addr(u.SP + 1)], u.mem[u.SP]);
  }

  lemma ByteUndone(a: int, s: State, u: State)
    requires Apart(ByteAt(a), s)
    ensures var t := Exec(Save(ByteAt(a)), s); Saved(s, t, 2) && t.T == s.T + 24
    ensures Kept(s, Exec(Save(ByteAt(a)), s), u, 2) ==>
      var r := Exec(Restore(ByteAt(a)), u); Restored(ByteAt(a), s, u, r) && r.T == u.T + 23
  {
    hide Exec, Addr, Save, Restore, Within, Below;
    forall x: Word
      ensures Within(x, a, 1) <==> x == Addr(a)
      ensures Below(x, s.SP, 2) <==> x == Addr(s.SP - 1) || x == Addr(s.SP - 2)
    {
      TwoBytes(a, s.SP, x);
      OneByte(a, x);
    }
    TwoBytes(a, s.SP, s.SP);
    assert ByteAt(a).Holds(Addr(a));
    SaveByte(a, s);
    if Kept(s, Exec(Save(ByteAt(a)), s), u, 2) { RestoreByte(a, u); }
  }

  lemma OneByte(a: int, x: Word)
    ensures Within(x, a, 1) <==> x == Addr(a)
  {
    hide Addr;
    AddrAdd(a, x);
    AddrNear(x - Addr(a));
  }

  // ---- a block ---------------------------------------------------------------------------------

  lemma SetWord(s: State, v: Word)
    ensures
      s.SetHL(v).HL() == v && s.SetHL(v).DE() == s.DE() && s.SetHL(v).BC() == s.BC() &&
      s.SetDE(v).DE() == v && s.SetDE(v).HL() == s.HL() && s.SetDE(v).BC() == s.BC() &&
      s.SetBC(v).BC() == v && s.SetBC(v).HL() == s.HL() && s.SetBC(v).DE() == s.DE()
  {
    hide High, Low, Pair;
    PairSplit(v);
  }

  /** `LD HL,n`, then `ADD HL,SP`. */
  lemma OffsetSP(n: int, s: State)
    ensures
      var t := Exec([LD_HL_nn(n), ADD_HL_SP], s);
      t.HL() == Addr(s.SP + n) && t.mem == s.mem && t.rom == s.rom && t.SP == s.SP && t.T == s.T + 21
  {
    hide Exec, Addr, High, Low, Pair, LdirAll, Transfer, AfterAdd;
    ExecTwo(LD_HL_nn(n), ADD_HL_SP, s);
    SetWord(s, Addr(n));
    AddrAdd(n, s.SP);
    var s1 := Do(LD_HL_nn(n), s);
    PairSplit(Addr(s1.HL() + s.SP));
  }

  lemma SaveBlock(a: int, n: nat, s: State)
    requires 1 <= n <= 0xFFFF
    ensures
      var t := Exec(Save(BlockAt(a, n)), s);
      t.SP == Addr(s.SP - n) && t.rom == s.rom && t.T == s.T + 51 + 21 * n - 5 &&
      t.mem == Copied(s.mem, s.rom, Addr(a), Addr(s.SP - n), n)
  {
    hide Exec, Addr, High, Low, Pair, LdirAll, Transfer, Copied, Do;
    var head, mid, tail := [LD_HL_nn(0 - n), ADD_HL_SP], [LD_SP_HL, EX_DE_HL], [LD_BC_nn(n), LDIR];
    assert Save(BlockAt(a, n)) == head + (mid + ([LD_HL_nn(a)] + tail));
    ExecAppend(head, mid + ([LD_HL_nn(a)] + tail), s);
    OffsetSP(0 - n, s);
    var s1 := Exec(head, s);
    ExecAppend(mid, [LD_HL_nn(a)] + tail, s1);
    ExecTwo(LD_SP_HL, EX_DE_HL, s1);
    var s2 := Do(EX_DE_HL, Do(LD_SP_HL, s1));
    SwapDE(s1);
    ExecCons(LD_HL_nn(a), tail, s2);
    LoadHL(s2, a);
    var s3 := Do(LD_HL_nn(a), s2);
    LoadThenLdir(n, s3);
    LoadBC(s3, n);
    CopyByLdir(s3.SetBC(n).Took(10), n);
  }

  lemma SwapDE(s: State)
    ensures
      var t := Do(EX_DE_HL, Do(LD_SP_HL, s));
      t.SP == s.HL() && t.DE() == s.HL() && t.mem == s.mem && t.rom == s.rom && t.T == s.T + 10
  {
    hide LdirAll, Transfer;
  }

  lemma LoadHL(s: State, a: int)
    ensures var t := Do(LD_HL_nn(a), s);
      t.HL() == Addr(a) && t.DE() == s.DE() && t.mem == s.mem && t.rom == s.rom && t.SP == s.SP && t.T == s.T + 10
  {
    hide LdirAll, Transfer, Addr, High, Low, Pair;
    SetWord(s, Addr(a));
  }

  lemma LoadDE(s: State, a: int)
    ensures var t := Do(LD_DE_nn(a), s);
      t.DE() == Addr(a) && t.HL() == s.HL() && t.mem == s.mem && t.rom == s.rom && t.SP == s.SP && t.T == s.T + 10
  {
    hide LdirAll, Transfer, Addr, High, Low, Pair;
    SetWord(s, Addr(a));
  }

  lemma CopyByLdir(s: State, n: nat)
    requires 1 <= n <= 0xFFFF && s.BC() == n
    ensures
      var t := LdirAll(s);
      t.mem == Copied(s.mem, s.rom, s.HL(), s.DE(), n) && t.HL() == Addr(s.HL() + n) && t.SP == s.SP &&
      t.rom == s.rom &&
      t.T == s.T + 21 * n - 5
  {
    hide Transfers, Addr, Copied, Pair;
    TransfersDo(s, n);
  }

  lemma RestoreBlock(a: int, n: nat, u: State)
    requires 1 <= n <= 0xFFFF
    ensures
      var r := Exec(Restore(BlockAt(a, n)), u);
      r.SP == Addr(u.SP + n) && r.rom == u.rom && r.T == u.T + 47 + 21 * n - 5 &&
      r.mem == Copied(u.mem, u.rom, u.SP, Addr(a), n)
  {
    hide Exec, Addr, High, Low, Pair, LdirAll, Transfer, Copied, Do;
    var head, tail := [LD_HL_nn(0), ADD_HL_SP], [LD_BC_nn(n), LDIR];
    assert Restore(BlockAt(a, n)) == head + ([LD_DE_nn(a)] + (tail + [LD_SP_HL]));
    ExecAppend(head, [LD_DE_nn(a)] + (tail + [LD_SP_HL]), u);
    OffsetSP(0, u);
    AddrNear(u.SP);
    assert u.SP + 0 == u.SP;
    var u1 := Exec(head, u);
    ExecCons(LD_DE_nn(a), tail + [LD_SP_HL], u1);
    LoadDE(u1, a);
    var u2 := Do(LD_DE_nn(a), u1);
    ExecAppend(tail, [LD_SP_HL], u2);
    LoadThenLdir(n, u2);
    LoadBC(u2, n);
    var u3 := u2.SetBC(n).Took(10);
    CopyByLdir(u3, n);
    ExecOne(LD_SP_HL, LdirAll(u3));
    StackFromHL(LdirAll(u3));
  }

  lemma StackFromHL(s: State)
    ensures Do(LD_SP_HL, s) == s.(SP := s.HL()).Took(6)
  {
    hide LdirAll, Transfer;
  }

  lemma BlockUndone(a: int, n: nat, s: State, u: State)
    requires Apart(BlockAt(a, n), s) && 1 <= n <= 0xFFFF
    ensures var t := Exec(Save(BlockAt(a, n)), s); Saved(s, t, n) && t.T == s.T + 51 + 21 * n - 5
    ensures Kept(s, Exec(Save(BlockAt(a, n)), s), u, n) ==>
      var r := Exec(Restore(BlockAt(a, n)), u); Restored(BlockAt(a, n), s, u, r) && r.T == u.T + 47 + 21 * n - 5
  {
    hide Exec, Addr, Save, Restore, Within, Below, Copied;
    var sp1 := Addr(s.SP - n);
    SaveBlock(a, n, s);
    BlocksForward(a, n, s);
    forall x: Word ensures Below(x, s.SP, n) <==> Within(x, sp1, n) { BelowWithin(x, s.SP, n); }
    forall x: Word ensures Within(x, a, n) <==> Within(x, Addr(a), n) { WithinAddr(x, a, n); }
    var t := Exec(Save(BlockAt(a, n)), s);
    assert Writable(s.rom, sp1, n) && Writable(s.rom, Addr(a), n);
    forall x: Word | !Below(x, s.SP, n) ensures t.mem[x] == s.mem[x] {
      BelowWithin(x, s.SP, n);
      CopyExact(s.mem, s.rom, Addr(a), sp1, n, x);
    }
    if Kept(s, t, u, n) {
      RestoreBlock(a, n, u);
      AddrAdd(s.SP - n, n);
      AddrNear(s.SP);
      var r := Exec(Restore(BlockAt(a, n)), u);
      forall x: Word
        ensures r.mem[x] == if Within(x, a, n) then s.mem[x] else u.mem[x]
      {
        CopyExact(u.mem, u.rom, sp1, Addr(a), n, x);
        if Within(x, a, n) {
          BackAndForth(x, Addr(a), sp1, n);
          CopyExact(s.mem, s.rom, Addr(a), sp1, n, Addr(sp1 + Addr(x - Addr(a))));
        }
      }
    }
  }

  lemma WithinAddr(x: Word, a: int, n: nat)
    ensures Within(x, a, n) <==> Within(x, Addr(a), n)
  {
    hide Addr;
    AddrAdd(a, x);
  }

  /** The byte that a block's byte `x` was saved to, and where that came from. */
  lemma BackAndForth(x: Word, a: Word, b: Word, n: nat)
    requires Within(x, a, n)
    ensures var y := Addr(b + Addr(x - a)); Within(y, b, n) && Addr(a + Addr(y - b)) == x
  {
    hide Addr;
    var o := Addr(x - a);
    AddrAdd(b + o, 0 - b);
    AddrNear(o);
    AddrAdd(x - a, a);
    AddrNear(x);
  }

  lemma BlocksForward(a: int, n: nat, s: State)
    requires Apart(BlockAt(a, n), s) && 1 <= n <= 0xFFFF
    ensures Forward(Addr(a), Addr(s.SP - n), n) && Forward(Addr(s.SP - n), Addr(a), n)
  {
    hide Addr, Below;
    var x, sp1 := Addr(a), Addr(s.SP - n);
    WithinAddr(sp1, a, n);
    WithinAddr(x, a, n);
    BelowWithin(x, s.SP, n);
    BelowWithin(sp1, s.SP, n);
    AddrNear(0);
    assert BlockAt(a, n).Holds(x) && Within(sp1, sp1, n);
  }

  // ---- all pieces --------------------------------------------------------------------------------

  function SaveTime(p: Piece): nat {
    match p case WordAt(_) => 27 case ByteAt(_) => 24 case BlockAt(_, n) => 46 + 21 * n
  }

  function RestoreTime(p: Piece): nat {
    match p case WordAt(_) => 26 case ByteAt(_) => 23 case BlockAt(_, n) => 42 + 21 * n
  }

  /** The save and the restore of one piece undo each other, and take these T-states. */
  lemma PieceUndone(p: Piece, s: State, u: State)
    requires p.Ok() && Apart(p, s)
    ensures var t := Exec(Save(p), s); Saved(s, t, p.Depth()) && t.T == s.T + SaveTime(p)
    ensures Kept(s, Exec(Save(p), s), u, p.Depth()) ==>
      var r := Exec(Restore(p), u); Restored(p, s, u, r) && r.T == u.T + RestoreTime(p)
  {
    hide Exec, Save, Restore, Apart, Saved, Kept, Restored;
    match p
    case WordAt(a) => WordUndone(a, s, u);
    case ByteAt(a) => ByteUndone(a, s, u);
    case BlockAt(a, n) => BlockUndone(a, n, s, u);
  }

  ghost predicate ApartAll(ps: seq<Piece>, s: State) {
    DepthAll(ps) <= 0x1_0000 &&
    forall x: Word ::
      (HoldsAll(ps, x) || Below(x, s.SP, DepthAll(ps)) ==> x !in s.rom) &&
      !(HoldsAll(ps, x) && Below(x, s.SP, DepthAll(ps)))
  }

  ghost predicate RestoredAll(ps: seq<Piece>, s: State, u: State, r: State) {
    r.SP == s.SP && r.rom == s.rom && forall x: Word :: r.mem[x] == if HoldsAll(ps, x) then s.mem[x] else u.mem[x]
  }

  lemma ApartParts(ps: seq<Piece>, s: State, s1: State)
    requires ps != [] && ApartAll(ps, s) && Saved(s, s1, ps[0].Depth())
    ensures Apart(ps[0], s) && ApartAll(ps[1..], s1)
  {
    hide Below, Piece.Holds, Piece.Depth;
    forall x: Word
      ensures Below(x, s.SP, DepthAll(ps)) <==> Below(x, s.SP, ps[0].Depth()) || Below(x, s1.SP, DepthAll(ps[1..]))
    {
      BelowSplit(x, s.SP, ps[0].Depth(), DepthAll(ps[1..]));
    }
  }

  function SaveTimeAll(ps: seq<Piece>): nat { if ps == [] then 0 else SaveTime(ps[0]) + SaveTimeAll(ps[1..]) }

  function RestoreTimeAll(ps: seq<Piece>): nat { if ps == [] then 0 else RestoreTime(ps[0]) + RestoreTimeAll(ps[1..]) }

  lemma {:induction false} AllSaved(ps: seq<Piece>, s: State)
    requires AllOk(ps) && ApartAll(ps, s)
    ensures var t := Exec(SaveAll(ps), s); Saved(s, t, DepthAll(ps)) && t.T == s.T + SaveTimeAll(ps)
    decreases |ps|
  {
    hide Exec, Save, Apart, ApartAll, Saved, Piece.Depth;
    if ps == [] {
      ExecNone(s);
      NothingSaved(s);
    } else {
      var s1 := Exec(Save(ps[0]), s);
      PieceApart(ps, s);
      PieceUndone(ps[0], s, s);
      ApartParts(ps, s, s1);
      AllSaved(ps[1..], s1);
      ExecAppend(Save(ps[0]), SaveAll(ps[1..]), s);
      SavedBoth(s, s1, Exec(SaveAll(ps[1..]), s1), ps[0].Depth(), DepthAll(ps[1..]));
    }
  }

  lemma NothingSaved(s: State)
    ensures Saved(s, s, 0)
  {
  }

  lemma PieceApart(ps: seq<Piece>, s: State)
    requires ps != [] && ApartAll(ps, s)
    ensures Apart(ps[0], s) && DepthAll(ps) <= 0x1_0000
  {
    hide Below, Piece.Holds, Piece.Depth;
    forall x: Word
      ensures Below(x, s.SP, ps[0].Depth()) ==> Below(x, s.SP, DepthAll(ps))
    {
      BelowSplit(x, s.SP, ps[0].Depth(), DepthAll(ps[1..]));
    }
  }

  lemma SavedBoth(s: State, s1: State, t: State, i: nat, j: nat)
    requires i + j <= 0x1_0000 && Saved(s, s1, i) && Saved(s1, t, j)
    ensures Saved(s, t, i + j)
  {
    hide Below, Addr;
    AddrAdd(s.SP - i, 0 - j);
    forall x: Word | !Below(x, s.SP, i + j) ensures t.mem[x] == s.mem[x] {
      BelowSplit(x, s.SP, i, j);
    }
  }

  /** Save and restore undo each other: after the save, any code `u` that gives the stack pointer
      back and keeps the saved stack bytes, and the restore, the stack pointer and every byte of
      every piece is as before the save, and the restore changed no other byte. */
  lemma {:induction false} AllUndone(ps: seq<Piece>, s: State, u: State)
    requires AllOk(ps) && ApartAll(ps, s) && Kept(s, Exec(SaveAll(ps), s), u, DepthAll(ps))
    ensures var r := Exec(RestoreAll(ps), u); RestoredAll(ps, s, u, r) && r.T == u.T + RestoreTimeAll(ps)
    decreases |ps|
  {
    hide Exec, Save, Restore, Apart, ApartAll, Saved, Kept, RestoredAll, Restored, Piece.Depth, HoldsAll;
    if ps == [] {
      ExecNone(s);
      ExecNone(u);
      NothingRestored(s, u);
    } else {
      var rest := ps[1..];
      var s1 := Exec(Save(ps[0]), s);
      var t := Exec(SaveAll(rest), s1);
      PieceApart(ps, s);
      PieceUndone(ps[0], s, s);
      ApartParts(ps, s, s1);
      ExecAppend(Save(ps[0]), SaveAll(rest), s);
      AllSaved(rest, s1);
      KeptRest(ps, s, s1, t, u);
      AllUndone(rest, s1, u);
      var r1 := Exec(RestoreAll(rest), u);
      ExecAppend(RestoreAll(rest), Restore(ps[0]), u);
      KeptFirst(ps, s, s1, t, u, r1);
      PieceUndone(ps[0], s, r1);
      RestoredBoth(ps, s, s1, u, r1, Exec(Restore(ps[0]), r1));
    }
  }

  lemma NothingRestored(s: State, u: State)
    requires Kept(s, s, u, 0)
    ensures RestoredAll([], s, u, u)
  {
  }

  lemma KeptRest(ps: seq<Piece>, s: State, s1: State, t: State, u: State)
    requires ps != [] && DepthAll(ps) <= 0x1_0000
    requires Saved(s, s1, ps[0].Depth()) && Saved(s1, t, DepthAll(ps[1..])) && Kept(s, t, u, DepthAll(ps))
    ensures Kept(s1, t, u, DepthAll(ps[1..]))
  {
    hide Below, Addr, Piece.Depth;
    forall x: Word | Below(x, s1.SP, DepthAll(ps[1..])) ensures u.mem[x] == t.mem[x] {
      BelowSplit(x, s.SP, ps[0].Depth(), DepthAll(ps[1..]));
    }
  }

  lemma KeptFirst(ps: seq<Piece>, s: State, s1: State, t: State, u: State, r1: State)
    requires ps != [] && ApartAll(ps, s) && Saved(s, s1, ps[0].Depth()) && Saved(s1, t, DepthAll(ps[1..]))
    requires Kept(s, t, u, DepthAll(ps)) && RestoredAll(ps[1..], s1, u, r1)
    ensures Kept(s, s1, r1, ps[0].Depth())
  {
    hide Below, Addr, Piece.Holds, Piece.Depth;
    forall x: Word | Below(x, s.SP, ps[0].Depth()) ensures r1.mem[x] == s1.mem[x] {
      BelowSplit(x, s.SP, ps[0].Depth(), DepthAll(ps[1..]));
      assert !HoldsAll(ps, x);
    }
  }

  lemma RestoredBoth(ps: seq<Piece>, s: State, s1: State, u: State, r1: State, r: State)
    requires ps != [] && ApartAll(ps, s) && Saved(s, s1, ps[0].Depth())
    requires RestoredAll(ps[1..], s1, u, r1) && Restored(ps[0], s, r1, r)
    ensures RestoredAll(ps, s, u, r)
  {
    hide Below, Addr, Piece.Holds, Piece.Depth;
    forall x: Word ensures r.mem[x] == if HoldsAll(ps, x) then s.mem[x] else u.mem[x] {
      BelowSplit(x, s.SP, ps[0].Depth(), DepthAll(ps[1..]));
    }
  }

  // ---- the generator -------------------------------------------------------------------------------

  /** The pieces of the bytes of an area of up to six bytes from `off` on: words, then an odd
      byte. */
  function Words(a: int, off: nat, size: nat): (ps: seq<Piece>)
    ensures AllOk(ps)
    decreases size - off
  {
    if size - off >= 2 then [WordAt(a + off)] + Words(a, off + 2, size)
    else if size - off == 1 then [ByteAt(a + off)]
    else []
  }

  function Pieces(x: Area): (ps: seq<Piece>)
    ensures x.size <= 0xFFFF ==> AllOk(ps)
  {
    if x.size <= WORD_LIMIT then Words(x.addr, 0, x.size) else [BlockAt(x.addr, x.size)]
  }

  function PiecesOf(plan: seq<Area>): (ps: seq<Piece>)
    ensures (forall i :: 0 <= i < |plan| ==> plan[i].size <= 0xFFFF) ==> AllOk(ps)
  {
    if plan == [] then [] else Pieces(plan[0]) + PiecesOf(plan[1..])
  }

  lemma {:induction false} SaveAppend(a: seq<Piece>, b: seq<Piece>)
    ensures SaveAll(a + b) == SaveAll(a) + SaveAll(b) && RestoreAll(a + b) == RestoreAll(b) + RestoreAll(a)
    decreases |a|
  {
    hide Save, Restore;
    if a == [] {
      assert a + b == b;
    } else {
      var c := a[1..];
      assert (a + b)[0] == a[0] && (a + b)[1..] == c + b;
      SaveAppend(c, b);
      Associate(Save(a[0]), SaveAll(c), SaveAll(b));
      Associate(RestoreAll(b), RestoreAll(c), Restore(a[0]));
    }
  }

  lemma Associate(a: seq<Instr>, b: seq<Instr>, c: seq<Instr>)
    ensures a + (b + c) == (a + b) + c
  {
  }

  /** The generated text undoes itself: for every plan whose areas are apart from the stack bytes
      it uses. */
  lemma SaveRestore(plan: seq<Area>, s: State, u: State)
    requires forall i :: 0 <= i < |plan| ==> plan[i].size <= 0xFFFF
    requires ApartAll(PiecesOf(plan), s) && Kept(s, Exec(SaveAll(PiecesOf(plan)), s), u, DepthAll(PiecesOf(plan)))
    ensures
      var r := Exec(RestoreAll(PiecesOf(plan)), u);
      r.SP == s.SP &&
      (forall x: Word :: InPlan(plan, x) ==> r.mem[x] == s.mem[x]) &&
      (forall x: Word :: !InPlan(plan, x) ==> r.mem[x] == u.mem[x])
  {
    hide Exec, SaveAll, RestoreAll, ApartAll, Kept, DepthAll, PiecesOf, InPlan, HoldsAll;
    AllUndone(PiecesOf(plan), s, u);
    forall x: Word ensures HoldsAll(PiecesOf(plan), x) <==> InPlan(plan, x) { PlanHolds(plan, x); }
  }

  /** `x` is a byte of an area of the plan. */
  predicate InPlan(plan: seq<Area>, x: Word) {
    exists i :: 0 <= i < |plan| && Within(x, plan[i].addr, plan[i].size)
  }

  lemma {:induction false} HoldsAppend(a: seq<Piece>, b: seq<Piece>, x: Word)
    ensures HoldsAll(a + b, x) <==> HoldsAll(a, x) || HoldsAll(b, x)
    decreases |a|
  {
    hide Piece.Holds;
    if a == [] {
      assert a + b == b;
    } else {
      HoldsAppend(a[1..], b, x);
      assert (a + b)[0] == a[0] && (a + b)[1..] == a[1..] + b;
    }
  }

  lemma {:induction false} WordsHold(a: int, off: nat, size: nat, x: Word)
    requires off <= size <= WORD_LIMIT
    ensures HoldsAll(Words(a, off, size), x) <==> Within(x, a + off, size - off)
    decreases size - off
  {
    hide Addr;
    if size - off >= 2 {
      WordsHold(a, off + 2, size, x);
      AddrAdd(x - (a + off), 0 - 2);
      AddrNear(Addr(x - (a + off)) - 2);
      assert Words(a, off, size)[0] == WordAt(a + off) && Words(a, off, size)[1..] == Words(a, off + 2, size);
    } else if size - off == 1 {
      assert Words(a, off, size)[1..] == [];
    }
  }

  lemma {:induction false} PlanHolds(plan: seq<Area>, x: Word)
    ensures HoldsAll(PiecesOf(plan), x) <==> InPlan(plan, x)
    decreases |plan|
  {
    if plan != [] {
      hide Within, Words;
      var a := plan[0];
      HoldsAppend(Pieces(a), PiecesOf(plan[1..]), x);
      PlanHolds(plan[1..], x);
      assert a.addr + 0 == a.addr;
      if a.size <= WORD_LIMIT {
        WordsHold(a.addr, 0, a.size, x);
      } else {
        assert Pieces(a)[0] == BlockAt(a.addr, a.size) && Pieces(a)[1..] == [];
      }
      InPlanStep(plan, x);
    }
  }

  lemma InPlanStep(plan: seq<Area>, x: Word)
    requires plan != []
    ensures InPlan(plan, x) <==> Within(x, plan[0].addr, plan[0].size) || InPlan(plan[1..], x)
  {
    hide Within;
    if InPlan(plan[1..], x) {
      var i :| 0 <= i < |plan[1..]| && Within(x, plan[1..][i].addr, plan[1..][i].size);
      assert plan[i + 1] == plan[1..][i];
    }
    if InPlan(plan, x) {
      var i :| 0 <= i < |plan| && Within(x, plan[i].addr, plan[i].size);
      assert i > 0 ==> plan[i] == plan[1..][i - 1];
    }
  }

  /** The lines for the words and the odd byte of an area. */
  method WordArea(a: int, size: nat) returns (save: seq<Instr>, restore: seq<Instr>)
    requires size <= WORD_LIMIT
    ensures save == SaveAll(Words(a, 0, size)) && restore == RestoreAll(Words(a, 0, size))
  {
    hide SaveAll, RestoreAll, Save, Restore;
    save, restore := [], [];
    var off := 0;
    ghost var done: seq<Piece> := [];
    AllNone();
    while size - off >= 2
      invariant off <= size && done + Words(a, off, size) == Words(a, 0, size)
      invariant save == SaveAll(done) && restore == RestoreAll(done)
    {
      SaveLast(done, WordAt(a + off));
      save := save + [LD_HL_at(a + off), PUSH_HL];
      restore := [POP_HL, LD_at_HL(a + off)] + restore;
      assert Words(a, off, size) == [WordAt(a + off)] + Words(a, off + 2, size);
      done := done + [WordAt(a + off)];
      off := off + 2;
    }
    if size - off == 1 {
      SaveLast(done, ByteAt(a + off));
      save := save + [LD_A_at(a + off), PUSH_AF];
      restore := [POP_AF, LD_at_A(a + off)] + restore;
      assert done + [ByteAt(a + off)] == Words(a, 0, size);
    } else {
      assert done == Words(a, 0, size);
    }
  }

  lemma AllNone()
    ensures SaveAll([]) == [] && RestoreAll([]) == []
  {
  }

  lemma SaveLast(ps: seq<Piece>, p: Piece)
    ensures SaveAll(ps + [p]) == SaveAll(ps) + Save(p) && RestoreAll(ps + [p]) == Restore(p) + RestoreAll(ps)
    ensures p.WordAt? ==> Save(p) == [LD_HL_at(p.a), PUSH_HL] && Restore(p) == [POP_HL, LD_at_HL(p.a)]
    ensures p.ByteAt? ==> Save(p) == [LD_A_at(p.a), PUSH_AF] && Restore(p) == [POP_AF, LD_at_A(p.a)]
  {
    SaveAppend(ps, [p]);
    SaveOne(p);
  }

  lemma SaveOne(p: Piece)
    ensures SaveAll([p]) == Save(p) && RestoreAll([p]) == Restore(p)
  {
    hide Save, Restore;
    assert [p][1..] == [];
    AllNone();
  }

  lemma PiecesIs(a: Area)
    ensures Pieces(a) == if a.size <= WORD_LIMIT then Words(a.addr, 0, a.size) else [BlockAt(a.addr, a.size)]
  {
  }

  /** The save text and the restore text of a plan. */
  method Code(plan: seq<Area>) returns (save: seq<Instr>, restore: seq<Instr>)
    requires forall i :: 0 <= i < |plan| ==> plan[i].size <= 0xFFFF
    ensures save == SaveAll(PiecesOf(plan)) && restore == RestoreAll(PiecesOf(plan))
  {
    hide SaveAll, RestoreAll, Words, Pieces, Straight;
    save, restore := [], [];
    AllNone();
    ghost var done: seq<Piece> := [];
    for i := 0 to |plan|
      invariant save == SaveAll(done) && restore == RestoreAll(done)
      invariant done + PiecesOf(plan[i..]) == PiecesOf(plan)
    {
      var a, n := plan[i].addr, plan[i].size;
      var s, r;
      if n <= WORD_LIMIT {
        s, r := WordArea(a, n);
      } else {
        s := [LD_HL_nn(0 - n), ADD_HL_SP, LD_SP_HL, EX_DE_HL, LD_HL_nn(a), LD_BC_nn(n), LDIR];
        r := [LD_HL_nn(0), ADD_HL_SP, LD_DE_nn(a), LD_BC_nn(n), LDIR, LD_SP_HL];
        SaveOne(BlockAt(a, n));
      }
      PiecesIs(plan[i]);
      SaveAppend(done, Pieces(plan[i]));
      save := save + s;
      restore := r + restore;
      assert plan[i..][0] == plan[i] && plan[i..][1..] == plan[i + 1..];
      ghost var before := done;
      done := done + Pieces(plan[i]);
      assert done + PiecesOf(plan[i + 1..]) == before + PiecesOf(plan[i..]);
    }
    assert done == PiecesOf(plan);
  }

  // ---- the cost ------------------------------------------------------------------------------------

  /** Bytes and T-states that one area adds. */
  function AreaCost(n: nat): (nat, nat) {
    if n <= WORD_LIMIT then (n / 2 * 8 + n % 2 * 8, n / 2 * 53 + n % 2 * (13 + 11 + 10 + 13))
    else (27, 51 + 21 * n - 5 + 47 + 21 * n - 5)
  }

  function PlanCost(plan: seq<Area>): (nat, nat) {
    if plan == [] then (0, 0)
    else
      var a, b := AreaCost(plan[0].size), PlanCost(plan[1..]);
      (a.0 + b.0, a.1 + b.1)
  }

  function TimeAll(ps: seq<Piece>): nat { SaveTimeAll(ps) + RestoreTimeAll(ps) }

  function BytesAll(ps: seq<Piece>): nat { Bytes(SaveAll(ps)) + Bytes(RestoreAll(ps)) }

  lemma {:induction false} TimeAppend(a: seq<Piece>, b: seq<Piece>)
    ensures TimeAll(a + b) == TimeAll(a) + TimeAll(b)
    decreases |a|
  {
    hide SaveTime, RestoreTime;
    if a == [] {
      assert a + b == b;
    } else {
      TimeAppend(a[1..], b);
      assert (a + b)[0] == a[0] && (a + b)[1..] == a[1..] + b;
    }
  }

  lemma BytesOfAppend(a: seq<Piece>, b: seq<Piece>)
    ensures BytesAll(a + b) == BytesAll(a) + BytesAll(b)
  {
    hide SaveAll, RestoreAll, Bytes;
    SaveAppend(a, b);
    BytesAppend(SaveAll(a), SaveAll(b));
    BytesAppend(RestoreAll(b), RestoreAll(a));
  }

  lemma BytesOfOne(p: Piece)
    ensures BytesAll([p]) == if p.BlockAt? then 27 else 8
  {
    hide SaveAll, RestoreAll, Bytes;
    SaveOne(p);
    match p
    case WordAt(a) =>
      BytesTwo(LD_HL_at(a), PUSH_HL);
      BytesTwo(POP_HL, LD_at_HL(a));
    case ByteAt(a) =>
      BytesTwo(LD_A_at(a), PUSH_AF);
      BytesTwo(POP_AF, LD_at_A(a));
    case BlockAt(a, n) =>
      BlockBytes(a, n);
  }

  lemma BlockBytes(a: int, n: nat)
    ensures Bytes(Save(BlockAt(a, n))) == 14 && Bytes(Restore(BlockAt(a, n))) == 13
  {
    hide Bytes, Size, Save, Restore;
    BlockSaveBytes(a, n);
    BlockRestoreBytes(a, n);
  }

  lemma BlockSaveBytes(a: int, n: nat)
    ensures Bytes(Save(BlockAt(a, n))) == 14
  {
    hide Bytes;
    var s1, s2, tail := [LD_HL_nn(0 - n), ADD_HL_SP], [LD_SP_HL, EX_DE_HL], [LD_HL_nn(a)] + [LD_BC_nn(n), LDIR];
    BytesTwo(LD_HL_nn(0 - n), ADD_HL_SP);
    BytesTwo(LD_SP_HL, EX_DE_HL);
    BytesOne(LD_HL_nn(a));
    BytesTwo(LD_BC_nn(n), LDIR);
    assert Save(BlockAt(a, n)) == s1 + (s2 + tail);
    BytesAppend(s1, s2 + tail);
    BytesAppend(s2, tail);
    BytesAppend([LD_HL_nn(a)], [LD_BC_nn(n), LDIR]);
  }

  lemma BlockRestoreBytes(a: int, n: nat)
    ensures Bytes(Restore(BlockAt(a, n))) == 13
  {
    hide Bytes;
    var r1, r2, tail := [LD_HL_nn(0), ADD_HL_SP], [LD_DE_nn(a), LD_BC_nn(n)], [LDIR, LD_SP_HL];
    BytesTwo(LD_HL_nn(0), ADD_HL_SP);
    BytesTwo(LD_DE_nn(a), LD_BC_nn(n));
    BytesTwo(LDIR, LD_SP_HL);
    assert Restore(BlockAt(a, n)) == r1 + (r2 + tail);
    BytesAppend(r1, r2 + tail);
    BytesAppend(r2, tail);
  }

  lemma TimeOfOne(p: Piece)
    ensures TimeAll([p]) == SaveTime(p) + RestoreTime(p)
  {
    hide SaveTime, RestoreTime;
    assert [p][1..] == [];
    assert SaveTimeAll([p]) == SaveTime(p) + SaveTimeAll([]);
    assert RestoreTimeAll([p]) == RestoreTime(p) + RestoreTimeAll([]);
  }

  lemma {:induction false} WordsCost(a: int, off: nat, size: nat)
    requires off <= size <= WORD_LIMIT
    ensures BytesAll(Words(a, off, size)) == AreaCost(size - off).0 &&
      TimeAll(Words(a, off, size)) == AreaCost(size - off).1
    decreases size - off
  {
    hide TimeAll, BytesAll;
    NoPieces();
    if size - off >= 2 {
      WordsCost(a, off + 2, size);
      BytesOfAppend([WordAt(a + off)], Words(a, off + 2, size));
      TimeAppend([WordAt(a + off)], Words(a, off + 2, size));
      BytesOfOne(WordAt(a + off));
      TimeOfOne(WordAt(a + off));
    } else if size - off == 1 {
      BytesOfOne(ByteAt(a + off));
      TimeOfOne(ByteAt(a + off));
    }
  }

  lemma NoPieces()
    ensures BytesAll([]) == 0 && TimeAll([]) == 0
  {
    AllNone();
  }

  lemma {:induction false} PiecesCost(plan: seq<Area>)
    ensures BytesAll(PiecesOf(plan)) == PlanCost(plan).0 && TimeAll(PiecesOf(plan)) == PlanCost(plan).1
    decreases |plan|
  {
    hide TimeAll, BytesAll, Words;
    NoPieces();
    if plan != [] {
      var a, n := plan[0].addr, plan[0].size;
      BytesOfAppend(Pieces(plan[0]), PiecesOf(plan[1..]));
      TimeAppend(Pieces(plan[0]), PiecesOf(plan[1..]));
      PiecesCost(plan[1..]);
      if n <= WORD_LIMIT {
        WordsCost(a, 0, n);
      } else {
        BytesOfOne(BlockAt(a, n));
        TimeOfOne(BlockAt(a, n));
      }
    }
  }

  /** The bytes and the T-states that the save and the restore of a plan add. */
  method Cost(plan: seq<Area>) returns (nbytes: nat, tstates: nat)
    ensures (nbytes, tstates) == PlanCost(plan)
  {
    hide AreaCost;
    nbytes, tstates := 0, 0;
    for i := 0 to |plan|
      invariant nbytes + PlanCost(plan[i..]).0 == PlanCost(plan).0 &&
        tstates + PlanCost(plan[i..]).1 == PlanCost(plan).1
    {
      assert plan[i..][0] == plan[i] && plan[i..][1..] == plan[i + 1..];
      var c := AreaCost(plan[i].size);
      nbytes, tstates := nbytes + c.0, tstates + c.1;
    }
  }

  lemma SaveTimes(a: int, s: State)
    ensures Exec(Save(WordAt(a)), s).T == s.T + 27 && Exec(Save(ByteAt(a)), s).T == s.T + 24
  {
    hide Exec, Do;
    ExecTwo(LD_HL_at(a), PUSH_HL, s);
    ExecTwo(LD_A_at(a), PUSH_AF, s);
    DoTime(LD_HL_at(a), s);
    DoTime(PUSH_HL, Do(LD_HL_at(a), s));
    DoTime(LD_A_at(a), s);
    DoTime(PUSH_AF, Do(LD_A_at(a), s));
  }

  lemma RestoreTimes(a: int, s: State)
    ensures Exec(Restore(WordAt(a)), s).T == s.T + 26 && Exec(Restore(ByteAt(a)), s).T == s.T + 23
  {
    hide Exec, Do;
    ExecTwo(POP_HL, LD_at_HL(a), s);
    ExecTwo(POP_AF, LD_at_A(a), s);
    DoTime(POP_HL, s);
    DoTime(LD_at_HL(a), Do(POP_HL, s));
    DoTime(POP_AF, s);
    DoTime(LD_at_A(a), Do(POP_AF, s));
  }

  /** The T-states of the moves between memory, registers and the stack. */
  lemma DoTime(i: Instr, s: State)
    requires i.LD_HL_at? || i.LD_A_at? || i.LD_at_HL? || i.LD_at_A? ||
      i.PUSH_HL? || i.PUSH_AF? || i.POP_HL? || i.POP_AF?
    ensures Do(i, s).T == s.T +
      if i.PUSH_HL? || i.PUSH_AF? then 11
      else if i.POP_HL? || i.POP_AF? then 10
      else if i.LD_A_at? || i.LD_at_A? then 13 else 16
  {
    hide Addr, High, Low, Pair, LdirAll, Transfer, FlagsByte, ByteFlags;
  }

  /** The T-states of one piece, from any state. */
  lemma PieceTime(p: Piece, s: State)
    requires p.Ok()
    ensures Exec(Save(p), s).T == s.T + SaveTime(p) && Exec(Restore(p), s).T == s.T + RestoreTime(p)
  {
    hide Exec, Save, Restore, Addr, Copied;
    match p
    case WordAt(a) =>
      SaveTimes(a, s);
      RestoreTimes(a, s);
    case ByteAt(a) =>
      SaveTimes(a, s);
      RestoreTimes(a, s);
    case BlockAt(a, n) =>
      SaveBlock(a, n, s);
      RestoreBlock(a, n, s);
  }

  lemma {:induction false} PiecesTime(ps: seq<Piece>, s: State)
    requires AllOk(ps)
    ensures Exec(SaveAll(ps), s).T == s.T + SaveTimeAll(ps) && Exec(RestoreAll(ps), s).T == s.T + RestoreTimeAll(ps)
    decreases ps
  {
    hide Exec, Save, Restore, SaveTime, RestoreTime, Piece.Ok;
    if ps == [] {
      ExecNone(s);
    } else {
      ExecAppend(Save(ps[0]), SaveAll(ps[1..]), s);
      ExecAppend(RestoreAll(ps[1..]), Restore(ps[0]), s);
      PieceTime(ps[0], s);
      PieceTime(ps[0], Exec(RestoreAll(ps[1..]), s));
      PiecesTime(ps[1..], Exec(Save(ps[0]), s));
      PiecesTime(ps[1..], s);
    }
  }

  /** The cost is exact, from any states: the size of the code, and the T-states that running it
      takes. */
  lemma CostExact(plan: seq<Area>, s: State, u: State)
    requires forall i :: 0 <= i < |plan| ==> plan[i].size <= 0xFFFF
    ensures
      var ps := PiecesOf(plan);
      var t, r := Exec(SaveAll(ps), s), Exec(RestoreAll(ps), u);
      PlanCost(plan) == (Bytes(SaveAll(ps)) + Bytes(RestoreAll(ps)), (t.T - s.T) + (r.T - u.T))
  {
    hide Exec, SaveAll, RestoreAll, PiecesOf, PlanCost, Piece.Ok;
    PiecesTime(PiecesOf(plan), s);
    PiecesTime(PiecesOf(plan), u);
    PiecesCost(plan);
  }
}
