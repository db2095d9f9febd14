/** The Z80 instructions that the block operations and the work area code use: their effect on
    registers, flags and memory, their sizes and their T-states. */
module Z80 {
  type Byte = b: int | 0 <= b < 0x100

  type Word = w: int | 0 <= w < 0x1_0000

  type Memory = m: seq<Byte> | |m| == 0x1_0000 witness seq(0x1_0000, _ => 0)

  /** `v` modulo 256. */
  function Low(v: int): Byte
    decreases if v < 0 then 0x100 - v else v
  {
    if v < 0 then Low(v + 0x100) else if v >= 0x100 then Low(v - 0x100) else v
  }

  /** The high byte. */
  function High(v: nat): (h: nat)
    ensures 0x100 * h <= v < 0x100 * h + 0x100
  {
    if v < 0x100 then 0 else 1 + High(v - 0x100)
  }

  lemma {:induction false} LowIs(v: nat)
    ensures Low(v) == v - 0x100 * High(v)
    decreases v
  {
    if v >= 0x100 { LowIs(v - 0x100); }
  }

  lemma {:induction false} LowMod(v: int)
    ensures Low(v) == v % 0x100
    decreases if v < 0 then 0x100 - v else v
  {
    OneTurn(v);
    OneTurn(v - 0x100);
    if v < 0 { LowMod(v + 0x100); } else if v >= 0x100 { LowMod(v - 0x100); }
  }

  lemma OneTurn(v: int)
    ensures (v + 0x100) % 0x100 == v % 0x100
  {
  }

  /** `v` modulo 65536. */
  function Addr(v: int): Word
    decreases if v < 0 then 0x1_0000 - v else v
  {
    if v < 0 then Addr(v + 0x1_0000) else if v >= 0x1_0000 then Addr(v - 0x1_0000) else v
  }

  lemma {:induction false} AddrMod(v: int)
    ensures Addr(v) == v % 0x1_0000
    decreases if v < 0 then 0x1_0000 - v else v
  {
    OneRound(v);
    OneRound(v - 0x1_0000);
    if v < 0 { AddrMod(v + 0x1_0000); } else if v >= 0x1_0000 { AddrMod(v - 0x1_0000); }
  }

  lemma OneRound(v: int)
    ensures (v + 0x1_0000) % 0x1_0000 == v % 0x1_0000
  {
  }

  function Pair(h: Byte, l: Byte): Word { 0x100 * h + l }

  /** `Addr` near the range of a word. */
  lemma AddrNear(v: int)
    requires -0x1_0000 <= v < 0x2_0000
    ensures Addr(v) == if v < 0 then v + 0x1_0000 else if v >= 0x1_0000 then v - 0x1_0000 else v
  {
  }

  lemma AddrShift(v: int, k: int)
    ensures Addr(v + 0x1_0000 * k) == Addr(v)
  {
    hide Addr;
    AddrMod(v);
    AddrMod(v + 0x1_0000 * k);
  }

  lemma AddrAdd(a: int, b: int)
    ensures Addr(Addr(a) + b) == Addr(a + b) && Addr(b - Addr(a)) == Addr(b - a) && Addr(Addr(a) - b) == Addr(a - b)
  {
    var k := a / 0x1_0000;
    AddrMod(a);
    assert a == Addr(a) + 0x1_0000 * k;
    hide Addr;
    AddrShift(Addr(a) + b, k);
    AddrShift(b - a, k);
    AddrShift(Addr(a) - b, k);
  }

  lemma PairSplit(w: Word)
    ensures Pair(High(w), Low(w)) == w
  {
    LowIs(w);
  }

  /** Sign, zero, bit 5, half carry, bit 3, parity, subtract, carry. */
  datatype Flags = Flags(s: bool, z: bool, y: bool, h: bool, x: bool, p: bool, n: bool, c: bool)

  function FlagsByte(f: Flags): Byte {
    (if f.s then 128 else 0) + (if f.z then 64 else 0) + (if f.y then 32 else 0) + (if f.h then 16 else 0)
    + (if f.x then 8 else 0) + (if f.p then 4 else 0) + (if f.n then 2 else 0) + (if f.c then 1 else 0)
  }

  predicate BitSet(v: int, k: nat)
    decreases k
  {
    if k == 0 then v % 2 == 1 else BitSet(v / 2, k - 1)
  }

  function ByteFlags(b: Byte): Flags {
    Flags(BitSet(b, 7), BitSet(b, 6), BitSet(b, 5), BitSet(b, 4), BitSet(b, 3), BitSet(b, 2), BitSet(b, 1),
          BitSet(b, 0))
  }

  /** A data access on the bus. */
  datatype Access = Read(a: Word) | Write(a: Word, v: Byte)

  /** Registers, memory with its read-only addresses, the T-states so far, and the data
      accesses so far. */
  datatype State = State(A: Byte, F: Flags, B: Byte, C: Byte, D: Byte, E: Byte, H: Byte, L: Byte, SP: Word,
                         mem: Memory, rom: set<Word>, T: int, bus: seq<Access>)
  {
    function HL(): Word { Pair(H, L) }
    function DE(): Word { Pair(D, E) }
    function BC(): Word { Pair(B, C) }

    function SetHL(v: Word): State { this.(H := High(v), L := Low(v)) }
    function SetDE(v: Word): State { this.(D := High(v), E := Low(v)) }
    function SetBC(v: Word): State { this.(B := High(v), C := Low(v)) }

    function Store(a: Word, v: Byte): State {
      this.(mem := if a in rom then mem else mem[a := v], bus := bus + [Write(a, v)])
    }

    function Loaded(a: Word): State { this.(bus := bus + [Read(a)]) }

    function StoreWord(a: Word, v: Word): State { Store(a, Low(v)).Store(Addr(a + 1), High(v)) }

    function LoadWord(a: Word): Word { Pair(mem[Addr(a + 1)], mem[a]) }

    function LoadedWord(a: Word): State { Loaded(a).Loaded(Addr(a + 1)) }

    function Took(t: nat): State { this.(T := T + t) }

    /** The high byte goes first, to the higher address. */
    function Push(v: Word): State {
      Store(Addr(SP - 1), High(v)).Store(Addr(SP - 2), Low(v)).(SP := Addr(SP - 2))
    }

    function Popped(): State { LoadedWord(SP).(SP := Addr(SP + 2)) }
  }

  /** An instruction; `n` is an immediate as the assembler got it, `a` an address, and `d` a
      distance in instructions. */
  datatype Instr =
    | LD_A_n(n: int) | LD_B_n(n: int) | LD_C_n(n: int)
    | LD_HL_nn(n: int) | LD_DE_nn(n: int) | LD_BC_nn(n: int)
    | LD_HL_at(a: int) | LD_at_HL(a: int) | LD_A_at(a: int) | LD_at_A(a: int)
    | LD_ptr_n(n: int) | LD_ptr_A
    | LD_D_H | LD_E_L | LD_SP_HL | EX_DE_HL
    | INC_HL | INC_DE | ADD_HL_SP | XOR_A | DEC_C
    | PUSH_HL | PUSH_AF | POP_HL | POP_AF
    | LDI | LDIR
    | DJNZ(d: int) | JR_NZ(d: int)

  predicate Jumps(i: Instr) { i.DJNZ? || i.JR_NZ? }

  /** The size in bytes. */
  function Size(i: Instr): nat {
    match i
    case LD_A_n(_) => 2 case LD_B_n(_) => 2 case LD_C_n(_) => 2
    case LD_HL_nn(_) => 3 case LD_DE_nn(_) => 3 case LD_BC_nn(_) => 3
    case LD_HL_at(_) => 3 case LD_at_HL(_) => 3 case LD_A_at(_) => 3 case LD_at_A(_) => 3
    case LD_ptr_n(_) => 2
    case LDI => 2 case LDIR => 2
    case DJNZ(_) => 2 case JR_NZ(_) => 2
    case _ => 1
  }

  function Bytes(c: seq<Instr>): nat { if c == [] then 0 else Size(c[0]) + Bytes(c[1..]) }

  // ---- flags ---------------------------------------------------------------------------

  function AfterDec(f: Flags, x: Byte): Flags {
    var r := Low(x - 1);
    Flags(r >= 128, r == 0, BitSet(r, 5), r % 16 == 15, BitSet(r, 3), x == 128, true, f.c)
  }

  function AfterAdd(f: Flags, hl: Word, v: Word): Flags {
    var r := hl + v;
    Flags(f.s, f.z, BitSet(r, 13), hl % 0x1000 + v % 0x1000 >= 0x1000, BitSet(r, 11), f.p, false, r >= 0x1_0000)
  }

  function AfterLdi(f: Flags, a: Byte, n: Byte, bc: Word): Flags {
    var t := Low(a + n);
    Flags(f.s, f.z, BitSet(t, 1), false, BitSet(t, 3), bc != 0, false, f.c)
  }

  const XorFlags := Flags(false, true, false, false, false, true, false, false)

  // ---- one instruction -------------------------------------------------------------------

  /** One transfer of LDI or LDIR, without its T-states. */
  function Transfer(s: State): State {
    var hl, de, bc, n := s.HL(), s.DE(), Addr(s.BC() - 1), s.mem[s.HL()];
    s.Loaded(hl).Store(de, n).SetHL(Addr(hl + 1)).SetDE(Addr(de + 1)).SetBC(bc).(F := AfterLdi(s.F, s.A, n, bc))
  }

  /** How often LDIR transfers: 0 in BC stands for 65536. */
  function Count(bc: Word): (n: nat)
    ensures n >= 1
  {
    if bc == 0 then 0x1_0000 else bc
  }

  /** `n` transfers: 21 T-states for one that repeats, 16 for the last. */
  function Transfers(s: State, n: nat): State
    decreases n
  {
    if n == 0 then s
    else if n == 1 then Transfer(s).Took(16)
    else Transfers(Transfer(s).Took(21), n - 1)
  }

  function LdirAll(s: State): State { Transfers(s, Count(s.BC())) }

  /** An instruction that does not jump, LDIR to its end. */
  function Do(i: Instr, s: State): State
    requires !Jumps(i)
  {
    match i
    case LD_A_n(n) => s.(A := Low(n)).Took(7)
    case LD_B_n(n) => s.(B := Low(n)).Took(7)
    case LD_C_n(n) => s.(C := Low(n)).Took(7)
    case LD_HL_nn(n) => s.SetHL(Addr(n)).Took(10)
    case LD_DE_nn(n) => s.SetDE(Addr(n)).Took(10)
    case LD_BC_nn(n) => s.SetBC(Addr(n)).Took(10)
    case LD_HL_at(a) => s.LoadedWord(Addr(a)).SetHL(s.LoadWord(Addr(a))).Took(16)
    case LD_at_HL(a) => s.StoreWord(Addr(a), s.HL()).Took(16)
    case LD_A_at(a) => s.Loaded(Addr(a)).(A := s.mem[Addr(a)]).Took(13)
    case LD_at_A(a) => s.Store(Addr(a), s.A).Took(13)
    case LD_ptr_n(n) => s.Store(s.HL(), Low(n)).Took(10)
    case LD_ptr_A => s.Store(s.HL(), s.A).Took(7)
    case LD_D_H => s.(D := s.H).Took(4)
    case LD_E_L => s.(E := s.L).Took(4)
    case LD_SP_HL => s.(SP := s.HL()).Took(6)
    case EX_DE_HL => s.(D := s.H, E := s.L, H := s.D, L := s.E).Took(4)
    case INC_HL => s.SetHL(Addr(s.HL() + 1)).Took(6)
    case INC_DE => s.SetDE(Addr(s.DE() + 1)).Took(6)
    case ADD_HL_SP => s.SetHL(Addr(s.HL() + s.SP)).(F := AfterAdd(s.F, s.HL(), s.SP)).Took(11)
    case XOR_A => s.(A := 0, F := XorFlags).Took(4)
    case DEC_C => s.(C := Low(s.C - 1), F := AfterDec(s.F, s.C)).Took(4)
    case PUSH_HL => s.Push(s.HL()).Took(11)
    case PUSH_AF => s.Push(Pair(s.A, FlagsByte(s.F))).Took(11)
    case POP_HL => s.Popped().SetHL(s.LoadWord(s.SP)).Took(10)
    case POP_AF => s.Popped().(A := High(s.LoadWord(s.SP)), F := ByteFlags(Low(s.LoadWord(s.SP)))).Took(10)
    case LDI => Transfer(s).Took(16)
    case LDIR => LdirAll(s)
  }

  /** A byte as a signed number. */
  function Signed(b: Byte): int { if b >= 128 then b - 256 else b }

  lemma BitsOf(v: nat)
    ensures BitSet(v, 1) <==> v / 2 % 2 == 1
    ensures BitSet(v, 3) <==> v / 8 % 2 == 1
    ensures BitSet(v, 5) <==> v / 32 % 2 == 1
  {
    Halves(v, 2);
    Halves(v, 4);
    Halves(v, 8);
    Halves(v, 16);
  }

  lemma Halves(v: nat, k: nat)
    requires k in {2, 4, 8, 16}
    ensures v / k / 2 == v / (2 * k)
  {
  }

  /** DEC C: sign, zero, overflow and borrow of the decrement; the carry stays. */
  lemma DecMeans(s: State)
    ensures
      var t := Do(DEC_C, s);
      var f, r := t.F, t.C;
      Low(r + 1) == s.C && (f.s <==> Signed(r) < 0) && (f.z <==> s.C == 1) &&
      (f.p <==> Signed(s.C) - 1 != Signed(r)) && (f.h <==> s.C / 16 != r / 16) && f.n && f.c == s.F.c &&
      (f.y <==> r / 32 % 2 == 1) && (f.x <==> r / 8 % 2 == 1)
  {
    hide BitSet;
    BitsOf(Low(s.C - 1));
  }

  /** ADD HL,SP: the carry is what the sum exceeds a word by, the half carry goes from bit 11 to bit 12. */
  lemma AddMeans(s: State)
    ensures
      var t := Do(ADD_HL_SP, s);
      var f, hl, v, r := t.F, s.HL(), s.SP, t.HL();
      hl + v == r + (if f.c then 0x1_0000 else 0) && (f.h <==> (hl / 0x1000 + v / 0x1000) % 2 != r / 0x1000 % 2) &&
      !f.n && f.s == s.F.s && f.z == s.F.z && f.p == s.F.p && (f.y <==> t.H / 32 % 2 == 1) &&
      (f.x <==> t.H / 8 % 2 == 1)
  {
    hide BitSet, High, Addr, Low, Pair, AfterAdd;
    var r := Addr(s.HL() + s.SP);
    PairSplit(r);
    AddParts(s.F, s.HL(), s.SP);
  }

  lemma AddParts(f: Flags, hl: Word, v: Word)
    ensures
      var g, r := AfterAdd(f, hl, v), Addr(hl + v);
      hl + v == r + (if g.c then 0x1_0000 else 0) && (g.h <==> (hl / 0x1000 + v / 0x1000) % 2 != r / 0x1000 % 2) &&
      !g.n && g.s == f.s && g.z == f.z && g.p == f.p && (g.y <==> High(r) / 32 % 2 == 1) &&
      (g.x <==> High(r) / 8 % 2 == 1)
  {
    hide BitSet, High, Addr;
    var r, sum: int := Addr(hl + v), hl + v;
    AddrNear(sum);
    HighBits(sum, r, High(r));
    HalfCarry(hl, v, r);
  }

  lemma HighBits(sum: nat, r: Word, h: Byte)
    requires 0x100 * h <= r < 0x100 * h + 0x100 && (r == sum || r == sum - 0x1_0000)
    ensures BitSet(sum, 13) <==> h / 32 % 2 == 1
    ensures BitSet(sum, 11) <==> h / 8 % 2 == 1
  {
    hide BitSet;
    var w := if r == sum then h as int else h + 0x100;
    assert 0x100 * w <= sum < 0x100 * w + 0x100;
    Quarter(sum, w);
    Shifted(sum, w);
    BitsOf(w);
    Turn(h, 8);
    Turn(h, 32);
  }

  lemma HalfCarry(a: Word, b: Word, r: Word)
    requires r == a + b || r == a + b - 0x1_0000
    ensures a % 0x1000 + b % 0x1000 >= 0x1000 <==> (a / 0x1000 + b / 0x1000) % 2 != r / 0x1000 % 2
  {
    var i, j, m, n := a / 0x1000, a % 0x1000, b / 0x1000, b % 0x1000;
    var k := i + m + (if j + n >= 0x1000 then 1 else 0) - if r == a + b then 0 else 16;
    assert r == 0x1000 * k + (if j + n >= 0x1000 then j + n - 0x1000 else j + n);
    assert r / 0x1000 == k;
  }

  lemma Quarter(v: nat, w: nat)
    requires 0x100 * w <= v < 0x100 * w + 0x100
    ensures v / 0x100 == w
  {
  }

  lemma Shifted(v: nat, w: nat)
    requires w == v / 256
    ensures BitSet(v, 13) == BitSet(w, 5) && BitSet(v, 11) == BitSet(w, 3)
  {
  }

  /** A transfer: P tells whether there are more to come; bits 1 and 3 of the byte plus A go to Y and X. */
  lemma TransferFlags(s: State)
    ensures
      var f, sum := Transfer(s).F, s.A + s.mem[s.HL()];
      (f.p <==> s.BC() != 1) && !f.h && !f.n && f.s == s.F.s && f.z == s.F.z && f.c == s.F.c &&
      (f.y <==> sum / 2 % 2 == 1) && (f.x <==> sum / 8 % 2 == 1)
  {
    hide BitSet, High, Addr, Low, Pair, FlagsByte;
    LowBitsOf(s.A + s.mem[s.HL()]);
    AddrNear(s.BC() - 1);
  }

  lemma LowBitsOf(sum: nat)
    requires sum < 0x200
    ensures BitSet(Low(sum), 1) <==> sum / 2 % 2 == 1
    ensures BitSet(Low(sum), 3) <==> sum / 8 % 2 == 1
  {
    var low := if sum >= 0x100 then sum - 0x100 else sum;
    assert Low(sum) == low;
    hide BitSet, Low;
    BitsOf(low);
    Turn(low, 2);
    Turn(low, 8);
  }

  /** A multiple of 256 has no bit in a byte. */
  lemma Turn(v: nat, k: nat)
    requires k in {2, 8, 32}
    ensures (v + 0x100) / k % 2 == v / k % 2
  {
    if k == 2 { TurnTwo(v); } else if k == 8 { TurnEight(v); } else { TurnMore(v); }
  }

  lemma TurnTwo(v: nat)
    ensures (v + 0x100) / 2 % 2 == v / 2 % 2
  {
  }

  lemma TurnEight(v: nat)
    ensures (v + 0x100) / 8 % 2 == v / 8 % 2
  {
  }

  lemma TurnMore(v: nat)
    ensures (v + 0x100) / 32 % 2 == v / 32 % 2
  {
  }

  /** The number with these binary digits. */
  function FromBits(bs: seq<bool>): nat {
    if bs == [] then 0 else 2 * FromBits(bs[..|bs| - 1]) + if bs[|bs| - 1] then 1 else 0
  }

  lemma {:induction false} BitFrom(bs: seq<bool>, k: nat)
    requires k < |bs|
    ensures BitSet(FromBits(bs), k) == bs[|bs| - 1 - k]
    decreases k
  {
    var h := FromBits(bs[..|bs| - 1]);
    assert FromBits(bs) / 2 == h;
    if k > 0 { BitFrom(bs[..|bs| - 1], k - 1); }
  }

  /** The flags in the order of their bits. */
  function FlagBits(f: Flags): seq<bool> { [f.s, f.z, f.y, f.h, f.x, f.p, f.n, f.c] }

  lemma FlagsAreBits(f: Flags)
    ensures FlagsByte(f) == FromBits(FlagBits(f))
  {
    var b := FlagBits(f);
    assert b[..7][..6] == b[..6] && b[..6][..5] == b[..5] && b[..5][..4] == b[..4] && b[..4][..3] == b[..3];
    assert b[..3][..2] == b[..2] && b[..2][..1] == b[..1] && b[..1][..0] == [];
    assert FromBits(b[..1]) == if f.s then 1 else 0;
    assert FromBits(b[..2]) == 2 * FromBits(b[..1]) + if f.z then 1 else 0;
    assert FromBits(b[..3]) == 2 * FromBits(b[..2]) + if f.y then 1 else 0;
    assert FromBits(b[..4]) == 2 * FromBits(b[..3]) + if f.h then 1 else 0;
    assert FromBits(b[..5]) == 2 * FromBits(b[..4]) + if f.x then 1 else 0;
    assert FromBits(b[..6]) == 2 * FromBits(b[..5]) + if f.p then 1 else 0;
    assert FromBits(b[..7]) == 2 * FromBits(b[..6]) + if f.n then 1 else 0;
  }

  /** PUSH AF and POP AF: the flags are the bits of a byte, from S down to C, and come back from it. */
  lemma FlagsRound(f: Flags)
    ensures FlagsByte(f) == FromBits(FlagBits(f)) && ByteFlags(FlagsByte(f)) == f
  {
    hide BitSet, FlagsByte, FromBits;
    FlagsAreBits(f);
    var b := FlagBits(f);
    BitFrom(b, 0);
    BitFrom(b, 1);
    BitFrom(b, 2);
    BitFrom(b, 3);
    BitFrom(b, 4);
    BitFrom(b, 5);
    BitFrom(b, 6);
    BitFrom(b, 7);
  }

  /** XOR A: the flags of the result 0, which has an even number of ones. */
  lemma XorMeans(s: State)
    ensures var t := Do(XOR_A, s); t.A == 0 && FlagsByte(t.F) == 64 + 4
  {
    hide Addr, Low;
  }

  // ---- the step machine --------------------------------------------------------------------

  /** The machine about to run instruction `pc` of a program. */
  datatype Config = Config(pc: int, s: State)

  predicate In(p: seq<Instr>, c: Config) { 0 <= c.pc < |p| }

  /** One step; LDIR repeats itself. */
  function Step(p: seq<Instr>, c: Config): Config
    requires In(p, c)
  {
    var s, i := c.s, p[c.pc];
    match i
    case LDIR =>
      var t := Transfer(s);
      if t.BC() == 0 then Config(c.pc + 1, t.Took(16)) else Config(c.pc, t.Took(21))
    case DJNZ(d) =>
      var b := Low(s.B - 1);
      if b != 0 then Config(c.pc + 1 + d, s.(B := b).Took(13)) else Config(c.pc + 1, s.(B := b).Took(8))
    case JR_NZ(d) =>
      if !s.F.z then Config(c.pc + 1 + d, s.Took(12)) else Config(c.pc + 1, s.Took(7))
    case _ => Config(c.pc + 1, Do(i, s))
  }

  /** `n` steps, fewer when the program counter leaves the program. */
  function Steps(p: seq<Instr>, c: Config, n: nat): Config
    decreases n
  {
    if n == 0 || !In(p, c) then c else Steps(p, Step(p, c), n - 1)
  }

  lemma StepsOne(p: seq<Instr>, c: Config)
    requires In(p, c)
    ensures Steps(p, c, 1) == Step(p, c)
  {
    hide Step;
    assert Steps(p, Step(p, c), 0) == Step(p, c);
  }

  lemma {:induction false} StepsAdd(p: seq<Instr>, c: Config, m: nat, n: nat)
    ensures Steps(p, c, m + n) == Steps(p, Steps(p, c, m), n)
    decreases m
  {
    hide Step;
    if m > 0 && In(p, c) { StepsAdd(p, Step(p, c), m - 1, n); }
  }

  // ---- straight-line code ------------------------------------------------------------------

  predicate Straight(c: seq<Instr>) { forall i :: 0 <= i < |c| ==> !Jumps(c[i]) }

  function Exec(c: seq<Instr>, s: State): State
    requires Straight(c)
    decreases |c|
  {
    if c == [] then s else Exec(c[1..], Do(c[0], s))
  }

  lemma ExecCons(i: Instr, c: seq<Instr>, s: State)
    requires !Jumps(i) && Straight(c)
    ensures Straight([i] + c) && Exec([i] + c, s) == Exec(c, Do(i, s))
  {
    hide Do;
    assert ([i] + c)[1..] == c;
  }

  lemma ExecNone(s: State)
    ensures Exec([], s) == s
  {
  }

  lemma ExecOne(i: Instr, s: State)
    requires !Jumps(i)
    ensures Straight([i]) && Exec([i], s) == Do(i, s)
  {
    hide Do;
    assert [i][1..] == [];
  }

  lemma ExecTwo(i: Instr, j: Instr, s: State)
    requires !Jumps(i) && !Jumps(j)
    ensures Straight([i, j]) && Exec([i, j], s) == Do(j, Do(i, s))
  {
    hide Do;
    ExecOne(j, Do(i, s));
    assert [i, j][1..] == [j];
  }

  lemma {:induction false} ExecAppend(a: seq<Instr>, b: seq<Instr>, s: State)
    requires Straight(a) && Straight(b)
    ensures Straight(a + b) && Exec(a + b, s) == Exec(b, Exec(a, s))
    decreases |a|
  {
    hide Do;
    if a == [] {
      assert a + b == b;
    } else {
      ExecAppend(a[1..], b, Do(a[0], s));
      assert (a + b)[0] == a[0] && (a + b)[1..] == a[1..] + b;
    }
  }

  lemma {:induction false} BytesAppend(a: seq<Instr>, b: seq<Instr>)
    ensures Bytes(a + b) == Bytes(a) + Bytes(b)
    decreases |a|
  {
    hide Size;
    if a == [] {
      assert a + b == b;
    } else {
      BytesAppend(a[1..], b);
      assert (a + b)[0] == a[0] && (a + b)[1..] == a[1..] + b;
    }
  }

  lemma BytesOne(i: Instr)
    ensures Bytes([i]) == Size(i)
  {
    hide Size;
    assert [i][1..] == [];
  }

  lemma BytesTwo(i: Instr, j: Instr)
    ensures Bytes([i, j]) == Size(i) + Size(j)
  {
    hide Size;
    BytesOne(j);
    assert [i, j][1..] == [j];
  }

  /** The steps of LDIR do what it does to its end. */
  lemma {:induction false} LdirSteps(p: seq<Instr>, pc: int, s: State)
    requires 0 <= pc < |p| && p[pc] == LDIR
    ensures Steps(p, Config(pc, s), Count(s.BC())) == Config(pc + 1, LdirAll(s))
    decreases Count(s.BC())
  {
    hide Transfer, Do, Pair;
    var t := Transfer(s);
    TransferRegs(s);
    var c := Step(p, Config(pc, s));
    assert c == if t.BC() == 0 then Config(pc + 1, t.Took(16)) else Config(pc, t.Took(21));
    if t.BC() == 0 {
      assert Steps(p, c, 0) == Config(pc + 1, LdirAll(s));
    } else {
      assert Count(s.BC()) == Count(t.BC()) + 1;
      LdirSteps(p, pc, t.Took(21));
    }
  }

  lemma TransferRegs(s: State)
    ensures
      var t := Transfer(s);
      t.HL() == Addr(s.HL() + 1) && t.DE() == Addr(s.DE() + 1) && t.BC() == Addr(s.BC() - 1) &&
      t.SP == s.SP && t.T == s.T && t.A == s.A && t.rom == s.rom &&
      t.mem == if s.DE() in s.rom then s.mem else s.mem[s.DE() := s.mem[s.HL()]]
  {
    hide Pair, High, Low, AfterLdi, Addr;
    PairSplit(Addr(s.HL() + 1));
    PairSplit(Addr(s.DE() + 1));
    PairSplit(Addr(s.BC() - 1));
  }

  /** Straight-line code inside a program: the step machine goes through it and has done what
      the code does. */
  lemma {:induction false} StraightSteps(p: seq<Instr>, pc: nat, c: seq<Instr>, s: State) returns (n: nat)
    requires Straight(c) && pc + |c| <= |p| && p[pc..pc + |c|] == c
    ensures Steps(p, Config(pc, s), n) == Config(pc + |c|, Exec(c, s))
    decreases |c|
  {
    if c == [] {
      n := 0;
    } else {
      Tail(p, pc, c);
      hide Do, Steps, Exec, Jumps, Straight;
      ExecCons(c[0], c[1..], s);
      var k := FirstSteps(p, pc, s);
      var m := StraightSteps(p, pc + 1, c[1..], Do(c[0], s));
      StepsAdd(p, Config(pc, s), k, m);
      n := k + m;
    }
  }

  lemma Tail(p: seq<Instr>, pc: nat, c: seq<Instr>)
    requires Straight(c) && c != [] && pc + |c| <= |p| && p[pc..pc + |c|] == c
    ensures !Jumps(c[0]) && Straight(c[1..]) && c == [c[0]] + c[1..]
    ensures p[pc] == c[0] && p[pc + 1..pc + 1 + |c[1..]|] == c[1..]
  {
    hide Jumps;
  }

  /** One instruction of straight code. */
  lemma FirstSteps(p: seq<Instr>, pc: nat, s: State) returns (k: nat)
    requires pc < |p| && !Jumps(p[pc])
    ensures Steps(p, Config(pc, s), k) == Config(pc + 1, Do(p[pc], s))
  {
    hide Do, LdirAll, Transfer, Steps, Pair, Count;
    if p[pc] == LDIR {
      k := Count(s.BC());
      LdirSteps(p, pc, s);
      DoLdir(s);
    } else {
      k := 1;
      StepStraight(p, pc, s);
    }
  }

  lemma DoLdi(s: State)
    ensures Do(LDI, s) == Transfer(s).Took(16)
  {
    hide Transfer;
  }

  lemma DoLdir(s: State)
    ensures Do(LDIR, s) == LdirAll(s)
  {
    hide LdirAll, Transfer;
  }

  lemma StepStraight(p: seq<Instr>, pc: nat, s: State)
    requires pc < |p| && !Jumps(p[pc]) && p[pc] != LDIR
    ensures Steps(p, Config(pc, s), 1) == Config(pc + 1, Do(p[pc], s))
  {
    hide Do, LdirAll, Transfer;
    var c := Config(pc, s);
    assert Step(p, c) == Config(pc + 1, Do(p[pc], s));
    StepsOne(p, c);
  }
}
