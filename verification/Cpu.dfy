/** The emulator's registers and memory, which each opcode changes in place. */
module Cpu {
  import opened Z80

  class Cpu {
    var A: Byte
    var F: Flags
    var B: Byte
    var C: Byte
    var D: Byte
    var E: Byte
    var H: Byte
    var L: Byte
    var SP: Word
    var PC: int
    var T: int
    const mem: array<Byte>
    const rom: set<Word>
    ghost var bus: seq<Access>

    ghost predicate Valid()
      reads this
    {
      mem.Length == 0x1_0000
    }

    ghost function S(): State
      reads this, mem
      requires Valid()
    {
      State(A, F, B, C, D, E, H, L, SP, mem[..], rom, T, bus)
    }

    ghost function Now(): Config
      reads this, mem
      requires Valid()
    {
      Config(PC, S())
    }

    constructor (m: array<Byte>, readOnly: set<Word>)
      requires m.Length == 0x1_0000
      ensures Valid() && mem == m && rom == readOnly && PC == 0 && T == 0 && bus == []
    {
      A, B, C, D, E, H, L, SP, PC, T := 0, 0, 0, 0, 0, 0, 0, 0, 0, 0;
      F := ByteFlags(0);
      mem, rom, bus := m, readOnly, [];
    }

    method Load(a: Word) returns (v: Byte)
      requires Valid()
      modifies this`bus
      ensures v == mem[a] && S() == old(S()).Loaded(a)
    {
      v := mem[a];
      bus := bus + [Read(a)];
    }

    method Store(a: Word, v: Byte)
      requires Valid()
      modifies this`bus, mem
      ensures S() == old(S()).Store(a, v)
    {
      if a !in rom { mem[a] := v; }
      bus := bus + [Write(a, v)];
    }

    method LoadWord(a: Word) returns (w: Word)
      requires Valid()
      modifies this`bus
      ensures w == old(S()).LoadWord(a) && S() == old(S()).LoadedWord(a)
    {
      hide State.Loaded, Pair, Addr;
      var l := Load(a);
      var h := Load(Addr(a + 1));
      w := Pair(h, l);
    }

    method StoreWord(a: Word, w: Word)
      requires Valid()
      modifies this`bus, mem
      ensures S() == old(S()).StoreWord(a, w)
    {
      hide State.Store, Low, High, Addr;
      Store(a, Low(w));
      Store(Addr(a + 1), High(w));
    }

    method Push(w: Word)
      requires Valid()
      modifies this`bus, this`SP, mem
      ensures S() == old(S()).Push(w)
    {
      hide Low, High, Addr;
      Store(Addr(SP - 1), High(w));
      Store(Addr(SP - 2), Low(w));
      SP := Addr(SP - 2);
    }

    method Pop() returns (w: Word)
      requires Valid()
      modifies this`bus, this`SP
      ensures w == old(S()).LoadWord(old(SP)) && S() == old(S()).Popped()
    {
      hide Pair, Addr;
      w := LoadWord(SP);
      SP := Addr(SP + 2);
    }

    method SetHL(w: Word)
      requires Valid()
      modifies this`H, this`L
      ensures S() == old(S()).SetHL(w)
    {
      H, L := High(w), Low(w);
    }

    method SetDE(w: Word)
      requires Valid()
      modifies this`D, this`E
      ensures S() == old(S()).SetDE(w)
    {
      D, E := High(w), Low(w);
    }

    method SetBC(w: Word)
      requires Valid()
      modifies this`B, this`C
      ensures S() == old(S()).SetBC(w)
    {
      B, C := High(w), Low(w);
    }

    /** The transfer of LDI and LDIR. */
    method Transfer()
      requires Valid()
      modifies this, mem
      ensures Valid() && S() == Z80.Transfer(old(S())) && PC == old(PC)
    {
      hide Low, High, Addr, Pair, AfterLdi;
      var hl: int, de: int, bc := Pair(H, L), Pair(D, E), Addr(Pair(B, C) - 1);
      var n := Load(hl);
      Store(de, n);
      SetHL(Addr(hl + 1));
      SetDE(Addr(de + 1));
      SetBC(bc);
      F := AfterLdi(F, A, n, bc);
    }

    method Loads(i: Instr) returns (t: nat)
      requires Valid() &&
        (i.LD_A_n? || i.LD_B_n? || i.LD_C_n? || i.LD_HL_nn? || i.LD_DE_nn? || i.LD_BC_nn? || i.LD_D_H? || i.LD_E_L? ||
         i.LD_SP_HL?)
      modifies this
      ensures Valid() && S().Took(t) == Do(i, old(S())) && PC == old(PC)
    {
      hide Low, High, Addr, Pair, LdirAll, Z80.Transfer;
      match i
      case LD_A_n(n) => A := Low(n); t := 7;
      case LD_B_n(n) => B := Low(n); t := 7;
      case LD_C_n(n) => C := Low(n); t := 7;
      case LD_HL_nn(n) => SetHL(Addr(n)); t := 10;
      case LD_DE_nn(n) => SetDE(Addr(n)); t := 10;
      case LD_BC_nn(n) => SetBC(Addr(n)); t := 10;
      case LD_D_H => D := H; t := 4;
      case LD_E_L => E := L; t := 4;
      case LD_SP_HL => SP := Pair(H, L); t := 6;
    }

    method Accesses(i: Instr) returns (t: nat)
      requires Valid() && (i.LD_HL_at? || i.LD_at_HL? || i.LD_A_at? || i.LD_at_A? || i.LD_ptr_n? || i.LD_ptr_A?)
      modifies this, mem
      ensures Valid() && S().Took(t) == Do(i, old(S())) && PC == old(PC)
    {
      hide Low, High, Addr, Pair, LdirAll, Z80.Transfer;
      match i
      case LD_HL_at(a) => var w := LoadWord(Addr(a)); SetHL(w); t := 16;
      case LD_at_HL(a) => StoreWord(Addr(a), Pair(H, L)); t := 16;
      case LD_A_at(a) => A := Load(Addr(a)); t := 13;
      case LD_at_A(a) => Store(Addr(a), A); t := 13;
      case LD_ptr_n(n) => Store(Pair(H, L), Low(n)); t := 10;
      case LD_ptr_A => Store(Pair(H, L), A); t := 7;
    }

    method Counts(i: Instr) returns (t: nat)
      requires Valid() && (i.INC_HL? || i.INC_DE?)
      modifies this
      ensures Valid() && S().Took(t) == Do(i, old(S())) && PC == old(PC)
    {
      hide Low, High, Addr, Pair, LdirAll, Z80.Transfer;
      if i.INC_HL? { SetHL(Addr(Pair(H, L) + 1)); } else { SetDE(Addr(Pair(D, E) + 1)); }
      t := 6;
    }

    method Computes(i: Instr) returns (t: nat)
      requires Valid() && (i.EX_DE_HL? || i.XOR_A? || i.DEC_C?)
      modifies this
      ensures Valid() && S().Took(t) == Do(i, old(S())) && PC == old(PC)
    {
      hide Low, High, Addr, Pair, LdirAll, Z80.Transfer, AfterAdd, AfterDec;
      match i
      case EX_DE_HL => D, E, H, L := H, L, D, E; t := 4;
      case XOR_A => A, F := 0, XorFlags; t := 4;
      case DEC_C => F, C := AfterDec(F, C), Low(C - 1); t := 4;
    }

    method AddSP() returns (t: nat)
      requires Valid()
      modifies this
      ensures Valid() && S().Took(t) == Do(ADD_HL_SP, old(S())) && PC == old(PC)
    {
      hide Low, High, Addr, Pair, LdirAll, Z80.Transfer, AfterAdd;
      var hl: int := Pair(H, L);
      F := AfterAdd(F, hl, SP);
      SetHL(Addr(hl + SP));
      t := 11;
    }

    method Pushes(i: Instr) returns (t: nat)
      requires Valid() && (i.PUSH_HL? || i.PUSH_AF?)
      modifies this, mem
      ensures Valid() && S().Took(t) == Do(i, old(S())) && PC == old(PC)
    {
      hide Low, High, Addr, Pair, LdirAll, Z80.Transfer, FlagsByte, State.Push;
      Push(if i.PUSH_HL? then Pair(H, L) else Pair(A, FlagsByte(F)));
      t := 11;
    }

    method Pops(i: Instr) returns (t: nat)
      requires Valid() && (i.POP_HL? || i.POP_AF?)
      modifies this, mem
      ensures Valid() && S().Took(t) == Do(i, old(S())) && PC == old(PC)
    {
      hide Low, High, Addr, Pair, LdirAll, Z80.Transfer, ByteFlags, State.Popped, State.LoadWord;
      var w := Pop();
      if i.POP_HL? {
        SetHL(w);
      } else {
        A, F := High(w), ByteFlags(Low(w));
      }
      t := 10;
    }

    /** LDIR: one transfer, and back to itself until BC is 0. */
    method Repeats() returns (t: nat)
      requires Valid()
      modifies this, mem
      ensures
        Valid() &&
        var r := Z80.Transfer(old(S()));
        S() == r && t == (if r.BC() == 0 then 16 else 21) && PC == old(PC) - (if r.BC() == 0 then 0 else 1)
    {
      hide Pair, Z80.Transfer;
      Transfer();
      t := 16;
      if Pair(B, C) != 0 {
        PC := PC - 1;
        t := 21;
      }
    }

    method Jump(i: Instr) returns (t: nat)
      requires Valid() && Jumps(i)
      modifies this
      ensures
        Valid() &&
        S() == (if i.DJNZ? then old(S()).(B := Low(old(B) - 1)) else old(S())) &&
        var taken := if i.DJNZ? then B != 0 else !F.z;
        PC == old(PC) + (if taken then i.d else 0) &&
        t == if i.DJNZ? then (if taken then 13 else 8) else if taken then 12 else 7
    {
      hide Low;
      if i.DJNZ? {
        B := Low(B - 1);
        t := 8;
        if B != 0 {
          PC := PC + i.d;
          t := 13;
        }
      } else {
        t := 7;
        if !F.z {
          PC := PC + i.d;
          t := 12;
        }
      }
    }

    /** One instruction of a program. */
    method Step(p: seq<Instr>)
      requires Valid() && In(p, Now())
      modifies this, mem
      ensures Valid() && Now() == Z80.Step(p, old(Now()))
    {
      hide Low, Pair, Z80.Transfer, Do, LdirAll;
      var i := p[PC];
      PC := PC + 1;
      var t;
      if Jumps(i) {
        t := Jump(i);
      } else if i == LDIR {
        t := Repeats();
      } else {
        t := Other(i);
      }
      T := T + t;
    }

    method Other(i: Instr) returns (t: nat)
      requires Valid() && !Jumps(i) && i != LDIR
      modifies this, mem
      ensures Valid() && S().Took(t) == Do(i, old(S())) && PC == old(PC)
    {
      hide Do;
      if i.EX_DE_HL? || i.XOR_A? || i.DEC_C? {
        t := Computes(i);
      } else if i.INC_HL? || i.INC_DE? {
        t := Counts(i);
      } else if i.ADD_HL_SP? {
        t := AddSP();
      } else if i.PUSH_HL? || i.PUSH_AF? {
        t := Pushes(i);
      } else if i.POP_HL? || i.POP_AF? {
        t := Pops(i);
      } else if i.LD_HL_at? || i.LD_at_HL? || i.LD_A_at? || i.LD_at_A? || i.LD_ptr_n? || i.LD_ptr_A? {
        t := Accesses(i);
      } else if i.LDI? {
        DoLdi(S());
        Transfer();
        t := 16;
      } else {
        t := Loads(i);
      }
    }

    /** Runs until the program counter leaves the program, at most `n` instructions. */
    method Run(p: seq<Instr>, n: nat)
      requires Valid()
      modifies this, mem
      ensures Valid() && Now() == Steps(p, old(Now()), n)
    {
      hide Z80.Step;
      var k := n;
      while k > 0 && 0 <= PC < |p|
        invariant 0 <= k <= n && Valid() && Steps(p, Now(), k) == Steps(p, old(Now()), n)
        decreases k
      {
        Step(p);
        k := k - 1;
      }
    }
  }
}
