/** The code of the block operations: copies and fills of a constant number of bytes, and fills
    of device memory, which only store. */
module BlockOps {
  import opened Wrappers
  import opened Z80

  const DEV_UNROLL := 6

  /** `a` is one of the `n` addresses from `base` on, modulo 65536. */
  predicate Within(a: Word, base: int, n: nat) { Addr(a - base) < n }

  /** `m'` is `m` with the `n` bytes from `base` on set to `v`. */
  ghost predicate Filled(m: Memory, m': Memory, base: int, n: nat, v: Byte) {
    forall a: Word :: m'[a] == if Within(a, base, n) then v else m[a]
  }

  /** None of the `n` addresses from `base` on is read-only. */
  ghost predicate Writable(rom: set<Word>, base: int, n: nat) {
    forall a: Word :: Within(a, base, n) ==> a !in rom
  }

  // ---- copies ------------------------------------------------------------------------------

  /** `n` bytes copied from `src` to `dst` one after the other. */
  function Copied(m: Memory, rom: set<Word>, src: Word, dst: Word, n: nat): Memory
    decreases n
  {
    if n == 0 then m
    else Copied(if dst in rom then m else m[dst := m[src]], rom, Addr(src + 1), Addr(dst + 1), n - 1)
  }

  /** The registers, the memory and the time of `n` transfers. */
  lemma {:induction false} TransfersDo(s: State, n: nat)
    requires n >= 1
    ensures
      var t := Transfers(s, n);
      t.HL() == Addr(s.HL() + n) && t.DE() == Addr(s.DE() + n) && t.BC() == Addr(s.BC() - n) &&
      t.SP == s.SP && t.A == s.A && t.rom == s.rom && t.T == s.T + 21 * n - 5 &&
      t.mem == Copied(s.mem, s.rom, s.HL(), s.DE(), n)
    decreases n
  {
    hide Transfer, Pair, Addr, Copied;
    TransferRegs(s);
    CopiedStep(s.mem, s.rom, s.HL(), s.DE(), n);
    if n == 1 {
      CopiedNone(s, Transfer(s));
    } else {
      TransfersDo(Transfer(s).Took(21), n - 1);
      AddrAdd(s.HL() + 1, n - 1);
      AddrAdd(s.DE() + 1, n - 1);
      AddrAdd(s.BC() - 1, n - 1);
    }
  }

  lemma CopiedStep(m: Memory, rom: set<Word>, src: Word, dst: Word, n: nat)
    requires n >= 1
    ensures Copied(m, rom, src, dst, n) ==
      Copied(if dst in rom then m else m[dst := m[src]], rom, Addr(src + 1), Addr(dst + 1), n - 1)
  {
  }

  lemma CopiedZero(m: Memory, rom: set<Word>, src: Word, dst: Word)
    ensures Copied(m, rom, src, dst, 0) == m
  {
  }

  lemma CopiedNone(s: State, t: State)
    ensures Copied(t.mem, s.rom, Addr(s.HL() + 1), Addr(s.DE() + 1), 0) == t.mem
  {
  }

  /** The destination does not start inside the source. */
  predicate Forward(src: int, dst: int, n: nat) { Addr(dst - src) == 0 || Addr(dst - src) >= n }

  /** The offset of `a` from the next base. */
  lemma OffsetNext(a: Word, base: Word)
    ensures Addr(a - Addr(base + 1)) == if a == base then 0xFFFF else Addr(a - base) - 1
    ensures Addr(a - base) == 0 <==> a == base
    ensures Addr(base + Addr(a - base)) == a
  {
    hide Addr;
    AddrNear(base + 1);
    AddrNear(a - base);
    AddrNear(a - Addr(base + 1));
    AddrNear(base + Addr(a - base));
  }

  lemma OffsetBack(src: Word, dst: Word, o: nat)
    requires o < 0x1_0000
    ensures Addr(src + o) == dst <==> Addr(dst - src) == o
    ensures Addr(Addr(dst + 1) - Addr(src + 1)) == Addr(dst - src)
    ensures o >= 1 ==> Addr(Addr(src + 1) + (o - 1)) == Addr(src + o)
    ensures Addr(src) == src
  {
    hide Addr;
    AddrNear(src);
    AddrNear(src + o);
    AddrNear(dst - src);
    AddrNear(src + 1);
    AddrNear(dst + 1);
    AddrNear(Addr(dst + 1) - Addr(src + 1));
    AddrNear(Addr(src + 1) + (o - 1));
  }

  lemma WritableNext(rom: set<Word>, base: Word, n: nat)
    requires Writable(rom, base, n) && n >= 1
    ensures base !in rom && Writable(rom, Addr(base + 1), n - 1)
  {
    hide Addr;
    OffsetNext(base, base);
    assert Within(base, base, n);
    forall b: Word | Within(b, Addr(base + 1), n - 1) ensures b !in rom {
      OffsetNext(b, base);
      assert Within(b, base, n);
    }
  }

  /** A copy whose destination does not start inside its source copies exactly. */
  lemma {:induction false} CopyExact(m: Memory, rom: set<Word>, src: Word, dst: Word, n: nat, a: Word)
    requires n <= 0xFFFF && Forward(src, dst, n)
    requires Writable(rom, dst, n)
    ensures Copied(m, rom, src, dst, n)[a] == if Within(a, dst, n) then m[Addr(src + Addr(a - dst))] else m[a]
    decreases n
  {
    if n > 0 {
      hide Addr, Writable, Copied, Forward, Within;
      WritableNext(rom, dst, n);
      CopiedStep(m, rom, src, dst, n);
      ForwardNext(src, dst, n);
      CopyExact(m[dst := m[src]], rom, Addr(src + 1), Addr(dst + 1), n - 1, a);
      CopyOne(m, src, dst, n, a);
    } else {
      CopiedZero(m, rom, src, dst);
    }
  }

  lemma ForwardNext(src: Word, dst: Word, n: nat)
    requires n >= 1 && Forward(src, dst, n)
    ensures Forward(Addr(src + 1), Addr(dst + 1), n - 1)
  {
    hide Addr;
    OffsetBack(src, dst, 0);
  }

  /** One byte copied, then the rest. */
  lemma CopyOne(m: Memory, src: Word, dst: Word, n: nat, a: Word)
    requires 1 <= n <= 0xFFFF && Forward(src, dst, n)
    ensures
      var m', s, d := m[dst := m[src]], Addr(src + 1), Addr(dst + 1);
      (if Within(a, d, n - 1) then m'[Addr(s + Addr(a - d))] else m'[a]) ==
        (if Within(a, dst, n) then m[Addr(src + Addr(a - dst))] else m[a])
  {
    hide Addr;
    var o := Addr(a - dst);
    OffsetNext(a, dst);
    OffsetBack(src, dst, o);
    if o == 0 {
      assert a == dst && !Within(a, Addr(dst + 1), n - 1) && Addr(src + o) == src;
    } else {
      assert o < n ==> Addr(src + o) != dst;
      assert Addr(Addr(src + 1) + Addr(a - Addr(dst + 1))) == Addr(src + o);
    }
  }

  function Ldis(n: nat): (c: seq<Instr>)
    ensures Straight(c)
  {
    if n == 0 then [] else [LDI] + Ldis(n - 1)
  }

  /** `LDI` copies up to the limit `u`, LDIR above. */
  function CopyCode(u: nat, enabled: bool, n: nat): (c: seq<Instr>)
    ensures Straight(c)
  {
    if n <= u && enabled then Ldis(n) else [LD_BC_nn(n), LDIR]
  }

  lemma {:induction false} LdiRun(n: nat, s: State)
    ensures
      var t := Exec(Ldis(n), s);
      t.mem == Copied(s.mem, s.rom, s.HL(), s.DE(), n) && t.SP == s.SP && t.rom == s.rom && t.T == s.T + 16 * n
    decreases n
  {
    hide Do, Exec, Transfer, Pair, Addr, Copied;
    if n == 0 {
      ExecNone(s);
      CopiedZero(s.mem, s.rom, s.HL(), s.DE());
    } else {
      ExecCons(LDI, Ldis(n - 1), s);
      DoLdi(s);
      TransferRegs(s);
      CopiedStep(s.mem, s.rom, s.HL(), s.DE(), n);
      LdiRun(n - 1, Transfer(s).Took(16));
    }
  }

  /** Both forms of a copy of 1 to 65535 bytes from (HL) to (DE) do the same, and the whole copy
      takes 16 T-states a byte, or 21 a byte and 5 more. */
  lemma CopyRuns(u: nat, enabled: bool, n: nat, s: State)
    requires 1 <= n <= 0xFFFF
    ensures
      var t := Exec(CopyCode(u, enabled, n), s);
      t.mem == Copied(s.mem, s.rom, s.HL(), s.DE(), n) && t.SP == s.SP &&
      t.T == s.T + if n <= u && enabled then 16 * n else 21 * n + 5
  {
    hide Transfers, Pair, High, Low, Copied;
    if n <= u && enabled {
      LdiRun(n, s);
    } else {
      var s1 := s.SetBC(n).Took(10);
      PairSplit(n);
      assert Exec([LD_BC_nn(n), LDIR], s) == LdirAll(s1) by { LoadThenLdir(n, s); }
      TransfersDo(s1, n);
    }
  }

  lemma LoadThenLdir(n: nat, s: State)
    requires n <= 0xFFFF
    ensures Exec([LD_BC_nn(n), LDIR], s) == LdirAll(s.SetBC(n).Took(10))
  {
    hide LdirAll, Pair, High, Low;
    ExecTwo(LD_BC_nn(n), LDIR, s);
    DoLdir(Do(LD_BC_nn(n), s));
    AddrNear(n);
  }

  // ---- fills --------------------------------------------------------------------------------

  /** Copying from each address to the next spreads the first byte. */
  lemma {:induction false} SpreadExact(m: Memory, rom: set<Word>, src: Word, n: nat, a: Word)
    requires n <= 0xFFFE && Writable(rom, Addr(src + 1), n)
    ensures Copied(m, rom, src, Addr(src + 1), n)[a] == if Within(a, Addr(src + 1), n) then m[src] else m[a]
    decreases n
  {
    hide Addr, Writable, Copied;
    var dst := Addr(src + 1);
    if n > 0 {
      WritableNext(rom, dst, n);
      CopiedStep(m, rom, src, dst, n);
      OffsetNext(a, dst);
      SpreadExact(m[dst := m[src]], rom, dst, n - 1, a);
    } else {
      CopiedZero(m, rom, src, dst);
    }
  }

  /** LDIR from a byte that holds `v` to the next: `n` bytes are then `v`. */
  lemma LdirFills(s: State, m: Memory, n: nat, v: Byte)
    requires 2 <= n <= 0xFFFF && s.DE() == Addr(s.HL() + 1) && s.BC() == n - 1
    requires s.mem == m[s.HL() := v] && Writable(s.rom, s.HL(), n)
    ensures
      var t := LdirAll(s);
      Filled(m, t.mem, s.HL(), n, v) && t.SP == s.SP && t.rom == s.rom && t.T == s.T + 21 * (n - 1) - 5
  {
    hide Addr, Pair, Writable, Transfers, Copied;
    TransfersDo(s, n - 1);
    WritableNext(s.rom, s.HL(), n);
    forall a: Word
      ensures LdirAll(s).mem[a] == if Within(a, s.HL(), n) then v else m[a]
    {
      OffsetNext(a, s.HL());
      SpreadExact(s.mem, s.rom, s.HL(), n - 1, a);
    }
  }

  /** The rest of a long fill, once the first byte is stored and HL is at it. */
  function Spread(sym: int, n: nat): (c: seq<Instr>)
    requires n >= 1
    ensures Straight(c)
  {
    [LD_DE_nn(sym + 1), LD_BC_nn(n - 1), LDIR]
  }

  lemma SpreadRun(sym: int, n: nat, s: State, m: Memory, v: Byte)
    requires 2 <= n <= 0xFFFF && s.HL() == Addr(sym)
    requires s.mem == m[s.HL() := v] && Writable(s.rom, s.HL(), n)
    ensures
      var t := Exec(Spread(sym, n), s);
      Filled(m, t.mem, s.HL(), n, v) && t.SP == s.SP && t.T == s.T + 20 + 21 * (n - 1) - 5
  {
    hide Addr, Pair, High, Low, LdirAll, Filled, Writable, Exec;
    var s1 := Do(LD_DE_nn(sym + 1), s);
    PairSplit(Addr(sym + 1));
    AddrAdd(sym, 1);
    assert Spread(sym, n) == [LD_DE_nn(sym + 1)] + [LD_BC_nn(n - 1), LDIR];
    ExecCons(LD_DE_nn(sym + 1), [LD_BC_nn(n - 1), LDIR], s);
    LoadThenLdir(n - 1, s1);
    PairSplit(n - 1);
    LdirFills(s1.SetBC(n - 1).Took(10), m, n, v);
  }

  /** Stores of HL at `sym + i`, `sym + i + 2`, ... while two bytes are left of `n`. */
  function Pairs(sym: int, i: nat, n: nat): (c: seq<Instr>)
    ensures Straight(c)
    decreases n - i
  {
    if n - i < 2 then [] else [LD_at_HL(sym + i)] + Pairs(sym, i + 2, n)
  }

  /** Stores of A at `sym + i` to `sym + n - 1`. */
  function Singles(sym: int, i: nat, n: nat): (c: seq<Instr>)
    ensures Straight(c)
    decreases n - i
  {
    if n <= i then [] else [LD_at_A(sym + i)] + Singles(sym, i + 1, n)
  }

  function StorePtr(val: Option<Byte>): (i: Instr)
    ensures !Jumps(i)
  {
    if val.Some? then LD_ptr_n(val.value) else LD_ptr_A
  }

  /** `n` stores through HL with an increment between them. */
  function Ptrs(val: Option<Byte>, n: nat): (c: seq<Instr>)
    ensures Straight(c)
  {
    if n == 0 then []
    else if n == 1 then [StorePtr(val)]
    else [StorePtr(val), INC_HL] + Ptrs(val, n - 1)
  }

  /** The odd byte of a fill by words. */
  function Odd(sym: int, n: nat, v: Byte): (c: seq<Instr>)
    ensures Straight(c)
  {
    if n % 2 == 0 then [] else [if v == 0 then XOR_A else LD_A_n(v), LD_at_A(sym + n - 1)]
  }

  /** The code of a fill of `n` bytes at `sym`, or at HL, with `val`, or with A; up to the limit
      `u` it is unrolled. */
  function FillCode(u: nat, sym: Option<int>, n: nat, val: Option<Byte>): (c: seq<Instr>)
    requires n >= 1
    ensures Straight(c)
  {
    if sym.Some? then
      if val.Some? && n <= u then
        (if n >= 2 then [LD_HL_nn(val.value + 256 * val.value)] else []) + Pairs(sym.value, 0, n) +
          Odd(sym.value, n, val.value)
      else if val.Some? then [LD_HL_nn(sym.value), LD_ptr_n(val.value)] + Spread(sym.value, n)
      else if n <= u then Singles(sym.value, 0, n)
      else [LD_at_A(sym.value), LD_HL_nn(sym.value)] + Spread(sym.value, n)
    else if n <= u then Ptrs(val, n)
    else [StorePtr(val), LD_D_H, LD_E_L, INC_DE, LD_BC_nn(n - 1), LDIR]
  }

  /** The bytes from `base` on get `v`, one more after the first `i`. */
  lemma FilledNext(m: Memory, m1: Memory, m2: Memory, base: int, i: nat, n: nat, v: Byte)
    requires i + n <= 0xFFFF && Filled(m, m1, base, i, v) && Filled(m1, m2, base + i, n, v)
    ensures Filled(m, m2, base, i + n, v)
  {
    hide Addr;
    forall a: Word
      ensures Within(a, base, i + n) <==> Within(a, base, i) || Within(a, base + i, n)
    {
      AddrAdd(a - base, 0 - i);
      AddrNear(Addr(a - base) - i);
    }
  }

  lemma FilledNone(m: Memory, base: int, v: Byte)
    ensures Filled(m, m, base, 0, v)
  {
  }

  lemma FilledOne(m: Memory, base: int, v: Byte)
    ensures Filled(m, m[Addr(base) := v], base, 1, v)
  {
    hide Addr;
    forall a: Word ensures Within(a, base, 1) <==> a == Addr(base) {
      AddrAdd(base, 0 - a);
      AddrAdd(base, a);
      AddrNear(a - Addr(base));
    }
  }

  lemma WritablePart(rom: set<Word>, base: int, n: nat, i: nat, k: nat)
    requires Writable(rom, base, n) && i + k <= n <= 0xFFFF
    ensures Writable(rom, base + i, k)
    ensures k >= 1 ==> Addr(base + i) !in rom
  {
    hide Addr;
    forall a: Word | Within(a, base + i, k) ensures a !in rom {
      AddrAdd(a - (base + i), i);
      AddrNear(Addr(a - (base + i)) + i);
      assert Within(a, base, n);
    }
    if k >= 1 {
      AddrAdd(base + i, -(base + i));
      AddrNear(0);
      assert Within(Addr(base + i), base + i, k);
    }
  }

  // ---- each form of a fill ------------------------------------------------------------------

  lemma BothBytes(w: Word, v: Byte)
    requires w == v + 256 * v
    ensures Low(w) == v && High(w) == v
  {
    LowIs(w);
  }

  /** Two bytes stored from HL. */
  lemma StoreBoth(s: State, base: int, v: Byte)
    requires s.HL() == v + 256 * v && Writable(s.rom, base, 2)
    ensures
      var t := Do(LD_at_HL(base), s);
      Filled(s.mem, t.mem, base, 2, v) && t.HL() == s.HL() && t.SP == s.SP && t.rom == s.rom && t.T == s.T + 16
  {
    hide Addr, Writable, Filled, Low, High, Pair, LdirAll, Transfer;
    WritablePart(s.rom, base, 2, 0, 1);
    WritablePart(s.rom, base, 2, 1, 1);
    assert base + 0 == base;
    AddrAdd(base, 1);
    BothBytes(s.HL(), v);
    FilledOne(s.mem, base, v);
    FilledOne(s.mem[Addr(base) := v], base + 1, v);
    FilledNext(s.mem, s.mem[Addr(base) := v], s.mem[Addr(base) := v][Addr(base + 1) := v], base, 1, 1, v);
  }

  lemma {:induction false} PairsRun(sym: int, i: nat, n: nat, s: State, v: Byte)
    requires i <= n <= 0xFFFF && s.HL() == v + 256 * v && Writable(s.rom, sym + i, n - i)
    ensures
      var t := Exec(Pairs(sym, i, n), s);
      Filled(s.mem, t.mem, sym + i, (n - i) / 2 * 2, v) && t.SP == s.SP && t.rom == s.rom &&
      t.T == s.T + 16 * ((n - i) / 2)
    decreases n - i
  {
    hide Do, Exec, Filled, Writable, Pair;
    if n - i < 2 {
      ExecNone(s);
      FilledNone(s.mem, sym + i, v);
    } else {
      var s1 := Do(LD_at_HL(sym + i), s);
      WritablePart(s.rom, sym + i, n - i, 0, 2);
      WritablePart(s.rom, sym + i, n - i, 2, n - i - 2);
      assert sym + i + 0 == sym + i && sym + i + 2 == sym + (i + 2);
      StoreBoth(s, sym + i, v);
      PairsRun(sym, i + 2, n, s1, v);
      var t := Exec(Pairs(sym, i + 2, n), s1);
      ExecCons(LD_at_HL(sym + i), Pairs(sym, i + 2, n), s);
      FilledNext(s.mem, s1.mem, t.mem, sym + i, 2, (n - i - 2) / 2 * 2, v);
    }
  }

  lemma StoreOne(s: State, base: int)
    requires Writable(s.rom, base, 1)
    ensures
      var t := Do(LD_at_A(base), s);
      Filled(s.mem, t.mem, base, 1, s.A) && t.A == s.A && t.SP == s.SP && t.rom == s.rom && t.T == s.T + 13 &&
      t.mem == s.mem[Addr(base) := s.A]
  {
    hide Addr, Writable, Filled;
    WritablePart(s.rom, base, 1, 0, 1);
    assert base + 0 == base;
    FilledOne(s.mem, base, s.A);
  }

  lemma {:induction false} SinglesRun(sym: int, i: nat, n: nat, s: State)
    requires i <= n <= 0xFFFF && Writable(s.rom, sym + i, n - i)
    ensures
      var t := Exec(Singles(sym, i, n), s);
      Filled(s.mem, t.mem, sym + i, n - i, s.A) && t.SP == s.SP && t.T == s.T + 13 * (n - i)
    decreases n - i
  {
    hide Do, Exec, Filled, Writable;
    if n == i {
      ExecNone(s);
      FilledNone(s.mem, sym + i, s.A);
    } else {
      var s1 := Do(LD_at_A(sym + i), s);
      WritablePart(s.rom, sym + i, n - i, 0, 1);
      WritablePart(s.rom, sym + i, n - i, 1, n - i - 1);
      assert sym + i + 0 == sym + i && sym + i + 1 == sym + (i + 1);
      StoreOne(s, sym + i);
      SinglesRun(sym, i + 1, n, s1);
      ExecCons(LD_at_A(sym + i), Singles(sym, i + 1, n), s);
      FilledNext(s.mem, s1.mem, Exec(Singles(sym, i + 1, n), s1).mem, sym + i, 1, n - i - 1, s.A);
    }
  }

  lemma OddRun(sym: int, n: nat, s: State, v: Byte)
    requires 1 <= n && Writable(s.rom, sym + n / 2 * 2, n % 2)
    ensures
      var t := Exec(Odd(sym, n, v), s);
      Filled(s.mem, t.mem, sym + n / 2 * 2, n % 2, v) && t.SP == s.SP &&
      t.T == s.T + if n % 2 == 0 then 0 else if v == 0 then 17 else 20
  {
    hide Exec, Filled, Writable, Addr, LdirAll, Transfer;
    if n % 2 == 0 {
      ExecNone(s);
      FilledNone(s.mem, sym + n / 2 * 2, v);
    } else {
      var i := if v == 0 then XOR_A else LD_A_n(v);
      assert Odd(sym, n, v) == [i, LD_at_A(sym + n - 1)];
      ExecTwo(i, LD_at_A(sym + n - 1), s);
      assert n - 1 == n / 2 * 2;
      StoreOne(Do(i, s), sym + n - 1);
    }
  }

  lemma ByPointer(val: Option<Byte>, s: State)
    requires Writable(s.rom, s.HL(), 1)
    ensures
      var t := Do(StorePtr(val), s); var v := if val.Some? then val.value else s.A;
      Filled(s.mem, t.mem, s.HL(), 1, v) && t.mem == s.mem[s.HL() := v] && t.HL() == s.HL() && t.A == s.A &&
      t.SP == s.SP && t.rom == s.rom
      && t.H == s.H && t.L == s.L && t.T == s.T + if val.Some? then 10 else 7
  {
    hide Addr, Writable, Filled, Pair, LdirAll, Transfer;
    WritablePart(s.rom, s.HL(), 1, 0, 1);
    AddrNear(s.HL());
    assert s.HL() + 0 == s.HL();
    FilledOne(s.mem, s.HL(), if val.Some? then val.value else s.A);
  }

  lemma Increment(s: State)
    ensures
      var t := Do(INC_HL, s);
      t.HL() == Addr(s.HL() + 1) && t.A == s.A && t.SP == s.SP && t.rom == s.rom && t.mem == s.mem && t.bus == s.bus &&
      t.T == s.T + 6
  {
    hide Addr, Pair, High, Low, LdirAll, Transfer;
    PairSplit(Addr(s.HL() + 1));
  }

  lemma FilledSame(m: Memory, m': Memory, base: int, n: nat, v: Byte)
    ensures Filled(m, m', Addr(base), n, v) <==> Filled(m, m', base, n, v)
    ensures forall rom :: Writable(rom, Addr(base), n) <==> Writable(rom, base, n)
  {
    hide Addr;
    forall a: Word ensures Within(a, Addr(base), n) <==> Within(a, base, n) {
      AddrAdd(base, a);
    }
  }

  lemma {:induction false} PtrsRun(val: Option<Byte>, n: nat, s: State)
    requires n <= 0xFFFF && Writable(s.rom, s.HL(), n)
    ensures
      var t := Exec(Ptrs(val, n), s);
      Filled(s.mem, t.mem, s.HL(), n, if val.Some? then val.value else s.A) && t.SP == s.SP &&
      t.T == s.T + if n == 0 then 0 else (if val.Some? then 16 * n else 13 * n) - 6
    decreases n
  {
    hide Do, Exec, Filled, Writable, Pair, StorePtr, Addr;
    var v, s1 := if val.Some? then val.value else s.A, Do(StorePtr(val), s);
    var hl: int := s.HL();
    if n == 0 {
      ExecNone(s);
      FilledNone(s.mem, hl, v);
    } else {
      WritablePart(s.rom, hl, n, 0, 1);
      WritablePart(s.rom, hl, n, 1, n - 1);
      assert hl + 0 == hl;
      ByPointer(val, s);
      if n == 1 {
        ExecOne(StorePtr(val), s);
      } else {
        var s2 := Do(INC_HL, s1);
        Increment(s1);
        var t := Exec(Ptrs(val, n - 1), s2);
        FilledSame(s2.mem, t.mem, hl + 1, n - 1, v);
        PtrsRun(val, n - 1, s2);
        PtrsSplit(val, n);
        ExecCons(StorePtr(val), [INC_HL] + Ptrs(val, n - 1), s);
        ExecCons(INC_HL, Ptrs(val, n - 1), s1);
        FilledNext(s.mem, s1.mem, t.mem, hl, 1, n - 1, v);
      }
    }
  }

  lemma PtrsSplit(val: Option<Byte>, n: nat)
    requires n >= 2
    ensures Ptrs(val, n) == [StorePtr(val)] + ([INC_HL] + Ptrs(val, n - 1))
  {
  }

  // ---- every fill ---------------------------------------------------------------------------

  function Target(sym: Option<int>, s: State): Word { if sym.Some? then Addr(sym.value) else s.HL() }

  function Value(val: Option<Byte>, s: State): Byte { if val.Some? then val.value else s.A }

  /** The T-states of a fill: 8 a byte by words, 13 or 16 a byte by bytes, and 21 a byte with
      LDIR, each with what its registers cost. */
  function FillTime(u: nat, sym: Option<int>, n: nat, val: Option<Byte>): nat
    requires n >= 1
  {
    if sym.None? then
      if n <= u then (if val.Some? then 16 * n else 13 * n) - 6 else 21 * n + if val.Some? then 8 else 5
    else if n > u then 21 * n + if val.Some? then 14 else 17
    else if val.None? then 13 * n
    else (if n >= 2 then 10 else 0) + 16 * (n / 2) + if n % 2 == 0 then 0 else if val.value == 0 then 17 else 20
  }

  /** A fill writes its value to exactly `n` bytes, for every `n` from 1 to 65535, every limit of
      unrolling, and wherever the address and the value come from, in exactly its T-states. */
  lemma FillExact(u: nat, sym: Option<int>, n: nat, val: Option<Byte>, s: State)
    requires 1 <= u && 1 <= n <= 0xFFFF && Writable(s.rom, Target(sym, s), n)
    ensures
      var t := Exec(FillCode(u, sym, n, val), s);
      Filled(s.mem, t.mem, Target(sym, s), n, Value(val, s)) && t.SP == s.SP && t.T == s.T + FillTime(u, sym, n, val)
  {
    hide Exec, Filled, Writable, Addr, Do, Pairs, Odd, Singles, Ptrs, Spread, StorePtr;
    if sym.Some? {
      var a := sym.value;
      FilledSame(s.mem, Exec(FillCode(u, sym, n, val), s).mem, a, n, Value(val, s));
      if n <= u && val.None? {
        assert a + 0 == a;
        SinglesRun(a, 0, n, s);
      } else if n <= u {
        FillWords(a, n, val.value, s);
      } else if val.Some? {
        FillConstant(a, n, val.value, s);
      } else {
        FillFromA(a, n, s);
      }
    } else if n <= u {
      PtrsRun(val, n, s);
    } else {
      FillThroughHL(n, val, s);
    }
  }

  lemma FillWords(a: int, n: nat, v: Byte, s: State)
    requires 1 <= n <= 0xFFFF && Writable(s.rom, a, n)
    ensures
      var t := Exec((if n >= 2 then [LD_HL_nn(v + 256 * v)] else []) + Pairs(a, 0, n) + Odd(a, n, v), s);
      Filled(s.mem, t.mem, a, n, v) && t.SP == s.SP &&
      t.T == s.T + (if n >= 2 then 10 else 0) + 16 * (n / 2) + if n % 2 == 0 then 0 else if v == 0 then 17 else 20
  {
    hide Exec, Filled, Writable, Pairs, Odd, Pair, High, Low, LdirAll, Transfer;
    var first := if n >= 2 then [LD_HL_nn(v + 256 * v)] else [];
    var s1 := Exec(first, s);
    ExecNone(s);
    ExecOne(LD_HL_nn(v + 256 * v), s);
    AddrNear(v + 256 * v);
    PairSplit(v + 256 * v);
    var k := n / 2 * 2;
    assert a + 0 == a && n == k + n % 2;
    ExecAppend(first + Pairs(a, 0, n), Odd(a, n, v), s);
    ExecAppend(first, Pairs(a, 0, n), s);
    var s2 := Exec(Pairs(a, 0, n), s1);
    if n >= 2 {
      PairsRun(a, 0, n, s1, v);
    } else {
      assert Pairs(a, 0, n) == [] by { PairsNone(a); }
      ExecNone(s1);
      FilledNone(s1.mem, a, v);
    }
    WritablePart(s.rom, a, n, k, n % 2);
    OddRun(a, n, s2, v);
    FilledNext(s.mem, s2.mem, Exec(Odd(a, n, v), s2).mem, a, k, n % 2, v);
  }

  lemma PairsNone(a: int)
    ensures Pairs(a, 0, 1) == []
  {
  }

  lemma FillConstant(a: int, n: nat, v: Byte, s: State)
    requires 2 <= n <= 0xFFFF && Writable(s.rom, a, n)
    ensures
      var t := Exec([LD_HL_nn(a), LD_ptr_n(v)] + Spread(a, n), s);
      Filled(s.mem, t.mem, a, n, v) && t.SP == s.SP && t.T == s.T + 21 * n + 14
  {
    hide Exec, Filled, Writable, Spread, Pair, High, Low, LdirAll, Transfer, Addr;
    var s1 := Do(LD_HL_nn(a), s);
    var s2 := Do(LD_ptr_n(v), s1);
    PairSplit(Addr(a));
    ExecAppend([LD_HL_nn(a), LD_ptr_n(v)], Spread(a, n), s);
    ExecTwo(LD_HL_nn(a), LD_ptr_n(v), s);
    FilledSame(s.mem, s.mem, a, n, v);
    FilledSame(s.mem, Exec(Spread(a, n), s2).mem, a, n, v);
    WritablePart(s.rom, a, n, 0, 1);
    assert a + 0 == a;
    LowByte(v);
    SpreadRun(a, n, s2, s.mem, v);
  }

  lemma LowByte(v: Byte)
    ensures Low(v) == v
  {
  }

  lemma FillFromA(a: int, n: nat, s: State)
    requires 2 <= n <= 0xFFFF && Writable(s.rom, a, n)
    ensures
      var t := Exec([LD_at_A(a), LD_HL_nn(a)] + Spread(a, n), s);
      Filled(s.mem, t.mem, a, n, s.A) && t.SP == s.SP && t.T == s.T + 21 * n + 17
  {
    hide Exec, Filled, Writable, Spread, Pair, High, Low, LdirAll, Transfer, Addr;
    var s1 := Do(LD_at_A(a), s);
    var s2 := Do(LD_HL_nn(a), s1);
    PairSplit(Addr(a));
    ExecAppend([LD_at_A(a), LD_HL_nn(a)], Spread(a, n), s);
    ExecTwo(LD_at_A(a), LD_HL_nn(a), s);
    FilledSame(s.mem, s.mem, a, n, s.A);
    FilledSame(s.mem, Exec(Spread(a, n), s2).mem, a, n, s.A);
    WritablePart(s.rom, a, n, 0, 1);
    assert a + 0 == a;
    SpreadRun(a, n, s2, s.mem, s.A);
  }

  lemma FillThroughHL(n: nat, val: Option<Byte>, s: State)
    requires 2 <= n <= 0xFFFF && Writable(s.rom, s.HL(), n)
    ensures
      var t := Exec([StorePtr(val), LD_D_H, LD_E_L, INC_DE, LD_BC_nn(n - 1), LDIR], s);
      Filled(s.mem, t.mem, s.HL(), n, Value(val, s)) && t.SP == s.SP && t.T == s.T + 21 * n + if val.Some? then 8 else 5
  {
    hide Exec, Filled, Writable, High, Low, LdirAll, Transfer, Addr, StorePtr;
    var hl: int := s.HL();
    var s1 := Do(StorePtr(val), s);
    WritablePart(s.rom, hl, n, 0, 1);
    assert hl + 0 == hl;
    ByPointer(val, s);
    var s2 := Do(LD_E_L, Do(LD_D_H, s1));
    var s3 := Do(INC_DE, s2);
    assert s2.HL() == s2.DE() == s1.HL() && s2.mem == s1.mem && s2.rom == s1.rom && s2.SP == s1.SP && s2.T == s1.T + 8;
    IncrementDE(s2);
    ExecAppend([StorePtr(val), LD_D_H], [LD_E_L, INC_DE, LD_BC_nn(n - 1), LDIR], s);
    assert [StorePtr(val), LD_D_H, LD_E_L, INC_DE, LD_BC_nn(n - 1), LDIR] ==
      [StorePtr(val), LD_D_H] + [LD_E_L, INC_DE, LD_BC_nn(n - 1), LDIR];
    ExecTwo(StorePtr(val), LD_D_H, s);
    ExecAppend([LD_E_L, INC_DE], [LD_BC_nn(n - 1), LDIR], Do(LD_D_H, s1));
    assert [LD_E_L, INC_DE, LD_BC_nn(n - 1), LDIR] == [LD_E_L, INC_DE] + [LD_BC_nn(n - 1), LDIR];
    ExecTwo(LD_E_L, INC_DE, Do(LD_D_H, s1));
    LoadThenLdir(n - 1, s3);
    LoadBC(s3, n - 1);
    LdirFills(s3.SetBC(n - 1).Took(10), s.mem, n, Value(val, s));
  }

  lemma LoadBC(s: State, n: Word)
    ensures var t := s.SetBC(n).Took(10);
      t.BC() == n && t.HL() == s.HL() && t.DE() == s.DE() && t.mem == s.mem && t.rom == s.rom && t.SP == s.SP &&
      t.T == s.T + 10
  {
    hide High, Low, Pair;
    PairSplit(n);
  }

  lemma IncrementDE(s: State)
    ensures var t := Do(INC_DE, s);
      t.DE() == Addr(s.DE() + 1) && t.HL() == s.HL() && t.mem == s.mem && t.rom == s.rom && t.SP == s.SP &&
      t.T == s.T + 6
  {
    hide Addr, Pair, High, Low, LdirAll, Transfer;
    PairSplit(Addr(s.DE() + 1));
  }

  lemma LongFillEnds(u: nat, sym: Option<int>, n: nat, val: Option<Byte>, s: State)
    requires 1 <= u < n <= 0xFFFF
    ensures
      var c := FillCode(u, sym, n, val);
      |c| >= 2 && c[|c| - 1] == LDIR && LDIR !in c[..|c| - 1] && Exec(c[..|c| - 1], s).BC() == n - 1
  {
    hide Do, Exec, Addr, High, Low, Pair;
    var c := FillCode(u, sym, n, val);
    var front :=
      if sym.None? then [StorePtr(val), LD_D_H, LD_E_L, INC_DE]
      else if val.Some? then [LD_HL_nn(sym.value), LD_ptr_n(val.value), LD_DE_nn(sym.value + 1)]
      else [LD_at_A(sym.value), LD_HL_nn(sym.value), LD_DE_nn(sym.value + 1)];
    assert c[..|c| - 1] == front + [LD_BC_nn(n - 1)];
    ExecAppend(front, [LD_BC_nn(n - 1)], s);
    ExecOne(LD_BC_nn(n - 1), Exec(front, s));
    LoadedBC(n - 1, Exec(front, s));
  }

  lemma LoadedBC(n: Word, s: State)
    ensures Do(LD_BC_nn(n), s).BC() == n
  {
    hide LdirAll, Transfer, High, Low, Pair;
    PairSplit(n);
  }

  lemma {:induction false} NoLdirPairs(sym: int, i: nat, n: nat)
    ensures LDIR !in Pairs(sym, i, n)
    decreases n - i
  {
    if n - i >= 2 { NoLdirPairs(sym, i + 2, n); }
  }

  lemma {:induction false} NoLdirSingles(sym: int, i: nat, n: nat)
    ensures LDIR !in Singles(sym, i, n)
    decreases n - i
  {
    if n > i { NoLdirSingles(sym, i + 1, n); }
  }

  lemma {:induction false} NoLdirPtrs(val: Option<Byte>, n: nat)
    ensures LDIR !in Ptrs(val, n)
    decreases n
  {
    if n > 0 { NoLdirPtrs(val, n - 1); }
  }

  /** Only the last instruction of a fill can be LDIR, it is so above the limit of unrolling, and
      it never starts with 0 in BC. */
  lemma LdirNotEmpty(u: nat, sym: Option<int>, n: nat, val: Option<Byte>, s: State)
    requires 1 <= u && 1 <= n <= 0xFFFF
    ensures
      var c := FillCode(u, sym, n, val);
      (LDIR in c <==> n > u) &&
      (n > u ==> c[|c| - 1] == LDIR && LDIR !in c[..|c| - 1] && Exec(c[..|c| - 1], s).BC() == n - 1 >= u)
  {
    hide Exec, Pairs, Singles, Ptrs;
    var c := FillCode(u, sym, n, val);
    if n > u {
      LongFillEnds(u, sym, n, val, s);
    } else {
      if sym.Some? {
        NoLdirPairs(sym.value, 0, n);
        NoLdirSingles(sym.value, 0, n);
      }
      NoLdirPtrs(val, n);
    }
  }

  // ---- device fills -------------------------------------------------------------------------

  /** The stores of `v` to the `n` addresses from `base` up. */
  function StoreLog(base: int, n: nat, v: Byte): seq<Access>
    decreases n
  {
    if n == 0 then [] else [Write(Addr(base), v)] + StoreLog(base + 1, n - 1, v)
  }

  lemma {:induction false} StoreLogAt(base: int, n: nat, v: Byte, k: nat)
    requires k < n
    ensures |StoreLog(base, n, v)| == n && StoreLog(base, n, v)[k] == Write(Addr(base + k), v)
    decreases n
  {
    if n > 1 { StoreLogAt(base + 1, n - 1, v, if k > 0 then k - 1 else 0); }
  }

  lemma {:induction false} StoreLogAppend(base: int, i: nat, n: nat, v: Byte)
    ensures StoreLog(base, i, v) + StoreLog(base + i, n, v) == StoreLog(base, i + n, v)
    decreases i
  {
    hide Addr;
    if i == 0 {
      assert base + 0 == base;
    } else {
      StoreLogAppend(base + 1, i - 1, n, v);
      assert base + 1 + (i - 1) == base + i;
      var head := [Write(Addr(base), v)];
      assert head + StoreLog(base + 1, i - 1, v) + StoreLog(base + i, n, v) ==
        head + (StoreLog(base + 1, i - 1, v) + StoreLog(base + i, n, v));
    }
  }

  lemma StoreLogSame(base: int, n: nat, v: Byte)
    ensures StoreLog(Addr(base), n, v) == StoreLog(base, n, v)
    decreases n
  {
    hide Addr;
    AddrAdd(base, 0);
    if n > 0 {
      AddrAdd(base, 1);
      StoreLogSame(Addr(base) + 1, n - 1, v);
      StoreLogSame(base + 1, n - 1, v);
    }
  }

  /** From `s` to `t` the only data accesses are `n` ascending stores of `v` from `base` on, and
      memory changed as they say. */
  ghost predicate Stored(s: State, t: State, base: int, n: nat, v: Byte) {
    t.bus == s.bus + StoreLog(base, n, v) && t.rom == s.rom && t.SP == s.SP &&
    forall a: Word :: t.mem[a] == if Within(a, base, n) && a !in s.rom then v else s.mem[a]
  }

  lemma StoredNone(s: State, base: int, v: Byte)
    ensures Stored(s, s, base, 0, v)
  {
  }

  lemma StoredNext(s: State, t: State, u: State, base: int, i: nat, n: nat, v: Byte)
    requires i + n <= 0x1_0000 && Stored(s, t, base, i, v) && Stored(t, u, base + i, n, v)
    ensures Stored(s, u, base, i + n, v)
  {
    hide Addr, StoreLog;
    StoreLogAppend(base, i, n, v);
    assert s.bus + StoreLog(base, i, v) + StoreLog(base + i, n, v) ==
      s.bus + (StoreLog(base, i, v) + StoreLog(base + i, n, v));
    forall a: Word
      ensures Within(a, base, i + n) <==> Within(a, base, i) || Within(a, base + i, n)
    {
      AddrAdd(a - base, 0 - i);
      if i <= 0xFFFF { AddrNear(Addr(a - base) - i); }
    }
  }

  lemma StoredSame(s: State, t: State, base: int, n: nat, v: Byte)
    ensures Stored(s, t, Addr(base), n, v) <==> Stored(s, t, base, n, v)
  {
    hide Addr;
    StoreLogSame(base, n, v);
    forall a: Word ensures Within(a, Addr(base), n) <==> Within(a, base, n) {
      AddrAdd(base, a);
    }
  }

  /** One store through HL and the increment. */
  lemma StoreAndNext(s: State)
    ensures
      var t := Do(INC_HL, Do(LD_ptr_A, s));
      Stored(s, t, s.HL(), 1, s.A) && t.HL() == Addr(s.HL() + 1) && t.A == s.A && t.B == s.B && t.C == s.C &&
      t.F == s.F && t.T == s.T + 13
  {
    hide Addr, Pair, High, Low, LdirAll, Transfer;
    var base: int := s.HL();
    PairSplit(Addr(base + 1));
    AddrNear(base);
    assert StoreLog(base, 1, s.A) == [Write(Addr(base), s.A)] + StoreLog(base + 1, 0, s.A);
    forall a: Word ensures Within(a, base, 1) <==> a == base {
      AddrNear(a - base);
    }
  }

  /** The rest of a loop whose first round made one store. */
  lemma RestOfLoop(s: State, t: State, u: State, n: nat)
    requires 2 <= n <= 0x1_0000 && Stored(s, t, s.HL(), 1, s.A) && t.HL() == Addr(s.HL() + 1)
    requires Stored(t, u, t.HL(), n - 1, s.A)
    ensures Stored(s, u, s.HL(), n, s.A)
  {
    hide Addr, Stored, Pair;
    var base: int := s.HL();
    StoredSame(t, u, base + 1, n - 1, s.A);
    StoredNext(s, t, u, base, 1, n - 1, s.A);
  }

  /** An 8-bit counter that reaches 0 after this many decrements. */
  function Turns(x: Byte): (n: nat)
    ensures 1 <= n <= 0x100
  {
    if x == 0 then 0x100 else x
  }

  lemma TurnsDec(x: Byte)
    ensures Low(x - 1) == 0 <==> Turns(x) == 1
    ensures Low(x - 1) != 0 ==> Turns(Low(x - 1)) == Turns(x) - 1
    ensures Turns(0) == 0x100
  {
  }

  const ShortLoop := [LD_ptr_A, INC_HL, DJNZ(-3)]

  const LongLoop := [LD_ptr_A, INC_HL, DEC_C, JR_NZ(-4), DJNZ(-5)]

  lemma TwoSteps(p: seq<Instr>, o: nat, s: State)
    requires o + 2 <= |p| && p[o] == LD_ptr_A && p[o + 1] == INC_HL
    ensures Steps(p, Config(o, s), 2) == Config(o + 2, Do(INC_HL, Do(LD_ptr_A, s)))
  {
    hide Do, LdirAll, Transfer;
    StepStraight(p, o, s);
    StepStraight(p, o + 1, Do(LD_ptr_A, s));
    StepsAdd(p, Config(o, s), 1, 1);
  }

  /** The loop of up to 256 bytes. */
  lemma {:induction false} ShortLoopRuns(p: seq<Instr>, o: nat, s: State) returns (k: nat)
    requires o + 3 <= |p| && p[o..o + 3] == ShortLoop
    ensures
      var c, n := Steps(p, Config(o, s), k), Turns(s.B);
      c.pc == o + 3 && Stored(s, c.s, s.HL(), n, s.A) && c.s.T == s.T + 26 * n - 5
    decreases Turns(s.B)
  {
    hide Do, Stored, Pair, Addr, Steps, Step, Low, Turns;
    TurnsDec(s.B);
    assert p[o] == LD_ptr_A && p[o + 1] == INC_HL && p[o + 2] == DJNZ(-3);
    var t := Do(INC_HL, Do(LD_ptr_A, s));
    StoreAndNext(s);
    TwoSteps(p, o, s);
    var b := Low(t.B - 1);
    var r := t.(B := b).Took(if b != 0 then 13 else 8);
    StepDjnz(p, o + 2, t, 0 - 3);
    StepsAdd(p, Config(o, s), 2, 1);
    StoredOther(s, t, r, s.HL(), 1, s.A);
    if b == 0 {
      k := 3;
    } else {
      var m := ShortLoopRuns(p, o, r);
      StepsAdd(p, Config(o, s), 3, m);
      RestOfLoop(s, r, Steps(p, Config(o, r), m).s, Turns(s.B));
      k := 3 + m;
    }
  }

  lemma DjnzStep(p: seq<Instr>, o: nat, s: State, d: int)
    requires o < |p| && p[o] == DJNZ(d)
    ensures
      var b := Low(s.B - 1);
      Step(p, Config(o, s)) == Config(if b != 0 then o + 1 + d else o + 1, s.(B := b).Took(if b != 0 then 13 else 8))
  {
    hide LdirAll, Transfer, Do;
  }

  lemma StepDjnz(p: seq<Instr>, o: nat, s: State, d: int)
    requires o < |p| && p[o] == DJNZ(d)
    ensures
      var b := Low(s.B - 1);
      Steps(p, Config(o, s), 1) ==
        Config(if b != 0 then o + 1 + d else o + 1, s.(B := b).Took(if b != 0 then 13 else 8))
  {
    hide Steps, Step;
    DjnzStep(p, o, s, d);
    StepsOne(p, Config(o, s));
  }

  lemma StepDecJr(p: seq<Instr>, o: nat, s: State, d: int)
    requires o + 2 <= |p| && p[o] == DEC_C && p[o + 1] == JR_NZ(d)
    ensures
      var x := Low(s.C - 1);
      var r := s.(C := x, F := AfterDec(s.F, s.C));
      Steps(p, Config(o, s), 2) == if x != 0 then Config(o + 2 + d, r.Took(16)) else Config(o + 2, r.Took(11))
  {
    hide Do, AfterDec, Steps, Step;
    StepStraight(p, o, s);
    DoDecC(s);
    StepJr(p, o + 1, Do(DEC_C, s), d);
    StepsAdd(p, Config(o, s), 1, 1);
  }

  lemma DoDecC(s: State)
    ensures var t := Do(DEC_C, s); t == s.(C := Low(s.C - 1), F := AfterDec(s.F, s.C)).Took(4) && (t.F.z <==> t.C == 0)
  {
    hide LdirAll, Transfer;
  }

  lemma StepJr(p: seq<Instr>, o: nat, s: State, d: int)
    requires o < |p| && p[o] == JR_NZ(d)
    ensures Steps(p, Config(o, s), 1) == if !s.F.z then Config(o + 1 + d, s.Took(12)) else Config(o + 1, s.Took(7))
  {
    hide Steps, LdirAll, Transfer, Do;
    StepsOne(p, Config(o, s));
  }

  /** What is stored does not depend on the other registers or the time. */
  lemma StoredOther(s: State, t: State, r: State, base: int, n: nat, v: Byte)
    requires Stored(s, t, base, n, v) && r.bus == t.bus && r.mem == t.mem && r.rom == t.rom && r.SP == t.SP
    ensures Stored(s, r, base, n, v)
  {
  }

  /** How many rounds the two counters give. */
  function Rounds(s: State): (n: nat)
    ensures 1 <= n <= 0x1_0000
  {
    0x100 * (Turns(s.B) - 1) + Turns(s.C)
  }

  /** One round of the loop with two counters: one store, and `Rounds` is one less, or the loop
      ends. */
  lemma LongRound(p: seq<Instr>, o: nat, s: State) returns (j: nat)
    requires o + 5 <= |p| && p[o..o + 5] == LongLoop
    ensures
      var c := Steps(p, Config(o, s), j);
      Stored(s, c.s, s.HL(), 1, s.A) && c.s.HL() == Addr(s.HL() + 1) && c.s.A == s.A &&
      c.pc == (if Rounds(s) == 1 then o + 5 else o) &&
      (Rounds(s) > 1 ==> Rounds(c.s) == Rounds(s) - 1) &&
      c.s.T == s.T + (if Rounds(s) == 1 then 32 else 29 + 8 * (Turns(s.B) - Turns(c.s.B)))
  {
    hide Do, Stored, Pair, Addr, Steps, Step, AfterDec, Low, Turns;
    TurnsDec(s.B);
    TurnsDec(s.C);
    assert p[o] == LD_ptr_A && p[o + 1] == INC_HL && p[o + 2] == DEC_C && p[o + 3] == JR_NZ(-4) && p[o + 4] == DJNZ(-5);
    var t := Do(INC_HL, Do(LD_ptr_A, s));
    StoreAndNext(s);
    TwoSteps(p, o, s);
    var x := Low(t.C - 1);
    StepDecJr(p, o + 2, t, 0 - 4);
    StepsAdd(p, Config(o, s), 2, 2);
    var r := t.(C := x, F := AfterDec(t.F, t.C)).Took(if x != 0 then 16 else 11);
    StoredOther(s, t, r, s.HL(), 1, s.A);
    j := 4;
    if x == 0 {
      var b := Low(r.B - 1);
      StepDjnz(p, o + 4, r, 0 - 5);
      StepsAdd(p, Config(o, s), 4, 1);
      StoredOther(s, r, r.(B := b).Took(if b != 0 then 13 else 8), s.HL(), 1, s.A);
      j := 5;
    }
  }

  /** The loop with two counters; every 256 bytes, and at the end, the jump on C is not taken and
      the one on B costs 13 T-states, or 8 the last time. */
  lemma {:induction false} LongLoopRuns(p: seq<Instr>, o: nat, s: State) returns (k: nat)
    requires o + 5 <= |p| && p[o..o + 5] == LongLoop
    ensures
      var c, n := Steps(p, Config(o, s), k), Rounds(s);
      c.pc == o + 5 && Stored(s, c.s, s.HL(), n, s.A) && c.s.T == s.T + 29 * n + 8 * Turns(s.B) - 5
    decreases Rounds(s)
  {
    hide Stored, Pair, Addr, Steps, Step;
    k := LongRound(p, o, s);
    var r := Steps(p, Config(o, s), k).s;
    if Rounds(s) > 1 {
      var m := LongLoopRuns(p, o, r);
      StepsAdd(p, Config(o, s), k, m);
      RestOfLoop(s, r, Steps(p, Config(o, r), m).s, Rounds(s));
      k := k + m;
    }
  }

  /** The registers before the stores of a device fill. */
  function DevSetup(sym: Option<int>, val: Option<Byte>): (c: seq<Instr>)
    ensures Straight(c)
  {
    (if sym.Some? then [LD_HL_nn(sym.value)] else []) +
    (if val.None? then [] else if val.value != 0 then [LD_A_n(val.value)] else [XOR_A])
  }

  /** The code that loads the counters of the loop, and the loop. */
  function DevCounters(n: nat): (c: seq<Instr>)
    ensures Straight(c)
  {
    if n <= DEV_UNROLL then Ptrs(None, n)
    else if n / 256 == 0 then [LD_B_n(n % 256)]
    else [LD_C_n(n % 256), LD_B_n(n / 256 + if n % 256 != 0 then 1 else 0)]
  }

  function DevLoop(n: nat): seq<Instr> {
    if n <= DEV_UNROLL then [] else if n / 256 == 0 then ShortLoop else LongLoop
  }

  /** The code of a fill of `n` bytes of device memory. */
  function DevCode(sym: Option<int>, n: nat, val: Option<Byte>): seq<Instr> {
    DevSetup(sym, val) + DevCounters(n) + DevLoop(n)
  }

  function SetupTime(sym: Option<int>, val: Option<Byte>): nat {
    (if sym.Some? then 10 else 0) + if val.None? then 0 else if val.value != 0 then 7 else 4
  }

  lemma SetupRun(sym: Option<int>, val: Option<Byte>, s: State)
    ensures
      var t := Exec(DevSetup(sym, val), s);
      t.HL() == Target(sym, s) && t.A == Value(val, s) && t.mem == s.mem && t.rom == s.rom && t.bus == s.bus &&
      t.SP == s.SP &&
      t.T == s.T + SetupTime(sym, val)
  {
    hide Exec, Pair, High, Low, LdirAll, Transfer, Addr;
    var a := if sym.Some? then [LD_HL_nn(sym.value)] else [];
    var b := if val.None? then [] else if val.value != 0 then [LD_A_n(val.value)] else [XOR_A];
    ExecAppend(a, b, s);
    ExecNone(s);
    if sym.Some? {
      ExecOne(LD_HL_nn(sym.value), s);
      PairSplit(Addr(sym.value));
    }
    var s1 := Exec(a, s);
    ExecNone(s1);
    if val.Some? {
      LowByte(val.value);
      ExecOne(LD_A_n(val.value), s1);
      ExecOne(XOR_A, s1);
    }
  }

  lemma {:induction false} PtrsStored(n: nat, s: State)
    requires n <= 0xFFFF
    ensures Stored(s, Exec(Ptrs(None, n), s), s.HL(), n, s.A)
    ensures Exec(Ptrs(None, n), s).T == s.T + if n == 0 then 0 else 13 * n - 6
    decreases n
  {
    hide Do, Exec, Stored, Pair, Addr;
    if n == 0 {
      ExecNone(s);
      StoredNone(s, s.HL(), s.A);
    } else {
      StoreAndNext(s);
      var t := Do(INC_HL, Do(LD_ptr_A, s));
      if n == 1 {
        ExecOne(LD_ptr_A, s);
        IncrementOther(Do(LD_ptr_A, s));
        StoredOther(s, t, Do(LD_ptr_A, s), s.HL(), 1, s.A);
      } else {
        PtrsSplit(None, n);
        ExecCons(LD_ptr_A, [INC_HL] + Ptrs(None, n - 1), s);
        ExecCons(INC_HL, Ptrs(None, n - 1), Do(LD_ptr_A, s));
        PtrsStored(n - 1, t);
        RestOfLoop(s, t, Exec(Ptrs(None, n - 1), t), n);
      }
    }
  }

  lemma IncrementOther(s: State)
    ensures var t := Do(INC_HL, s); t.bus == s.bus && t.mem == s.mem && t.rom == s.rom && t.SP == s.SP && t.T == s.T + 6
  {
    hide Addr, Pair, High, Low, LdirAll, Transfer;
  }

  /** The counters give `n` rounds, for every `n` up to 65535: at 65281 and above the assembler
      truncates 256 to 0, and B then takes 256 turns. */
  lemma CountersRun(n: nat, s: State)
    requires DEV_UNROLL < n <= 0xFFFF
    ensures
      var t := Exec(DevCounters(n), s);
      t.HL() == s.HL() && t.A == s.A && t.mem == s.mem && t.rom == s.rom && t.bus == s.bus && t.SP == s.SP &&
      if n / 256 == 0 then Turns(t.B) == n && t.T == s.T + 7
      else Rounds(t) == n && Turns(t.B) == (n + 255) / 256 && t.T == s.T + 14
  {
    hide Exec, LdirAll, Transfer, Addr, Pair;
    if n / 256 == 0 {
      ExecOne(LD_B_n(n % 256), s);
    } else {
      var hi := n / 256 + if n % 256 != 0 then 1 else 0;
      ExecTwo(LD_C_n(n % 256), LD_B_n(hi), s);
      assert n == 256 * (n / 256) + n % 256 && 1 <= n / 256 <= 255;
    }
  }

  /** The T-states of a device fill after its registers: 13 a byte without a loop, 26 with one
      counter, and 29 with two, where B costs 8 more each time that C runs out. */
  function StoresTime(n: nat): int {
    if n <= DEV_UNROLL then 13 * n - 6
    else if n < 256 then 26 * n + 2
    else 29 * n + 8 * ((n + 255) / 256) + 9
  }

  /** A device fill stores to exactly `n` ascending addresses and makes no other data access, for
      every `n` from 1 to 65535, in exactly its T-states. */
  lemma DevExact(sym: Option<int>, n: nat, val: Option<Byte>, s: State) returns (k: nat)
    requires 1 <= n <= 0xFFFF
    ensures
      var p := DevCode(sym, n, val); var c := Steps(p, Config(0, s), k);
      c.pc == |p| && Stored(s, c.s, Target(sym, s), n, Value(val, s)) &&
      c.s.T == s.T + SetupTime(sym, val) + StoresTime(n)
  {
    hide Exec, Steps, Stored, DevSetup, DevCounters, Pair, Addr, Rounds, SetupTime;
    var p, a, b := DevCode(sym, n, val), DevSetup(sym, val), DevCounters(n);
    var s1 := Exec(a, s);
    var s2 := Exec(b, s1);
    ExecAppend(a, b, s);
    assert p[0..0 + |a + b|] == a + b && 0 + |a + b| == |a + b|;
    k := StraightSteps(p, 0, a + b, s);
    SetupRun(sym, val, s);
    if n <= DEV_UNROLL {
      assert b == Ptrs(None, n) by { ShortCounters(n); }
      PtrsStored(n, s1);
      StoredFrom(s, s1, s2, Target(sym, s), n, Value(val, s));
    } else {
      CountersRun(n, s1);
      var m;
      var o := |a + b|;
      assert p[o..o + |DevLoop(n)|] == DevLoop(n);
      if n / 256 == 0 {
        m := ShortLoopRuns(p, o, s2);
      } else {
        m := LongLoopRuns(p, o, s2);
      }
      StepsAdd(p, Config(0, s), k, m);
      StoredFrom(s, s2, Steps(p, Config(o, s2), m).s, Target(sym, s), n, Value(val, s));
      k := k + m;
    }
  }

  lemma ShortCounters(n: nat)
    requires n <= DEV_UNROLL
    ensures DevCounters(n) == Ptrs(None, n)
  {
  }

  lemma StoredFrom(s: State, s1: State, t: State, base: int, n: nat, v: Byte)
    requires Stored(s1, t, base, n, v) && s1.bus == s.bus && s1.mem == s.mem && s1.rom == s.rom && s1.SP == s.SP
    ensures Stored(s, t, base, n, v)
  {
  }

  lemma LdisStep(n: nat)
    ensures Ldis(n) == if n == 0 then [] else [LDI] + Ldis(n - 1)
  {
  }

  lemma PairsStep(sym: int, i: nat, n: nat)
    ensures Pairs(sym, i, n) == if n - i < 2 then [] else [LD_at_HL(sym + i)] + Pairs(sym, i + 2, n)
  {
  }

  lemma SinglesStep(sym: int, i: nat, n: nat)
    ensures Singles(sym, i, n) == if n <= i then [] else [LD_at_A(sym + i)] + Singles(sym, i + 1, n)
  {
  }

  // ---- the emitter --------------------------------------------------------------------------

  /** The generated lines; each method appends the code of one operation. */
  class Emitter {
    var lines: seq<Instr>
    const unroll: nat
    const enabled: bool

    constructor (u: nat, on: bool)
      ensures lines == [] && unroll == u && enabled == on
    {
      lines, unroll, enabled := [], u, on;
    }

    method Emit(i: Instr)
      modifies this
      ensures lines == old(lines) + [i]
    {
      lines := lines + [i];
    }

    method Copy(n: nat)
      modifies this
      ensures lines == old(lines) + CopyCode(unroll, enabled, n)
    {
      if n <= unroll && enabled {
        EmitLdis(n);
      } else {
        Emit(LD_BC_nn(n));
        Emit(LDIR);
        assert lines == old(lines) + [LD_BC_nn(n), LDIR];
      }
    }

    method EmitLdis(n: nat)
      modifies this
      ensures lines == old(lines) + Ldis(n)
    {
      hide Ldis;
      for i := 0 to n
        invariant lines + Ldis(n - i) == old(lines) + Ldis(n)
      {
        LdisStep(n - i);
        ghost var head := lines;
        Emit(LDI);
        assert lines + Ldis(n - i - 1) == head + Ldis(n - i);
      }
      LdisStep(0);
    }

    method Fill(sym: Option<int>, n: nat, val: Option<Byte>)
      requires n >= 1
      modifies this
      ensures lines == old(lines) + FillCode(unroll, sym, n, val)
    {
      hide Singles, Pairs, Odd, Ptrs, StorePtr;
      if sym.Some? {
        FillAt(sym.value, n, val);
        return;
      }
      if n <= unroll {
        StoreEach(val, n);
        return;
      }
      Emit(StorePtr(val));
      Emit(LD_D_H);
      Emit(LD_E_L);
      Emit(INC_DE);
      Emit(LD_BC_nn(n - 1));
      Emit(LDIR);
      assert lines == old(lines) + [StorePtr(val), LD_D_H, LD_E_L, INC_DE, LD_BC_nn(n - 1), LDIR];
    }

    method FillAt(a: int, n: nat, val: Option<Byte>)
      requires n >= 1
      modifies this
      ensures lines == old(lines) + FillCode(unroll, Some(a), n, val)
    {
      hide Pairs, Odd, Ptrs, Singles;
      if val.Some? && n <= unroll {
        FillUnrolled(a, n, val.value);
        return;
      }
      if val.Some? {
        Emit(LD_HL_nn(a));
        Emit(LD_ptr_n(val.value));
      } else if n <= unroll {
        StoreSingles(a, n);
        return;
      } else {
        Emit(LD_at_A(a));
        Emit(LD_HL_nn(a));
      }
      ghost var head := lines;
      Emit(LD_DE_nn(a + 1));
      Emit(LD_BC_nn(n - 1));
      Emit(LDIR);
      assert lines == head + Spread(a, n);
    }

    method StoreSingles(a: int, n: nat)
      modifies this
      ensures lines == old(lines) + Singles(a, 0, n)
    {
      hide Singles;
      for i := 0 to n
        invariant lines + Singles(a, i, n) == old(lines) + Singles(a, 0, n)
      {
        SinglesStep(a, i, n);
        ghost var head := lines;
        Emit(LD_at_A(a + i));
        assert lines + Singles(a, i + 1, n) == head + Singles(a, i, n);
      }
      SinglesStep(a, n, n);
    }

    method FillUnrolled(a: int, n: nat, v: Byte)
      requires n >= 1
      modifies this
      ensures lines == old(lines) + ((if n >= 2 then [LD_HL_nn(v + 256 * v)] else []) + Pairs(a, 0, n) + Odd(a, n, v))
    {
      hide Pairs;
      if n >= 2 { Emit(LD_HL_nn(v + 256 * v)); }
      assert lines == old(lines) + if n >= 2 then [LD_HL_nn(v + 256 * v)] else [];
      StorePairs(a, n);
      ghost var head := lines;
      if n % 2 == 1 {
        if v == 0 { Emit(XOR_A); } else { Emit(LD_A_n(v)); }
        Emit(LD_at_A(a + n - 1));
      }
      assert lines == head + Odd(a, n, v);
    }

    method StorePairs(a: int, n: nat)
      modifies this
      ensures lines == old(lines) + Pairs(a, 0, n)
    {
      hide Pairs;
      var i := 0;
      while n - i >= 2
        invariant i <= n
        invariant lines + Pairs(a, i, n) == old(lines) + Pairs(a, 0, n)
      {
        PairsStep(a, i, n);
        ghost var head := lines;
        Emit(LD_at_HL(a + i));
        i := i + 2;
        assert lines + Pairs(a, i, n) == head + Pairs(a, i - 2, n);
      }
      PairsStep(a, i, n);
    }

    method StoreEach(val: Option<Byte>, n: nat)
      modifies this
      ensures lines == old(lines) + Ptrs(val, n)
    {
      for i := 0 to n
        invariant lines + Ptrs(val, n - i) == old(lines) + Ptrs(val, n)
      {
        ghost var head, left := lines, n - i;
        Emit(StorePtr(val));
        if i != n - 1 {
          Emit(INC_HL);
          PtrsSplit(val, left);
          assert lines == head + [StorePtr(val)] + [INC_HL];
        } else {
          assert lines + [] == head + [StorePtr(val)];
        }
      }
    }

    method FillDevice(sym: Option<int>, n: nat, val: Option<Byte>)
      requires n >= 1
      modifies this
      ensures lines == old(lines) + DevCode(sym, n, val)
    {
      hide DevCounters, DevLoop;
      if sym.Some? { Emit(LD_HL_nn(sym.value)); }
      if val.Some? {
        if val.value != 0 { Emit(LD_A_n(val.value)); } else { Emit(XOR_A); }
      }
      assert lines == old(lines) + DevSetup(sym, val);
      StoresAndLoop(n);
    }

    method StoresAndLoop(n: nat)
      requires n >= 1
      modifies this
      ensures lines == old(lines) + (DevCounters(n) + DevLoop(n))
    {
      hide Ptrs;
      if n <= DEV_UNROLL {
        StoreEach(None, n);
        return;
      }
      var lo, hi := n % 256, n / 256;
      if hi == 0 {
        Emit(LD_B_n(lo));
        Emit(LD_ptr_A);
        Emit(INC_HL);
        Emit(DJNZ(-3));
        return;
      }
      Emit(LD_C_n(lo));
      Emit(LD_B_n(hi + if lo != 0 then 1 else 0));
      ghost var head := lines;
      Emit(LD_ptr_A);
      Emit(INC_HL);
      Emit(DEC_C);
      Emit(JR_NZ(-4));
      Emit(DJNZ(-5));
      assert lines == head + LongLoop;
      assert head == old(lines) + DevCounters(n);
    }
  }
}
