// Executing the emitted supervisor code through the page tables
// (guest.go:94-201): for every control page and every register state it
// reaches the return-to-user SYSCALL with the PVCS filled in.
//
// Each instruction is one step lemma; CopyRuns joins them for the tail both
// variants share. SmodReturnsExactly and PgtblReturns are the results.
module SmodRun {
  import opened Bytes
  import opened GuestLayout
  import opened PageTables
  import opened Machine
  import opened GuestCode

  const MAIN: nat := GUEST_PHYS_BASE + O_PML4
  const ALT: nat := GUEST_PHYS_BASE + O_PML4_ALT

  // --- decoding the emitted forms -----------------------------------------

  // bs decodes as i whatever follows it.
  ghost predicate DecodesTo(bs: seq<Byte>, i: Instr) {
    forall rest: seq<Byte> :: Decode(bs + rest) == Good(i, |bs|)
  }

  lemma DecodeMovabs(reg: nat, imm: U64)
    requires reg < 8
    ensures DecodesTo(Movabs(reg, imm), MovImm(reg, imm)) && |Movabs(reg, imm)| == 10
  {
    WordSizes();
    FromLEToLE(imm, 8);
    forall rest: seq<Byte> ensures Decode(Movabs(reg, imm) + rest) == Good(MovImm(reg, imm), 10) {
      var bs := Movabs(reg, imm) + rest;
      assert bs[1..] == [0xb8 + reg] + ToLE(imm, 8) + rest;
      assert bs[1..][1..9] == ToLE(imm, 8);
      assert DecodeOpcode(bs[1..], Rex(true, 0, 0, 0)) == Good(MovImm(reg, imm), 9);
    }
  }

  // ModRM with an 8-bit displacement and no SIB byte.
  lemma DecodeDisp8(modrm: Byte, disp: Byte, rest: seq<Byte>, rex: Rex)
    requires modrm / 64 == 1 && modrm % 8 != 4 && disp < 0x80
    ensures DecodeModRM([modrm, disp] + rest, rex) ==
      ModRM(modrm / 8 % 8 + 8 * rex.r, Memory(modrm % 8 + 8 * rex.b, NoIndex, disp), 2)
  {
    assert ([modrm, disp] + rest)[0] == modrm && ([modrm, disp] + rest)[1] == disp;
  }

  lemma DecodeLoad64(modrm: Byte, disp: Byte)
    requires modrm / 64 == 1 && modrm % 8 != 4 && disp < 0x80
    ensures DecodesTo([0x48, 0x8b, modrm, disp], Load(true, modrm / 8 % 8, Memory(modrm % 8, NoIndex, disp)))
    ensures DecodesTo([0x4c, 0x8b, modrm, disp], Load(true, modrm / 8 % 8 + 8, Memory(modrm % 8, NoIndex, disp)))
    ensures DecodesTo([0x48, 0x89, modrm, disp], Store(true, modrm / 8 % 8, Memory(modrm % 8, NoIndex, disp)))
  {
    forall rest: seq<Byte>
      ensures Decode([0x48, 0x8b, modrm, disp] + rest)
        == Good(Load(true, modrm / 8 % 8, Memory(modrm % 8, NoIndex, disp)), 4)
      ensures Decode([0x4c, 0x8b, modrm, disp] + rest)
        == Good(Load(true, modrm / 8 % 8 + 8, Memory(modrm % 8, NoIndex, disp)), 4)
      ensures Decode([0x48, 0x89, modrm, disp] + rest)
        == Good(Store(true, modrm / 8 % 8, Memory(modrm % 8, NoIndex, disp)), 4)
    {
      DecodeDisp8(modrm, disp, rest, Rex(true, 0, 0, 0));
      DecodeDisp8(modrm, disp, rest, Rex(true, 1, 0, 0));
      Tail([0x48, 0x8b], [modrm, disp], rest);
      Tail([0x4c, 0x8b], [modrm, disp], rest);
      Tail([0x48, 0x89], [modrm, disp], rest);
    }
  }

  lemma DecodeLoad32(modrm: Byte, disp: Byte)
    requires modrm / 64 == 1 && modrm % 8 != 4 && disp < 0x80
    ensures DecodesTo([0x8b, modrm, disp], Load(false, modrm / 8 % 8, Memory(modrm % 8, NoIndex, disp)))
    ensures DecodesTo([0x89, modrm, disp], Store(false, modrm / 8 % 8, Memory(modrm % 8, NoIndex, disp)))
  {
    forall rest: seq<Byte>
      ensures Decode([0x8b, modrm, disp] + rest)
        == Good(Load(false, modrm / 8 % 8, Memory(modrm % 8, NoIndex, disp)), 3)
      ensures Decode([0x89, modrm, disp] + rest)
        == Good(Store(false, modrm / 8 % 8, Memory(modrm % 8, NoIndex, disp)), 3)
    {
      DecodeDisp8(modrm, disp, rest, Rex(false, 0, 0, 0));
      assert ([0x8b, modrm, disp] + rest)[1..] == [modrm, disp] + rest;
      assert ([0x89, modrm, disp] + rest)[1..] == [modrm, disp] + rest;
    }
  }

  // The bytes after a prefix and an opcode.
  lemma Tail(head: seq<Byte>, operands: seq<Byte>, rest: seq<Byte>)
    requires |head| == 2
    ensures (head + operands + rest)[1..][1..] == operands + rest
    ensures (head + operands + rest)[0] == head[0] && (head + operands + rest)[1..][0] == head[1]
  {
  }

  lemma DecodeRest()
    ensures DecodesTo([0x31, 0xdb], Zero(RBX))
    ensures DecodesTo([0x0f, 0x05], Syscall)
    ensures DecodesTo([0x0f, 0x0b], Undefined)
  {
    forall rest: seq<Byte>
      ensures Decode([0x31, 0xdb] + rest) == Good(Zero(RBX), 2)
      ensures Decode([0x0f, 0x05] + rest) == Good(Syscall, 2)
      ensures Decode([0x0f, 0x0b] + rest) == Good(Undefined, 2)
    {
      assert ([0x31, 0xdb] + rest)[1..] == [0xdb] + rest;
      assert DecodeModRM([0xdb] + rest, Rex(false, 0, 0, 0)) == ModRM(RBX, Register(RBX), 1);
    }
  }

  // --- running in the kernel half -----------------------------------------

  // The tables, the control page and the supervisor code: what a run of the
  // supervisor code relies on in memory.
  ghost predicate SameKernel(m: seq<Byte>, m': seq<Byte>) {
    && |m| == |m'| >= LAYOUT_END
    && m'[..O_PVCS] == m[..O_PVCS]
    && m'[O_CTRL..O_EVENT] == m[O_CTRL..O_EVENT]
    && m'[O_PML4_ALT..O_PVCS2] == m[O_PML4_ALT..O_PVCS2]
  }

  // Supervisor mode on either address space, over memory m0 up to data pages.
  ghost predicate InKernel(c: Cpu, m0: seq<Byte>, kva: nat) {
    && Admissible(kva) && TablesOk(m0, kva) && SameKernel(m0, c.mem)
    && !c.user && (c.cr3 == MAIN || c.cr3 == ALT)
  }

  // A place the PVCS may be at: inside one mapped page that holds neither
  // tables nor the control page nor supervisor code.
  predicate PvcsPlace(p: nat) {
    && (O_PVCS <= p < O_CTRL || O_EVENT <= p < O_PML4_ALT || O_PVCS2 <= p < LAYOUT_END)
    && p % 0x1000 + PVCS_SIZE <= 0x1000
  }

  // Bytes that hold neither tables nor the control page nor supervisor code.
  predicate Spared(off: nat, n: nat) {
    (O_PVCS <= off && off + n <= O_CTRL) || (O_EVENT <= off && off + n <= O_PML4_ALT) || O_PVCS2 <= off
  }

  lemma KernelFacts(c: Cpu, m0: seq<Byte>, kva: nat)
    requires InKernel(c, m0, kva)
    ensures Admissible(kva) && LAYOUT_END <= |c.mem| == |m0| && !c.user
  {
  }

  lemma PatchKeepsKernel(m0: seq<Byte>, m: seq<Byte>, off: nat, bs: seq<Byte>)
    requires SameKernel(m0, m) && off + |bs| <= |m|
    requires Spared(off, |bs|)
    ensures SameKernel(m0, Patch(m, off, bs))
  {
    PatchDisjoint(m, off, bs, 0, O_PVCS);
    PatchDisjoint(m, off, bs, O_CTRL, O_EVENT);
    PatchDisjoint(m, off, bs, O_PML4_ALT, O_PVCS2);
  }

  lemma KernelReach(c: Cpu, m0: seq<Byte>, kva: nat, o: nat, n: nat, write: bool)
    requires InKernel(c, m0, kva) && 1 <= n && o % 0x1000 + n <= 0x1000
    requires o < O_PML4_ALT || O_PVCS2 <= o < LAYOUT_END
    ensures Reach(c, kva + o, n, write) == Ram(o)
  {
    hide Walk;
    KernelMapped(m0, c.mem, c.cr3, kva, o);
    PageOffset(kva, o);
    assert o + n <= LAYOUT_END <= |c.mem|;
  }

  lemma PageOffset(kva: nat, o: nat)
    requires kva % 0x1000 == 0
    ensures (kva + o) % 0x1000 == o % 0x1000
  {
  }

  lemma KernelMapped(m0: seq<Byte>, m: seq<Byte>, cr3: nat, kva: nat, o: nat)
    requires Admissible(kva) && TablesOk(m0, kva) && SameKernel(m0, m) && (cr3 == MAIN || cr3 == ALT)
    requires o < O_PML4_ALT || O_PVCS2 <= o < LAYOUT_END
    ensures Walk(m, cr3, kva + o) == Mapped(GUEST_PHYS_BASE + o, false, true)
  {
    hide Walk;
    hide TablesHold;
    TablesFrame(m0, m, kva);
    WalkIsIntended(m, kva, kva + o);
    WalkAlt(m, kva, kva + o);
    SameSlot(kva, o);
  }

  lemma SameSlot(kva: nat, o: nat)
    requires Admissible(kva) && o < 0x11000
    ensures (kva + o) / 0x80_0000_0000 == kva / 0x80_0000_0000
  {
    assert (kva + o) / 0x20_0000 == kva / 0x20_0000;
    assert (kva + o) / 0x80_0000_0000 == (kva + o) / 0x20_0000 / 262144;
    assert kva / 0x80_0000_0000 == kva / 0x20_0000 / 262144;
  }

  // The machine executes the listing's head.
  lemma KernelStep(c: Cpu, m0: seq<Byte>, kva: nat, o: nat, l: Listing, i: Instr)
    requires InKernel(c, m0, kva) && c.rip == kva + o && O_SCODE <= o && o + 15 <= O_EVENT
    requires l != [] && Listed(m0, o, l) && DecodesTo(l[0], i) && 0 < |l[0]| <= 15
    ensures Step(c) == Execute(c, i, |l[0]|)
  {
    hide DecodesTo;
    hide Reach;
    hide Decode;
    hide Execute;
    hide TablesHold;
    KernelReach(c, m0, kva, o, 1, false);
    assert Listed(m0, o, l) ==> CodeAt(m0, o, l[0]);
    PageOffset(kva, o);
    SubRange(m0, c.mem, O_CTRL, O_EVENT, o, o + 15);
    WindowIs(c, m0, o, l[0]);
    Decoding(l[0], m0[o + |l[0]|..o + 15], i);
  }

  lemma Decoding(bs: seq<Byte>, rest: seq<Byte>, i: Instr)
    requires DecodesTo(bs, i)
    ensures Decode(bs + rest) == Good(i, |bs|)
  {
    hide Decode;
  }

  lemma WindowIs(c: Cpu, m: seq<Byte>, off: nat, bs: seq<Byte>)
    requires CodeAt(m, off, bs) && |bs| <= 15 && off + 15 <= |m| == |c.mem|
    requires c.rip % 0x1000 == off % 0x1000 && off % 0x1000 + 15 <= 0x1000
    requires c.mem[off..off + 15] == m[off..off + 15]
    ensures Window(c, off) == bs + m[off + |bs|..off + 15]
  {
    assert m[off..off + 15] == m[off..off + |bs|] + m[off + |bs|..off + 15];
  }

  lemma AddressIs(c: Cpu, b: nat, va: nat, d: nat)
    requires b < 16 && c.regs[b] == va && va + d < TWO64
    ensures Address(c, Memory(b, NoIndex, d)) == va + d
  {
  }

  lemma LoadAt(c: Cpu, m0: seq<Byte>, kva: nat, r: nat, b: nat, o: nat, d: nat, wide: bool, len: nat)
    requires InKernel(c, m0, kva) && r < 16 && b < 16 && c.regs[b] == kva + o && c.rip + len < TWO64
    requires var n := if wide then 8 else 4; (o + d) % 0x1000 + n <= 0x1000
    requires o + d < O_PML4_ALT || O_PVCS2 <= o + d < LAYOUT_END
    ensures o + d + 8 <= |c.mem| || !wide
    ensures o + d + 4 <= |c.mem|
    ensures Execute(c, Load(wide, r, Memory(b, NoIndex, d)), len) ==
      Next(c.(regs := c.regs[r := ReadLE(c.mem, o + d, if wide then 8 else 4)], rip := c.rip + len))
  {
    hide Reach;
    hide TablesHold;
    hide FromLE;
    AddressIs(c, b, kva + o, d);
    KernelReach(c, m0, kva, o + d, if wide then 8 else 4, false);
  }

  lemma StoreAt(c: Cpu, r: nat, b: nat, d: nat, off: nat, wide: bool, len: nat)
    requires r < 16 && b < 16 && c.rip + len < TWO64
    requires Reach(c, (c.regs[b] + d) % TWO64, if wide then 8 else 4, true) == Ram(off)
    ensures off + 8 <= |c.mem| || !wide
    ensures off + 4 <= |c.mem|
    ensures Execute(c, Store(wide, r, Memory(b, NoIndex, d)), len) ==
      Next(c.(mem := Patch(c.mem, off, if wide then ToLE(c.regs[r], 8) else ToLE(c.regs[r] % TWO32, 4)),
        rip := c.rip + len))
  {
    hide Walk;
    hide ToLE;
    hide Patch;
    assert Address(c, Memory(b, NoIndex, d)) == (c.regs[b] + d) % TWO64;
  }

  // Where an access goes depends on memory, root and mode alone, and on no
  // byte that is not the kernel's.
  lemma ReachRegs(c: Cpu, c': Cpu, va: U64, n: nat, write: bool)
    requires c'.mem == c.mem && c'.cr3 == c.cr3 && c'.user == c.user
    ensures Reach(c', va, n, write) == Reach(c, va, n, write)
  {
    hide Walk;
  }

  lemma ReachSame(c: Cpu, c': Cpu, m0: seq<Byte>, kva: nat, va: U64, n: nat, write: bool)
    requires InKernel(c, m0, kva) && InKernel(c', m0, kva) && c'.cr3 == c.cr3
    ensures Reach(c', va, n, write) == Reach(c, va, n, write)
  {
    hide Walk;
    hide TablesHold;
    var low := va % 0x1_0000_0000_0000;
    TablesFrame(m0, c.mem, kva);
    TablesFrame(m0, c'.mem, kva);
    WalkIsIntended(c.mem, kva, low);
    WalkIsIntended(c'.mem, kva, low);
    WalkAlt(c.mem, kva, low);
    WalkAlt(c'.mem, kva, low);
  }

  // One instruction of a run of supervisor code; k more are to come.
  lemma MovabsStep(c: Cpu, m0: seq<Byte>, kva: nat, o: nat, l: Listing, reg: nat, imm: U64, k: nat)
    requires InKernel(c, m0, kva) && c.rip == kva + o && O_SCODE <= o && o + 15 <= O_EVENT
    requires l != [] && Listed(m0, o, l) && reg < 8 && l[0] == Movabs(reg, imm)
    ensures var c' := c.(regs := c.regs[reg := imm], rip := kva + o + 10);
      Run(c, k + 1) == Run(c', k) && InKernel(c', m0, kva) && Listed(m0, o + 10, l[1..])
  {
    hide Reach;
    hide TablesHold;
    hide Step;
    hide DecodesTo;
    hide Movabs;
    DecodeMovabs(reg, imm);
    KernelStep(c, m0, kva, o, l, MovImm(reg, imm));
  }

  lemma LoadStep(c: Cpu, m0: seq<Byte>, kva: nat, o: nat, l: Listing, r: nat, b: nat, at: nat, d: nat, wide: bool,
      k: nat)
    requires InKernel(c, m0, kva) && c.rip == kva + o && O_SCODE <= o && o + 15 <= O_EVENT
    requires l != [] && Listed(m0, o, l) && 0 < |l[0]| <= 4
    requires DecodesTo(l[0], Load(wide, r, Memory(b, NoIndex, d)))
    requires r < 16 && b < 16 && c.regs[b] == kva + at && at % 0x1000 + d + 8 <= 0x1000 && at < O_PML4_ALT
    ensures at + d + 8 <= |c.mem|
    ensures var v := ReadLE(c.mem, at + d, if wide then 8 else 4);
      var c' := c.(regs := c.regs[r := v], rip := kva + o + |l[0]|);
      Run(c, k + 1) == Run(c', k) && InKernel(c', m0, kva) && Listed(m0, o + |l[0]|, l[1..])
  {
    hide Reach;
    hide Execute;
    hide TablesHold;
    hide FromLE;
    hide DecodesTo;
    hide Step;
    WithinPage(at, d);
    KernelStep(c, m0, kva, o, l, Load(wide, r, Memory(b, NoIndex, d)));
    LoadAt(c, m0, kva, r, b, at, d, wide, |l[0]|);
  }

  lemma WithinPage(at: nat, d: nat)
    requires at % 0x1000 + d + 8 <= 0x1000
    ensures (at + d) % 0x1000 == at % 0x1000 + d && (at + d) / 0x1000 == at / 0x1000
  {
  }

  lemma StoreStep(c: Cpu, m0: seq<Byte>, kva: nat, o: nat, l: Listing, d: nat, off: nat, wide: bool, k: nat)
    requires InKernel(c, m0, kva) && c.rip == kva + o && O_SCODE <= o && o + 15 <= O_EVENT
    requires l != [] && Listed(m0, o, l) && 0 < |l[0]| <= 4
    requires DecodesTo(l[0], Store(wide, RAX, Memory(RDI, NoIndex, d)))
    requires var n := if wide then 8 else 4; Reach(c, (c.regs[RDI] + d) % TWO64, n, true) == Ram(off) && Spared(off, n)
    ensures off + (if wide then 8 else 4) <= |c.mem|
    ensures var bs := if wide then ToLE(c.regs[RAX], 8) else ToLE(c.regs[RAX] % TWO32, 4);
      var c' := c.(mem := Patch(c.mem, off, bs), rip := kva + o + |l[0]|);
      Run(c, k + 1) == Run(c', k) && InKernel(c', m0, kva) && Listed(m0, o + |l[0]|, l[1..])
  {
    hide Reach;
    hide Execute;
    hide TablesHold;
    hide ToLE;
    hide Patch;
    hide DecodesTo;
    hide Step;
    KernelStep(c, m0, kva, o, l, Store(wide, RAX, Memory(RDI, NoIndex, d)));
    StoreAt(c, RAX, RDI, d, off, wide, |l[0]|);
    PatchKeepsKernel(m0, c.mem, off, if wide then ToLE(c.regs[RAX], 8) else ToLE(c.regs[RAX] % TWO32, 4));
  }

  // --- the copy into the PVCS ---------------------------------------------

  // One field of the control page copied to off, through %rax.
  function Copied(c: Cpu, off: nat, from: nat, n: nat, len: nat): Cpu
    requires n == 4 || n == 8
    requires O_CTRL + from + n <= |c.mem| && off + n <= |c.mem| && c.rip + len < TWO64
  {
    c.(mem := Patch(c.mem, off, c.mem[O_CTRL + from..O_CTRL + from + n]),
       regs := c.regs[RAX := ReadLE(c.mem, O_CTRL + from, n)],
       rip := c.rip + len)
  }

  lemma CopyPair(c: Cpu, m0: seq<Byte>, kva: nat, o: nat, l: Listing, from: nat, to: nat, off: nat, wide: bool, k: nat)
    requires InKernel(c, m0, kva) && c.rip == kva + o && O_SCODE <= o && o + 19 <= O_EVENT
    requires c.regs[RSI] == kva + O_CTRL && from + 8 <= 0x1000
    requires |l| >= 2 && Listed(m0, o, l) && 0 < |l[0]| <= 4 && 0 < |l[1]| <= 4
    requires DecodesTo(l[0], Load(wide, RAX, Memory(RSI, NoIndex, from)))
    requires DecodesTo(l[1], Store(wide, RAX, Memory(RDI, NoIndex, to)))
    requires var n := if wide then 8 else 4; Reach(c, (c.regs[RDI] + to) % TWO64, n, true) == Ram(off) && Spared(off, n)
    ensures off + (if wide then 8 else 4) <= |c.mem|
    ensures var n, len := if wide then 8 else 4, |l[0]| + |l[1]|;
      var c' := Copied(c, off, from, n, len);
      && Run(c, k + 2) == Run(c', k) && InKernel(c', m0, kva)
      && Listed(m0, o + len, l[2..])
  {
    hide InKernel;
    hide Listed;
    hide Reach;
    hide Run;
    hide TablesHold;
    hide FromLE;
    hide ToLE;
    hide Patch;
    hide DecodesTo;
    KernelFacts(c, m0, kva);
    var n := if wide then 8 else 4;
    LoadStep(c, m0, kva, o, l, RAX, RSI, O_CTRL, from, wide, k + 1);
    var c1 := c.(regs := c.regs[RAX := ReadLE(c.mem, O_CTRL + from, n)], rip := kva + o + |l[0]|);
    assert l[1..][0] == l[1] && l[1..][1..] == l[2..];
    ReachRegs(c, c1, (c.regs[RDI] + to) % TWO64, n, true);
    StoreStep(c1, m0, kva, o + |l[0]|, l[1..], to, off, wide, k);
    WordSizes();
    ToLEFromLE(c.mem[O_CTRL + from..O_CTRL + from + n]);
  }

  // Memory with the control page's rip, eflags and selectors at three places.
  function Stored(m: seq<Byte>, rip: nat, eflags: nat, cs: nat): seq<Byte>
    requires LAYOUT_END <= |m| && rip + 8 <= |m| && eflags + 4 <= |m| && cs + 4 <= |m|
  {
    var m1 := Patch(m, rip, m[O_CTRL + CTRL_RIP..O_CTRL + CTRL_RIP + 8]);
    var m2 := Patch(m1, eflags, m[O_CTRL + CTRL_EFLAGS..O_CTRL + CTRL_EFLAGS + 4]);
    Patch(m2, cs, m[O_CTRL + CTRL_SEL..O_CTRL + CTRL_SEL + 4])
  }

  // What that means: the three places hold the control page's fields, and
  // every other byte of memory is as it was.
  ghost predicate FieldsSet(m: seq<Byte>, m': seq<Byte>, rip: nat, eflags: nat, cs: nat) {
    && LAYOUT_END <= |m| == |m'| && rip + 8 <= |m| && eflags + 4 <= |m| && cs + 4 <= |m|
    && m'[rip..rip + 8] == m[O_CTRL + CTRL_RIP..O_CTRL + CTRL_RIP + 8]
    && m'[eflags..eflags + 4] == m[O_CTRL + CTRL_EFLAGS..O_CTRL + CTRL_EFLAGS + 4]
    && m'[cs..cs + 4] == m[O_CTRL + CTRL_SEL..O_CTRL + CTRL_SEL + 4]
    && forall i | 0 <= i < |m| && !(rip <= i < rip + 8) && !(eflags <= i < eflags + 4)
    && !(cs <= i < cs + 4) :: m'[i] == m[i]
  }

  // The same of a PVCS at p.
  ghost predicate ReturnSet(m: seq<Byte>, m': seq<Byte>, p: nat) {
    p + PVCS_SIZE <= |m| && FieldsSet(m, m', p + PVCS_RIP, p + PVCS_EFLAGS, p + PVCS_USER_CS)
  }

  predicate Disjoint(a: nat, n: nat, b: nat, k: nat) {
    a + n <= b || b + k <= a
  }

  lemma StoredSetsFields(m: seq<Byte>, rip: nat, eflags: nat, cs: nat)
    requires LAYOUT_END <= |m| && rip + 8 <= |m| && eflags + 4 <= |m| && cs + 4 <= |m|
    requires Disjoint(rip, 8, eflags, 4) && Disjoint(rip, 8, cs, 4) && Disjoint(eflags, 4, cs, 4)
    ensures FieldsSet(m, Stored(m, rip, eflags, cs), rip, eflags, cs)
  {
    hide Patch;
    var a, b := m[O_CTRL + CTRL_RIP..O_CTRL + CTRL_RIP + 8], m[O_CTRL + CTRL_EFLAGS..O_CTRL + CTRL_EFLAGS + 4];
    var d := m[O_CTRL + CTRL_SEL..O_CTRL + CTRL_SEL + 4];
    var m1 := Patch(m, rip, a);
    var m2 := Patch(m1, eflags, b);
    PatchRead(m, rip, a);
    PatchRead(m1, eflags, b);
    PatchRead(m2, cs, d);
    PatchDisjoint(m1, eflags, b, rip, rip + 8);
    PatchDisjoint(m2, cs, d, rip, rip + 8);
    PatchDisjoint(m2, cs, d, eflags, eflags + 4);
  }

  lemma LandedIsReturnSet(m: seq<Byte>, p: nat)
    requires LAYOUT_END <= |m| && PvcsPlace(p)
    ensures p + PVCS_SIZE <= |m| && ReturnSet(m, Stored(m, p + PVCS_RIP, p + PVCS_EFLAGS, p + PVCS_USER_CS), p)
  {
    hide Stored;
    hide FieldsSet;
    StoredSetsFields(m, p + PVCS_RIP, p + PVCS_EFLAGS, p + PVCS_USER_CS);
  }

  // Where the store of a field goes, with the PVCS at w.
  function Target(c: Cpu, w: U64, field: nat, n: nat): Access {
    Reach(c, (w + field) % TWO64, n, true)
  }

  // The three fields' stores go to those places.
  ghost predicate Targets(c: Cpu, w: U64, rip: nat, eflags: nat, cs: nat) {
    && Target(c, w, PVCS_RIP, 8) == Ram(rip) && Spared(rip, 8)
    && Target(c, w, PVCS_EFLAGS, 4) == Ram(eflags) && Spared(eflags, 4)
    && Target(c, w, PVCS_USER_CS, 4) == Ram(cs) && Spared(cs, 4)
  }

  lemma TargetsInside(c: Cpu, w: U64, rip: nat, eflags: nat, cs: nat)
    requires Targets(c, w, rip, eflags, cs)
    ensures rip + 8 <= |c.mem| && eflags + 4 <= |c.mem| && cs + 4 <= |c.mem|
  {
    hide Walk;
  }

  lemma TargetSame(c: Cpu, c': Cpu, m0: seq<Byte>, kva: nat, w: U64, field: nat, n: nat)
    requires InKernel(c, m0, kva) && InKernel(c', m0, kva) && c'.cr3 == c.cr3
    ensures Target(c', w, field, n) == Target(c, w, field, n)
  {
    hide Reach;
    hide InKernel;
    ReachSame(c, c', m0, kva, (w + field) % TWO64, n, true);
  }

  // The common tail of both variants, from its first instruction.
  lemma CopyRuns(c: Cpu, m0: seq<Byte>, kva: nat, o: nat, rip: nat, eflags: nat, cs: nat, k: nat)
    requires InKernel(c, m0, kva) && Targets(c, c.regs[RDI], rip, eflags, cs) && k >= 7
    requires c.rip == kva + o && O_SCODE <= o && o + 40 <= O_EVENT && Listed(m0, o, CopyListing)
    requires c.regs[RSI] == kva + O_CTRL
    ensures LAYOUT_END <= |c.mem| && rip + 8 <= |c.mem| && eflags + 4 <= |c.mem| && cs + 4 <= |c.mem|
    ensures var r := Run(c, k);
      && r.Stop? && r.e == SyscallExit && r.c.mem == Stored(c.mem, rip, eflags, cs) && r.c.rip == kva + o + 20
      && r.c.regs == c.regs[RAX := r.c.regs[RAX]] && r.c.cr3 == c.cr3 && !r.c.user
  {
    hide InKernel;
    hide Run;
    hide Reach;
    hide TablesHold;
    hide FromLE;
    hide ToLE;
    hide Listed;
    hide DecodesTo;
    hide Patch;
    KernelFacts(c, m0, kva);
    TargetsInside(c, c.regs[RDI], rip, eflags, cs);
    var l, m, w := CopyListing, c.mem, c.regs[RDI];
    CopyDecodes();
    CopyPair(c, m0, kva, o, l, CTRL_RIP, PVCS_RIP, rip, true, k - 2);
    var c1 := Copied(c, rip, CTRL_RIP, 8, 8);
    CtrlKept(m, rip, m[O_CTRL + CTRL_RIP..O_CTRL + CTRL_RIP + 8]);
    TargetSame(c, c1, m0, kva, w, PVCS_EFLAGS, 4);
    CopyPair(c1, m0, kva, o + 8, l[2..], CTRL_EFLAGS, PVCS_EFLAGS, eflags, false, k - 4);
    var c2 := Copied(c1, eflags, CTRL_EFLAGS, 4, 6);
    CtrlKept(c1.mem, eflags, m[O_CTRL + CTRL_EFLAGS..O_CTRL + CTRL_EFLAGS + 4]);
    assert l[2..][2..] == l[4..];
    TargetSame(c, c2, m0, kva, w, PVCS_USER_CS, 4);
    CopyPair(c2, m0, kva, o + 14, l[4..], CTRL_SEL, PVCS_USER_CS, cs, false, k - 6);
    var c3 := Copied(c2, cs, CTRL_SEL, 4, 6);
    assert l[4..][2..] == l[6..];
    SyscallStep(c3, m0, kva, o + 20, l[6..], k - 6);
  }

  lemma CopyDecodes()
    ensures DecodesTo(CopyListing[0], Load(true, RAX, Memory(RSI, NoIndex, CTRL_RIP)))
    ensures DecodesTo(CopyListing[1], Store(true, RAX, Memory(RDI, NoIndex, PVCS_RIP)))
    ensures DecodesTo(CopyListing[2], Load(false, RAX, Memory(RSI, NoIndex, CTRL_EFLAGS)))
    ensures DecodesTo(CopyListing[3], Store(false, RAX, Memory(RDI, NoIndex, PVCS_EFLAGS)))
    ensures DecodesTo(CopyListing[4], Load(false, RAX, Memory(RSI, NoIndex, CTRL_SEL)))
    ensures DecodesTo(CopyListing[5], Store(false, RAX, Memory(RDI, NoIndex, PVCS_USER_CS)))
  {
    hide DecodesTo;
    DecodeLoad64(0x46, CTRL_RIP);
    DecodeLoad64(0x47, PVCS_RIP);
    DecodeLoad32(0x46, CTRL_EFLAGS);
    DecodeLoad32(0x47, PVCS_EFLAGS);
    DecodeLoad32(0x46, CTRL_SEL);
    DecodeLoad32(0x47, PVCS_USER_CS);
  }

  // A spared write leaves the control page alone.
  lemma CtrlKept(m: seq<Byte>, off: nat, bs: seq<Byte>)
    requires LAYOUT_END <= |m| && off + |bs| <= |m| && Spared(off, |bs|)
    ensures Patch(m, off, bs)[O_CTRL + CTRL_EFLAGS..O_CTRL + CTRL_EFLAGS + 4]
      == m[O_CTRL + CTRL_EFLAGS..O_CTRL + CTRL_EFLAGS + 4]
    ensures Patch(m, off, bs)[O_CTRL + CTRL_SEL..O_CTRL + CTRL_SEL + 4] == m[O_CTRL + CTRL_SEL..O_CTRL + CTRL_SEL + 4]
  {
    PatchDisjoint(m, off, bs, O_CTRL + CTRL_EFLAGS, O_CTRL + CTRL_EFLAGS + 4);
    PatchDisjoint(m, off, bs, O_CTRL + CTRL_SEL, O_CTRL + CTRL_SEL + 4);
  }

  // A PVCS at a kernel address: its fields are reached where it is.
  lemma KernelTargets(c: Cpu, m0: seq<Byte>, kva: nat, p: nat)
    requires InKernel(c, m0, kva) && PvcsPlace(p)
    ensures Admissible(kva) && Targets(c, kva + p, p + PVCS_RIP, p + PVCS_EFLAGS, p + PVCS_USER_CS)
  {
    hide Target;
    hide TablesHold;
    KernelTarget(c, m0, kva, p, PVCS_RIP, 8);
    KernelTarget(c, m0, kva, p, PVCS_EFLAGS, 4);
    KernelTarget(c, m0, kva, p, PVCS_USER_CS, 4);
  }

  lemma KernelTarget(c: Cpu, m0: seq<Byte>, kva: nat, p: nat, field: nat, n: nat)
    requires InKernel(c, m0, kva) && PvcsPlace(p) && 1 <= n <= 8 && field + n <= PVCS_SIZE
    ensures Admissible(kva) && Target(c, kva + p, field, n) == Ram(p + field) && Spared(p + field, n)
  {
    hide Reach;
    hide TablesHold;
    assert (p + field) % 0x1000 == p % 0x1000 + field;
    KernelReach(c, m0, kva, p + field, n, true);
    assert (kva + p + field) % TWO64 == kva + p + field;
  }

  lemma SyscallStep(c: Cpu, m0: seq<Byte>, kva: nat, o: nat, l: Listing, k: nat)
    requires InKernel(c, m0, kva) && c.rip == kva + o && O_SCODE <= o && o + 15 <= O_EVENT
    requires l != [] && Listed(m0, o, l) && l[0] == [0x0f, 0x05] && k >= 1
    ensures Run(c, k) == Stop(SyscallExit, c)
  {
    hide TablesHold;
    hide DecodesTo;
    hide Step;
    DecodeRest();
    KernelStep(c, m0, kva, o, l, Syscall);
  }

  // --- the theorems -------------------------------------------------------

  // The kernel address the control page gives for the PVCS, a control page's
  // page tables, and its other words.
  function CtrlWord(m: seq<Byte>, off: nat): U64
    requires LAYOUT_END <= |m| && off + 8 <= 0x1000
  {
    ReadLE(m, O_CTRL + off, 8)
  }

  lemma LoadedSize(m: seq<Byte>, kva: nat, pgtbl: bool)
    requires Loaded(m, kva, pgtbl)
    ensures Admissible(kva) && LAYOUT_END <= |m| && SameKernel(m, m)
  {
  }

  lemma EnterKernel(c: Cpu, kva: nat, pgtbl: bool)
    requires Loaded(c.mem, kva, pgtbl) && !c.user && (c.cr3 == MAIN || c.cr3 == ALT)
    ensures InKernel(c, c.mem, kva) && LAYOUT_END <= |c.mem|
  {
    LoadedSize(c.mem, kva, pgtbl);
  }

  // The first three instructions of the plain variant.
  function Entered(c: Cpu, kva: nat): Cpu
    requires Admissible(kva) && LAYOUT_END <= |c.mem|
  {
    c.(regs := c.regs[RSP := UVA_STACK_TOP][RSI := kva + O_CTRL][RDI := CtrlWord(c.mem, CTRL_PVCS)],
      rip := kva + O_SCODE + 24)
  }

  lemma SmodHead(c: Cpu, kva: nat, k: nat)
    requires Loaded(c.mem, kva, false) && !c.user && (c.cr3 == MAIN || c.cr3 == ALT) && c.rip == kva + O_SCODE
    ensures Admissible(kva) && LAYOUT_END <= |c.mem|
    ensures Run(c, k + 3) == Run(Entered(c, kva), k)
    ensures InKernel(Entered(c, kva), c.mem, kva) && Listed(c.mem, O_SCODE + 24, CopyListing)
  {
    hide InKernel;
    hide Listed;
    hide Run;
    hide TablesHold;
    hide FromLE;
    hide DecodesTo;
    hide Flatten;
    hide Movabs;
    var m0, l := c.mem, SmodListing(kva);
    EnterKernel(c, kva, false);
    CodeIsListed(m0, O_SCODE, l);
    DecodeLoad64(0x7e, CTRL_PVCS);
    MovabsStep(c, m0, kva, O_SCODE, l, RSP, UVA_STACK_TOP, k + 2);
    var c1 := c.(regs := c.regs[RSP := UVA_STACK_TOP], rip := kva + O_SCODE + 10);
    MovabsStep(c1, m0, kva, O_SCODE + 10, l[1..], RSI, kva + O_CTRL, k + 1);
    var c2 := c1.(regs := c1.regs[RSI := kva + O_CTRL], rip := kva + O_SCODE + 20);
    assert l[1..][1..] == l[2..] && l[2..][1..] == CopyListing;
    LoadStep(c2, m0, kva, O_SCODE + 20, l[2..], RDI, RSI, O_CTRL, CTRL_PVCS, true, k);
  }

  // Entered anywhere in supervisor mode with the plain code loaded, whatever
  // the registers, the control page and the PVCS hold, supervisor mode
  // reaches the SYSCALL at retuRIP with the PVCS set and nothing else changed.
  lemma SmodReturns(c: Cpu, kva: nat, p: nat, k: nat)
    requires Loaded(c.mem, kva, false) && !c.user && (c.cr3 == MAIN || c.cr3 == ALT)
    requires c.rip == kva + O_SCODE && k >= 10
    requires PvcsPlace(p) && CtrlWord(c.mem, CTRL_PVCS) == kva + p
    ensures var r := Run(c, k);
      && r.Stop? && r.e == SyscallExit && r.c.rip == kva + O_SCODE + 0x2c
      && !r.c.user && r.c.cr3 == c.cr3 && r.c.regs[RSP] == UVA_STACK_TOP
      && ReturnSet(c.mem, r.c.mem, p)
  {
    hide InKernel;
    hide Listed;
    hide Run;
    hide TablesHold;
    hide FromLE;
    hide Patch;
    hide Targets;
    SmodHead(c, kva, k - 3);
    var c3 := Entered(c, kva);
    KernelTargets(c3, c.mem, kva, p);
    CopyRuns(c3, c.mem, kva, O_SCODE + 24, p + PVCS_RIP, p + PVCS_EFLAGS, p + PVCS_USER_CS, k - 3);
    LandedIsReturnSet(c.mem, p);
  }

  // What a store that does not reach memory stops with.
  function Refusal(a: Access, va: U64, v: U64, n: nat): Exit
    requires !a.Ram?
  {
    match a
    case PageFault => FaultExit(va)
    case NonCanonical => ProtectionExit
    case Device(pa) => MmioWrite(pa, v, n)
    case Straddles => Unmodelled
  }

  lemma StoreRefused(c: Cpu, m0: seq<Byte>, kva: nat, o: nat, l: Listing, d: nat, wide: bool, k: nat)
    requires InKernel(c, m0, kva) && c.rip == kva + o && O_SCODE <= o && o + 15 <= O_EVENT && k >= 1
    requires l != [] && Listed(m0, o, l) && 0 < |l[0]| <= 4
    requires DecodesTo(l[0], Store(wide, RAX, Memory(RDI, NoIndex, d)))
    requires !Target(c, c.regs[RDI], d, if wide then 8 else 4).Ram?
    ensures var n := if wide then 8 else 4;
      Run(c, k) == Stop(Refusal(Target(c, c.regs[RDI], d, n), (c.regs[RDI] + d) % TWO64,
        if wide then c.regs[RAX] else c.regs[RAX] % TWO32, n), c)
  {
    hide Reach;
    hide TablesHold;
    hide ToLE;
    hide Patch;
    hide DecodesTo;
    hide Step;
    KernelStep(c, m0, kva, o, l, Store(wide, RAX, Memory(RDI, NoIndex, d)));
    assert Address(c, Memory(RDI, NoIndex, d)) == (c.regs[RDI] + d) % TWO64;
  }

  // One field loaded, and its store refused: memory is as it was.
  lemma PairRefused(c: Cpu, m0: seq<Byte>, kva: nat, o: nat, l: Listing, from: nat, to: nat, wide: bool, k: nat)
    requires InKernel(c, m0, kva) && c.rip == kva + o && O_SCODE <= o && o + 19 <= O_EVENT && k >= 2
    requires c.regs[RSI] == kva + O_CTRL && from + 8 <= 0x1000
    requires |l| >= 2 && Listed(m0, o, l) && 0 < |l[0]| <= 4 && 0 < |l[1]| <= 4
    requires DecodesTo(l[0], Load(wide, RAX, Memory(RSI, NoIndex, from)))
    requires DecodesTo(l[1], Store(wide, RAX, Memory(RDI, NoIndex, to)))
    requires !Target(c, c.regs[RDI], to, if wide then 8 else 4).Ram?
    ensures O_CTRL + from + 8 <= |c.mem|
    ensures var n, r := if wide then 8 else 4, Run(c, k);
      && r.Stop? && r.c.mem == c.mem && r.c.rip == kva + o + |l[0]| && r.c.cr3 == c.cr3 && !r.c.user
      && r.e == Refusal(Target(c, c.regs[RDI], to, n), (c.regs[RDI] + to) % TWO64, ReadLE(c.mem, O_CTRL + from, n), n)
  {
    hide InKernel;
    hide Listed;
    hide Reach;
    hide Run;
    hide TablesHold;
    hide FromLE;
    hide DecodesTo;
    KernelFacts(c, m0, kva);
    var n := if wide then 8 else 4;
    LoadStep(c, m0, kva, o, l, RAX, RSI, O_CTRL, from, wide, k - 1);
    var c1 := c.(regs := c.regs[RAX := ReadLE(c.mem, O_CTRL + from, n)], rip := kva + o + |l[0]|);
    assert l[1..][0] == l[1];
    ReachRegs(c, c1, (c.regs[RDI] + to) % TWO64, n, true);
    WordSizes();
    StoreRefused(c1, m0, kva, o + |l[0]|, l[1..], to, wide, k - 1);
  }

  // Where the store of the PVCS's rip does not reach memory, supervisor mode
  // stops at that very store, 28 bytes in, with memory as it was. The address
  // is whatever the control page says, wrapped at 64 bits.
  lemma SmodRefused(c: Cpu, kva: nat, k: nat)
    requires Loaded(c.mem, kva, false) && !c.user && (c.cr3 == MAIN || c.cr3 == ALT)
    requires c.rip == kva + O_SCODE && k >= 5
    ensures LAYOUT_END <= |c.mem|
    ensures var w := CtrlWord(c.mem, CTRL_PVCS);
      var a, r := Target(c, w, PVCS_RIP, 8), Run(c, k);
      !a.Ram? ==>
        && r.Stop? && r.e == Refusal(a, (w + PVCS_RIP) % TWO64, CtrlWord(c.mem, CTRL_RIP), 8)
        && r.c.mem == c.mem && r.c.rip == kva + O_SCODE + 28 && !r.c.user && r.c.cr3 == c.cr3
  {
    hide InKernel;
    hide Listed;
    hide Run;
    hide TablesHold;
    hide FromLE;
    hide DecodesTo;
    hide Reach;
    SmodHead(c, kva, k - 3);
    CopyDecodes();
    var c3 := Entered(c, kva);
    ReachRegs(c, c3, (c3.regs[RDI] + PVCS_RIP) % TWO64, 8, true);
    if !Target(c, c3.regs[RDI], PVCS_RIP, 8).Ram? {
      PairRefused(c3, c.mem, kva, O_SCODE + 24, CopyListing, CTRL_RIP, PVCS_RIP, true, k - 3);
    }
  }

  // A store within one page of spared bytes, or one that does not reach memory.
  predicate Fair(a: Access, n: nat) {
    a != Straddles && (a.Ram? ==> Spared(a.off, n))
  }

  // An access stays where it is within its page.
  lemma OffsetKept(c: Cpu, m0: seq<Byte>, kva: nat, va: U64, n: nat, off: nat)
    requires InKernel(c, m0, kva) && Reach(c, va, n, true) == Ram(off)
    ensures off % 0x1000 == va % 0x1000 && va % 0x1000 + n <= 0x1000
  {
    hide Walk;
    hide InKernel;
    var low := va % 0x1_0000_0000_0000;
    FrameKept(c, m0, kva, low);
    LowPage(va, Walk(c.mem, c.cr3, low).pa, off);
  }

  lemma LowPage(va: U64, pa: nat, off: nat)
    requires pa == GUEST_PHYS_BASE + off && pa % 0x1000 == va % 0x1_0000_0000_0000 % 0x1000
    ensures off % 0x1000 == va % 0x1000
  {
    Moved(0, GUEST_PHYS_BASE, off);
    LowBits(va);
  }

  lemma LowBits(va: nat)
    ensures va % 0x1_0000_0000_0000 % 0x1000 == va % 0x1000
  {
    var low := va % 0x1_0000_0000_0000;
    Remainder(va, va / 0x1_0000_0000_0000 * 0x10_0000_0000 + low / 0x1000, low % 0x1000);
  }

  lemma Remainder(n: nat, k: nat, r: nat)
    requires r < 0x1000 && n == k * 0x1000 + r
    ensures n % 0x1000 == r
  {
  }

  // Moving by whole pages.
  lemma Moved(from: nat, to: nat, va: nat)
    requires from % 0x1000 == 0 && to % 0x1000 == 0 && from <= va
    ensures (to + (va - from)) % 0x1000 == va % 0x1000
  {
    var k := to / 0x1000 - from / 0x1000;
    var q, r := va / 0x1000, va % 0x1000;
    assert to + (va - from) == (q + k) * 0x1000 + r;
  }

  lemma FrameKept(c: Cpu, m0: seq<Byte>, kva: nat, va: nat)
    requires InKernel(c, m0, kva) && va < 0x1_0000_0000_0000 && Walk(c.mem, c.cr3, va).Mapped?
    ensures Walk(c.mem, c.cr3, va).pa % 0x1000 == va % 0x1000
  {
    hide Walk;
    hide TablesHold;
    hide Intended;
    TablesFrame(m0, c.mem, kva);
    WalkIsIntended(c.mem, kva, va);
    WalkAlt(c.mem, kva, va);
    PageKept(kva, va);
  }

  lemma PageKept(kva: nat, va: nat)
    requires Admissible(kva)
    ensures Intended(kva, va).Mapped? ==> Intended(kva, va).pa % 0x1000 == va % 0x1000
  {
    hide Admissible;
    PageAligned(kva);
    if kva <= va { Moved(kva, GUEST_PHYS_BASE, va); }
    if kva + 0x10000 <= va { Moved(kva + 0x10000, MMIO_EVENT, va); }
    if UVA_CODE <= va { Moved(UVA_CODE, GUEST_PHYS_BASE + O_UCODE, va); }
    if UVA_BASE + 0x1000 <= va { Moved(UVA_BASE + 0x1000, GUEST_PHYS_BASE + O_USTACK, va); }
    if UVA_MMIO <= va { Moved(UVA_MMIO, MMIO_REPORT, va); }
  }

  lemma PageAligned(kva: nat)
    requires Admissible(kva)
    ensures kva % 0x1000 == 0 && (kva + 0x10000) % 0x1000 == 0
  {
  }

  // Fields of one PVCS, each within a page, do not overlap in memory.
  lemma FieldsApart(w: U64, rip: nat, eflags: nat, cs: nat)
    requires rip % 0x1000 == (w + PVCS_RIP) % TWO64 % 0x1000 && rip % 0x1000 + 8 <= 0x1000
    requires eflags % 0x1000 == (w + PVCS_EFLAGS) % TWO64 % 0x1000 && eflags % 0x1000 + 4 <= 0x1000
    requires cs % 0x1000 == (w + PVCS_USER_CS) % TWO64 % 0x1000 && cs % 0x1000 + 4 <= 0x1000
    ensures Disjoint(rip, 8, eflags, 4) && Disjoint(rip, 8, cs, 4) && Disjoint(eflags, 4, cs, 4)
  {
    var q := w % 0x1000;
    InPage(w, PVCS_RIP);
    InPage(w, PVCS_EFLAGS);
    InPage(w, PVCS_USER_CS);
    PagesApart(rip, 8, eflags, 4);
    PagesApart(rip, 8, cs, 4);
    PagesApart(eflags, 4, cs, 4);
  }

  lemma InPage(w: U64, d: nat)
    requires d < 0x1000
    ensures (w + d) % TWO64 % 0x1000 == if w % 0x1000 + d < 0x1000 then w % 0x1000 + d else w % 0x1000 + d - 0x1000
  {
  }

  lemma PagesApart(a: nat, n: nat, b: nat, k: nat)
    requires a % 0x1000 + n <= 0x1000 && b % 0x1000 + k <= 0x1000
    requires Disjoint(a % 0x1000, n, b % 0x1000, k)
    ensures Disjoint(a, n, b, k)
  {
  }

  // The kernel's memory, and the user's, in addresses.
  predicate InMemory(kva: nat, va: nat, user: bool) {
    || kva <= va < kva + O_PML4_ALT || kva + O_PVCS2 <= va < kva + LAYOUT_END
    || (user && UVA_BASE <= va < UVA_STACK_TOP)
  }

  lemma IntendedMemory(kva: nat, va: nat, n: nat, size: nat)
    requires Admissible(kva) && va % 0x1000 + n <= 0x1000 && 1 <= n && LAYOUT_END <= size <= GUEST_MEM_SIZE
    ensures var t := Intended(kva, va);
      (t.Mapped? && GUEST_PHYS_BASE <= t.pa && t.pa + n <= GUEST_PHYS_BASE + size) <==> InMemory(kva, va, true)
    ensures Intended(kva, va).Mapped? ==> Intended(kva, va).write
  {
    InOnePage(kva, va, n);
    OneSlot(kva, va);
  }

  lemma RootedWalk(c: Cpu, m0: seq<Byte>, kva: nat, va: nat)
    requires InKernel(c, m0, kva) && va < 0x1_0000_0000_0000
    ensures LAYOUT_END <= |c.mem| <= GUEST_MEM_SIZE
    ensures Walk(c.mem, c.cr3, va) ==
      if c.cr3 == MAIN || va / 0x80_0000_0000 == kva / 0x80_0000_0000 then Intended(kva, va) else NotPresent
  {
    hide Walk;
    hide Intended;
    TablesFrame(m0, c.mem, kva);
    WalkIsIntended(c.mem, kva, va);
    WalkAlt(c.mem, kva, va);
    TablesSize(c.mem, IndicesOf(kva));
  }

  lemma TablesSize(m: seq<Byte>, ix: Indices)
    requires TablesHold(m, ix)
    ensures LAYOUT_END <= |m| <= GUEST_MEM_SIZE
  {
  }

  lemma ReachIs(c: Cpu, va: U64, n: nat)
    requires !c.user && va % 0x1000 + n <= 0x1000
    ensures var t := Walk(c.mem, c.cr3, va % 0x1_0000_0000_0000);
      Reach(c, va, n, true).Ram? <==>
        Canonical(va) && t.Mapped? && t.write && GUEST_PHYS_BASE <= t.pa && t.pa + n <= GUEST_PHYS_BASE + |c.mem|
  {
    hide Walk;
  }

  // Which stores reach memory, said in addresses: those to the kernel's pages,
  // and under the main root those to the user code and stack pages.
  lemma MemoryAt(c: Cpu, m0: seq<Byte>, kva: nat, va: U64, n: nat)
    requires InKernel(c, m0, kva) && 1 <= n && va % 0x1000 + n <= 0x1000
    ensures Reach(c, va, n, true).Ram? <==> InMemory(kva, va, c.cr3 == MAIN)
  {
    hide Reach;
    hide Walk;
    hide TablesHold;
    hide Admissible;
    hide Intended;
    hide InMemory;
    hide Canonical;
    var low := va % 0x1_0000_0000_0000;
    LowBits(va);
    ReachIs(c, va, n);
    RootedWalk(c, m0, kva, low);
    IntendedMemory(kva, low, n, |c.mem|);
    LowMemory(kva, va, c.cr3 == MAIN);
    SlotMemory(kva, low);
  }

  // Mapped addresses are in the lower half.
  lemma LowMemory(kva: nat, va: U64, user: bool)
    requires Admissible(kva)
    ensures InMemory(kva, va, user) <==> Canonical(va) && InMemory(kva, va % 0x1_0000_0000_0000, user)
  {
    hide Admissible;
    KernelBounds(kva);
    var q, low := va / 0x1_0000_0000_0000, va % 0x1_0000_0000_0000;
    assert va == q * 0x1_0000_0000_0000 + low && q <= 0xffff;
  }

  // Under the alternative root the kernel's are all there is.
  lemma SlotMemory(kva: nat, va: nat)
    requires Admissible(kva)
    ensures InMemory(kva, va, false) <==> InMemory(kva, va, true) && va / 0x80_0000_0000 == kva / 0x80_0000_0000
  {
    hide Admissible;
    OneSlot(kva, va);
  }

  lemma KernelBounds(kva: nat)
    requires Admissible(kva)
    ensures kva + 0x11000 <= 0x8000_0000_0000
  {
  }

  // What starts in a page and fits in it ends in that page.
  lemma InOnePage(kva: nat, va: nat, n: nat)
    requires Admissible(kva) && va % 0x1000 + n <= 0x1000
    ensures kva <= va < kva + O_PML4_ALT ==> va + n <= kva + O_PML4_ALT
    ensures kva + O_PVCS2 <= va < kva + LAYOUT_END ==> va + n <= kva + LAYOUT_END
    ensures UVA_BASE <= va < UVA_BASE + 0x1000 ==> va + n <= UVA_BASE + 0x1000
    ensures UVA_BASE + 0x1000 <= va < UVA_STACK_TOP ==> va + n <= UVA_STACK_TOP
  {
    assert kva % 0x1000 == 0;
  }

  // The kernel's pages share its PML4 slot, and the user's are in another.
  lemma OneSlot(kva: nat, va: nat)
    requires Admissible(kva)
    ensures kva <= va < kva + LAYOUT_END ==> va / 0x80_0000_0000 == kva / 0x80_0000_0000
    ensures UVA_BASE <= va < UVA_STACK_TOP ==> va / 0x80_0000_0000 != kva / 0x80_0000_0000
    ensures kva + LAYOUT_END <= UVA_BASE || UVA_BASE + 0x3000 <= kva
  {
    Apart(kva);
    if kva <= va < kva + LAYOUT_END { SameSlot(kva, va - kva); }
  }

  // What the entered code comes to: it returns if all three fields' stores
  // reach memory, and stops at the first one that does not.
  lemma CopyRunsExactly(c: Cpu, m0: seq<Byte>, kva: nat, o: nat, k: nat)
    requires InKernel(c, m0, kva) && k >= 7 && c.rip == kva + o && O_SCODE <= o && o + 40 <= O_EVENT
    requires Listed(m0, o, CopyListing) && c.regs[RSI] == kva + O_CTRL
    requires var w := c.regs[RDI];
      Fair(Target(c, w, PVCS_RIP, 8), 8) && Fair(Target(c, w, PVCS_EFLAGS, 4), 4)
        && Fair(Target(c, w, PVCS_USER_CS, 4), 4)
    ensures var w, r := c.regs[RDI], Run(c, k);
      r.Stop? && (r.e == SyscallExit <==>
        Target(c, w, PVCS_RIP, 8).Ram? && Target(c, w, PVCS_EFLAGS, 4).Ram? && Target(c, w, PVCS_USER_CS, 4).Ram?)
  {
    hide InKernel;
    hide Run;
    hide Reach;
    hide TablesHold;
    hide FromLE;
    hide ToLE;
    hide Listed;
    hide DecodesTo;
    hide Patch;
    KernelFacts(c, m0, kva);
    var l, w := CopyListing, c.regs[RDI];
    var ra, ea, ca := Target(c, w, PVCS_RIP, 8), Target(c, w, PVCS_EFLAGS, 4), Target(c, w, PVCS_USER_CS, 4);
    CopyDecodes();
    if !ra.Ram? {
      PairRefused(c, m0, kva, o, l, CTRL_RIP, PVCS_RIP, true, k);
    } else {
      CopyPair(c, m0, kva, o, l, CTRL_RIP, PVCS_RIP, ra.off, true, k - 2);
      var c1 := Copied(c, ra.off, CTRL_RIP, 8, 8);
      TargetSame(c, c1, m0, kva, w, PVCS_EFLAGS, 4);
      if !ea.Ram? {
        PairRefused(c1, m0, kva, o + 8, l[2..], CTRL_EFLAGS, PVCS_EFLAGS, false, k - 2);
      } else if ca.Ram? {
        CopyRuns(c, m0, kva, o, ra.off, ea.off, ca.off, k);
      } else {
        CopyPair(c1, m0, kva, o + 8, l[2..], CTRL_EFLAGS, PVCS_EFLAGS, ea.off, false, k - 4);
        var c2 := Copied(c1, ea.off, CTRL_EFLAGS, 4, 6);
        assert l[2..][2..] == l[4..];
        TargetSame(c, c2, m0, kva, w, PVCS_USER_CS, 4);
        PairRefused(c2, m0, kva, o + 14, l[4..], CTRL_SEL, PVCS_USER_CS, false, k - 4);
      }
    }
  }

  // Exactly when supervisor mode gets back to user mode: whatever CTRL_PVCS
  // says, if and only if the stores of all three fields reach memory. Then
  // they are set where the page tables put them and nothing else has changed.
  lemma SmodReturnsExactly(c: Cpu, kva: nat, k: nat)
    requires Loaded(c.mem, kva, false) && !c.user && (c.cr3 == MAIN || c.cr3 == ALT)
    requires c.rip == kva + O_SCODE && k >= 10 && LAYOUT_END <= |c.mem|
    requires var w := CtrlWord(c.mem, CTRL_PVCS);
      Fair(Target(c, w, PVCS_RIP, 8), 8) && Fair(Target(c, w, PVCS_EFLAGS, 4), 4)
        && Fair(Target(c, w, PVCS_USER_CS, 4), 4)
    ensures var w, r := CtrlWord(c.mem, CTRL_PVCS), Run(c, k);
      var ra, ea, ca := Target(c, w, PVCS_RIP, 8), Target(c, w, PVCS_EFLAGS, 4), Target(c, w, PVCS_USER_CS, 4);
      && r.Stop? && (r.e == SyscallExit <==> ra.Ram? && ea.Ram? && ca.Ram?)
      && (r.e == SyscallExit ==>
          && r.c.rip == kva + O_SCODE + 0x2c && !r.c.user && r.c.cr3 == c.cr3 && r.c.regs[RSP] == UVA_STACK_TOP
          && FieldsSet(c.mem, r.c.mem, ra.off, ea.off, ca.off))
  {
    hide InKernel;
    hide Listed;
    hide Run;
    hide TablesHold;
    hide FromLE;
    hide Reach;
    hide Stored;
    hide FieldsSet;
    SmodHead(c, kva, k - 3);
    EnterKernel(c, kva, false);
    var c3, w := Entered(c, kva), CtrlWord(c.mem, CTRL_PVCS);
    var ra, ea, ca := Target(c, w, PVCS_RIP, 8), Target(c, w, PVCS_EFLAGS, 4), Target(c, w, PVCS_USER_CS, 4);
    ReachRegs(c, c3, (w + PVCS_RIP) % TWO64, 8, true);
    ReachRegs(c, c3, (w + PVCS_EFLAGS) % TWO64, 4, true);
    ReachRegs(c, c3, (w + PVCS_USER_CS) % TWO64, 4, true);
    CopyRunsExactly(c3, c.mem, kva, O_SCODE + 24, k - 3);
    if ra.Ram? && ea.Ram? && ca.Ram? {
      CopyRuns(c3, c.mem, kva, O_SCODE + 24, ra.off, ea.off, ca.off, k - 3);
      OffsetKept(c, c.mem, kva, (w + PVCS_RIP) % TWO64, 8, ra.off);
      OffsetKept(c, c.mem, kva, (w + PVCS_EFLAGS) % TWO64, 4, ea.off);
      OffsetKept(c, c.mem, kva, (w + PVCS_USER_CS) % TWO64, 4, ca.off);
      FieldsApart(w, ra.off, ea.off, ca.off);
      StoredSetsFields(c.mem, ra.off, ea.off, ca.off);
    }
  }

  // A hypercall served by the hypervisor: it resumes after the SYSCALL, with
  // any registers, on the page table it was given; given anything but one of
  // the guest's two, it may refuse, but keeps to one of them.
  ghost predicate LoadPgtblServed(c: Cpu, c': Cpu) {
    && c'.mem == c.mem && c'.rip == (c.rip + 2) % TWO64 && !c'.user
    && (c'.cr3 == MAIN || c'.cr3 == ALT)
    && (c.regs[R10] == MAIN || c.regs[R10] == ALT ==> c'.cr3 == c.regs[R10])
  }

  lemma Served(c: Cpu, c': Cpu, m0: seq<Byte>, kva: nat)
    requires InKernel(c, m0, kva) && LoadPgtblServed(c, c')
    ensures InKernel(c', m0, kva)
  {
  }

  // One hypercall, of the control page's word at off.
  lemma LoadPgtblRuns(c: Cpu, m0: seq<Byte>, kva: nat, o: nat, off: nat, rest: Listing, k: nat)
    requires InKernel(c, m0, kva) && c.mem == m0 && c.rip == kva + o && O_SCODE <= o && o + 43 <= O_EVENT
    requires off < 0x80 && Listed(m0, o, LoadPgtblListing(kva + O_CTRL, off) + rest) && k >= 5
    ensures Listed(m0, o + 28, rest)
    ensures var r := Run(c, k);
      IsLoadPgtbl(r, CtrlWord(m0, off)) && r.c.rip == kva + o + 26 && r.c.mem == m0 && InKernel(r.c, m0, kva)
  {
    hide InKernel;
    hide Listed;
    hide Run;
    hide TablesHold;
    hide FromLE;
    hide DecodesTo;
    hide Movabs;
    hide ReadLE;
    KernelFacts(c, m0, kva);
    var l := LoadPgtblListing(kva + O_CTRL, off) + rest;
    LoadPgtblHead(c, m0, kva, o, l, k - 3);
    var c3 := Primed(c, kva, o);
    DecodeLoad64(0x56, off);
    assert l[3..][1..] == l[4..] && l[4..][1..] == rest;
    LoadStep(c3, m0, kva, o + 22, l[3..], R10, RSI, O_CTRL, off, true, k - 4);
    var c4 := c3.(regs := c3.regs[R10 := ReadLE(m0, O_CTRL + off, 8)], rip := kva + o + 26);
    SyscallStep(c4, m0, kva, o + 26, l[4..], k - 4);
    assert Listed(m0, o + 28, rest) by { ListedTail(m0, o + 26, l[4..]); }
  }

  lemma ListedTail(m: seq<Byte>, o: nat, l: Listing)
    requires Listed(m, o, l) && l != []
    ensures Listed(m, o + |l[0]|, l[1..])
  {
  }

  // The machine once a hypercall's registers but its argument are set.
  function Primed(c: Cpu, kva: nat, o: nat): Cpu
    requires Admissible(kva) && o < O_EVENT
  {
    SetCarry(c, false).(regs := c.regs[RSI := kva + O_CTRL][RAX := PVM_HC_LOAD_PGTBL][RBX := 0], rip := kva + o + 22)
  }

  lemma LoadPgtblHead(c: Cpu, m0: seq<Byte>, kva: nat, o: nat, l: Listing, k: nat)
    requires InKernel(c, m0, kva) && c.rip == kva + o && O_SCODE <= o && o + 43 <= O_EVENT
    requires |l| >= 3 && l[0] == Movabs(RSI, kva + O_CTRL) && l[1] == Movabs(RAX, PVM_HC_LOAD_PGTBL)
      && l[2] == [0x31, 0xdb]
    requires Listed(m0, o, l)
    ensures var c' := Primed(c, kva, o);
      Run(c, k + 3) == Run(c', k) && InKernel(c', m0, kva) && Listed(m0, o + 22, l[3..])
  {
    hide InKernel;
    hide Listed;
    hide Run;
    hide TablesHold;
    hide Movabs;
    KernelFacts(c, m0, kva);
    MovabsStep(c, m0, kva, o, l, RSI, kva + O_CTRL, k + 2);
    var c1 := c.(regs := c.regs[RSI := kva + O_CTRL], rip := kva + o + 10);
    MovabsStep(c1, m0, kva, o + 10, l[1..], RAX, PVM_HC_LOAD_PGTBL, k + 1);
    var c2 := c1.(regs := c1.regs[RAX := PVM_HC_LOAD_PGTBL], rip := kva + o + 20);
    assert l[1..][1..] == l[2..] && l[2..][1..] == l[3..];
    ZeroStep(c2, m0, kva, o + 20, l[2..], k);
  }

  lemma ZeroStep(c: Cpu, m0: seq<Byte>, kva: nat, o: nat, l: Listing, k: nat)
    requires InKernel(c, m0, kva) && c.rip == kva + o && O_SCODE <= o && o + 15 <= O_EVENT
    requires l != [] && Listed(m0, o, l) && l[0] == [0x31, 0xdb]
    ensures var c' := SetCarry(c, false).(regs := c.regs[RBX := 0], rip := kva + o + 2);
      Run(c, k + 1) == Run(c', k) && InKernel(c', m0, kva) && Listed(m0, o + 2, l[1..])
  {
    hide Reach;
    hide TablesHold;
    hide DecodesTo;
    hide Step;
    DecodeRest();
    KernelStep(c, m0, kva, o, l, Zero(RBX));
  }

  // The pgtbl variant: two hypercalls, CTRL_PGD1 then CTRL_PGD2, and only
  // then the copy and the SYSCALL at retuRIP, on the page table CTRL_PGD2
  // names if it names one of the two, whatever either word holds.
  // c1 and c2 are the machine as the hypervisor hands it back each time.
  lemma PgtblReturns(c: Cpu, c1: Cpu, c2: Cpu, kva: nat, k: nat)
    requires Loaded(c.mem, kva, true) && !c.user && (c.cr3 == MAIN || c.cr3 == ALT)
    requires c.rip == kva + O_SCODE + PGTBL_OFF && k >= 10
    requires LoadPgtblServed(Run(c, k).c, c1) && LoadPgtblServed(Run(c1, k).c, c2)
    ensures IsLoadPgtbl(Run(c, k), CtrlWord(c.mem, CTRL_PGD1)) && Run(c, k).c.mem == c.mem
    ensures IsLoadPgtbl(Run(c1, k), CtrlWord(c.mem, CTRL_PGD2)) && Run(c1, k).c.mem == c.mem
    ensures var r := Run(c2, k);
      && r.Stop? && r.e == SyscallExit && r.c.rip == kva + O_SCODE + 0x26a
      && !r.c.user && r.c.cr3 == c2.cr3 && r.c.regs[RSP] == UVA_STACK_TOP
      && (CtrlWord(c.mem, CTRL_PGD2) == MAIN || CtrlWord(c.mem, CTRL_PGD2) == ALT ==>
      r.c.cr3 == CtrlWord(c.mem, CTRL_PGD2))
      && ReturnSet(c.mem, r.c.mem, O_PVCS)
  {
    hide InKernel;
    hide Run;
    hide TablesHold;
    hide FromLE;
    hide Listed;
    hide Flatten;
    hide Movabs;
    hide ReturnSet;
    hide CtrlWord;
    var m0, o, l := c.mem, O_SCODE + PGTBL_OFF, PgtblListing(kva);
    EnterKernel(c, kva, true);
    CodeIsListed(m0, o, l);
    var ctrl: U64 := kva + O_CTRL;
    var tail := [Movabs(RSP, UVA_STACK_TOP), Movabs(RDI, kva + O_PVCS), Movabs(RSI, ctrl)] + CopyListing;
    var second := LoadPgtblListing(ctrl, CTRL_PGD2);
    assert l == LoadPgtblListing(ctrl, CTRL_PGD1) + (second + tail);
    LoadPgtblRuns(c, m0, kva, o, CTRL_PGD1, second + tail, k);
    Served(Run(c, k).c, c1, m0, kva);
    LoadPgtblRuns(c1, m0, kva, o + 28, CTRL_PGD2, tail, k);
    Served(Run(c1, k).c, c2, m0, kva);
    PgtblTail(c2, m0, kva, o + 56, tail, k);
  }

  // Stopped at a LOAD_PGTBL hypercall with flags 0 for that page table.
  ghost predicate IsLoadPgtbl(r: Outcome, pgd: U64) {
    r.Stop? && r.e == SyscallExit && r.c.regs[RAX] == PVM_HC_LOAD_PGTBL && r.c.regs[RBX] == 0 && r.c.regs[R10] == pgd
  }

  lemma PgtblTail(c: Cpu, m0: seq<Byte>, kva: nat, o: nat, l: Listing, k: nat)
    requires InKernel(c, m0, kva) && c.mem == m0 && c.rip == kva + o && O_SCODE <= o && o + 70 <= O_EVENT && k >= 10
    requires l == [Movabs(RSP, UVA_STACK_TOP), Movabs(RDI, kva + O_PVCS), Movabs(RSI, kva + O_CTRL)] + CopyListing
    requires Listed(m0, o, l)
    ensures var r := Run(c, k);
      && r.Stop? && r.e == SyscallExit && r.c.rip == kva + o + 50
      && !r.c.user && r.c.cr3 == c.cr3 && r.c.regs[RSP] == UVA_STACK_TOP
      && ReturnSet(m0, r.c.mem, O_PVCS)
  {
    hide InKernel;
    hide Listed;
    hide Run;
    hide TablesHold;
    hide FromLE;
    hide Patch;
    hide Movabs;
    hide Targets;
    hide Stored;
    hide ReturnSet;
    KernelFacts(c, m0, kva);
    MovabsStep(c, m0, kva, o, l, RSP, UVA_STACK_TOP, k - 1);
    var c1 := c.(regs := c.regs[RSP := UVA_STACK_TOP], rip := kva + o + 10);
    MovabsStep(c1, m0, kva, o + 10, l[1..], RDI, kva + O_PVCS, k - 2);
    var c2 := c1.(regs := c1.regs[RDI := kva + O_PVCS], rip := kva + o + 20);
    assert l[1..][1..] == l[2..] && l[2..][1..] == CopyListing;
    MovabsStep(c2, m0, kva, o + 20, l[2..], RSI, kva + O_CTRL, k - 3);
    var c3 := c2.(regs := c2.regs[RSI := kva + O_CTRL], rip := kva + o + 30);
    KernelTargets(c3, m0, kva, O_PVCS);
    CopyRuns(c3, m0, kva, o + 30, O_PVCS + PVCS_RIP, O_PVCS + PVCS_EFLAGS, O_PVCS + PVCS_USER_CS, k - 3);
    LandedIsReturnSet(m0, O_PVCS);
  }
}
