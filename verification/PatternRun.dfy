// The repeat-rule routine (guest.go:235-264, main.go:835-880): entered again
// and again through the supervisor code, user mode faults on the addresses of
// a list, in order, and then reports how many there were.
//
// PatternReads and PatternReports are one entry of the routine; Round is the
// way back through the supervisor code; RuleHolds says for which lists the
// whole run comes out as the test expects.
module PatternRun {
  import opened Bytes
  import opened GuestLayout
  import opened PageTables
  import opened Machine
  import opened GuestCode
  import opened SmodRun

  const PATTERN_PA: nat := O_USTACK + PATTERN_OFF
  const ENTRY: nat := UVA_CODE + UCODE_PATTERN

  // --- user mode ----------------------------------------------------------

  // User mode on the main address space, with the tables and the user code
  // of memory m0.
  ghost predicate InUser(c: Cpu, m0: seq<Byte>, kva: nat) {
    && Admissible(kva) && TablesOk(m0, kva) && |m0| == |c.mem|
    && c.mem[..O_PVCS] == m0[..O_PVCS] && c.mem[O_PML4_ALT..O_PVCS2] == m0[O_PML4_ALT..O_PVCS2]
    && c.mem[O_UCODE..O_USTACK] == m0[O_UCODE..O_USTACK]
    && c.user && c.cr3 == MAIN
  }

  lemma UserFacts(c: Cpu, m0: seq<Byte>, kva: nat)
    requires InUser(c, m0, kva)
    ensures LAYOUT_END <= |c.mem| <= GUEST_MEM_SIZE && |m0| == |c.mem|
    ensures c.mem[O_UCODE..O_USTACK] == m0[O_UCODE..O_USTACK]
  {
  }

  // User mode's view of the address space: the code and stack pages are
  // memory, the report page is the device, everything else faults.
  lemma UserReaches(c: Cpu, m0: seq<Byte>, kva: nat, va: U64, n: nat, write: bool)
    requires InUser(c, m0, kva) && Canonical(va) && 1 <= n && va % 0x1000 + n <= 0x1000
    ensures Reach(c, va, n, write) ==
      if UVA_BASE <= va < UVA_MMIO then Ram(O_UCODE + (va - UVA_BASE))
      else if UVA_MMIO <= va < UVA_MMIO + 0x1000 then Device(MMIO_REPORT + (va - UVA_MMIO))
      else PageFault
  {
    hide Walk;
    hide TablesHold;
    UserFacts(c, m0, kva);
    TablesFrame(m0, c.mem, kva);
    var low := va % 0x1_0000_0000_0000;
    WalkIsIntended(c.mem, kva, low);
    UserReach(c.mem, kva, low);
    LowHalf(va);
    InOnePage(va, n);
  }

  lemma LowHalf(va: U64)
    requires Canonical(va)
    ensures va % 0x1_0000_0000_0000 < 0x8000_0000_0000 ==> va % 0x1_0000_0000_0000 == va
    ensures va < 0x8000_0000_0000 ==> va % 0x1_0000_0000_0000 == va
  {
  }

  lemma InOnePage(va: nat, n: nat)
    requires va % 0x1000 + n <= 0x1000
    ensures UVA_BASE <= va < UVA_MMIO ==> va + n <= UVA_MMIO
  {
  }

  lemma UserStep(c: Cpu, m0: seq<Byte>, kva: nat, o: nat, l: Listing, i: Instr)
    requires InUser(c, m0, kva) && c.rip == UVA_CODE + o && o + 15 <= 0x1000
    requires l != [] && Listed(m0, O_UCODE + o, l) && DecodesTo(l[0], i) && 0 < |l[0]| <= 15
    ensures Step(c) == Execute(c, i, |l[0]|)
  {
    hide InUser;
    hide DecodesTo;
    hide Reach;
    hide Decode;
    hide Execute;
    hide TablesHold;
    UserFacts(c, m0, kva);
    UserReaches(c, m0, kva, c.rip, 1, false);
    assert CodeAt(m0, O_UCODE + o, l[0]);
    SubRange(m0, c.mem, O_UCODE, O_USTACK, O_UCODE + o, O_UCODE + o + 15);
    WindowIs(c, m0, O_UCODE + o, l[0]);
    Decoding(l[0], m0[O_UCODE + o + |l[0]|..O_UCODE + o + 15], i);
  }

  lemma PatchKeepsUser(c: Cpu, m0: seq<Byte>, kva: nat, off: nat, bs: seq<Byte>)
    requires InUser(c, m0, kva) && O_USTACK <= off && off + |bs| <= O_PML4_ALT
    ensures off + |bs| <= |c.mem| && InUser(c.(mem := Patch(c.mem, off, bs)), m0, kva)
  {
    hide Patch;
    UserFacts(c, m0, kva);
    PatchDisjoint(c.mem, off, bs, 0, O_PVCS);
    PatchDisjoint(c.mem, off, bs, O_PML4_ALT, O_PVCS2);
    PatchDisjoint(c.mem, off, bs, O_UCODE, O_USTACK);
  }

  // --- decoding the routine -----------------------------------------------

  lemma DecodeCountdown()
    ensures DecodesTo([0x48, 0x8b, 0x0e], Load(true, RCX, Memory(RSI, NoIndex, 0)))
    ensures DecodesTo([0x48, 0xff, 0x06], Increment(Memory(RSI, NoIndex, 0)))
    ensures DecodesTo([0x73, 0x0c], JumpAboveEqual(12))
  {
    var w := Rex(true, 0, 0, 0);
    forall rest: seq<Byte>
      ensures Decode([0x48, 0x8b, 0x0e] + rest) == Good(Load(true, RCX, Memory(RSI, NoIndex, 0)), 3)
      ensures Decode([0x48, 0xff, 0x06] + rest) == Good(Increment(Memory(RSI, NoIndex, 0)), 3)
      ensures Decode([0x73, 0x0c] + rest) == Good(JumpAboveEqual(12), 2)
    {
      Tail([0x48, 0x8b], [0x0e], rest);
      Tail([0x48, 0xff], [0x06], rest);
      assert DecodeModRM([0x0e] + rest, w) == ModRM(RCX, Memory(RSI, NoIndex, 0), 1);
      assert DecodeModRM([0x06] + rest, w) == ModRM(0, Memory(RSI, NoIndex, 0), 1);
    }
  }

  lemma DecodeIndexed()
    ensures DecodesTo([0x48, 0x3b, 0x4e, 104], Compare(RCX, Memory(RSI, NoIndex, 104)))
    ensures DecodesTo([0x48, 0x8b, 0x54, 0xce, 0x08], Load(true, RDX, Memory(RSI, Scaled(RCX, 8), 8)))
  {
    var w := Rex(true, 0, 0, 0);
    forall rest: seq<Byte>
      ensures Decode([0x48, 0x3b, 0x4e, 104] + rest) == Good(Compare(RCX, Memory(RSI, NoIndex, 104)), 4)
      ensures Decode([0x48, 0x8b, 0x54, 0xce, 0x08] + rest) == Good(Load(true, RDX, Memory(RSI, Scaled(RCX, 8), 8)), 5)
    {
      Tail([0x48, 0x3b], [0x4e, 104], rest);
      DecodeDisp8(0x4e, 104, rest, w);
      Tail([0x48, 0x8b], [0x54, 0xce, 0x08], rest);
      assert DecodeModRM([0x54, 0xce, 0x08] + rest, w) == ModRM(RDX, Memory(RSI, Scaled(RCX, 8), 8), 3);
    }
  }

  lemma DecodePointer()
    ensures DecodesTo([0x8a, 0x02], LoadByte(RAX, Memory(RDX, NoIndex, 0)))
    ensures DecodesTo([0x89, 0x0a], Store(false, RCX, Memory(RDX, NoIndex, 0)))
  {
    var n := Rex(false, 0, 0, 0);
    forall rest: seq<Byte>
      ensures Decode([0x8a, 0x02] + rest) == Good(LoadByte(RAX, Memory(RDX, NoIndex, 0)), 2)
      ensures Decode([0x89, 0x0a] + rest) == Good(Store(false, RCX, Memory(RDX, NoIndex, 0)), 2)
    {
      assert ([0x8a, 0x02] + rest)[1..] == [0x02] + rest;
      assert ([0x89, 0x0a] + rest)[1..] == [0x0a] + rest;
      assert DecodeModRM([0x02] + rest, n) == ModRM(RAX, Memory(RDX, NoIndex, 0), 1);
      assert DecodeModRM([0x0a] + rest, n) == ModRM(RCX, Memory(RDX, NoIndex, 0), 1);
    }
  }

  // --- one round ----------------------------------------------------------

  // The jth word of the list page: the count, the addresses, the total.
  function ListValue(m: seq<Byte>, j: nat): U64
    requires LAYOUT_END <= |m| && j <= 1 + PATTERN_MAX
  {
    ReadLE(m, PATTERN_PA + 8 * j, 8)
  }

  // The list on the user stack page: done of its addresses are used up.
  ghost predicate ListAt(m: seq<Byte>, done: nat, vas: seq<U64>) {
    && LAYOUT_END <= |m| && done <= |vas| <= PATTERN_MAX
    && ListValue(m, 0) == done
    && (forall i | 0 <= i < |vas| :: ListValue(m, 1 + i) == vas[i])
    && ListValue(m, 1 + PATTERN_MAX) == |vas|
  }

  // What reading the next address comes to: in user mode only the code, the
  // stack and the report page are there to be read.
  function ReadVerdict(va: U64): Exit {
    if !Canonical(va) then ProtectionExit
    else if UVA_BASE <= va < UVA_MMIO then UndefinedExit
    else if UVA_MMIO <= va < UVA_MMIO + 0x1000 then MmioRead(MMIO_REPORT + (va - UVA_MMIO))
    else FaultExit(va)
  }

  // An instruction of the routine that only changes registers and flags.
  lemma Advance(c: Cpu, c': Cpu, m0: seq<Byte>, kva: nat, o: nat, l: Listing, i: Instr, k: nat)
    requires InUser(c, m0, kva) && c.rip == UVA_CODE + o && o + 15 <= 0x1000
    requires l != [] && Listed(m0, O_UCODE + o, l) && DecodesTo(l[0], i) && 0 < |l[0]| <= 15
    requires Execute(c, i, |l[0]|) == Next(c')
    ensures Run(c, k + 1) == Run(c', k)
    ensures Listed(m0, O_UCODE + o + |l[0]|, l[1..])
  {
    hide Reach;
    hide Execute;
    hide TablesHold;
    hide DecodesTo;
    hide Step;
    UserStep(c, m0, kva, o, l, i);
  }

  // The list's words, by their addresses.
  lemma ListReach(c: Cpu, m0: seq<Byte>, kva: nat, j: nat, write: bool)
    requires InUser(c, m0, kva) && j <= 1 + PATTERN_MAX
    ensures LAYOUT_END <= |c.mem|
    ensures Reach(c, PATTERN_UVA + 8 * j, 8, write) == Ram(PATTERN_PA + 8 * j)
  {
    hide Reach;
    hide TablesHold;
    UserFacts(c, m0, kva);
    UserReaches(c, m0, kva, PATTERN_UVA + 8 * j, 8, write);
  }

  lemma ListLoad(c: Cpu, m0: seq<Byte>, kva: nat, r: nat, op: Operand, j: nat, len: nat)
    requires InUser(c, m0, kva) && j <= 1 + PATTERN_MAX && r < 16 && c.rip + len < TWO64
    requires op.Memory? && Address(c, op) == PATTERN_UVA + 8 * j
    ensures LAYOUT_END <= |c.mem|
    ensures Execute(c, Load(true, r, op), len) ==
      Next(c.(regs := c.regs[r := ListValue(c.mem, j)], rip := c.rip + len))
    ensures Execute(c, Compare(r, op), len) ==
      Next(SetCarry(c, c.regs[r] < ListValue(c.mem, j)).(rip := c.rip + len))
    ensures Execute(c, Increment(op), len) ==
      Next(c.(mem := Patch(c.mem, PATTERN_PA + 8 * j, ToLE((ListValue(c.mem, j) + 1) % TWO64, 8)), rip := c.rip + len))
  {
    hide Reach;
    hide TablesHold;
    hide InUser;
    hide Address;
    hide ReadLE;
    hide ToLE;
    hide Patch;
    ListReach(c, m0, kva, j, false);
    ListReach(c, m0, kva, j, true);
  }

  // The routine up to its branch: %rsi the list, %rcx the count, carry set
  // exactly while addresses are left.
  function Counted(c: Cpu, done: nat, total: nat): Cpu
    requires done <= PATTERN_MAX
  {
    SetCarry(c, done < total).(regs := c.regs[RSI := PATTERN_UVA][RCX := done], rip := ENTRY + 17)
  }

  lemma PatternHead(c: Cpu, m0: seq<Byte>, kva: nat, vas: seq<U64>, done: nat, k: nat)
    requires InUser(c, m0, kva) && c.rip == ENTRY && ListAt(c.mem, done, vas)
    requires Listed(m0, O_UCODE + UCODE_PATTERN, PatternListing)
    ensures var c' := Counted(c, done, |vas|);
      Run(c, k + 3) == Run(c', k) && InUser(c', m0, kva)
        && Listed(m0, O_UCODE + UCODE_PATTERN + 17, PatternListing[3..])
  {
    hide Run;
    hide Reach;
    hide TablesHold;
    hide DecodesTo;
    hide Listed;
    hide Movabs;
    hide FromLE;
    hide InUser;
    hide Execute;
    hide Address;
    hide ReadLE;
    var l, o := PatternListing, UCODE_PATTERN;
    assert PATTERN_MAX * 8 + 8 == 104;
    DecodeMovabs(RSI, PATTERN_UVA);
    DecodeCountdown();
    DecodeIndexed();
    var c1 := c.(regs := c.regs[RSI := PATTERN_UVA], rip := ENTRY + 10);
    Moved(c, m0, kva, RSI, PATTERN_UVA);
    Advance(c, c1, m0, kva, o, l, MovImm(RSI, PATTERN_UVA), k + 2);
    AddressIs(c1, RSI, PATTERN_UVA, 0);
    ListLoad(c1, m0, kva, RCX, Memory(RSI, NoIndex, 0), 0, 3);
    var c2 := c1.(regs := c1.regs[RCX := done], rip := ENTRY + 13);
    Advance(c1, c2, m0, kva, o + 10, l[1..], Load(true, RCX, Memory(RSI, NoIndex, 0)), k + 1);
    assert l[1..][1..] == l[2..] && l[2..][1..] == l[3..];
    Same(c1, c2, m0, kva);
    AddressIs(c2, RSI, PATTERN_UVA, 104);
    ListLoad(c2, m0, kva, RCX, Memory(RSI, NoIndex, 104), 13, 4);
    var c3 := SetCarry(c2, done < |vas|).(rip := ENTRY + 17);
    Advance(c2, c3, m0, kva, o + 13, l[2..], Compare(RCX, Memory(RSI, NoIndex, 104)), k);
    Same(c2, c3, m0, kva);
  }

  // Registers, flags and rip are no part of being in user mode.
  lemma Same(c: Cpu, c': Cpu, m0: seq<Byte>, kva: nat)
    requires InUser(c, m0, kva) && c'.mem == c.mem && c'.user == c.user && c'.cr3 == c.cr3
    ensures InUser(c', m0, kva)
  {
  }

  lemma Moved(c: Cpu, m0: seq<Byte>, kva: nat, r: nat, v: U64)
    requires InUser(c, m0, kva) && r < 16 && c.rip + 10 < TWO64
    ensures Execute(c, MovImm(r, v), 10) == Next(c.(regs := c.regs[r := v], rip := c.rip + 10))
    ensures InUser(c.(regs := c.regs[r := v], rip := c.rip + 10), m0, kva)
  {
  }

  // While addresses are left, a round uses up the next one and then reads it.
  lemma PatternReads(c: Cpu, m0: seq<Byte>, kva: nat, vas: seq<U64>, done: nat, k: nat)
    requires InUser(c, m0, kva) && c.rip == ENTRY && ListAt(c.mem, done, vas) && done < |vas| && k >= 8
    requires Listed(m0, O_UCODE + UCODE_PATTERN, PatternListing)
    ensures var r := Run(c, k);
      && r.Stop? && r.e == ReadVerdict(vas[done])
      && r.c.mem == Patch(c.mem, PATTERN_PA, ToLE(done + 1, 8)) && r.c.cr3 == MAIN
  {
    hide ReadVerdict;
    hide SetCarry;
    hide Movabs;
    hide Run;
    hide TablesHold;
    hide DecodesTo;
    hide Listed;
    hide InUser;
    hide Execute;
    hide Address;
    hide ReadLE;
    hide Patch;
    hide ToLE;
    var l, o := PatternListing, UCODE_PATTERN;
    PatternCounts(c, m0, kva, vas, done, k - 5);
    var c5 := CountedOff(c, done, |vas|);
    DecodeIndexed();
    IndexedAddress(c5, done);
    ListLoad(c5, m0, kva, RDX, Memory(RSI, Scaled(RCX, 8), 8), 1 + done, 5);
    var c6 := c5.(regs := c5.regs[RDX := vas[done]], rip := ENTRY + 27);
    Advance(c5, c6, m0, kva, o + 22, l[5..], Load(true, RDX, Memory(RSI, Scaled(RCX, 8), 8)), k - 6);
    assert l[5..][1..] == l[6..];
    Same(c5, c6, m0, kva);
    ReadThenTrap(c6, m0, kva, l[6..], vas[done], k - 6);
  }

  // The routine past its increment.
  function CountedOff(c: Cpu, done: nat, total: nat): Cpu
    requires done < PATTERN_MAX && LAYOUT_END <= |c.mem|
  {
    Counted(c, done, total).(mem := Patch(c.mem, PATTERN_PA, ToLE(done + 1, 8)), rip := ENTRY + 22)
  }

  lemma PatternCounts(c: Cpu, m0: seq<Byte>, kva: nat, vas: seq<U64>, done: nat, k: nat)
    requires InUser(c, m0, kva) && c.rip == ENTRY && ListAt(c.mem, done, vas) && done < |vas|
    requires Listed(m0, O_UCODE + UCODE_PATTERN, PatternListing)
    ensures var c' := CountedOff(c, done, |vas|);
      && Run(c, k + 5) == Run(c', k) && InUser(c', m0, kva) && ListAt(c'.mem, done + 1, vas)
      && Listed(m0, O_UCODE + UCODE_PATTERN + 22, PatternListing[5..])
  {
    hide Run;
    hide TablesHold;
    hide DecodesTo;
    hide Listed;
    hide InUser;
    hide Execute;
    hide Address;
    hide ReadLE;
    hide Patch;
    hide ToLE;
    var l, o := PatternListing, UCODE_PATTERN;
    DecodeCountdown();
    PatternHead(c, m0, kva, vas, done, k + 2);
    var c3 := Counted(c, done, |vas|);
    var c4 := c3.(rip := ENTRY + 19);
    Branch(c3);
    Advance(c3, c4, m0, kva, o + 17, l[3..], JumpAboveEqual(12), k + 1);
    assert l[3..][1..] == l[4..] && l[4..][1..] == l[5..];
    Same(c3, c4, m0, kva);
    AddressIs(c4, RSI, PATTERN_UVA, 0);
    ListLoad(c4, m0, kva, RCX, Memory(RSI, NoIndex, 0), 0, 3);
    var c5 := CountedOff(c, done, |vas|);
    Advance(c4, c5, m0, kva, o + 19, l[4..], Increment(Memory(RSI, NoIndex, 0)), k);
    PatchKeepsUser(c4, m0, kva, PATTERN_PA, ToLE(done + 1, 8));
    Same(c4.(mem := c5.mem), c5, m0, kva);
    CountWritten(c.mem, done, vas);
  }

  lemma Branch(c: Cpu)
    requires c.rip == ENTRY + 17
    ensures Execute(c, JumpAboveEqual(12), 2) == Next(c.(rip := if Carry(c) then ENTRY + 19 else ENTRY + 31))
  {
  }

  lemma IndexedAddress(c: Cpu, done: nat)
    requires c.regs[RSI] == PATTERN_UVA && c.regs[RCX] == done && done <= PATTERN_MAX
    ensures Address(c, Memory(RSI, Scaled(RCX, 8), 8)) == PATTERN_UVA + 8 * (1 + done)
  {
  }

  // Counting one address off leaves the rest of the list.
  lemma CountWritten(m: seq<Byte>, done: nat, vas: seq<U64>)
    requires ListAt(m, done, vas) && done < |vas|
    ensures ListAt(Patch(m, PATTERN_PA, ToLE(done + 1, 8)), done + 1, vas)
  {
    hide Patch;
    hide ToLE;
    hide ReadLE;
    forall j: nat | j <= 1 + PATTERN_MAX
      ensures ListValue(Patch(m, PATTERN_PA, ToLE(done + 1, 8)), j) == if j == 0 then done + 1 else ListValue(m, j)
    {
      CountWord(m, done, j);
    }
  }

  lemma CountWord(m: seq<Byte>, done: nat, j: nat)
    requires LAYOUT_END <= |m| && j <= 1 + PATTERN_MAX && done < PATTERN_MAX
    ensures ListValue(Patch(m, PATTERN_PA, ToLE(done + 1, 8)), j) == if j == 0 then done + 1 else ListValue(m, j)
  {
    assert PATTERN_PA == 8 * (PATTERN_PA / 8);
    PatchWord(m, PATTERN_PA / 8, done + 1, PATTERN_PA / 8 + j);
  }

  // The read itself, and the ud2 behind it.
  lemma ReadThenTrap(c: Cpu, m0: seq<Byte>, kva: nat, l: Listing, va: U64, k: nat)
    requires InUser(c, m0, kva) && c.rip == ENTRY + 27 && c.regs[RDX] == va && k >= 2
    requires |l| >= 2 && l[0] == [0x8a, 0x02] && l[1] == [0x0f, 0x0b] && Listed(m0, O_UCODE + UCODE_PATTERN + 27, l)
    ensures var r := Run(c, k); r.Stop? && r.e == ReadVerdict(va) && r.c.mem == c.mem && r.c.cr3 == MAIN
  {
    hide Reach;
    hide TablesHold;
    hide DecodesTo;
    hide Step;
    hide Listed;
    DecodePointer();
    DecodeRest();
    UserFacts(c, m0, kva);
    UserStep(c, m0, kva, UCODE_PATTERN + 27, l, LoadByte(RAX, Memory(RDX, NoIndex, 0)));
    AddressIs(c, RDX, va, 0);
    if Canonical(va) {
      UserReaches(c, m0, kva, va, 1, false);
    } else {
      assert Reach(c, va, 1, false) == NonCanonical by { NotCanonical(c, va); }
    }
    if UVA_BASE <= va < UVA_MMIO {
      var off := O_UCODE + (va - UVA_BASE);
      var c' := c.(regs := c.regs[RAX := c.regs[RAX] - c.regs[RAX] % 256 + c.mem[off]], rip := ENTRY + 29);
      assert Step(c) == Next(c');
      Same(c, c', m0, kva);
      ListedTail(m0, O_UCODE + UCODE_PATTERN + 27, l);
      UserStep(c', m0, kva, UCODE_PATTERN + 29, l[1..], Undefined);
      assert Run(c, k) == Run(c', k - 1);
    }
  }

  lemma NotCanonical(c: Cpu, va: U64)
    requires !Canonical(va)
    ensures Reach(c, va, 1, false) == NonCanonical
  {
  }

  // With the list used up the round reports its length.
  lemma PatternReports(c: Cpu, m0: seq<Byte>, kva: nat, vas: seq<U64>, k: nat)
    requires InUser(c, m0, kva) && c.rip == ENTRY && ListAt(c.mem, |vas|, vas) && k >= 6
    requires Listed(m0, O_UCODE + UCODE_PATTERN, PatternListing)
    ensures var r := Run(c, k);
      r.Stop? && r.e == MmioWrite(MMIO_REPORT, |vas|, 4) && r.c.mem == c.mem
  {
    hide Run;
    hide TablesHold;
    hide DecodesTo;
    hide Listed;
    hide InUser;
    hide Execute;
    hide Movabs;
    var l, o := PatternListing, UCODE_PATTERN;
    DecodeCountdown();
    DecodeMovabs(RDX, UVA_MMIO);
    PatternHead(c, m0, kva, vas, |vas|, k - 3);
    var c3 := Counted(c, |vas|, |vas|);
    var c4 := c3.(rip := ENTRY + 31);
    Branch(c3);
    Advance(c3, c4, m0, kva, o + 17, l[3..], JumpAboveEqual(12), k - 4);
    Same(c3, c4, m0, kva);
    ReportListed(m0);
    Moved(c4, m0, kva, RDX, UVA_MMIO);
    var c5 := c4.(regs := c4.regs[RDX := UVA_MMIO], rip := ENTRY + 41);
    Advance(c4, c5, m0, kva, o + 31, l[8..], MovImm(RDX, UVA_MMIO), k - 5);
    assert l[8..][1..] == l[9..];
    ReportWrite(c5, m0, kva, l[9..], |vas|, k - 5);
  }

  // The branch lands on an instruction: the ninth of the routine.
  lemma ReportListed(m: seq<Byte>)
    requires Listed(m, O_UCODE + UCODE_PATTERN, PatternListing)
    ensures Listed(m, O_UCODE + UCODE_PATTERN + 31, PatternListing[8..])
  {
    hide Movabs;
    hide Listed;
    hide DecodesTo;
    var l, o := PatternListing, O_UCODE + UCODE_PATTERN;
    DecodeMovabs(RSI, PATTERN_UVA);
    assert l[1..][1..] == l[2..] && l[2..][1..] == l[3..] && l[3..][1..] == l[4..];
    ListedTail(m, o, l);
    ListedTail(m, o + 10, l[1..]);
    ListedTail(m, o + 13, l[2..]);
    ListedTail(m, o + 17, l[3..]);
    ReportListedFrom(m, o + 19, l[4..]);
    assert l[4..][4..] == l[8..];
  }

  lemma ReportListedFrom(m: seq<Byte>, o: nat, l: Listing)
    requires |l| > 4 && |l[0]| == 3 && |l[1]| == 5 && |l[2]| == 2 && |l[3]| == 2 && Listed(m, o, l)
    ensures Listed(m, o + 12, l[4..])
  {
    hide Listed;
    assert l[1..][1..] == l[2..] && l[2..][1..] == l[3..] && l[3..][1..] == l[4..];
    ListedTail(m, o, l);
    ListedTail(m, o + 3, l[1..]);
    ListedTail(m, o + 8, l[2..]);
    ListedTail(m, o + 10, l[3..]);
  }

  lemma ReportWrite(c: Cpu, m0: seq<Byte>, kva: nat, l: Listing, n: nat, k: nat)
    requires InUser(c, m0, kva) && c.rip == ENTRY + 41 && c.regs[RDX] == UVA_MMIO && c.regs[RCX] == n
      && n <= PATTERN_MAX
    requires l != [] && l[0] == [0x89, 0x0a] && Listed(m0, O_UCODE + UCODE_PATTERN + 41, l) && k >= 1
    ensures Run(c, k) == Stop(MmioWrite(MMIO_REPORT, n, 4), c)
  {
    hide Reach;
    hide TablesHold;
    hide DecodesTo;
    hide Step;
    hide Listed;
    DecodePointer();
    UserStep(c, m0, kva, UCODE_PATTERN + 41, l, Store(false, RCX, Memory(RDX, NoIndex, 0)));
    AddressIs(c, RDX, UVA_MMIO, 0);
    UserReaches(c, m0, kva, UVA_MMIO, 4, true);
  }

  // --- the whole rule -----------------------------------------------------

  const STEPS: nat := 16

  // What the hypervisor leaves when it delivers a #PF from user mode: the
  // whole PVCS, the registers and the flags are its own.
  datatype Delivery = Delivery(pvcs: seq<Byte>, regs: Regs, rflags: U64)

  // The event entry is the plain supervisor code (main.go:846).
  function Deliver(c: Cpu, d: Delivery, kva: nat): Cpu
    requires Admissible(kva) && |d.pvcs| == PVCS_SIZE
  {
    Cpu(if O_PVCS + PVCS_SIZE <= |c.mem| then Patch(c.mem, O_PVCS, d.pvcs) else c.mem,
        d.regs, kva + O_SCODE, d.rflags, c.cr3, false)
  }

  // The return-to-user SYSCALL, served from the PVCS at O_PVCS.
  function Returned(c: Cpu): Cpu {
    if |c.mem| < LAYOUT_END then c else
    c.(user := true,
       rip := ReadLE(c.mem, O_PVCS + PVCS_RIP, 8),
       rflags := ReadLE(c.mem, O_PVCS + PVCS_EFLAGS, 4),
       regs := c.regs[RCX := ReadLE(c.mem, O_PVCS + 96, 8)][11 := ReadLE(c.mem, O_PVCS + 104, 8)])
  }

  // User mode run until it stops; a page fault goes to the supervisor code
  // and, once that asks for it, back to user mode.  The result is the faults
  // taken and what ended the run.
  function Drive(c: Cpu, ds: seq<Delivery>, kva: nat): (seq<U64>, Outcome)
    requires Admissible(kva) && forall d <- ds :: |d.pvcs| == PVCS_SIZE
    decreases |ds|
  {
    var r := Run(c, STEPS);
    if ds == [] || !r.Stop? || !r.e.FaultExit? then ([], r) else
    var s := Run(Deliver(r.c, ds[0], kva), STEPS);
    if !s.Stop? || s.e != SyscallExit || s.c.rip != kva + O_SCODE + 0x2c then ([r.e.va], s) else
    var (faults, end) := Drive(Returned(s.c), ds[1..], kva);
    ([r.e.va] + faults, end)
  }

  // Memory set up as testDirectPFRule sets it up, done addresses used up.
  ghost predicate RuleReady(m: seq<Byte>, kva: nat, vas: seq<U64>, done: nat) {
    && Loaded(m, kva, false) && ListAt(m, done, vas)
    && CtrlWord(m, CTRL_RIP) == ENTRY && CtrlWord(m, CTRL_PVCS) == kva + O_PVCS
  }

  // Tables, control page, supervisor and user code.
  ghost predicate SameProgram(m: seq<Byte>, m': seq<Byte>) {
    && |m'| == |m| >= LAYOUT_END
    && m'[..O_PVCS] == m[..O_PVCS] && m'[O_CTRL..O_USTACK] == m[O_CTRL..O_USTACK]
    && m'[O_PML4_ALT..O_PVCS2] == m[O_PML4_ALT..O_PVCS2]
  }

  lemma ProgramKept(m: seq<Byte>, m': seq<Byte>, kva: nat)
    requires Loaded(m, kva, false) && SameProgram(m, m')
    ensures Loaded(m', kva, false)
    ensures CtrlWord(m', CTRL_RIP) == CtrlWord(m, CTRL_RIP) && CtrlWord(m', CTRL_PVCS) == CtrlWord(m, CTRL_PVCS)
  {
    hide TablesHold;
    hide FromLE;
    TablesFrame(m, m', kva);
    LoadedSize(m, kva, false);
    RoutineKept(m, m', O_CTRL, O_USTACK, O_SCODE, SmodListing(kva), 0x30);
    RoutineKept(m, m', O_CTRL, O_USTACK, O_UCODE + UCODE_FAULT, FaultListing, 14);
    RoutineKept(m, m', O_CTRL, O_USTACK, O_UCODE + UCODE_PATTERN, PatternListing, 0x2f);
    SubRange(m, m', O_CTRL, O_USTACK, O_CTRL + CTRL_RIP, O_CTRL + CTRL_RIP + 8);
    SubRange(m, m', O_CTRL, O_USTACK, O_CTRL + CTRL_PVCS, O_CTRL + CTRL_PVCS + 8);
  }

  // A write that stays inside the PVCS.
  ghost predicate PvcsOnly(m: seq<Byte>, m': seq<Byte>) {
    && |m'| == |m| >= LAYOUT_END
    && forall i | 0 <= i < |m| && !(O_PVCS <= i < O_PVCS + PVCS_SIZE) :: m'[i] == m[i]
  }

  lemma PvcsOnlyKept(m: seq<Byte>, m': seq<Byte>, kva: nat, vas: seq<U64>, done: nat)
    requires RuleReady(m, kva, vas, done) && PvcsOnly(m, m')
    ensures RuleReady(m', kva, vas, done)
  {
    hide Loaded;
    hide FromLE;
    assert m'[..O_PVCS] == m[..O_PVCS];
    assert m'[O_CTRL..O_PML4_ALT] == m[O_CTRL..O_PML4_ALT];
    SubRange(m, m', O_CTRL, O_PML4_ALT, O_CTRL, O_USTACK);
    ProgramKept(m, m', kva);
    forall j: nat | j <= 1 + PATTERN_MAX ensures ListValue(m', j) == ListValue(m, j) {
      SubRange(m, m', O_CTRL, O_PML4_ALT, PATTERN_PA + 8 * j, PATTERN_PA + 8 * j + 8);
    }
  }

  // Fault, delivery, supervisor code, return: the machine is back at the
  // routine's entry with one more address used up.
  lemma Round(c: Cpu, kva: nat, vas: seq<U64>, done: nat, d: Delivery)
    requires c.user && c.cr3 == MAIN && c.rip == ENTRY && RuleReady(c.mem, kva, vas, done)
    requires done < |vas| && ReadVerdict(vas[done]) == FaultExit(vas[done]) && |d.pvcs| == PVCS_SIZE
    ensures Admissible(kva)
    ensures var r := Run(c, STEPS);
      && r.Stop? && r.e == FaultExit(vas[done])
      && var s := Run(Deliver(r.c, d, kva), STEPS);
      && s.Stop? && s.e == SyscallExit && s.c.rip == kva + O_SCODE + 0x2c
      && var c' := Returned(s.c);
      && c'.user && c'.cr3 == MAIN && c'.rip == ENTRY && c'.regs[RSP] == UVA_STACK_TOP
      && RuleReady(c'.mem, kva, vas, done + 1)
  {
    hide Run;
    hide Loaded;
    hide TablesHold;
    hide Patch;
    hide FromLE;
    LoadedSize(c.mem, kva, false);
    EnterUser(c, kva);
    PatternReads(c, c.mem, kva, vas, done, STEPS);
    var r := Run(c, STEPS);
    CountKept(c.mem, kva, vas, done);
    var e := Deliver(r.c, d, kva);
    Delivered(r.c.mem, d.pvcs);
    PvcsOnlyKept(r.c.mem, e.mem, kva, vas, done + 1);
    SmodReturns(e, kva, O_PVCS, STEPS);
    var s := Run(e, STEPS).c;
    PvcsOnlyKept(e.mem, s.mem, kva, vas, done + 1);
    assert ReadLE(s.mem, O_PVCS + PVCS_RIP, 8) == CtrlWord(e.mem, CTRL_RIP);
  }

  lemma EnterUser(c: Cpu, kva: nat)
    requires Loaded(c.mem, kva, false) && c.user && c.cr3 == MAIN
    ensures InUser(c, c.mem, kva) && Listed(c.mem, O_UCODE + UCODE_PATTERN, PatternListing)
  {
    CodeIsListed(c.mem, O_UCODE + UCODE_PATTERN, PatternListing);
  }

  lemma CountKept(m: seq<Byte>, kva: nat, vas: seq<U64>, done: nat)
    requires RuleReady(m, kva, vas, done) && done < |vas|
    ensures RuleReady(Patch(m, PATTERN_PA, ToLE(done + 1, 8)), kva, vas, done + 1)
  {
    hide Loaded;
    hide FromLE;
    hide ToLE;
    hide Patch;
    var bs := ToLE(done + 1, 8);
    PatchDisjoint(m, PATTERN_PA, bs, 0, O_PVCS);
    PatchDisjoint(m, PATTERN_PA, bs, O_CTRL, O_USTACK);
    PatchDisjoint(m, PATTERN_PA, bs, O_PML4_ALT, O_PVCS2);
    ProgramKept(m, Patch(m, PATTERN_PA, bs), kva);
    CountWritten(m, done, vas);
  }

  lemma Delivered(m: seq<Byte>, pvcs: seq<Byte>)
    requires LAYOUT_END <= |m| && |pvcs| == PVCS_SIZE
    ensures PvcsOnly(m, Patch(m, O_PVCS, pvcs))
  {
    PatchRead(m, O_PVCS, pvcs);
  }

  // The first address from i on that user mode does not fault on.
  function FirstReadable(vas: seq<U64>, i: nat): (n: nat)
    requires i <= |vas|
    ensures i <= n <= |vas|
    ensures forall j | i <= j < n :: ReadVerdict(vas[j]) == FaultExit(vas[j])
    ensures n < |vas| ==> ReadVerdict(vas[n]) != FaultExit(vas[n])
    decreases |vas| - i
  {
    if i < |vas| && ReadVerdict(vas[i]) == FaultExit(vas[i]) then FirstReadable(vas, i + 1) else i
  }

  // For every list of up to PATTERN_MAX 64-bit words, whatever the hypervisor
  // leaves at each delivery: the faults are exactly the list, in order, up to
  // the first word user mode does not fault on; that one ends the run, and a
  // list without one ends with its length reported.
  lemma {:induction false} FaultsFollowTheList(c: Cpu, kva: nat, vas: seq<U64>, done: nat, ds: seq<Delivery>)
    requires c.user && c.cr3 == MAIN && c.rip == ENTRY && RuleReady(c.mem, kva, vas, done)
    requires |ds| >= |vas| - done && forall d <- ds :: |d.pvcs| == PVCS_SIZE
    ensures Admissible(kva)
    ensures var n := FirstReadable(vas, done);
      var (faults, end) := Drive(c, ds, kva);
      && faults == vas[done..n] && end.Stop?
      && end.e == if n == |vas| then MmioWrite(MMIO_REPORT, |vas|, 4) else ReadVerdict(vas[n])
    decreases |vas| - done
  {
    hide InUser;
    hide Listed;
    hide ListAt;
    hide Returned;
    hide Patch;
    hide Run;
    hide Loaded;
    hide ListValue;
    hide ReadVerdict;
    LoadedSize(c.mem, kva, false);
    EnterUser(c, kva);
    ListBound(c.mem, done, vas);
    if done == |vas| {
      PatternReports(c, c.mem, kva, vas, STEPS);
    } else {
      PatternReads(c, c.mem, kva, vas, done, STEPS);
      var verdict := ReadVerdict(vas[done]);
      assert verdict.FaultExit? ==> verdict.va == vas[done] by { VerdictIs(vas[done]); }
      if verdict == FaultExit(vas[done]) {
        Round(c, kva, vas, done, ds[0]);
        var s := Run(Deliver(Run(c, STEPS).c, ds[0], kva), STEPS);
        FaultsFollowTheList(Returned(s.c), kva, vas, done + 1, ds[1..]);
      }
    }
  }

  lemma ListBound(m: seq<Byte>, done: nat, vas: seq<U64>)
    requires ListAt(m, done, vas)
    ensures done <= |vas| <= PATTERN_MAX
  {
  }

  lemma VerdictIs(va: U64)
    ensures ReadVerdict(va).FaultExit? <==> Canonical(va) && !(UVA_BASE <= va < UVA_BASE + 0x3000)
    ensures ReadVerdict(va).FaultExit? ==> ReadVerdict(va).va == va
    ensures !ReadVerdict(va).MmioWrite?
  {
  }

  // The rule the test rests on holds of a list exactly when user mode can
  // reach none of its addresses and all of them are canonical.
  lemma RuleHolds(c: Cpu, kva: nat, vas: seq<U64>, ds: seq<Delivery>)
    requires c.user && c.cr3 == MAIN && c.rip == ENTRY && RuleReady(c.mem, kva, vas, 0)
    requires |ds| >= |vas| && forall d <- ds :: |d.pvcs| == PVCS_SIZE
    ensures Admissible(kva)
    ensures var (faults, end) := Drive(c, ds, kva);
      (faults == vas && end.Stop? && end.e == MmioWrite(MMIO_REPORT, |vas|, 4))
      <==> forall va <- vas :: Canonical(va) && !(UVA_BASE <= va < UVA_BASE + 0x3000)
  {
    hide Drive;
    hide RuleReady;
    hide ReadVerdict;
    FaultsFollowTheList(c, kva, vas, 0, ds);
    var n := FirstReadable(vas, 0);
    assert vas[0..|vas|] == vas;
    forall i | 0 <= i < |vas|
      ensures ReadVerdict(vas[i]) == FaultExit(vas[i]) <==>
        Canonical(vas[i]) && !(UVA_BASE <= vas[i] < UVA_BASE + 0x3000)
    {
      VerdictIs(vas[i]);
    }
    if n < |vas| {
      VerdictIs(vas[n]);
      assert vas[n] in vas;
    }
  }
}
