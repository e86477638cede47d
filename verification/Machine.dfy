// A fetch/decode/execute machine for the instruction forms guest.go emits, in the encodings of the Intel SDM, volume
// 2. SYSCALL, faults and device accesses leave the guest: what happens then is the hypervisor's.
module Machine {
  import opened Bytes
  import opened GuestLayout
  import opened PageTables

  const RAX: nat := 0
  const RCX: nat := 1
  const RDX: nat := 2
  const RBX: nat := 3
  const RSP: nat := 4
  const RSI: nat := 6
  const RDI: nat := 7
  const R10: nat := 10

  type Regs = r: seq<U64> | |r| == 16 witness seq(16, _ => 0)

  datatype Cpu = Cpu(mem: seq<Byte>, regs: Regs, rip: U64, rflags: U64, cr3: nat, user: bool)

  // --- instructions -------------------------------------------------------

  datatype Index = NoIndex | Scaled(reg: nat, scale: nat)
  datatype Operand = Register(n: nat) | Memory(base: nat, index: Index, disp: int)

  datatype Instr =
    | MovImm(reg: nat, imm: U64)                     // movabs $imm,%reg
    | Load(wide: bool, reg: nat, src: Operand)       // mov mem,%reg (64 or 32 bit)
    | Store(wide: bool, reg: nat, dst: Operand)      // mov %reg,mem
    | LoadByte(reg: nat, src: Operand)               // mov mem,%reg8
    | Zero(reg: nat)                                 // xor %reg,%reg
    | Compare(reg: nat, src: Operand)                // cmp mem,%reg
    | JumpAboveEqual(rel: int)                       // jae rel8
    | Increment(dst: Operand)                        // incq mem
    | Syscall
    | Undefined                                      // ud2

  datatype Decoded = Bad | Good(i: Instr, len: nat)

  datatype Rex = Rex(w: bool, r: nat, x: nat, b: nat)

  function Signed8(b: Byte): int {
    if b < 0x80 then b else b - 0x100
  }

  datatype ModRM = NoModRM | ModRM(reg: nat, op: Operand, len: nat)

  // The ModRM byte at the head of bs with its SIB byte and 8-bit
  // displacement.  RIP-relative, 32-bit displacement and base-less forms are
  // not emitted and not decoded.
  function DecodeModRM(bs: seq<Byte>, rex: Rex): ModRM {
    if |bs| == 0 then NoModRM else
    var mod, reg, rm := bs[0] / 64, bs[0] / 8 % 8 + 8 * rex.r, bs[0] % 8;
    if mod == 3 then ModRM(reg, Register(rm + 8 * rex.b), 1)
    else if mod == 2 then NoModRM
    else if rm == 4 then
      if |bs| < 2 || (mod == 1 && |bs| < 3) || (mod == 0 && bs[1] % 8 == 5) then NoModRM else
      var ix := bs[1] / 8 % 8 + 8 * rex.x;
      var index := if ix == 4 then NoIndex else Scaled(ix, Power2(bs[1] / 64));
      ModRM(reg, Memory(bs[1] % 8 + 8 * rex.b, index, if mod == 1 then Signed8(bs[2]) else 0), 2 + mod)
    else if mod == 1 then
      if |bs| < 2 then NoModRM else ModRM(reg, Memory(rm + 8 * rex.b, NoIndex, Signed8(bs[1])), 2)
    else if rm == 5 then NoModRM
    else ModRM(reg, Memory(rm + 8 * rex.b, NoIndex, 0), 1)
  }

  function Power2(n: nat): nat {
    match n
    case 0 => 1
    case 1 => 2
    case 2 => 4
    case _ => 8
  }

  function Decode(bs: seq<Byte>): Decoded {
    if |bs| > 0 && 0x40 <= bs[0] < 0x50 then
      match DecodeOpcode(bs[1..], Rex(bs[0] / 8 % 2 == 1, bs[0] / 4 % 2, bs[0] / 2 % 2, bs[0] % 2))
      case Bad => Bad
      case Good(i, len) => Good(i, len + 1)
    else DecodeOpcode(bs, Rex(false, 0, 0, 0))
  }

  function DecodeOpcode(bs: seq<Byte>, rex: Rex): Decoded {
    if |bs| == 0 then Bad
    else if 0xb8 <= bs[0] < 0xc0 then
      if !rex.w || |bs| < 9 then Bad
      else Good(MovImm(bs[0] - 0xb8 + 8 * rex.b, ReadLE(bs, 1, 8)), 9)
    else if bs[0] == 0x0f then
      if |bs| < 2 then Bad
      else if bs[1] == 0x05 then Good(Syscall, 2)
      else if bs[1] == 0x0b then Good(Undefined, 2)
      else Bad
    else if bs[0] == 0x73 then
      if |bs| < 2 then Bad else Good(JumpAboveEqual(Signed8(bs[1])), 2)
    else
      match DecodeModRM(bs[1..], rex)
      case NoModRM => Bad
      case ModRM(reg, op, n) =>
        if bs[0] == 0x8b && op.Memory? then Good(Load(rex.w, reg, op), 1 + n)
        else if bs[0] == 0x89 && op.Memory? then Good(Store(rex.w, reg, op), 1 + n)
        else if bs[0] == 0x8a && op.Memory? && reg < 4 then Good(LoadByte(reg, op), 1 + n)
        else if bs[0] == 0x31 && op == Register(reg) && !rex.w then Good(Zero(reg), 1 + n)
        else if bs[0] == 0x3b && op.Memory? && rex.w then Good(Compare(reg, op), 1 + n)
        else if bs[0] == 0xff && bs[1] / 8 % 8 == 0 && op.Memory? && rex.w then Good(Increment(op), 1 + n)
        else Bad
  }

  function ReadLE(m: seq<Byte>, off: nat, n: nat): (v: U64)
    requires (n == 1 || n == 4 || n == 8) && off + n <= |m|
    ensures v == FromLE(m[off..off + n]) && v < Pow256(n)
  {
    WordSizes();
    FromLEBound(m[off..off + n]);
    FromLE(m[off..off + n])
  }

  // --- memory access ------------------------------------------------------

  datatype Access = Ram(off: nat) | Device(pa: nat) | PageFault | NonCanonical | Straddles

  predicate Canonical(va: U64) {
    va < 0x8000_0000_0000 || 0xffff_8000_0000_0000 <= va
  }

  // n bytes at va.  An access across a page boundary is not modelled.
  function Reach(c: Cpu, va: U64, n: nat, write: bool): Access {
    if !Canonical(va) then NonCanonical
    else if va % 0x1000 + n > 0x1000 then Straddles
    else
      match Walk(c.mem, c.cr3, va % 0x1_0000_0000_0000)
      case NotPresent => PageFault
      case Mapped(pa, user, w) =>
        if (c.user && !user) || (write && !w) then PageFault
        else if GUEST_PHYS_BASE <= pa && pa + n <= GUEST_PHYS_BASE + |c.mem| then Ram(pa - GUEST_PHYS_BASE)
        else Device(pa)
  }

  function Address(c: Cpu, op: Operand): U64
    requires op.Memory?
  {
    var base := if op.base < 16 then c.regs[op.base] else 0;
    var index := if op.index.Scaled? && op.index.reg < 16 then c.regs[op.index.reg] * op.index.scale else 0;
    (base + index + op.disp) % TWO64
  }

  // --- execution ----------------------------------------------------------

  datatype Exit =
    | SyscallExit
    | FaultExit(va: U64)
    | ProtectionExit
    | UndefinedExit
    | MmioWrite(pa: nat, data: U64, len: nat)
    | MmioRead(pa: nat)
    | Unmodelled

  // An exit leaves rip at the instruction that caused it.
  datatype Outcome = Next(c: Cpu) | Stop(e: Exit, c: Cpu)

  function Set(c: Cpu, r: nat, v: U64, len: nat): Outcome {
    if r < 16 then Next(c.(regs := c.regs[r := v], rip := (c.rip + len) % TWO64)) else Stop(Unmodelled, c)
  }

  function Refused(c: Cpu, va: U64, a: Access): Outcome
    requires !a.Ram? && !a.Device?
  {
    match a
    case PageFault => Stop(FaultExit(va), c)
    case NonCanonical => Stop(ProtectionExit, c)
    case Straddles => Stop(Unmodelled, c)
  }

  function Carry(c: Cpu): bool { c.rflags % 2 == 1 }

  // CF is set as the instruction sets it; the other arithmetic flags, which
  // the code never reads, are left alone.
  function SetCarry(c: Cpu, cf: bool): Cpu {
    c.(rflags := c.rflags - c.rflags % 2 + if cf then 1 else 0)
  }

  function Execute(c: Cpu, i: Instr, len: nat): Outcome {
    match i
    case MovImm(r, v) => Set(c, r, v, len)
    case Load(wide, r, op) => ExecLoad(c, r, op, if wide then 8 else 4, len)
    case Store(wide, r, op) => ExecStore(c, r, op, if wide then 8 else 4, len)
    case LoadByte(r, op) =>
      if !op.Memory? || r >= 16 then Stop(Unmodelled, c) else
      var va := Address(c, op);
      (match Reach(c, va, 1, false)
       case Ram(off) =>
         if off >= |c.mem| then Stop(Unmodelled, c)
         else Set(c, r, c.regs[r] - c.regs[r] % 256 + c.mem[off], len)
       case Device(pa) => Stop(MmioRead(pa), c)
       case a => Refused(c, va, a))
    case Zero(r) => Set(SetCarry(c, false), r, 0, len)
    case Compare(r, op) => ExecCompare(c, r, op, len)
    case JumpAboveEqual(rel) =>
      Next(c.(rip := (c.rip + len + if Carry(c) then 0 else rel) % TWO64))
    case Increment(op) => ExecIncrement(c, op, len)
    case Syscall => Stop(SyscallExit, c)
    case Undefined => Stop(UndefinedExit, c)
  }

  function ExecLoad(c: Cpu, r: nat, op: Operand, n: nat, len: nat): Outcome
    requires n == 4 || n == 8
  {
    if !op.Memory? then Stop(Unmodelled, c) else
    var va := Address(c, op);
    match Reach(c, va, n, false)
    case Ram(off) => if off + n > |c.mem| then Stop(Unmodelled, c) else Set(c, r, ReadLE(c.mem, off, n), len)
    case Device(pa) => Stop(MmioRead(pa), c)
    case a => Refused(c, va, a)
  }

  function ExecStore(c: Cpu, r: nat, op: Operand, n: nat, len: nat): Outcome
    requires n == 4 || n == 8
  {
    if !op.Memory? || r >= 16 then Stop(Unmodelled, c) else
    var va := Address(c, op);
    var v := if n == 8 then c.regs[r] else c.regs[r] % TWO32;
    match Reach(c, va, n, true)
    case Ram(off) =>
      if off + n > |c.mem| then Stop(Unmodelled, c)
      else Next(c.(mem := Patch(c.mem, off, ToLE(v, n)), rip := (c.rip + len) % TWO64))
    case Device(pa) => Stop(MmioWrite(pa, v, n), c)
    case a => Refused(c, va, a)
  }

  function ExecCompare(c: Cpu, r: nat, op: Operand, len: nat): Outcome {
    if !op.Memory? || r >= 16 then Stop(Unmodelled, c) else
    var va := Address(c, op);
    match Reach(c, va, 8, false)
    case Ram(off) =>
      if off + 8 > |c.mem| then Stop(Unmodelled, c)
      else Next(SetCarry(c, c.regs[r] < ReadLE(c.mem, off, 8)).(rip := (c.rip + len) % TWO64))
    case Device(pa) => Stop(MmioRead(pa), c)
    case a => Refused(c, va, a)
  }

  function ExecIncrement(c: Cpu, op: Operand, len: nat): Outcome {
    if !op.Memory? then Stop(Unmodelled, c) else
    var va := Address(c, op);
    match Reach(c, va, 8, true)
    case Ram(off) =>
      if off + 8 > |c.mem| then Stop(Unmodelled, c)
      else
        var v := (ReadLE(c.mem, off, 8) + 1) % TWO64;
        Next(c.(mem := Patch(c.mem, off, ToLE(v, 8)), rip := (c.rip + len) % TWO64))
    case Device(pa) => Stop(MmioRead(pa), c)
    case a => Refused(c, va, a)
  }

  // The bytes an instruction is decoded from: up to 15, within one page.
  function Window(c: Cpu, off: nat): seq<Byte> {
    var room := 0x1000 - c.rip % 0x1000;
    var n := if room < 15 then room else 15;
    if off + n <= |c.mem| then c.mem[off..off + n] else []
  }

  function Step(c: Cpu): Outcome {
    match Reach(c, c.rip, 1, false)
    case Ram(off) =>
      (match Decode(Window(c, off))
       case Bad => Stop(Unmodelled, c)
       case Good(i, len) => Execute(c, i, len))
    case Device(_) => Stop(Unmodelled, c)
    case a => Refused(c, c.rip, a)
  }

  // At most n steps, ending early at an exit.
  function Run(c: Cpu, n: nat): Outcome
    decreases n
  {
    if n == 0 then Next(c)
    else match Step(c)
      case Next(c') => Run(c', n - 1)
      case Stop(e, c') => Stop(e, c')
  }
}
