// The builders of guest.go: machine code and page tables written in place
// into the host mapping of guest memory.
module Guests {
  import opened Bytes
  import opened GuestLayout
  import opened PageTables
  import opened Machine
  import opened GuestCode
  import opened SmodRun
  import opened PatternRun

  // A cursor into one page of guest memory.  Everything emitted so far is
  // tracked as a listing: memory is what it was with the listing patched in.
  class AsmBuf {
    const mem: array<Byte>
    var pos: nat
    var va: nat
    ghost const before: seq<Byte>
    ghost const start: nat
    ghost var code: Listing

    ghost predicate Valid()
      reads this, mem
    {
      && |before| == mem.Length
      && start + |Flatten(code)| == pos <= mem.Length
      && mem[..] == Patch(before, start, Flatten(code))
    }

    constructor (mem: array<Byte>, pos: nat, va: nat)
      requires pos <= mem.Length
      ensures Valid() && this.mem == mem && this.pos == start == pos && this.va == va
      ensures code == [] && before == mem[..]
    {
      this.mem, this.pos, this.va := mem, pos, va;
      before, start, code := mem[..], pos, [];
    }

    // Running out of room panics in the original.
    method Emit(b: seq<Byte>)
      requires Valid() && pos + |b| <= mem.Length
      modifies this, mem
      ensures Valid() && code == old(code) + [b]
      ensures pos == old(pos) + |b| && va == old(va) + |b|
    {
      hide Flatten;
      hide Patch;
      FlattenAppend(code, b);
      PatchAppend(before, start, Flatten(code), b);
      ghost var was := mem[..];
      forall i | 0 <= i < |b| {
        mem[pos + i] := b[i];
      }
      PatchRead(was, pos, b);
      assert mem[..] == Patch(was, pos, b);
      pos, va, code := pos + |b|, va + |b|, code + [b];
    }

    method EmitMovabs(reg: nat, imm: U64)
      requires Valid() && pos + 10 <= mem.Length && reg < 8
      modifies this, mem
      ensures Valid() && code == old(code) + [Movabs(reg, imm)]
      ensures pos == old(pos) + 10 && va == old(va) + 10
    {
      Emit([0x48, 0xb8 + reg] + ToLE(imm, 8));
    }

    // One hypercall that loads the page table a word of the control page names.
    method EmitLoadPgtbl(ctrl: U64, ctrlOff: Byte)
      requires Valid() && pos + 28 <= mem.Length
      modifies this, mem
      ensures Valid() && code == old(code) + LoadPgtblListing(ctrl, ctrlOff)
      ensures pos == old(pos) + 28 && va == old(va) + 28
    {
      hide Flatten;
      hide Patch;
      hide Movabs;
      EmitMovabs(RSI, ctrl);
      EmitMovabs(RAX, PVM_HC_LOAD_PGTBL);
      Emit([0x31, 0xdb]);
      Emit([0x4c, 0x8b, 0x56, ctrlOff]);
      Emit([0x0f, 0x05]);
    }

    // The instructions both supervisor variants end in: the control page
    // into the PVCS, then the SYSCALL, at retu, that returns to user mode.
    method EmitCopy() returns (retu: nat)
      requires Valid() && pos + 24 <= mem.Length
      modifies this, mem
      ensures Valid() && code == old(code) + CopyListing
      ensures pos == old(pos) + 24 && va == old(va) + 24 && retu == va - 4
    {
      hide Flatten;
      hide Patch;
      ghost var was := code;
      Emit([0x48, 0x8b, 0x46, CTRL_RIP]);
      Emit([0x48, 0x89, 0x47, PVCS_RIP]);
      Emit([0x8b, 0x46, CTRL_EFLAGS]);
      Emit([0x89, 0x47, PVCS_EFLAGS]);
      Emit([0x8b, 0x46, CTRL_SEL]);
      Emit([0x89, 0x47, PVCS_USER_CS]);
      retu := va;
      Emit([0x0f, 0x05]);
      Emit([0x0f, 0x0b]);
      CopyChain(was);
    }
  }

  lemma CopyChain(was: Listing)
    ensures was + [[0x48, 0x8b, 0x46, CTRL_RIP]] + [[0x48, 0x89, 0x47, PVCS_RIP]] + [[0x8b, 0x46, CTRL_EFLAGS]]
      + [[0x89, 0x47, PVCS_EFLAGS]] + [[0x8b, 0x46, CTRL_SEL]] + [[0x89, 0x47, PVCS_USER_CS]]
      + [[0x0f, 0x05]] + [[0x0f, 0x0b]] == was + CopyListing
  {
  }

  lemma PgtblChain(kva: nat)
    requires Admissible(kva)
    ensures [] + LoadPgtblListing(kva + O_CTRL, CTRL_PGD1) + LoadPgtblListing(kva + O_CTRL, CTRL_PGD2)
      + [Movabs(RSP, UVA_STACK_TOP)] + [Movabs(RDI, kva + O_PVCS)] + [Movabs(RSI, kva + O_CTRL)]
      + CopyListing == PgtblListing(kva)
  {
  }

  lemma SmodChain(kva: nat)
    requires Admissible(kva)
    ensures [] + [Movabs(RSP, UVA_STACK_TOP)] + [Movabs(RSI, kva + O_CTRL)] + [[0x48, 0x8b, 0x7e, CTRL_PVCS]]
      + CopyListing == SmodListing(kva)
  {
  }

  lemma PatternChain()
    ensures [] + [Movabs(RSI, PATTERN_UVA)] + [[0x48, 0x8b, 0x0e]] + [[0x48, 0x3b, 0x4e, PATTERN_MAX * 8 + 8]]
      + [[0x73, 0x0c]] + [[0x48, 0xff, 0x06]] + [[0x48, 0x8b, 0x54, 0xce, 0x08]] + [[0x8a, 0x02]] + [[0x0f, 0x0b]]
      + [Movabs(RDX, UVA_MMIO)] + [[0x89, 0x0a]] + [[0x0f, 0x05]] + [[0x0f, 0x0b]] == PatternListing
  {
  }

  class Guest {
    var mem: array<Byte>
    var kva: nat
    var smodEntry: nat
    var retuRIP: nat
    var eventEntry: nat
    const pgtblVariant: bool

    constructor (pgtblVariant: bool)
      ensures this.pgtblVariant == pgtblVariant && fresh(mem)
    {
      this.pgtblVariant := pgtblVariant;
      mem := new Byte[0];
    }

    method BuildSmodCode()
      requires mem.Length >= LAYOUT_END && Admissible(kva)
      modifies mem, this`smodEntry, this`retuRIP
      ensures |Flatten(SmodListing(kva))| == 0x30
      ensures mem[..] == Patch(old(mem[..]), O_SCODE, Flatten(SmodListing(kva)))
      ensures smodEntry == kva + O_SCODE && retuRIP == kva + O_SCODE + 0x2c
    {
      hide Flatten;
      hide Patch;
      hide Movabs;
      var a := new AsmBuf(mem, O_SCODE, kva + O_SCODE);
      var ctrl := kva + O_CTRL;
      smodEntry := a.va;
      a.EmitMovabs(RSP, UVA_STACK_TOP);
      a.EmitMovabs(RSI, ctrl);
      a.Emit([0x48, 0x8b, 0x7e, CTRL_PVCS]);
      retuRIP := a.EmitCopy();
      SmodChain(kva);
    }

    method BuildPgtblSmodCode()
      requires mem.Length >= LAYOUT_END && Admissible(kva)
      modifies mem, this`smodEntry, this`retuRIP
      ensures |Flatten(PgtblListing(kva))| == 0x6e
      ensures mem[..] == Patch(old(mem[..]), O_SCODE + PGTBL_OFF, Flatten(PgtblListing(kva)))
      ensures smodEntry == kva + O_SCODE + 0x200 && retuRIP == kva + O_SCODE + 0x26a
    {
      hide Flatten;
      hide Patch;
      hide Movabs;
      var a := new AsmBuf(mem, O_SCODE + 0x200, kva + O_SCODE + 0x200);
      var pvcs, ctrl := kva + O_PVCS, kva + O_CTRL;
      smodEntry := a.va;
      a.EmitLoadPgtbl(ctrl, CTRL_PGD1);
      a.EmitLoadPgtbl(ctrl, CTRL_PGD2);
      a.EmitMovabs(RSP, UVA_STACK_TOP);
      a.EmitMovabs(RDI, pvcs);
      a.EmitMovabs(RSI, ctrl);
      retuRIP := a.EmitCopy();
      PgtblChain(kva);
    }

    method BuildUmodFaultCode()
      requires mem.Length >= LAYOUT_END
      modifies mem
      ensures |Flatten(FaultListing)| == 14
      ensures mem[..] == Patch(old(mem[..]), O_UCODE + UCODE_FAULT, Flatten(FaultListing))
    {
      hide Flatten;
      hide Patch;
      hide Movabs;
      var a := new AsmBuf(mem, O_UCODE + UCODE_FAULT, UVA_CODE + UCODE_FAULT);
      a.EmitMovabs(RDX, FAULT_VA + 0x123);
      a.Emit([0x8a, 0x02]);
      a.Emit([0x0f, 0x0b]);
      assert a.code == FaultListing;
    }

    method BuildUmodPatternCode()
      requires mem.Length >= LAYOUT_END
      modifies mem
      ensures |Flatten(PatternListing)| == 0x2f
      ensures mem[..] == Patch(old(mem[..]), O_UCODE + UCODE_PATTERN, Flatten(PatternListing))
    {
      hide Flatten;
      hide Patch;
      hide Movabs;
      var a := new AsmBuf(mem, O_UCODE + UCODE_PATTERN, UVA_CODE + UCODE_PATTERN);
      a.EmitMovabs(RSI, PATTERN_UVA);
      a.Emit([0x48, 0x8b, 0x0e]);
      a.Emit([0x48, 0x3b, 0x4e, PATTERN_MAX * 8 + 8]);
      a.Emit([0x73, 0x0c]);
      a.Emit([0x48, 0xff, 0x06]);
      a.Emit([0x48, 0x8b, 0x54, 0xce, 0x08]);
      a.Emit([0x8a, 0x02]);
      a.Emit([0x0f, 0x0b]);
      a.EmitMovabs(RDX, UVA_MMIO);
      a.Emit([0x89, 0x0a]);
      a.Emit([0x0f, 0x05]);
      a.Emit([0x0f, 0x0b]);
      PatternChain();
    }

    // --- page tables ------------------------------------------------------

    method PutPTE(table: nat, index: nat, v: U64)
      requires table % 8 == 0 && TableIndex(table / 8 + index) && mem.Length >= LAYOUT_END
      modifies mem
      ensures Put(old(mem[..]), mem[..], table / 8 + index, v)
    {
      ghost var was, k := mem[..], table / 8 + index;
      var bs := ToLE(v, 8);
      forall i | 0 <= i < 8 {
        mem[table + index * 8 + i] := bs[i];
      }
      assert 8 * k == table + index * 8;
      PatchRead(was, 8 * k, bs);
      assert mem[..] == Patch(was, 8 * k, bs);
      PutIsPatch(was, k, v);
    }

    method BuildPageTables()
      requires LAYOUT_END <= mem.Length <= GUEST_MEM_SIZE && Admissible(kva)
      requires forall k: nat | TableIndex(k) :: Word(mem[..], k) == 0
      modifies mem
      ensures TablesOk(mem[..], kva) && OutsideTables(old(mem[..]), mem[..])
    {
      ghost var was := mem[..];
      FirstIndex(kva);
      LaterIndices(kva);
      var ix, i14, i16 := IndicesOf(kva), PtIndex(kva + O_PVCS2, 1), PtIndex(kva + 0x10000, 1);
      BuildKernelTables(ix.i4, ix.i3, ix.i2, ix.i1);
      ghost var half := mem[..];
      PutPTE(O_PT_K, i14, GUEST_PHYS_BASE + O_PVCS2 + KERNEL);
      ghost var m5 := mem[..];
      PutPTE(O_PT_K, i16, MMIO_EVENT + KERNEL);
      ghost var m6 := mem[..];
      BuildUserTables();
      ghost var m12 := mem[..];
      PutPTE(O_PML4_ALT, ix.i4, GUEST_PHYS_BASE + O_PDP_K + KERNEL);
      TablesPut(ix, was, half, m5, m6, m12, mem[..]);
    }

    // The upper levels and the 13 pages of the kernel's half.
    method BuildKernelTables(i4: nat, i3: nat, i2: nat, i1: nat)
      requires LAYOUT_END <= mem.Length && KernelIndices(Indices(i1, i2, i3, i4))
      modifies mem
      ensures KernelHalfPut(old(mem[..]), mem[..], Indices(i1, i2, i3, i4))
    {
      ghost var m0 := mem[..];
      PutPTE(O_PML4, i4, GUEST_PHYS_BASE + O_PDP_K + KERNEL);
      PutPTE(O_PDP_K, i3, GUEST_PHYS_BASE + O_PD_K + KERNEL);
      PutPTE(O_PD_K, i2, GUEST_PHYS_BASE + O_PT_K + KERNEL);
      ghost var m3 := mem[..];
      for i := 0 to O_MAPPED_PAGES
        invariant mem == old(mem) && KernelPagesPut(m3, mem[..], i1, i)
      {
        PutPTE(O_PT_K, i1 + i, GUEST_PHYS_BASE + i * 0x1000 + KERNEL);
      }
    }

    method BuildUserTables()
      requires LAYOUT_END <= mem.Length
      modifies mem
      ensures UserHalfPut(old(mem[..]), mem[..])
    {
      UserIndices();
      ghost var m0 := mem[..];
      PutPTE(O_PML4, PtIndex(UVA_BASE, 4), GUEST_PHYS_BASE + O_PDP_U + USER);
      ghost var m1 := mem[..];
      PutPTE(O_PDP_U, PtIndex(UVA_BASE, 3), GUEST_PHYS_BASE + O_PD_U + USER);
      ghost var m2 := mem[..];
      PutPTE(O_PD_U, PtIndex(UVA_BASE, 2), GUEST_PHYS_BASE + O_PT_U + USER);
      ghost var m3 := mem[..];
      PutPTE(O_PT_U, PtIndex(UVA_CODE, 1), GUEST_PHYS_BASE + O_UCODE + USER);
      ghost var m4 := mem[..];
      PutPTE(O_PT_U, PtIndex(UVA_BASE + 0x1000, 1), GUEST_PHYS_BASE + O_USTACK + USER);
      ghost var m5 := mem[..];
      PutPTE(O_PT_U, PtIndex(UVA_MMIO, 1), MMIO_REPORT + USER);
      UserTablesPut(m0, m1, m2, m3, m4, m5, mem[..]);
    }

    // --- the whole --------------------------------------------------------

    // buildGuest with the kernel's address left open; the program uses
    // KVA_BASE.
    method BuildGuest(mem: array<Byte>, kva: nat)
      requires LAYOUT_END <= mem.Length <= GUEST_MEM_SIZE && Admissible(kva)
      modifies this, mem
      ensures this.mem == mem && this.kva == kva
      ensures Built(mem[..], kva, pgtblVariant)
      ensures eventEntry == kva + O_EVENT
      ensures smodEntry == kva + O_SCODE + if pgtblVariant then PGTBL_OFF else 0
      ensures retuRIP == smodEntry + if pgtblVariant then 0x6a else 0x2c
    {
      forall i | 0 <= i < mem.Length {
        mem[i] := 0;
      }
      this.mem, this.kva := mem, kva;
      eventEntry := kva + O_EVENT;
      BuildCode();
      ghost var m4 := mem[..];
      BuildPageTables();
      ghost var m5 := mem[..];
      var bs := ToLE(kva + O_PVCS, 8);
      forall i | 0 <= i < 8 {
        mem[O_CTRL + CTRL_PVCS + i] := bs[i];
      }
      PatchRead(m5, O_CTRL + CTRL_PVCS, bs);
      assert mem[..] == Patch(m5, O_CTRL + CTRL_PVCS, bs);
      Assembled(m4, m5, mem[..], kva, pgtblVariant);
    }

    // binary.LittleEndian.PutUint64 and PutUint32 into guest memory.
    method Put64(off: nat, v: U64)
      requires off + 8 <= mem.Length
      modifies mem
      ensures mem[..] == Patch(old(mem[..]), off, ToLE(v, 8))
    {
      ghost var was := mem[..];
      var bs := ToLE(v, 8);
      forall i | 0 <= i < 8 {
        mem[off + i] := bs[i];
      }
      PatchRead(was, off, bs);
      assert mem[..] == Patch(was, off, bs);
    }

    method Put32(off: nat, v: nat)
      requires off + 4 <= mem.Length && v < TWO32
      modifies mem
      ensures mem[..] == Patch(old(mem[..]), off, ToLE(v, 4))
    {
      ghost var was := mem[..];
      var bs := ToLE(v, 4);
      forall i | 0 <= i < 4 {
        mem[off + i] := bs[i];
      }
      PatchRead(was, off, bs);
      assert mem[..] == Patch(was, off, bs);
    }

    // The VMM's side of the control page: only the three words it names
    // change.
    method CtrlSet(rip: U64, eflags: nat, sel: nat)
      requires mem.Length >= LAYOUT_END && eflags < TWO32 && sel < TWO32
      modifies mem
      ensures CtrlIs(old(mem[..]), mem[..], rip, eflags, sel)
    {
      ghost var m0 := mem[..];
      Put64(O_CTRL + CTRL_RIP, rip);
      ghost var m1 := mem[..];
      Put32(O_CTRL + CTRL_EFLAGS, eflags);
      ghost var m2 := mem[..];
      Put32(O_CTRL + CTRL_SEL, sel);
      CtrlPatched(m0, m1, m2, mem[..], rip, eflags, sel);
    }

    // Where the repeat rule's test starts from, whatever the pattern's letters:
    // the addresses and their number in memory, and user mode at the routine.
    method LayOutPattern(pattern: seq<Byte>)
      requires |pattern| <= PATTERN_MAX && Loaded(mem[..], kva, false)
      requires LAYOUT_END <= mem.Length && CtrlWord(mem[..], CTRL_PVCS) == kva + O_PVCS
      modifies mem
      ensures RuleReady(mem[..], kva, Addresses(pattern), 0)
    {
      hide Loaded;
      hide ListAt;
      ghost var m0 := mem[..];
      PutList(pattern);
      ghost var listed := mem[..];
      CtrlSet(UVA_CODE + UCODE_PATTERN, 0x202, 0x2b_0033);
      RuleLaidOut(m0, listed, mem[..], kva, Addresses(pattern));
    }

    // The list: a zero count, the addresses, the total.
    method PutList(pattern: seq<Byte>)
      requires |pattern| <= PATTERN_MAX && LAYOUT_END <= mem.Length
      modifies mem
      ensures SameButList(old(mem[..]), mem[..]) && ListAt(mem[..], 0, Addresses(pattern))
    {
      hide FromLE;
      hide ToLE;
      hide Patch;
      hide ListValue;
      var n := |pattern|;
      ghost var m0, vas := mem[..], Addresses(pattern);
      Put64(PATTERN_PA, 0);
      FirstWord(m0);
      for i := 0 to n
        invariant mem == old(mem) && SameButList(m0, mem[..])
        invariant ListedUpTo(mem[..], vas, i)
      {
        var va := UVA_BASE + 0x10000 + (pattern[i] - 'A' as int) % 0x100 * 0x1000 + 0x40;
        ghost var was := mem[..];
        Put64(PATTERN_PA + 8 * (1 + i), va);
        ListWritten(m0, was, 1 + i, va);
      }
      ghost var was := mem[..];
      Put64(PATTERN_PA + 8 * (1 + PATTERN_MAX), n);
      ListWritten(m0, was, 1 + PATTERN_MAX, n);
    }

    // The routines, into cleared memory.
    method BuildCode()
      requires LAYOUT_END <= mem.Length && Admissible(kva)
      requires forall i :: 0 <= i < mem.Length ==> mem[i] == 0
      modifies mem, this`smodEntry, this`retuRIP
      ensures Coded(mem[..], kva, pgtblVariant)
      ensures smodEntry == kva + O_SCODE + if pgtblVariant then PGTBL_OFF else 0
      ensures retuRIP == smodEntry + if pgtblVariant then 0x6a else 0x2c
    {
      ghost var m0 := mem[..];
      BuildSmodCode();
      ghost var m1 := mem[..];
      if pgtblVariant {
        BuildPgtblSmodCode();
      }
      ghost var m2 := mem[..];
      BuildUmodFaultCode();
      ghost var m3 := mem[..];
      BuildUmodPatternCode();
      CodeWritten(m0, m1, m2, m3, mem[..], kva, pgtblVariant);
    }
  }

  // --- facts the builders rest on -----------------------------------------

  ghost predicate OutsideTables(m: seq<Byte>, m': seq<Byte>) {
    && |m| == |m'| >= LAYOUT_END
    && m'[O_PVCS..O_PML4_ALT] == m[O_PVCS..O_PML4_ALT]
    && m'[O_PVCS2..LAYOUT_END] == m[O_PVCS2..LAYOUT_END]
  }

  // One table entry written, everything else left alone.
  ghost predicate Put(m: seq<Byte>, m': seq<Byte>, k: nat, v: U64) {
    && OutsideTables(m, m')
    && forall j: nat | TableIndex(j) :: Word(m', j) == if j == k then v else Word(m, j)
  }

  lemma PutIsPatch(m: seq<Byte>, k: nat, v: U64)
    requires |m| >= LAYOUT_END && TableIndex(k)
    ensures Put(m, Patch(m, 8 * k, ToLE(v, 8)), k, v)
  {
    var m' := Patch(m, 8 * k, ToLE(v, 8));
    PatchDisjoint(m, 8 * k, ToLE(v, 8), O_PVCS, O_PML4_ALT);
    PatchDisjoint(m, 8 * k, ToLE(v, 8), O_PVCS2, LAYOUT_END);
    forall j: nat | TableIndex(j) ensures Word(m', j) == if j == k then v else Word(m, j) {
      PatchWord(m, k, v, j);
    }
  }

  // Words after the first n of the kernel's pages are entered into its level
  // 1 table, after the kernel's half, and after the user's half.
  function WithPages(i1: nat, n: nat, k: nat, was: nat): nat {
    if O_PT_K / 8 + i1 <= k < O_PT_K / 8 + i1 + n then GUEST_PHYS_BASE + 0x1000 * (k - O_PT_K / 8 - i1) + KERNEL
    else was
  }

  function WithKernel(ix: Indices, k: nat, was: nat): nat {
    if k == O_PML4 / 8 + ix.i4 then GUEST_PHYS_BASE + O_PDP_K + KERNEL
    else if k == O_PDP_K / 8 + ix.i3 then GUEST_PHYS_BASE + O_PD_K + KERNEL
    else if k == O_PD_K / 8 + ix.i2 then GUEST_PHYS_BASE + O_PT_K + KERNEL
    else WithPages(ix.i1, O_MAPPED_PAGES, k, was)
  }

  function WithUser(k: nat, was: nat): nat {
    if k == O_PML4 / 8 then GUEST_PHYS_BASE + O_PDP_U + USER
    else if k == O_PDP_U / 8 + 1 then GUEST_PHYS_BASE + O_PD_U + USER
    else if k == O_PD_U / 8 then GUEST_PHYS_BASE + O_PT_U + USER
    else if k == O_PT_U / 8 then GUEST_PHYS_BASE + O_UCODE + USER
    else if k == O_PT_U / 8 + 1 then GUEST_PHYS_BASE + O_USTACK + USER
    else if k == O_PT_U / 8 + 2 then MMIO_REPORT + USER
    else was
  }

  ghost predicate KernelPagesPut(m: seq<Byte>, m': seq<Byte>, i1: nat, n: nat) {
    && OutsideTables(m, m')
    && forall k: nat | TableIndex(k) :: Word(m', k) == WithPages(i1, n, k, Word(m, k))
  }

  ghost predicate KernelHalfPut(m: seq<Byte>, m': seq<Byte>, ix: Indices) {
    && OutsideTables(m, m')
    && forall k: nat | TableIndex(k) :: Word(m', k) == WithKernel(ix, k, Word(m, k))
  }

  ghost predicate UserHalfPut(m: seq<Byte>, m': seq<Byte>) {
    && OutsideTables(m, m')
    && forall k: nat | TableIndex(k) :: Word(m', k) == WithUser(k, Word(m, k))
  }

  lemma UserTablesPut(m0: seq<Byte>, m1: seq<Byte>, m2: seq<Byte>, m3: seq<Byte>, m4: seq<Byte>, m5: seq<Byte>,
      m6: seq<Byte>)
    requires Put(m0, m1, O_PML4 / 8, GUEST_PHYS_BASE + O_PDP_U + USER)
    requires Put(m1, m2, O_PDP_U / 8 + 1, GUEST_PHYS_BASE + O_PD_U + USER)
    requires Put(m2, m3, O_PD_U / 8, GUEST_PHYS_BASE + O_PT_U + USER)
    requires Put(m3, m4, O_PT_U / 8, GUEST_PHYS_BASE + O_UCODE + USER)
    requires Put(m4, m5, O_PT_U / 8 + 1, GUEST_PHYS_BASE + O_USTACK + USER)
    requires Put(m5, m6, O_PT_U / 8 + 2, MMIO_REPORT + USER)
    ensures UserHalfPut(m0, m6)
  {
    forall k: nat | TableIndex(k) ensures Word(m6, k) == WithUser(k, Word(m0, k)) {}
  }

  // The parts together fill the tables.
  lemma TablesPut(ix: Indices, m0: seq<Byte>, m4: seq<Byte>, m5: seq<Byte>, m6: seq<Byte>, m12: seq<Byte>,
      m13: seq<Byte>)
    requires KernelIndices(ix) && LAYOUT_END <= |m0| <= GUEST_MEM_SIZE
    requires forall k: nat | TableIndex(k) :: Word(m0, k) == 0
    requires KernelHalfPut(m0, m4, ix)
    requires Put(m4, m5, O_PT_K / 8 + ix.i1 + 14, GUEST_PHYS_BASE + O_PVCS2 + KERNEL)
    requires Put(m5, m6, O_PT_K / 8 + ix.i1 + 16, MMIO_EVENT + KERNEL)
    requires UserHalfPut(m6, m12)
    requires Put(m12, m13, O_PML4_ALT / 8 + ix.i4, GUEST_PHYS_BASE + O_PDP_K + KERNEL)
    ensures TablesHold(m13, ix) && OutsideTables(m0, m13)
  {
    forall k: nat | TableIndex(k) ensures Word(m13, k) == TableWord(ix, k) {}
  }

  lemma LaterIndices(kva: nat)
    requires Admissible(kva)
    ensures PtIndex(kva + O_PVCS2, 1) == PtIndex(kva, 1) + 14
    ensures PtIndex(kva + 0x10000, 1) == PtIndex(kva, 1) + 16
  {
    FirstIndex(kva);
    NextPage(kva, 14);
    NextPage(kva, 16);
  }

  lemma NextPage(kva: nat, n: nat)
    requires PtIndex(kva, 1) + n < 512
    ensures PtIndex(kva + 0x1000 * n, 1) == PtIndex(kva, 1) + n
  {
    assert (kva + 0x1000 * n) / 0x1000 == kva / 0x1000 + n;
  }

  lemma UserIndices()
    ensures PtIndex(UVA_BASE, 4) == PtIndex(UVA_BASE, 2) == PtIndex(UVA_CODE, 1) == 0
    ensures PtIndex(UVA_BASE, 3) == PtIndex(UVA_BASE + 0x1000, 1) == 1 && PtIndex(UVA_MMIO, 1) == 2
  {
  }

  // The routines in their places, the tables still empty.
  ghost predicate Coded(m: seq<Byte>, kva: nat, pgtbl: bool)
    requires Admissible(kva)
  {
    && |m| >= LAYOUT_END
    && (forall k: nat | TableIndex(k) :: Word(m, k) == 0)
    && Routines(m, kva, pgtbl)
  }

  // Each routine survives the ones written after it.
  lemma CodeWritten(m0: seq<Byte>, m1: seq<Byte>, m2: seq<Byte>, m3: seq<Byte>, m4: seq<Byte>, kva: nat, pgtbl: bool)
    requires Admissible(kva) && LAYOUT_END <= |m0| && forall i :: 0 <= i < |m0| ==> m0[i] == 0
    requires |Flatten(SmodListing(kva))| == 0x30 && m1 == Patch(m0, O_SCODE, Flatten(SmodListing(kva)))
    requires pgtbl ==> |Flatten(PgtblListing(kva))| == 0x6e
    requires m2 == if pgtbl then Patch(m1, O_SCODE + PGTBL_OFF, Flatten(PgtblListing(kva))) else m1
    requires |Flatten(FaultListing)| == 14 && m3 == Patch(m2, O_UCODE + UCODE_FAULT, Flatten(FaultListing))
    requires |Flatten(PatternListing)| == 0x2f && m4 == Patch(m3, O_UCODE + UCODE_PATTERN, Flatten(PatternListing))
    ensures Coded(m4, kva, pgtbl)
  {
    var smod, pgt := Flatten(SmodListing(kva)), Flatten(PgtblListing(kva));
    var fault, pattern := Flatten(FaultListing), Flatten(PatternListing);
    forall k: nat | TableIndex(k) ensures Word(m4, k) == 0 {
      var lo, hi := 8 * k, 8 * k + 8;
      PatchDisjoint(m0, O_SCODE, smod, lo, hi);
      if pgtbl { PatchDisjoint(m1, O_SCODE + PGTBL_OFF, pgt, lo, hi); }
      PatchDisjoint(m2, O_UCODE + UCODE_FAULT, fault, lo, hi);
      PatchDisjoint(m3, O_UCODE + UCODE_PATTERN, pattern, lo, hi);
      FromLEZero(m0[lo..hi]);
    }
    PatchRead(m0, O_SCODE, smod);
    if pgtbl {
      PatchRead(m1, O_SCODE + PGTBL_OFF, pgt);
      PatchDisjoint(m1, O_SCODE + PGTBL_OFF, pgt, O_SCODE, O_SCODE + 0x30);
      PatchDisjoint(m2, O_UCODE + UCODE_FAULT, fault, O_SCODE + PGTBL_OFF, O_SCODE + PGTBL_OFF + 0x6e);
      PatchDisjoint(m3, O_UCODE + UCODE_PATTERN, pattern, O_SCODE + PGTBL_OFF, O_SCODE + PGTBL_OFF + 0x6e);
    }
    PatchRead(m2, O_UCODE + UCODE_FAULT, fault);
    PatchRead(m3, O_UCODE + UCODE_PATTERN, pattern);
    PatchDisjoint(m2, O_UCODE + UCODE_FAULT, fault, O_SCODE, O_SCODE + 0x30);
    PatchDisjoint(m3, O_UCODE + UCODE_PATTERN, pattern, O_SCODE, O_SCODE + 0x30);
    PatchDisjoint(m3, O_UCODE + UCODE_PATTERN, pattern, O_UCODE + UCODE_FAULT, O_UCODE + UCODE_FAULT + 14);
  }

  // And the page tables and the control word written last.
  lemma Assembled(m4: seq<Byte>, m5: seq<Byte>, m6: seq<Byte>, kva: nat, pgtbl: bool)
    requires Admissible(kva) && Coded(m4, kva, pgtbl)
    requires OutsideTables(m4, m5) && TablesOk(m5, kva)
    requires m6 == Patch(m5, O_CTRL + CTRL_PVCS, ToLE(kva + O_PVCS, 8))
    ensures Built(m6, kva, pgtbl)
  {
    var ctrl := ToLE(kva + O_PVCS, 8);
    PatchDisjoint(m5, O_CTRL + CTRL_PVCS, ctrl, 0, O_PVCS);
    PatchDisjoint(m5, O_CTRL + CTRL_PVCS, ctrl, O_PML4_ALT, O_PVCS2);
    TablesFrame(m5, m6, kva);
    PatchDisjoint(m5, O_CTRL + CTRL_PVCS, ctrl, O_SCODE, O_PML4_ALT);
    SubRange(m4, m5, O_PVCS, O_PML4_ALT, O_SCODE, O_PML4_ALT);
    RoutineKept(m4, m6, O_SCODE, O_PML4_ALT, O_SCODE, SmodListing(kva), 0x30);
    if pgtbl {
      RoutineKept(m4, m6, O_SCODE, O_PML4_ALT, O_SCODE + PGTBL_OFF, PgtblListing(kva), 0x6e);
    }
    RoutineKept(m4, m6, O_SCODE, O_PML4_ALT, O_UCODE + UCODE_FAULT, FaultListing, 14);
    RoutineKept(m4, m6, O_SCODE, O_PML4_ALT, O_UCODE + UCODE_PATTERN, PatternListing, 0x2f);
    PatchWord(m5, (O_CTRL + CTRL_PVCS) / 8, kva + O_PVCS, (O_CTRL + CTRL_PVCS) / 8);
  }

  // --- the control page and the repeat rule's list ------------------------

  // The control page's rip, eflags and selectors, and nothing else, set.
  ghost predicate CtrlIs(m: seq<Byte>, m': seq<Byte>, rip: U64, eflags: nat, sel: nat)
    requires LAYOUT_END <= |m|
  {
    && |m'| == |m|
    && CtrlWord(m', CTRL_RIP) == rip
    && m'[O_CTRL + CTRL_EFLAGS..O_CTRL + CTRL_EFLAGS + 4] == ToLE(eflags, 4)
    && m'[O_CTRL + CTRL_SEL..O_CTRL + CTRL_SEL + 4] == ToLE(sel, 4)
    && m'[..O_CTRL] == m[..O_CTRL] && m'[O_CTRL + CTRL_PGD1..] == m[O_CTRL + CTRL_PGD1..]
  }

  lemma CtrlPatched(m0: seq<Byte>, m1: seq<Byte>, m2: seq<Byte>, m3: seq<Byte>, rip: U64, eflags: nat, sel: nat)
    requires LAYOUT_END <= |m0| && eflags < TWO32 && sel < TWO32
    requires m1 == Patch(m0, O_CTRL + CTRL_RIP, ToLE(rip, 8))
    requires m2 == Patch(m1, O_CTRL + CTRL_EFLAGS, ToLE(eflags, 4))
    requires m3 == Patch(m2, O_CTRL + CTRL_SEL, ToLE(sel, 4))
    ensures CtrlIs(m0, m3, rip, eflags, sel)
  {
    hide Patch;
    hide ToLE;
    hide FromLE;
    var o := O_CTRL;
    WordSizes();
    FromLEToLE(rip, 8);
    PatchRead(m0, o + CTRL_RIP, ToLE(rip, 8));
    PatchRead(m1, o + CTRL_EFLAGS, ToLE(eflags, 4));
    PatchRead(m2, o + CTRL_SEL, ToLE(sel, 4));
    PatchDisjoint(m1, o + CTRL_EFLAGS, ToLE(eflags, 4), o + CTRL_RIP, o + CTRL_RIP + 8);
    PatchDisjoint(m2, o + CTRL_SEL, ToLE(sel, 4), o + CTRL_RIP, o + CTRL_RIP + 8);
    PatchDisjoint(m2, o + CTRL_SEL, ToLE(sel, 4), o + CTRL_EFLAGS, o + CTRL_EFLAGS + 4);
    PatchDisjoint(m0, o + CTRL_RIP, ToLE(rip, 8), 0, o);
    PatchDisjoint(m1, o + CTRL_EFLAGS, ToLE(eflags, 4), 0, o);
    PatchDisjoint(m2, o + CTRL_SEL, ToLE(sel, 4), 0, o);
    PatchDisjoint(m0, o + CTRL_RIP, ToLE(rip, 8), o + CTRL_PGD1, |m0|);
    PatchDisjoint(m1, o + CTRL_EFLAGS, ToLE(eflags, 4), o + CTRL_PGD1, |m0|);
    PatchDisjoint(m2, o + CTRL_SEL, ToLE(sel, 4), o + CTRL_PGD1, |m0|);
  }

  // The address each letter of a pattern stands for; the letter's distance
  // from 'A' is taken in a byte.
  function Addresses(pattern: seq<Byte>): (vas: seq<U64>)
    ensures |vas| == |pattern|
  {
    seq(|pattern|, i requires 0 <= i < |pattern| =>
      UVA_BASE + 0x10000 + (pattern[i] - 'A' as int) % 0x100 * 0x1000 + 0x40)
  }

  // Whatever the letters, the test's addresses are ones user mode faults on.
  lemma PatternsFault(pattern: seq<Byte>)
    ensures forall va <- Addresses(pattern) :: Canonical(va) && !(UVA_BASE <= va < UVA_BASE + 0x3000)
  {
    forall i | 0 <= i < |pattern|
      ensures Canonical(Addresses(pattern)[i]) && Addresses(pattern)[i] >= UVA_BASE + 0x10000
    {
    }
  }

  // An unused list of which n addresses are written.
  ghost predicate ListedUpTo(m: seq<Byte>, vas: seq<U64>, n: nat)
    requires LAYOUT_END <= |m| && n <= |vas| <= PATTERN_MAX
  {
    ListValue(m, 0) == 0 && forall j | 0 <= j < n :: ListValue(m, 1 + j) == vas[j]
  }

  // A write to the user stack page.
  ghost predicate SameButList(m: seq<Byte>, m': seq<Byte>) {
    && |m'| == |m| >= LAYOUT_END && m'[..O_USTACK] == m[..O_USTACK] && m'[O_PML4_ALT..] == m[O_PML4_ALT..]
  }

  lemma ListWritten(m0: seq<Byte>, m: seq<Byte>, j: nat, v: U64)
    requires SameButList(m0, m) && j <= 1 + PATTERN_MAX
    ensures var m' := Patch(m, PATTERN_PA + 8 * j, ToLE(v, 8));
      && SameButList(m0, m')
      && forall i: nat | i <= 1 + PATTERN_MAX :: ListValue(m', i) == if i == j then v else ListValue(m, i)
  {
    hide Patch;
    hide ToLE;
    var bs := ToLE(v, 8);
    PatchDisjoint(m, PATTERN_PA + 8 * j, bs, 0, O_USTACK);
    PatchDisjoint(m, PATTERN_PA + 8 * j, bs, O_PML4_ALT, |m|);
    forall i: nat | i <= 1 + PATTERN_MAX
      ensures ListValue(Patch(m, PATTERN_PA + 8 * j, bs), i) == if i == j then v else ListValue(m, i)
    {
      assert PATTERN_PA == 8 * (PATTERN_PA / 8);
      PatchWord(m, PATTERN_PA / 8 + j, v, PATTERN_PA / 8 + i);
    }
  }

  lemma FirstWord(m: seq<Byte>)
    requires LAYOUT_END <= |m|
    ensures SameButList(m, Patch(m, PATTERN_PA, ToLE(0, 8)))
    ensures ListValue(Patch(m, PATTERN_PA, ToLE(0, 8)), 0) == 0
  {
    ListWritten(m, m, 0, 0);
  }

  lemma RuleLaidOut(m0: seq<Byte>, m1: seq<Byte>, m2: seq<Byte>, kva: nat, vas: seq<U64>)
    requires Loaded(m0, kva, false) && LAYOUT_END <= |m0| && CtrlWord(m0, CTRL_PVCS) == kva + O_PVCS
    requires SameButList(m0, m1) && ListAt(m1, 0, vas) && CtrlIs(m1, m2, ENTRY, 0x202, 0x2b_0033)
    ensures RuleReady(m2, kva, vas, 0)
  {
    hide TablesHold;
    hide FromLE;
    hide ToLE;
    SubRange(m1, m2, O_CTRL + CTRL_PGD1, |m2|, O_SCODE, O_PML4_ALT);
    SubRange(m0, m1, 0, O_USTACK, O_SCODE, O_USTACK);
    SubRange(m0, m1, 0, O_USTACK, 0, O_PVCS);
    SubRange(m1, m2, 0, O_CTRL, 0, O_PVCS);
    SubRange(m0, m1, O_PML4_ALT, |m1|, O_PML4_ALT, O_PVCS2);
    SubRange(m1, m2, O_CTRL + CTRL_PGD1, |m2|, O_PML4_ALT, O_PVCS2);
    SubRange(m1, m2, O_SCODE, O_PML4_ALT, O_SCODE, O_USTACK);
    TablesFrame(m0, m2, kva);
    RoutineKept(m0, m2, O_SCODE, O_USTACK, O_SCODE, SmodListing(kva), 0x30);
    RoutineKept(m0, m2, O_SCODE, O_USTACK, O_UCODE + UCODE_FAULT, FaultListing, 14);
    RoutineKept(m0, m2, O_SCODE, O_USTACK, O_UCODE + UCODE_PATTERN, PatternListing, 0x2f);
    SubRange(m0, m1, 0, O_USTACK, O_CTRL + CTRL_PVCS, O_CTRL + CTRL_PVCS + 8);
    SubRange(m1, m2, O_CTRL + CTRL_PGD1, |m2|, O_CTRL + CTRL_PVCS, O_CTRL + CTRL_PVCS + 8);
    forall j: nat | j <= 1 + PATTERN_MAX ensures ListValue(m2, j) == ListValue(m1, j) {
      SubRange(m1, m2, O_CTRL + CTRL_PGD1, |m2|, PATTERN_PA + 8 * j, PATTERN_PA + 8 * j + 8);
    }
  }

  // The address the program uses is one of those the theorems cover.
  lemma KvaBaseAdmissible()
    ensures Admissible(KVA_BASE)
  {
  }
}
