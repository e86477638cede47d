// The guest's 4-level page tables (guest.go:308-351), against a page walker written from section 4.5 of the Intel
// SDM, volume 3A.
module PageTables {
  import opened Bytes
  import opened GuestLayout

  const PTE_P: nat := 1
  const PTE_RW: nat := 2
  const PTE_US: nat := 4
  const KERNEL: nat := PTE_P + PTE_RW
  const USER: nat := PTE_P + PTE_RW + PTE_US

  // The bytes of address space one entry of a level-n table covers.
  function Span(level: nat): nat
    requires 1 <= level <= 4
  {
    match level
    case 1 => 0x1000
    case 2 => 0x20_0000
    case 3 => 0x4000_0000
    case 4 => 0x80_0000_0000
  }

  // (va >> (12 + 9*(level-1))) & 0x1ff
  function PtIndex(va: nat, level: nat): (i: nat)
    requires 1 <= level <= 4
    ensures i < 512
  {
    (va / Span(level)) % 512
  }

  // --- the walker ---------------------------------------------------------

  datatype Translation = NotPresent | Mapped(pa: nat, user: bool, write: bool)

  // Bits 12 to 51 of an entry or of CR3.
  function Frame(e: nat): nat {
    e / 0x1000 % 0x100_0000_0000 * 0x1000
  }

  // Memory with no memslot behind it reads as an entry that is not present.
  function Entry(m: seq<Byte>, table: nat, index: nat): nat {
    var off := table + 8 * index - GUEST_PHYS_BASE;
    if 0 <= off && off + 8 <= |m| then FromLE(m[off..off + 8]) else 0
  }

  // A walk in progress: at a table with the access gathered so far, or done.
  datatype Progress = At(table: nat, user: bool, write: bool) | Done(t: Translation)

  // One level: bit 7 of a level 2 or 3 entry maps a large page, and user and
  // write access need their bit set at every level.
  function Descend(m: seq<Byte>, va: nat, level: nat, p: Progress): Progress
    requires 1 <= level <= 4
  {
    match p
    case Done(_) => p
    case At(table, user, write) =>
      var e := Entry(m, table, PtIndex(va, level));
      var bits := e % 0x1000;
      var u := user && bits / 4 % 2 == 1;
      var w := write && bits / 2 % 2 == 1;
      if bits % 2 == 0 then Done(NotPresent)
      else if level == 1 || (level <= 3 && bits / 0x80 % 2 == 1) then
        Done(Mapped(Frame(e) / Span(level) * Span(level) + va % Span(level), u, w))
      else At(Frame(e), u, w)
  }

  function Walk(m: seq<Byte>, cr3: nat, va: nat): Translation {
    var p := Descend(m, va, 4, At(Frame(cr3), true, true));
    match Descend(m, va, 1, Descend(m, va, 2, Descend(m, va, 3, p)))
    case Done(t) => t
    case At(_, _, _) => NotPresent
  }

  // --- what the tables are for --------------------------------------------

  // Where the guest kernel may be put: page aligned, in the lower half, its
  // 17 pages in one 2MB region, in another PML4 slot than user memory.
  predicate Admissible(kva: nat) {
    && kva % 0x1000 == 0
    && kva + 0x11000 <= 0x8000_0000_0000
    && kva / 0x20_0000 == (kva + 0x10fff) / 0x20_0000
    && kva / 0x80_0000_0000 != UVA_BASE / 0x80_0000_0000
  }

  // The map the layout promises, said in addresses alone.
  function Intended(kva: nat, va: nat): Translation {
    if kva <= va < kva + 0xd000 || kva + O_PVCS2 <= va < kva + O_PVCS2 + 0x1000 then
      Mapped(GUEST_PHYS_BASE + (va - kva), false, true)
    else if kva + 0x10000 <= va < kva + 0x11000 then
      Mapped(MMIO_EVENT + (va - kva - 0x10000), false, true)
    else if UVA_CODE <= va < UVA_CODE + 0x1000 then
      Mapped(GUEST_PHYS_BASE + O_UCODE + (va - UVA_CODE), true, true)
    else if UVA_BASE + 0x1000 <= va < UVA_STACK_TOP then
      Mapped(GUEST_PHYS_BASE + O_USTACK + (va - UVA_BASE - 0x1000), true, true)
    else if UVA_MMIO <= va < UVA_MMIO + 0x1000 then
      Mapped(MMIO_REPORT + (va - UVA_MMIO), true, true)
    else NotPresent
  }

  // --- what the tables hold -----------------------------------------------

  // A word index that lies in one of the eight tables.
  predicate TableIndex(k: nat) {
    k < O_PVCS / 8 || O_PML4_ALT / 8 <= k < O_PVCS2 / 8
  }

  // The four table indices of an address.
  datatype Indices = Indices(i1: nat, i2: nat, i3: nat, i4: nat)

  function IndicesOf(va: nat): Indices {
    Indices(PtIndex(va, 1), PtIndex(va, 2), PtIndex(va, 3), PtIndex(va, 4))
  }

  // The word at index k, for a kernel at those indices; 0 where nothing was put.
  function TableWord(ix: Indices, k: nat): nat {
    var Indices(i1, i2, i3, i4) := ix;
    if k == O_PML4 / 8 + i4 || k == O_PML4_ALT / 8 + i4 then GUEST_PHYS_BASE + O_PDP_K + KERNEL
    else if k == O_PDP_K / 8 + i3 then GUEST_PHYS_BASE + O_PD_K + KERNEL
    else if k == O_PD_K / 8 + i2 then GUEST_PHYS_BASE + O_PT_K + KERNEL
    else if O_PT_K / 8 + i1 <= k < O_PT_K / 8 + i1 + O_MAPPED_PAGES then
      GUEST_PHYS_BASE + 0x1000 * (k - O_PT_K / 8 - i1) + KERNEL
    else if k == O_PT_K / 8 + i1 + 14 then GUEST_PHYS_BASE + O_PVCS2 + KERNEL
    else if k == O_PT_K / 8 + i1 + 16 then MMIO_EVENT + KERNEL
    else if k == O_PML4 / 8 then GUEST_PHYS_BASE + O_PDP_U + USER
    else if k == O_PDP_U / 8 + 1 then GUEST_PHYS_BASE + O_PD_U + USER
    else if k == O_PD_U / 8 then GUEST_PHYS_BASE + O_PT_U + USER
    else if k == O_PT_U / 8 then GUEST_PHYS_BASE + O_UCODE + USER
    else if k == O_PT_U / 8 + 1 then GUEST_PHYS_BASE + O_USTACK + USER
    else if k == O_PT_U / 8 + 2 then MMIO_REPORT + USER
    else 0
  }

  ghost predicate TablesHold(m: seq<Byte>, ix: Indices) {
    && LAYOUT_END <= |m| <= GUEST_MEM_SIZE
    && forall k: nat | TableIndex(k) :: Word(m, k) == TableWord(ix, k)
  }

  ghost predicate TablesOk(m: seq<Byte>, kva: nat) {
    TablesHold(m, IndicesOf(kva))
  }

  // Writes outside the tables leave them alone.
  lemma TablesFrame(m: seq<Byte>, m': seq<Byte>, kva: nat)
    requires TablesOk(m, kva) && |m'| == |m|
    requires m'[..O_PVCS] == m[..O_PVCS] && m'[O_PML4_ALT..O_PVCS2] == m[O_PML4_ALT..O_PVCS2]
    ensures TablesOk(m', kva)
  {
    forall k: nat | TableIndex(k) ensures Word(m', k) == Word(m, k) {
      if k < O_PVCS / 8 {
        SubRange(m, m', 0, O_PVCS, 8 * k, 8 * k + 8);
      } else {
        SubRange(m, m', O_PML4_ALT, O_PVCS2, 8 * k, 8 * k + 8);
      }
    }
  }

  // --- the walk theorems --------------------------------------------------

  lemma EntryIsWord(m: seq<Byte>, ix: Indices, o: nat, i: nat)
    requires TablesHold(m, ix)
    requires o % 8 == 0 && i < 512 && TableIndex(o / 8 + i)
    ensures Entry(m, GUEST_PHYS_BASE + o, i) == TableWord(ix, o / 8 + i)
  {
    var k := o / 8 + i;
    assert 8 * k == o + 8 * i;
  }

  // The three upper indices agree exactly inside one 2MB region.
  lemma RegionIndices(va: nat, b: nat)
    requires va < 0x1_0000_0000_0000 && b < 0x1_0000_0000_0000
    ensures (PtIndex(va, 4) == PtIndex(b, 4) && PtIndex(va, 3) == PtIndex(b, 3) && PtIndex(va, 2) == PtIndex(b, 2))
       <==> va / 0x20_0000 == b / 0x20_0000
    ensures PtIndex(va, 4) == va / 0x80_0000_0000
    ensures va == (va / 0x20_0000) * 0x20_0000 + PtIndex(va, 1) * 0x1000 + va % 0x1000
  {
    RegionDigits(va);
    RegionDigits(b);
  }

  lemma RegionDigits(va: nat)
    requires va < 0x1_0000_0000_0000
    ensures va / 0x20_0000 == PtIndex(va, 4) * 262144 + PtIndex(va, 3) * 512 + PtIndex(va, 2)
    ensures PtIndex(va, 4) == va / 0x80_0000_0000
    ensures va == (va / 0x20_0000) * 0x20_0000 + PtIndex(va, 1) * 0x1000 + va % 0x1000
  {
    var r := va / 0x20_0000;
    Digits(r);
    assert va / 0x4000_0000 == r / 512;
    assert va / 0x80_0000_0000 == r / 512 / 512;
    assert va / 0x1000 == r * 512 + va / 0x1000 % 512;
  }

  lemma Digits(r: nat)
    requires r < 0x800_0000
    ensures r == r / 512 / 512 * 262144 + r / 512 % 512 * 512 + r % 512
    ensures r / 512 / 512 % 512 == r / 512 / 512
  {
  }

  // The level 1 entry of the kernel's nth page.
  function KernelPage(n: int): nat {
    if 0 <= n < O_MAPPED_PAGES || n == 14 then GUEST_PHYS_BASE + 0x1000 * n + KERNEL
    else if n == 16 then MMIO_EVENT + KERNEL
    else 0
  }

  // What a level 1 entry gives.
  function Leaf(e: nat, va: nat, user: bool): Translation {
    if e == 0 then NotPresent else Mapped(Frame(e) + va % 0x1000, user, true)
  }

  // Indices a kernel can have: its 17 pages stay in one level 1 table, and it
  // does not share the user's PML4 slot.
  predicate KernelIndices(ix: Indices) {
    ix.i1 + 16 < 512 && ix.i2 < 512 && ix.i3 < 512 && 0 < ix.i4 < 512
  }

  // The kernel's path through the tables, for an address at indices v.
  lemma KernelEntries(m: seq<Byte>, ix: Indices, v: Indices)
    requires KernelIndices(ix) && TablesHold(m, ix)
    requires v.i1 < 512 && v.i2 < 512 && v.i3 < 512 && v.i4 == ix.i4
    ensures Entry(m, GUEST_PHYS_BASE + O_PML4, v.i4) == GUEST_PHYS_BASE + O_PDP_K + KERNEL
    ensures Entry(m, GUEST_PHYS_BASE + O_PML4_ALT, v.i4) == GUEST_PHYS_BASE + O_PDP_K + KERNEL
    ensures Entry(m, GUEST_PHYS_BASE + O_PDP_K, v.i3) ==
      if v.i3 == ix.i3 then GUEST_PHYS_BASE + O_PD_K + KERNEL else 0
    ensures Entry(m, GUEST_PHYS_BASE + O_PD_K, v.i2) ==
      if v.i2 == ix.i2 then GUEST_PHYS_BASE + O_PT_K + KERNEL else 0
    ensures Entry(m, GUEST_PHYS_BASE + O_PT_K, v.i1) == KernelPage(v.i1 - ix.i1)
  {
    EntryIsWord(m, ix, O_PML4, v.i4);
    EntryIsWord(m, ix, O_PML4_ALT, v.i4);
    EntryIsWord(m, ix, O_PDP_K, v.i3);
    EntryIsWord(m, ix, O_PD_K, v.i2);
    EntryIsWord(m, ix, O_PT_K, v.i1);
  }

  // The level 1 entry at index i of the user table.
  function UserPage(i: nat): nat {
    match i
    case 0 => GUEST_PHYS_BASE + O_UCODE + USER
    case 1 => GUEST_PHYS_BASE + O_USTACK + USER
    case 2 => MMIO_REPORT + USER
    case _ => 0
  }

  // The user's path.
  lemma UserEntries(m: seq<Byte>, ix: Indices, v: Indices)
    requires KernelIndices(ix) && TablesHold(m, ix)
    requires v.i1 < 512 && v.i2 < 512 && v.i3 < 512 && v.i4 == 0
    ensures Entry(m, GUEST_PHYS_BASE + O_PML4, v.i4) == GUEST_PHYS_BASE + O_PDP_U + USER
    ensures Entry(m, GUEST_PHYS_BASE + O_PDP_U, v.i3) ==
      if v.i3 == 1 then GUEST_PHYS_BASE + O_PD_U + USER else 0
    ensures Entry(m, GUEST_PHYS_BASE + O_PD_U, v.i2) ==
      if v.i2 == 0 then GUEST_PHYS_BASE + O_PT_U + USER else 0
    ensures Entry(m, GUEST_PHYS_BASE + O_PT_U, v.i1) == UserPage(v.i1)
  {
    EntryIsWord(m, ix, O_PML4, v.i4);
    EntryIsWord(m, ix, O_PDP_U, v.i3);
    EntryIsWord(m, ix, O_PD_U, v.i2);
    EntryIsWord(m, ix, O_PT_U, v.i1);
  }

  // A PML4 slot of neither half.
  lemma OtherEntries(m: seq<Byte>, ix: Indices, i4: nat)
    requires KernelIndices(ix) && TablesHold(m, ix) && i4 < 512 && i4 != ix.i4
    ensures Entry(m, GUEST_PHYS_BASE + O_PML4_ALT, i4) == 0
    ensures i4 != 0 ==> Entry(m, GUEST_PHYS_BASE + O_PML4, i4) == 0
  {
    EntryIsWord(m, ix, O_PML4, i4);
    EntryIsWord(m, ix, O_PML4_ALT, i4);
  }

  // The kernel's 17 pages fit behind its level 1 index.
  lemma FirstIndex(kva: nat)
    requires Admissible(kva)
    ensures KernelIndices(IndicesOf(kva))
    ensures kva == kva / 0x20_0000 * 0x20_0000 + PtIndex(kva, 1) * 0x1000
  {
    RegionIndices(kva, kva);
  }

  // Walking the main tables gives the intended map at every 48-bit address.
  lemma WalkIsIntended(m: seq<Byte>, kva: nat, va: nat)
    requires Admissible(kva) && TablesOk(m, kva) && va < 0x1_0000_0000_0000
    ensures Walk(m, GUEST_PHYS_BASE + O_PML4, va) == Intended(kva, va)
  {
    FirstIndex(kva);
    RegionIndices(va, kva);
    if PtIndex(va, 4) == PtIndex(kva, 4) {
      WalkKernelHalf(m, kva, va);
    } else if PtIndex(va, 4) == 0 {
      WalkUserHalf(m, kva, va);
    } else {
      WalkNoHalf(m, kva, va);
    }
  }

  lemma WalkNoHalf(m: seq<Byte>, kva: nat, va: nat)
    requires Admissible(kva) && TablesOk(m, kva) && va < 0x1_0000_0000_0000
    requires PtIndex(va, 4) != PtIndex(kva, 4) && PtIndex(va, 4) != 0
    ensures Walk(m, GUEST_PHYS_BASE + O_PML4, va) == NotPresent
    ensures Intended(kva, va) == NotPresent
  {
    FirstIndex(kva);
    OtherEntries(m, IndicesOf(kva), PtIndex(va, 4));
    FrameOfTable(GUEST_PHYS_BASE + O_PML4, 0);
    DescendInner(m, GUEST_PHYS_BASE + O_PML4, va, 4, GUEST_PHYS_BASE + O_PDP_U, true, true);
    NoHalf(kva, va);
  }

  lemma NoHalf(kva: nat, va: nat)
    requires Admissible(kva) && va < 0x1_0000_0000_0000
    requires PtIndex(va, 4) != PtIndex(kva, 4) && PtIndex(va, 4) != 0
    ensures Intended(kva, va) == NotPresent
  {
    RegionIndices(va, kva);
    RegionIndices(va, UVA_BASE);
    RegionIndices(kva, kva);
  }

  lemma WalkKernelHalf(m: seq<Byte>, kva: nat, va: nat)
    requires Admissible(kva) && TablesOk(m, kva) && va < 0x1_0000_0000_0000
    requires PtIndex(va, 4) == PtIndex(kva, 4)
    ensures Walk(m, GUEST_PHYS_BASE + O_PML4, va) == Intended(kva, va)
  {
    KernelWalk(m, kva, va);
    RegionIndices(va, kva);
    RegionIndices(kva, kva);
    KernelLeaf(kva, va);
  }

  lemma KernelWalk(m: seq<Byte>, kva: nat, va: nat)
    requires Admissible(kva) && TablesOk(m, kva) && PtIndex(va, 4) == PtIndex(kva, 4)
    ensures Walk(m, GUEST_PHYS_BASE + O_PML4, va) ==
      if PtIndex(va, 3) != PtIndex(kva, 3) || PtIndex(va, 2) != PtIndex(kva, 2) then NotPresent
      else Leaf(KernelPage(PtIndex(va, 1) - PtIndex(kva, 1)), va, false)
  {
    hide Walk;
    hide Entry;
    hide TablesHold;
    hide PtIndex;
    hide Leaf;
    hide Admissible;
    var n := PtIndex(va, 1) - PtIndex(kva, 1);
    FirstIndex(kva);
    KernelEntries(m, IndicesOf(kva), IndicesOf(va));
    KernelPageFlags(n);
    WalkSteps(m, va, GUEST_PHYS_BASE + O_PML4, GUEST_PHYS_BASE + O_PDP_K,
      GUEST_PHYS_BASE + O_PD_K, GUEST_PHYS_BASE + O_PT_K, false);
  }

  lemma KernelPageFlags(n: int)
    ensures KernelPage(n) == 0 || KernelPage(n) % 0x1000 == KERNEL
  {
  }

  // Inside the kernel's 2MB region the level 1 entry decides.
  lemma KernelLeaf(kva: nat, va: nat)
    requires Admissible(kva) && va < 0x1_0000_0000_0000 && PtIndex(va, 4) == PtIndex(kva, 4)
    ensures Intended(kva, va) ==
      if va / 0x20_0000 != kva / 0x20_0000 then NotPresent
      else Leaf(KernelPage(PtIndex(va, 1) - PtIndex(kva, 1)), va, false)
  {
    var n := PtIndex(va, 1) - PtIndex(kva, 1);
    RegionIndices(va, kva);
    FirstIndex(kva);
    NotUser(kva, va);
    if va / 0x20_0000 == kva / 0x20_0000 {
      KernelInside(kva, va, n);
    }
  }

  lemma NotUser(kva: nat, va: nat)
    requires Admissible(kva) && va < 0x1_0000_0000_0000 && PtIndex(va, 4) == PtIndex(kva, 4)
    ensures !(UVA_BASE <= va < UVA_BASE + 0x3000)
  {
    RegionIndices(va, UVA_BASE);
    FirstIndex(kva);
  }

  lemma KernelInside(kva: nat, va: nat, n: int)
    requires va == kva + 0x1000 * n + va % 0x1000
    requires !(UVA_BASE <= va < UVA_BASE + 0x3000)
    ensures Intended(kva, va) == Leaf(KernelPage(n), va, false)
  {
    if 0 <= n <= 14 {
      FrameOfTable(GUEST_PHYS_BASE + 0x1000 * n, KERNEL);
    }
    assert Frame(MMIO_EVENT + KERNEL) == MMIO_EVENT;
  }

  lemma WalkUserHalf(m: seq<Byte>, kva: nat, va: nat)
    requires Admissible(kva) && TablesOk(m, kva) && va < 0x80_0000_0000
    ensures Walk(m, GUEST_PHYS_BASE + O_PML4, va) == Intended(kva, va)
  {
    UserWalk(m, kva, va);
    UserLeaf(kva, va);
  }

  lemma UserWalk(m: seq<Byte>, kva: nat, va: nat)
    requires Admissible(kva) && TablesOk(m, kva) && va < 0x80_0000_0000
    ensures Walk(m, GUEST_PHYS_BASE + O_PML4, va) ==
      if PtIndex(va, 3) != 1 || PtIndex(va, 2) != 0 then NotPresent
      else Leaf(UserPage(PtIndex(va, 1)), va, true)
  {
    FirstIndex(kva);
    UserEntries(m, IndicesOf(kva), IndicesOf(va));
    UserPageFlags(PtIndex(va, 1));
    WalkSteps(m, va, GUEST_PHYS_BASE + O_PML4, GUEST_PHYS_BASE + O_PDP_U,
      GUEST_PHYS_BASE + O_PD_U, GUEST_PHYS_BASE + O_PT_U, true);
  }

  lemma UserPageFlags(i: nat)
    ensures UserPage(i) == 0 || UserPage(i) % 0x1000 == USER
  {
  }

  lemma UserLeaf(kva: nat, va: nat)
    requires Admissible(kva) && va < 0x1_0000_0000_0000 && PtIndex(va, 4) == 0
    ensures Intended(kva, va) ==
      if PtIndex(va, 3) != 1 || PtIndex(va, 2) != 0 then NotPresent
      else Leaf(UserPage(PtIndex(va, 1)), va, true)
  {
    RegionIndices(va, kva);
    RegionIndices(va, UVA_BASE);
    FirstIndex(kva);
    assert Frame(GUEST_PHYS_BASE + O_UCODE + USER) == GUEST_PHYS_BASE + O_UCODE;
    assert Frame(GUEST_PHYS_BASE + O_USTACK + USER) == GUEST_PHYS_BASE + O_USTACK;
    assert Frame(MMIO_REPORT + USER) == MMIO_REPORT;
  }

  // A walk whose upper entries each either are not present or name the next
  // of four given tables is decided by the four entries.
  lemma WalkSteps(m: seq<Byte>, va: nat, t4: nat, t3: nat, t2: nat, t1: nat, user: bool)
    requires TableAddress(t4) && TableAddress(t3) && TableAddress(t2) && TableAddress(t1)
    requires Names(Entry(m, t4, PtIndex(va, 4)), t3, user)
    requires Names(Entry(m, t3, PtIndex(va, 3)), t2, user)
    requires Names(Entry(m, t2, PtIndex(va, 2)), t1, user)
    requires var e := Entry(m, t1, PtIndex(va, 1)); e == 0 || e % 0x1000 == Flags(user)
    ensures Walk(m, t4, va) ==
      if Entry(m, t4, PtIndex(va, 4)) == 0 || Entry(m, t3, PtIndex(va, 3)) == 0
        || Entry(m, t2, PtIndex(va, 2)) == 0 then NotPresent
      else Leaf(Entry(m, t1, PtIndex(va, 1)), va, user)
  {
    FrameOfTable(t4, 0);
    DescendInner(m, t4, va, 4, t3, true, user);
    DescendInner(m, t3, va, 3, t2, user, user);
    DescendInner(m, t2, va, 2, t1, user, user);
    DescendLeaf(m, t1, va, user);
  }

  function Flags(user: bool): nat {
    if user then USER else KERNEL
  }

  predicate TableAddress(t: nat) {
    t % 0x1000 == 0 && t < 0x1000_0000
  }

  // An entry that is empty, or names table t with the flags of its half.
  predicate Names(e: nat, t: nat, user: bool) {
    e == 0 || e == t + Flags(user)
  }

  lemma FrameOfTable(t: nat, f: nat)
    requires TableAddress(t) && f < 0x1000
    ensures Frame(t + f) == t && (t + f) % 0x1000 == f
  {
    assert (t + f) / 0x1000 == t / 0x1000;
  }

  lemma DescendLeaf(m: seq<Byte>, t1: nat, va: nat, user: bool)
    requires var e := Entry(m, t1, PtIndex(va, 1)); e == 0 || e % 0x1000 == Flags(user)
    ensures Descend(m, va, 1, At(t1, user, true)) == Done(Leaf(Entry(m, t1, PtIndex(va, 1)), va, user))
  {
    var e := Entry(m, t1, PtIndex(va, 1));
    assert Frame(e) / 0x1000 * 0x1000 == Frame(e);
  }

  lemma DescendInner(m: seq<Byte>, t: nat, va: nat, level: nat, next: nat, before: bool, user: bool)
    requires 2 <= level <= 4 && TableAddress(next) && (user ==> before)
    requires Names(Entry(m, t, PtIndex(va, level)), next, user)
    ensures Descend(m, va, level, At(t, before, true)) ==
      if Entry(m, t, PtIndex(va, level)) == 0 then Done(NotPresent) else At(next, user, true)
  {
    FrameOfTable(next, Flags(user));
  }

  // The second address space: the kernel's PML4 slot as in the main one, and
  // nothing else.
  lemma WalkAlt(m: seq<Byte>, kva: nat, va: nat)
    requires Admissible(kva) && TablesOk(m, kva) && va < 0x1_0000_0000_0000
    ensures Walk(m, GUEST_PHYS_BASE + O_PML4_ALT, va) ==
      if va / 0x80_0000_0000 == kva / 0x80_0000_0000 then Walk(m, GUEST_PHYS_BASE + O_PML4, va) else NotPresent
  {
    FirstIndex(kva);
    AltWalk(m, kva, va);
    RegionIndices(va, kva);
    RegionIndices(kva, kva);
  }

  lemma AltWalk(m: seq<Byte>, kva: nat, va: nat)
    requires KernelIndices(IndicesOf(kva)) && TablesOk(m, kva)
    ensures Walk(m, GUEST_PHYS_BASE + O_PML4_ALT, va) ==
      if PtIndex(va, 4) == PtIndex(kva, 4) then Walk(m, GUEST_PHYS_BASE + O_PML4, va) else NotPresent
  {
    FrameOfTable(GUEST_PHYS_BASE + O_PML4_ALT, 0);
    FrameOfTable(GUEST_PHYS_BASE + O_PML4, 0);
    if PtIndex(va, 4) == PtIndex(kva, 4) {
      KernelEntries(m, IndicesOf(kva), IndicesOf(va));
      DescendInner(m, GUEST_PHYS_BASE + O_PML4, va, 4, GUEST_PHYS_BASE + O_PDP_K, true, false);
      DescendInner(m, GUEST_PHYS_BASE + O_PML4_ALT, va, 4, GUEST_PHYS_BASE + O_PDP_K, true, false);
    } else {
      OtherEntries(m, IndicesOf(kva), PtIndex(va, 4));
      DescendInner(m, GUEST_PHYS_BASE + O_PML4_ALT, va, 4, GUEST_PHYS_BASE + O_PDP_K, true, false);
    }
  }

  // User mode reaches the user code, stack and report pages and nothing else;
  // nothing is mapped read-only.
  lemma UserReach(m: seq<Byte>, kva: nat, va: nat)
    requires Admissible(kva) && TablesOk(m, kva) && va < 0x1_0000_0000_0000
    ensures var t := Walk(m, GUEST_PHYS_BASE + O_PML4, va);
      && ((t.Mapped? && t.user) <==> UVA_BASE <= va < UVA_BASE + 0x3000)
      && (t.Mapped? ==> t.write)
  {
    hide Walk;
    hide TablesHold;
    WalkIsIntended(m, kva, va);
    IntendedReach(kva, va);
  }

  lemma IntendedReach(kva: nat, va: nat)
    requires Admissible(kva) && va < 0x1_0000_0000_0000
    ensures var t := Intended(kva, va);
      && ((t.Mapped? && t.user) <==> UVA_BASE <= va < UVA_BASE + 0x3000)
      && (t.Mapped? ==> t.write)
  {
    Apart(kva);
  }

  // The kernel's pages and the user's three are apart.
  lemma Apart(kva: nat)
    requires Admissible(kva)
    ensures kva + 0x11000 <= UVA_BASE || UVA_BASE + 0x3000 <= kva
  {
    FirstIndex(kva);
    RegionIndices(kva, UVA_BASE);
  }
}
