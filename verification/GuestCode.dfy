// The machine code guest.go emits, one entry per instruction, and the state
// of guest memory buildGuest leaves.
module GuestCode {
  import opened Bytes
  import opened GuestLayout
  import opened PageTables
  import opened Machine

  // Offsets of the routines inside their pages.
  const PGTBL_OFF: nat := 0x200
  const UCODE_FAULT: nat := 0x100
  const UCODE_PATTERN: nat := 0x200
  const FAULT_VA: nat := UVA_BASE + 0x3000

  // The repeat-rule list on the user stack page: a count, then addresses,
  // then the total.
  const PATTERN_OFF: nat := 0x100
  const PATTERN_UVA: nat := UVA_BASE + 0x1000 + PATTERN_OFF
  const PATTERN_MAX: nat := 12

  type Listing = seq<seq<Byte>>

  function Flatten(l: Listing): seq<Byte> {
    if l == [] then [] else l[0] + Flatten(l[1..])
  }

  lemma {:induction false} FlattenAppend(l: Listing, b: seq<Byte>)
    ensures Flatten(l + [b]) == Flatten(l) + b
  {
    if l == [] {
      assert Flatten([b]) == b + Flatten([b][1..]) == b;
    } else {
      FlattenAppend(l[1..], b);
      assert (l + [b])[1..] == l[1..] + [b];
    }
  }

  predicate CodeAt(m: seq<Byte>, off: nat, bs: seq<Byte>) {
    off + |bs| <= |m| && m[off..off + |bs|] == bs
  }

  // The listing's instructions follow each other in memory from off on.
  predicate Listed(m: seq<Byte>, off: nat, l: Listing)
    decreases |l|
  {
    l == [] || (CodeAt(m, off, l[0]) && Listed(m, off + |l[0]|, l[1..]))
  }

  lemma {:induction false} CodeIsListed(m: seq<Byte>, off: nat, l: Listing)
    requires CodeAt(m, off, Flatten(l))
    ensures Listed(m, off, l)
    decreases |l|
  {
    if l != [] {
      var n := |l[0]|;
      var all, rest := Flatten(l), Flatten(l[1..]);
      assert all[..n] == l[0] && all[n..] == rest;
      assert m[off..off + n] == m[off..off + |all|][..n];
      assert m[off + n..off + |all|] == m[off..off + |all|][n..];
      CodeIsListed(m, off + n, l[1..]);
    }
  }

  // --- the routines -------------------------------------------------------

  // A register loaded with a 64-bit constant: ten bytes, the constant the last eight.
  function Movabs(reg: nat, imm: U64): seq<Byte>
    requires reg < 8
  {
    [0x48, 0xb8 + reg] + ToLE(imm, 8)
  }

  // The control page copied into the PVCS, and the return to user mode:
  // %rsi is the control page, %rdi the PVCS.
  const CopyListing: Listing := [
    [0x48, 0x8b, 0x46, CTRL_RIP],
    [0x48, 0x89, 0x47, PVCS_RIP],
    [0x8b, 0x46, CTRL_EFLAGS],
    [0x89, 0x47, PVCS_EFLAGS],
    [0x8b, 0x46, CTRL_SEL],
    [0x89, 0x47, PVCS_USER_CS],
    [0x0f, 0x05],
    [0x0f, 0x0b]]

  function SmodListing(kva: nat): Listing
    requires Admissible(kva)
  {
    [Movabs(RSP, UVA_STACK_TOP),
     Movabs(RSI, kva + O_CTRL),
     [0x48, 0x8b, 0x7e, CTRL_PVCS]] + CopyListing
  }

  function LoadPgtblListing(ctrl: U64, off: Byte): Listing {
    [Movabs(RSI, ctrl),
     Movabs(RAX, PVM_HC_LOAD_PGTBL),
     [0x31, 0xdb],
     [0x4c, 0x8b, 0x56, off],
     [0x0f, 0x05]]
  }

  function PgtblListing(kva: nat): Listing
    requires Admissible(kva)
  {
    LoadPgtblListing(kva + O_CTRL, CTRL_PGD1) + LoadPgtblListing(kva + O_CTRL, CTRL_PGD2) +
    [Movabs(RSP, UVA_STACK_TOP),
     Movabs(RDI, kva + O_PVCS),
     Movabs(RSI, kva + O_CTRL)] + CopyListing
  }

  const FaultListing: Listing := [
    Movabs(RDX, FAULT_VA + 0x123),
    [0x8a, 0x02],
    [0x0f, 0x0b]]

  const PatternListing: Listing := [
    Movabs(RSI, PATTERN_UVA),
    [0x48, 0x8b, 0x0e],
    [0x48, 0x3b, 0x4e, PATTERN_MAX * 8 + 8],
    [0x73, 0x0c],
    [0x48, 0xff, 0x06],
    [0x48, 0x8b, 0x54, 0xce, 0x08],
    [0x8a, 0x02],
    [0x0f, 0x0b],
    Movabs(RDX, UVA_MMIO),
    [0x89, 0x0a],
    [0x0f, 0x05],
    [0x0f, 0x0b]]

  // A routine of len bytes at off.
  predicate RoutineAt(m: seq<Byte>, off: nat, l: Listing, len: nat) {
    |Flatten(l)| == len && CodeAt(m, off, Flatten(l))
  }

  predicate Routines(m: seq<Byte>, kva: nat, pgtbl: bool)
    requires Admissible(kva)
  {
    && RoutineAt(m, O_SCODE, SmodListing(kva), 0x30)
    && (pgtbl ==> RoutineAt(m, O_SCODE + PGTBL_OFF, PgtblListing(kva), 0x6e))
    && RoutineAt(m, O_UCODE + UCODE_FAULT, FaultListing, 14)
    && RoutineAt(m, O_UCODE + UCODE_PATTERN, PatternListing, 0x2f)
  }

  lemma RoutineKept(m: seq<Byte>, m': seq<Byte>, a: nat, b: nat, off: nat, l: Listing, len: nat)
    requires RoutineAt(m, off, l, len) && a <= off && off + len <= b <= |m| && |m'| == |m|
    requires m'[a..b] == m[a..b]
    ensures RoutineAt(m', off, l, len)
  {
    SubRange(m, m', a, b, off, off + len);
  }

  // The page tables and the code in place; data pages hold anything.
  ghost predicate Loaded(m: seq<Byte>, kva: nat, pgtbl: bool) {
    && Admissible(kva)
    && TablesOk(m, kva)
    && Routines(m, kva, pgtbl)
  }

  // Guest memory as buildGuest leaves it.
  ghost predicate Built(m: seq<Byte>, kva: nat, pgtbl: bool) {
    Loaded(m, kva, pgtbl) && Word(m, (O_CTRL + CTRL_PVCS) / 8) == kva + O_PVCS
  }
}
