// The guest's physical layout (guest.go:22-70).
module GuestLayout {
  const GUEST_PHYS_BASE: nat := 0x10_0000

  const O_PML4: nat := 0x0000
  const O_PDP_K: nat := 0x1000
  const O_PD_K: nat := 0x2000
  const O_PT_K: nat := 0x3000
  const O_PDP_U: nat := 0x4000
  const O_PD_U: nat := 0x5000
  const O_PT_U: nat := 0x6000
  const O_PVCS: nat := 0x7000
  const O_CTRL: nat := 0x8000
  const O_SCODE: nat := 0x9000
  const O_EVENT: nat := 0xa000
  const O_UCODE: nat := 0xb000
  const O_USTACK: nat := 0xc000
  const O_MAPPED_PAGES: nat := 13
  const O_PML4_ALT: nat := 0xd000
  const O_PVCS2: nat := 0xe000

  const MMIO_REPORT: nat := 0xd000_0000
  const MMIO_EVENT: nat := 0xd000_1000

  const UVA_BASE: nat := 0x4000_0000
  const UVA_CODE: nat := UVA_BASE
  const UVA_STACK_TOP: nat := UVA_BASE + 0x2000
  const UVA_MMIO: nat := UVA_BASE + 0x2000

  const CTRL_RIP: nat := 0x00
  const CTRL_EFLAGS: nat := 0x08
  const CTRL_SEL: nat := 0x0c
  const CTRL_PGD1: nat := 0x10
  const CTRL_PGD2: nat := 0x18
  const CTRL_PVCS: nat := 0x20

  // struct pvm_vcpu_struct (para.go:128-170, offsets as para_test.go:22-34).
  const PVCS_USER_CS: nat := 64
  const PVCS_EFLAGS: nat := 80
  const PVCS_RIP: nat := 88
  const PVCS_SIZE: nat := 128

  // The size of the page tables' part of guest memory, and the memslot.
  const LAYOUT_END: nat := 0xf000
  const GUEST_MEM_SIZE: nat := 0x80_0000

  const KVA_BASE: nat := 0x4000_0000_0000
  const PVM_HC_LOAD_PGTBL: nat := 0x1708_8200
}
