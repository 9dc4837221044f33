/** The SMMU global registers the resolver reads, and their field decoders. */
module Registers {
  import opened Machine

  /** Register offsets in the SMMU register page. */
  const SMMU_IDR1: u64 := 0x04
  const SMMU_CR0: u64 := 0x20
  const SMMU_GBPA: u64 := 0x44
  const SMMU_STRTAB_BASE: u64 := 0x80
  const SMMU_STRTAB_BASE_CFG: u64 := 0x88

  /** The values those registers hold at the time of the run. */
  datatype Registers = Registers(
    idr1: u32,
    cr0: u32,
    gbpa: u32,
    strtabBase: u64,
    strtabBaseCfg: u32)

  /** IDR1.SIDSIZE, bits 0..5: StreamIDs are below 2^SidBits. */
  function SidBits(idr1: u32): (w: nat)
    ensures w < 64
  {
    idr1 % 64
  }

  /** IDR1.SSIDSIZE, bits 6..10: SubstreamIDs are below 2^SsidBits. */
  function SsidBits(idr1: u32): (w: nat)
    ensures w < 32
  {
    idr1 / 64 % 32
  }

  /** An IDR1 value assembled from SIDSIZE, SSIDSIZE and the other bits
      decodes back to those widths. */
  lemma Idr1RoundTrip(sidSize: nat, ssidSize: nat, rest: nat)
    requires sidSize < 64 && ssidSize < 32 && rest < 0x20_0000
    ensures sidSize + ssidSize * 64 + rest * 0x800 < TWO_32
    ensures SidBits(sidSize + ssidSize * 64 + rest * 0x800) == sidSize
    ensures SsidBits(sidSize + ssidSize * 64 + rest * 0x800) == ssidSize
  {
    var idr1 := sidSize + ssidSize * 64 + rest * 0x800;
    DivModUnique(idr1, 64, ssidSize + rest * 32, sidSize);
    DivModUnique(ssidSize + rest * 32, 32, rest, ssidSize);
  }

  /** `id < (1ULL << width)`, the range test the resolver applies to StreamIDs
      and SubstreamIDs. */
  predicate IdFits(id: u64, width: nat) {
    id < Pow2(width)
  }

  /** The largest identifier of the range, `(1ULL << width) - 1`, which the
      resolver reports when an identifier is out of range. */
  function IdMax(width: nat): (m: u64)
    requires width < 64
    ensures forall id: u64 :: IdFits(id, width) <==> id <= m
  {
    Pow2Monotone(width, 64);
    Pow2Values();
    Pow2(width) - 1
  }

  /** CR0.SMMUEN, bit 0. */
  predicate SmmuEnabled(cr0: u32) {
    cr0 % 2 == 1
  }

  /** STRTAB_BASE.ADDR: the 52-bit stream-table base, 64-byte aligned. */
  function StrtabBaseAddress(strtabBase: u64): (base: u64)
    ensures base < TWO_52 && base % 64 == 0
    ensures base <= strtabBase % TWO_52 < base + 64
  {
    AddressField(strtabBase, 64)
  }

  /** STRTAB_BASE_CFG.LOG2SIZE, bits 0..5: StreamIDs the table covers are
      below 2^StrtabLog2Size. */
  function StrtabLog2Size(cfg: u32): (w: nat)
    ensures w < 64
  {
    cfg % 64
  }

  /** STRTAB_BASE_CFG.FMT, bits 16..17; the value 1 selects the two-level
      stream table, every other value the linear one. */
  predicate TwoLevelStrtab(cfg: u32) {
    cfg / 0x10000 % 4 == 1
  }

  /** STRTAB_BASE_CFG.SPLIT, bits 6..10: the two-level table indexes its
      level-1 array with StreamID bits at and above Split. */
  function StrtabSplit(cfg: u32): (split: nat)
    ensures split < 32
  {
    cfg / 64 % 32
  }

  /** A configuration word assembled from its fields decodes back to them. */
  lemma StrtabCfgRoundTrip(log2size: nat, split: nat, fmt: nat, rest: nat)
    requires log2size < 64 && split < 32 && fmt < 4 && rest < 0x4000
    ensures log2size + split * 64 + fmt * 0x10000 + rest * 0x40000 < TWO_32
    ensures StrtabLog2Size(log2size + split * 64 + fmt * 0x10000 + rest * 0x40000) == log2size
    ensures StrtabSplit(log2size + split * 64 + fmt * 0x10000 + rest * 0x40000) == split
    ensures TwoLevelStrtab(log2size + split * 64 + fmt * 0x10000 + rest * 0x40000) <==> fmt == 1
  {
    var cfg := log2size + split * 64 + fmt * 0x10000 + rest * 0x40000;
    var upper := split + fmt * 0x400 + rest * 0x1000;
    assert cfg == upper * 64 + log2size;
    DivModUnique(cfg, 64, upper, log2size);
    DivModUnique(upper, 32, fmt * 0x20 + rest * 0x80, split);
    var top := fmt + rest * 4;
    assert cfg == top * 0x10000 + (log2size + split * 64);
    DivModUnique(cfg, 0x10000, top, log2size + split * 64);
    DivModUnique(top, 4, rest, fmt);
  }
}
