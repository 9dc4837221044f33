/** The resolver: from a StreamID, SubstreamID and IOVA to the page-table
    walk's end, through the SMMU registers, the Stream Table Entry, the
    Context Descriptor and the translation tables. `Translate` is the
    specification, stage by stage; `Resolve` is the resolver's own
    step-by-step procedure, proved to produce the same outcome and the same
    accesses in the same order. */
module Resolver {
  import opened Machine
  import opened Registers
  import opened Tables
  import opened StreamTable
  import opened ContextDescriptor
  import opened PageTable

  /** Why the resolver stopped. */
  datatype Outcome =
    | SidTooLarge(max: u64)         // beyond IDR1.SIDSIZE or STRTAB_BASE_CFG.LOG2SIZE
    | SsidTooLarge(max: u64)        // beyond IDR1.SSIDSIZE
    | Disabled(gbpa: u32)           // CR0.SMMUEN clear
    | SteInvalid(ste0: u64)
    | BothBypass(ste: Quad)
    | UnknownConfig(ste0: u64)
    | SsidExceedsCdMax(max: u64)    // beyond the STE's S1CDMax
    | CdInvalid(cd: Quad)
    | BothTtbDisabled(cd: Quad)
    | PageWalk(end: WalkEnd)        // the translation tables were walked

  /** An outcome and every register and memory read made to reach it, in order. */
  datatype Run = Run(outcome: Outcome, trace: seq<Access>)

  /** Helper: the run `r` with the reads `pre` made before it. */
  function Prepend(pre: seq<Access>, r: Run): (p: Run)
    ensures p.outcome == r.outcome && p.trace == pre + r.trace
  {
    Run(r.outcome, pre + r.trace)
  }

  /** The register reads made before the stream table is touched. */
  const RegisterReads: seq<Access> :=
    [RegRead(SMMU_IDR1), RegRead(SMMU_CR0), RegRead(SMMU_STRTAB_BASE), RegRead(SMMU_STRTAB_BASE_CFG)]

  /** A trace of register reads only: no memory was read. */
  predicate RegistersOnly(trace: seq<Access>) {
    forall k :: 0 <= k < |trace| ==> trace[k].RegRead?
  }

  lemma RegistersOnlyAppend(a: seq<Access>, b: seq<Access>)
    ensures RegistersOnly(a + b) <==> RegistersOnly(a) && RegistersOnly(b)
  {
    if RegistersOnly(a) && RegistersOnly(b) {
      forall k | 0 <= k < |a + b|
        ensures (a + b)[k].RegRead?
      {
        if k >= |a| {
          assert (a + b)[k] == b[k - |a|];
        }
      }
    }
    if RegistersOnly(a + b) {
      forall k | 0 <= k < |a|
        ensures a[k].RegRead?
      {
        assert (a + b)[k] == a[k];
      }
      forall k | 0 <= k < |b|
        ensures b[k].RegRead?
      {
        assert (a + b)[|a| + k] == b[k];
      }
    }
  }

  /** Stops that happen on register values alone. */
  predicate RegisterStop(o: Outcome) {
    o.SidTooLarge? || o.SsidTooLarge? || o.Disabled?
  }

  /** The whole resolution. The identifier checks against IDR1 and the enable
      check in CR0 come first; the StreamID is then checked against the
      stream table's size; only then is memory read. A run reads memory iff it
      does not stop on a register value, and it makes at most 14 + Levels(ps)
      accesses: 4 register reads, an STE (with a level-1 descriptor), a CD
      (with a level-1 descriptor) and one descriptor per level. */
  function Translate(regs: Registers, mem: Memory, ps: PageSize, sid: u64, ssid: u64, iova: u64): (r: Run)
    ensures |r.trace| > 0 && r.trace[0] == RegRead(SMMU_IDR1)
    ensures RegisterStop(r.outcome) <==> RegistersOnly(r.trace)
    ensures r.outcome.Disabled? <==> IdFits(sid, SidBits(regs.idr1)) && IdFits(ssid, SsidBits(regs.idr1)) && !SmmuEnabled(regs.cr0)
    ensures r.outcome.SsidTooLarge? <==> IdFits(sid, SidBits(regs.idr1)) && !IdFits(ssid, SsidBits(regs.idr1))
    ensures |r.trace| <= 14 + Levels(ps)
  {
    var idr1 := regs.idr1;
    var cfg := regs.strtabBaseCfg;
    if !IdFits(sid, SidBits(idr1)) then
      Run(SidTooLarge(IdMax(SidBits(idr1))), [RegRead(SMMU_IDR1)])
    else if !IdFits(ssid, SsidBits(idr1)) then
      Run(SsidTooLarge(IdMax(SsidBits(idr1))), [RegRead(SMMU_IDR1)])
    else if !SmmuEnabled(regs.cr0) then
      Run(Disabled(regs.gbpa), [RegRead(SMMU_IDR1), RegRead(SMMU_CR0), RegRead(SMMU_GBPA)])
    else if !IdFits(sid, StrtabLog2Size(cfg)) then
      Run(SidTooLarge(IdMax(StrtabLog2Size(cfg))), RegisterReads)
    else
      var r := FromStreamTable(mem, ps, cfg, StrtabBaseAddress(regs.strtabBase), sid, ssid, iova);
      RegistersOnlyAppend(RegisterReads, r.trace);
      Prepend(RegisterReads, r)
  }

  /** From the stream table on: locate and read the STE, then act on it. */
  function FromStreamTable(mem: Memory, ps: PageSize, cfg: u32, strtab: u64, sid: u64, ssid: u64, iova: u64): (r: Run)
    ensures !RegisterStop(r.outcome)
    ensures 4 <= |r.trace| <= 10 + Levels(ps)
    ensures !RegistersOnly(r.trace)
  {
    var loc := LocateSte(mem, cfg, strtab, sid, ps);
    var ste := ReadQuad(mem, loc.base, loc.offset);
    var rest := FromSte(mem, ps, ste, ssid, iova);
    assert !RegistersOnly(QuadReads(loc.base, loc.offset)) by {
      assert QuadReads(loc.base, loc.offset)[0].MemRead?;
    }
    RegistersOnlyAppend(loc.l1Reads, QuadReads(loc.base, loc.offset));
    RegistersOnlyAppend(loc.l1Reads + QuadReads(loc.base, loc.offset), rest.trace);
    Prepend(loc.l1Reads + QuadReads(loc.base, loc.offset), rest)
  }

  /** Acting on the STE: stop, go to the CD table, or walk stage 2 directly. */
  function FromSte(mem: Memory, ps: PageSize, ste: Quad, ssid: u64, iova: u64): (r: Run)
    ensures !RegisterStop(r.outcome)
    ensures |r.trace| <= 5 + Levels(ps)
  {
    match DecodeSte(ste)
    case SteNotValid => Run(SteInvalid(ste.w0), [])
    case SteBypass => Run(BothBypass(ste), [])
    case SteUnknown(_) => Run(UnknownConfig(ste.w0), [])
    case SteStage2(root) => FromRoot(mem, ps, iova, root)
    case SteStage1(cdBase, _, _) => FromCdTable(mem, ps, ste.w0, cdBase, ssid, iova)
  }

  /** Locate and read the CD, then act on it. */
  function FromCdTable(mem: Memory, ps: PageSize, ste0: u64, cdBase: u64, ssid: u64, iova: u64): (r: Run)
    ensures !RegisterStop(r.outcome)
    ensures |r.trace| <= 5 + Levels(ps)
  {
    match LocateCd(mem, ste0, cdBase, ssid, ps)
    case CdSsidTooLarge(max) => Run(SsidExceedsCdMax(max), [])
    case CdAt(_, loc) =>
      var cd := ReadQuad(mem, loc.base, loc.offset);
      Prepend(loc.l1Reads + QuadReads(loc.base, loc.offset), FromCd(mem, ps, cd, iova))
  }

  /** Acting on the CD: stop, or walk the tables from its root. */
  function FromCd(mem: Memory, ps: PageSize, cd: Quad, iova: u64): (r: Run)
    ensures !RegisterStop(r.outcome)
    ensures |r.trace| <= Levels(ps)
  {
    match DecodeCd(cd)
    case CdNotValid => Run(CdInvalid(cd), [])
    case CdBothTtbDisabled => Run(BothTtbDisabled(cd), [])
    case CdRoot(root) => FromRoot(mem, ps, iova, root)
  }

  /** Walking the translation tables from `root`. */
  function FromRoot(mem: Memory, ps: PageSize, iova: u64, root: u64): (r: Run)
    ensures !RegisterStop(r.outcome) && r.outcome.PageWalk?
    ensures |r.trace| <= Levels(ps)
  {
    var w := WalkFrom(mem, ps, iova, root, 0);
    WalkShape(mem, ps, iova, root, 0);
    Run(PageWalk(w.end), MemReads(w.addresses))
  }

  /** `smmu_readq` of the four words of an entry at `offset` in the window
      that maps `base`, stored into a fresh `u64[4]`. */
  method ReadEntry(mem: Memory, base: u64, offset: u64) returns (e: array<u64>)
    ensures fresh(e) && e.Length == 4
    ensures Quad(e[0], e[1], e[2], e[3]) == ReadQuad(mem, base, offset)
  {
    e := new u64[4];
    e[0] := mem(ReadAddress(base, offset));
    e[1] := mem(ReadAddress(base, Wrap(offset + 0x8)));
    e[2] := mem(ReadAddress(base, Wrap(offset + 0x10)));
    e[3] := mem(ReadAddress(base, Wrap(offset + 0x18)));
  }

  /** The level-1 step of a two-level table: the descriptor at byte
      `l1Offset` is read through the page window that holds it, and its
      address field, aligned down to `l2Unit`, is the leaf array. */
  method FollowL1Descriptor(mem: Memory, table: u64, l1Offset: u64, l2Unit: nat) returns (leaf: u64, l1Reads: seq<Access>)
    requires l2Unit > 0
    ensures var loc := TwoLevelLocation(mem, table, l1Offset, l2Unit, 0);
      leaf == loc.base && l1Reads == loc.l1Reads
  {
    var base := Wrap(table + l1Offset / 0x1000 * 0x1000);
    var descAddr := ReadAddress(base, l1Offset % 0x1000);
    var val := mem(descAddr);
    l1Reads := [MemRead(descAddr)];
    leaf := AddressField(val, l2Unit);
  }

  /** The resolver's stream-table lookup: `base` and `mapsz` are set for the
      two-level table (through the level-1 descriptor) or the linear one, and
      the STE sits at `(sid * 64) & (mapsz - 1)` in the window at `base`. */
  method FindSte(mem: Memory, ps: PageSize, cfg: u32, strtab: u64, sid: u64) returns (loc: EntryLocation)
    ensures loc == LocateSte(mem, cfg, strtab, sid, ps)
  {
    var base := strtab;
    var mapsz: u64;
    var l1Reads: seq<Access> := [];
    if TwoLevelStrtab(cfg) {
      var split := StrtabSplit(cfg);
      mapsz := L2WindowSize(split);
      base, l1Reads := FollowL1Descriptor(mem, base, L1DescriptorOffset(sid, split), 64);
    } else {
      base := Wrap(base + Wrap(sid * 64) / 0x1000 * 0x1000);
      mapsz := PageBytes(ps);
    }
    var offset := EntryOffset(sid, mapsz);
    loc := EntryLocation(base, offset, l1Reads);
  }

  /** The resolver's CD lookup: with S1CDMax = 0 the SubstreamID is forced to
      0 and the CD is the one at the CD table base; otherwise the SubstreamID
      is checked against S1CDMax and S1Fmt selects a two-level table (through
      a level-1 descriptor) or the linear one. */
  method FindCd(mem: Memory, ps: PageSize, ste0: u64, cdBase: u64, ssid: u64) returns (found: CdLocation)
    ensures found == LocateCd(mem, ste0, cdBase, ssid, ps)
  {
    var cdMax := S1CdMax(ste0);
    var base := cdBase;
    var id: u64 := ssid;
    var mapsz: u64;
    var l1Reads: seq<Access> := [];
    if cdMax == 0 {
      id := 0;
      mapsz := PageBytes(ps);
    } else if !IdFits(ssid, cdMax) {
      return CdSsidTooLarge(IdMax(cdMax));
    } else if S1Fmt(ste0) == 1 || S1Fmt(ste0) == 2 {
      var fmt := S1Fmt(ste0);
      mapsz := CdLeafBytes(fmt);
      base, l1Reads := FollowL1Descriptor(mem, base, CdL1Offset(ssid, fmt), 0x1000);
    } else {
      base := Wrap(base + Wrap(ssid * 64) / 0x1000 * 0x1000);
      mapsz := PageBytes(ps);
    }
    var offset := EntryOffset(id, mapsz);
    found := CdAt(id, EntryLocation(base, offset, l1Reads));
  }

  /** Locate and read the CD, then act on it. */
  method FollowCdTable(mem: Memory, ps: PageSize, ste0: u64, cdBase: u64, ssid: u64, iova: u64)
    returns (outcome: Outcome, trace: seq<Access>)
    ensures Run(outcome, trace) == FromCdTable(mem, ps, ste0, cdBase, ssid, iova)
  {
    var found := FindCd(mem, ps, ste0, cdBase, ssid);
    if found.CdSsidTooLarge? {
      return SsidExceedsCdMax(found.max), [];
    }
    var loc := found.loc;
    var cde := ReadEntry(mem, loc.base, loc.offset);
    var rest;
    outcome, rest := FollowCd(mem, ps, Quad(cde[0], cde[1], cde[2], cde[3]), iova);
    trace := loc.l1Reads + QuadReads(loc.base, loc.offset) + rest;
  }

  /** The resolver's CD checks, then the walk from the chosen TTB. */
  method FollowCd(mem: Memory, ps: PageSize, cd: Quad, iova: u64) returns (outcome: Outcome, trace: seq<Access>)
    ensures Run(outcome, trace) == FromCd(mem, ps, cd, iova)
  {
    if !CdValid(cd.w0) {
      return CdInvalid(cd), [];
    } else if Epd1(cd.w0) && Epd0(cd.w0) {
      return BothTtbDisabled(cd), [];
    }
    var base;
    if Epd1(cd.w0) {
      base := TtbAddress(cd.w1);
    } else {
      base := TtbAddress(cd.w2);
    }
    outcome, trace := WalkFromRoot(mem, ps, iova, base);
  }

  /** The page-table walk from `root`, its descriptor reads as the trace. */
  method WalkFromRoot(mem: Memory, ps: PageSize, iova: u64, root: u64) returns (outcome: Outcome, trace: seq<Access>)
    ensures Run(outcome, trace) == FromRoot(mem, ps, iova, root)
  {
    var end, addresses := WalkTables(mem, ps, iova, root);
    WalkLoopIsWalkFrom(mem, ps, iova, root);
    return PageWalk(end), MemReads(addresses);
  }

  /** The resolver's STE checks: V, then Config; stage-1 goes on to the CD
      table, stage-2 straight to the page-table walk. */
  method FollowSte(mem: Memory, ps: PageSize, ste: Quad, ssid: u64, iova: u64) returns (outcome: Outcome, trace: seq<Access>)
    ensures Run(outcome, trace) == FromSte(mem, ps, ste, ssid, iova)
  {
    if !SteValid(ste.w0) {
      return SteInvalid(ste.w0), [];
    }
    var config := SteConfig(ste.w0);
    if config == 4 {
      return BothBypass(ste), [];
    } else if config == 5 {
      var base := S1ContextPtr(ste.w0);
      outcome, trace := FollowCdTable(mem, ps, ste.w0, base, ssid, iova);
    } else if config == 6 {
      var base := S2Ttb(ste.w3);
      outcome, trace := WalkFromRoot(mem, ps, iova, base);
    } else {
      return UnknownConfig(ste.w0), [];
    }
  }

  /** The resolver from the register checks on: IDR1's StreamID and
      SubstreamID widths, CR0.SMMUEN (reading GBPA when it is clear), the
      StreamID against STRTAB_BASE_CFG.LOG2SIZE, and then the stream table.
      It produces exactly the outcome and the accesses of `Translate`. */
  method Resolve(regs: Registers, mem: Memory, ps: PageSize, sid: u64, ssid: u64, iova: u64)
    returns (outcome: Outcome, trace: seq<Access>)
    ensures Run(outcome, trace) == Translate(regs, mem, ps, sid, ssid, iova)
  {
    var reg := regs.idr1;
    if !IdFits(sid, SidBits(reg)) {
      return SidTooLarge(IdMax(SidBits(reg))), [RegRead(SMMU_IDR1)];
    }
    if !IdFits(ssid, SsidBits(reg)) {
      return SsidTooLarge(IdMax(SsidBits(reg))), [RegRead(SMMU_IDR1)];
    }
    reg := regs.cr0;
    if !SmmuEnabled(reg) {
      reg := regs.gbpa;
      return Disabled(reg), [RegRead(SMMU_IDR1), RegRead(SMMU_CR0), RegRead(SMMU_GBPA)];
    }
    var val := regs.strtabBase;
    var cfg := regs.strtabBaseCfg;
    if !IdFits(sid, StrtabLog2Size(cfg)) {
      return SidTooLarge(IdMax(StrtabLog2Size(cfg))), RegisterReads;
    }
    var loc := FindSte(mem, ps, cfg, StrtabBaseAddress(val), sid);
    var ste := ReadEntry(mem, loc.base, loc.offset);
    var rest;
    outcome, rest := FollowSte(mem, ps, Quad(ste[0], ste[1], ste[2], ste[3]), ssid, iova);
    trace := RegisterReads + (loc.l1Reads + QuadReads(loc.base, loc.offset) + rest);
  }
}
