/** What a resolution reads and where it stops, stated over `Translate`:
    register stops read no memory and do not depend on it, STE and CD stops
    end the trace at the entry that caused them, a stage-1 STE goes on to its
    CD table and a stage-2 STE skips it, S1CDMax = 0 makes the SubstreamID
    irrelevant, a walk's output is an aligned physical address, and tables
    built for an IOVA resolve it to exactly the output address they hold. */
module ResolverProperties {
  import opened Machine
  import opened Registers
  import opened Tables
  import opened StreamTable
  import opened ContextDescriptor
  import opened PageTable
  import opened Resolver

  /** The identifier and enable checks against IDR1, CR0 and
      STRTAB_BASE_CFG all pass. */
  predicate PassesRegisterChecks(regs: Registers, sid: u64, ssid: u64) {
    && IdFits(sid, SidBits(regs.idr1))
    && IdFits(ssid, SsidBits(regs.idr1))
    && SmmuEnabled(regs.cr0)
    && IdFits(sid, StrtabLog2Size(regs.strtabBaseCfg))
  }

  /** Where the STE of `sid` is, and the reads that fetch it. */
  function SteLocation(regs: Registers, mem: Memory, ps: PageSize, sid: u64): (loc: EntryLocation) {
    LocateSte(mem, regs.strtabBaseCfg, StrtabBaseAddress(regs.strtabBase), sid, ps)
  }

  /** The reads that fetch the STE of `sid`: any level-1 read, then its four words. */
  function SteReads(regs: Registers, mem: Memory, ps: PageSize, sid: u64): (accesses: seq<Access>) {
    var loc := SteLocation(regs, mem, ps, sid);
    loc.l1Reads + QuadReads(loc.base, loc.offset)
  }

  /** The STE of `sid`. */
  function SteOf(regs: Registers, mem: Memory, ps: PageSize, sid: u64): (ste: Quad) {
    var loc := SteLocation(regs, mem, ps, sid);
    ReadQuad(mem, loc.base, loc.offset)
  }

  /** A StreamID beyond IDR1.SIDSIZE or beyond STRTAB_BASE_CFG.LOG2SIZE, or a
      SubstreamID beyond IDR1.SSIDSIZE, stops the resolution before the
      stream table is read, and so does a clear CR0.SMMUEN, which reads GBPA
      and reports it. */
  lemma RegisterStops(regs: Registers, mem: Memory, ps: PageSize, sid: u64, ssid: u64, iova: u64)
    ensures var r := Translate(regs, mem, ps, sid, ssid, iova);
      && (RegisterStop(r.outcome) <==> !PassesRegisterChecks(regs, sid, ssid))
      && (r.outcome.SidTooLarge? <==>
            || !IdFits(sid, SidBits(regs.idr1))
            || (IdFits(ssid, SsidBits(regs.idr1)) && SmmuEnabled(regs.cr0)
                && !IdFits(sid, StrtabLog2Size(regs.strtabBaseCfg))))
      && (r.outcome.SsidTooLarge? ==> r.trace == [RegRead(SMMU_IDR1)])
      && (r.outcome.Disabled? ==>
            r.outcome.gbpa == regs.gbpa && r.trace == [RegRead(SMMU_IDR1), RegRead(SMMU_CR0), RegRead(SMMU_GBPA)])
      && (RegisterStop(r.outcome) ==> RegistersOnly(r.trace) && |r.trace| <= 4)
  {
  }

  /** A register stop depends on neither memory, nor the page size, nor the
      IOVA. */
  lemma RegisterStopIgnoresMemory(regs: Registers, mem: Memory, mem': Memory, ps: PageSize, ps': PageSize,
                                  sid: u64, ssid: u64, iova: u64, iova': u64)
    requires !PassesRegisterChecks(regs, sid, ssid)
    ensures Translate(regs, mem, ps, sid, ssid, iova) == Translate(regs, mem', ps', sid, ssid, iova')
  {
  }

  /** Once the register checks pass, the resolution reads the four
      registers, then the STE (through a level-1 descriptor in a two-level
      table), then whatever the STE leads to. An invalid STE, a bypass STE and
      one with an unknown Config stop right after the STE; a stage-1 STE goes
      on to the CD table at its S1ContextPtr; a stage-2 STE walks the tables
      from its S2TTB with no CD read in between. */
  lemma SteStops(regs: Registers, mem: Memory, ps: PageSize, sid: u64, ssid: u64, iova: u64)
    requires PassesRegisterChecks(regs, sid, ssid)
    ensures var r := Translate(regs, mem, ps, sid, ssid, iova);
      var ste := SteOf(regs, mem, ps, sid);
      var prefix := RegisterReads + SteReads(regs, mem, ps, sid);
      && r.trace[..4] == RegisterReads
      && (!SteValid(ste.w0) ==> r == Run(SteInvalid(ste.w0), prefix))
      && (SteValid(ste.w0) && SteConfig(ste.w0) == 4 ==> r == Run(BothBypass(ste), prefix))
      && (SteValid(ste.w0) && SteConfig(ste.w0) !in {4, 5, 6} ==> r == Run(UnknownConfig(ste.w0), prefix))
      && (SteValid(ste.w0) && SteConfig(ste.w0) == 5 ==>
            r == Prepend(prefix, FromCdTable(mem, ps, ste.w0, S1ContextPtr(ste.w0), ssid, iova)))
      && (SteValid(ste.w0) && SteConfig(ste.w0) == 6 ==>
            var w := WalkFrom(mem, ps, iova, S2Ttb(ste.w3), 0);
            r == Run(PageWalk(w.end), prefix + MemReads(w.addresses)))
  {
    var loc := SteLocation(regs, mem, ps, sid);
    var steReads := SteReads(regs, mem, ps, sid);
    var rest := FromSte(mem, ps, SteOf(regs, mem, ps, sid), ssid, iova);
    assert Translate(regs, mem, ps, sid, ssid, iova).trace == RegisterReads + (steReads + rest.trace);
    assert RegisterReads + (steReads + rest.trace) == RegisterReads + steReads + rest.trace;
    assert steReads + [] == steReads;
  }

  /** A stage-1 STE: the CD stage. A SubstreamID beyond S1CDMax stops it
      with no CD read; an invalid CD, or one with both TTBs disabled, stops it
      after the CD, with no translation-table read; a CD with a root goes on
      to the walk from that root right after the CD. */
  lemma CdStops(mem: Memory, ps: PageSize, ste0: u64, cdBase: u64, ssid: u64, iova: u64)
    ensures var r := FromCdTable(mem, ps, ste0, cdBase, ssid, iova);
      && (r.outcome.SsidExceedsCdMax? <==> S1CdMax(ste0) > 0 && !IdFits(ssid, S1CdMax(ste0)))
      && (r.outcome.SsidExceedsCdMax? ==> r.trace == [] && r.outcome.max == IdMax(S1CdMax(ste0)))
      && (r.outcome.CdInvalid? || r.outcome.BothTtbDisabled? ==>
            var found := LocateCd(mem, ste0, cdBase, ssid, ps);
            && found.CdAt?
            && r.trace == found.loc.l1Reads + QuadReads(found.loc.base, found.loc.offset))
      && (var found := LocateCd(mem, ste0, cdBase, ssid, ps);
          found.CdAt? ==>
            var d := DecodeCd(ReadQuad(mem, found.loc.base, found.loc.offset));
            d.CdRoot? ==>
              var w := WalkFrom(mem, ps, iova, d.root, 0);
              r == Run(PageWalk(w.end), found.loc.l1Reads + QuadReads(found.loc.base, found.loc.offset) + MemReads(w.addresses)))
  {
    match LocateCd(mem, ste0, cdBase, ssid, ps)
    case CdSsidTooLarge(_) =>
    case CdAt(_, loc) =>
      var cdReads := loc.l1Reads + QuadReads(loc.base, loc.offset);
      var rest := FromCd(mem, ps, ReadQuad(mem, loc.base, loc.offset), iova);
      assert FromCdTable(mem, ps, ste0, cdBase, ssid, iova) == Run(rest.outcome, cdReads + rest.trace);
      assert rest.outcome.CdInvalid? || rest.outcome.BothTtbDisabled? ==> rest.trace == [];
      assert cdReads + [] == cdReads;
  }

  /** With S1CDMax = 0 the SubstreamID is ignored: once it passes the IDR1
      check, every SubstreamID resolves as SubstreamID 0 does. */
  lemma SingleCdIgnoresSubstream(regs: Registers, mem: Memory, ps: PageSize, sid: u64, ssid: u64, iova: u64)
    requires IdFits(ssid, SsidBits(regs.idr1))
    requires S1CdMax(SteOf(regs, mem, ps, sid).w0) == 0
    ensures Translate(regs, mem, ps, sid, ssid, iova) == Translate(regs, mem, ps, sid, 0, iova)
  {
    var ste := SteOf(regs, mem, ps, sid);
    assert IdFits(0, SsidBits(regs.idr1));
    SingleCdIgnoresSsid(mem, ste.w0, S1ContextPtr(ste.w0), ssid, ps);
  }

  /** A walk that ends at a block hands back an output base aligned to the
      block size of its level (`1 << idx`), and one that runs through every
      level hands back a 4K-aligned page; both are physical addresses below
      2^52. */
  lemma WalkOutputAligned(mem: Memory, ps: PageSize, iova: u64, root: u64)
    ensures var w := WalkFrom(mem, ps, iova, root, 0);
      && (w.end.Block? ==>
            var idx := IndexShift(ps, w.end.level);
            w.end.base % Pow2(idx) == 0 && w.end.base < TWO_52
            && w.end.base <= w.end.pte % TWO_52 < w.end.base + Pow2(idx))
      && (w.end.Walked? ==> w.end.base % 0x1000 == 0 && w.end.base < TWO_52)
  {
    var w := WalkFrom(mem, ps, iova, root, 0);
    WalkShape(mem, ps, iova, root, 0);
    var n := |w.addresses|;
    match w.end
    case Block(l, pte, b) =>
      AddressFieldBounds(pte, Pow2(IndexShift(ps, l)));
    case Walked(b) =>
      assert n > 0;
      AddressFieldBounds(mem(w.addresses[n - 1]), 0x1000);
    case PteInvalid(_, _) =>
  }

  /** The reads of the four words of a 32-byte entry at `addr`. */
  function EntryReads(addr: int): (accesses: seq<Access>) {
    [MemRead(Wrap(addr)), MemRead(Wrap(addr + 8)), MemRead(Wrap(addr + 16)), MemRead(Wrap(addr + 24))]
  }

  /** Four reads at `addr + 8k` are the reads of the entry at `addr`. */
  lemma AreEntryReads(accesses: seq<Access>, addr: int)
    requires |accesses| == 4 && forall k :: 0 <= k < 4 ==> accesses[k] == MemRead(Wrap(addr + 8 * k))
    ensures accesses == EntryReads(addr)
  {
    assert accesses[0] == MemRead(Wrap(addr + 8 * 0));
    assert accesses[1] == MemRead(Wrap(addr + 8 * 1));
    assert accesses[2] == MemRead(Wrap(addr + 8 * 2));
    assert accesses[3] == MemRead(Wrap(addr + 8 * 3));
  }

  /** A stage-1 STE with S1CDMax = 0, assembled from the CD table base
      `cdBase`, S1Fmt `fmt` and the `other` low bits, stored at
      `strtab + sid * 64` of a linear stream table. */
  predicate Stage1SteAt(regs: Registers, mem: Memory, sid: u64, cdBase: u64, fmt: nat, other: nat) {
    && !TwoLevelStrtab(regs.strtabBaseCfg)
    && cdBase < TWO_52 && cdBase % 64 == 0 && fmt < 4 && other < 0x80
    && mem(Wrap(StrtabBaseAddress(regs.strtabBase) + sid * 64)) == Stage1SteWord0(cdBase, 0, fmt, other)
  }

  /** A valid CD at `cdBase` with one TTB enabled, whose chosen TTB word
      holds the table base `root`. */
  predicate SingleCdAt(mem: Memory, cdBase: u64, root: u64, ttbHigh: nat, ttbLow: nat) {
    && CdValid(mem(cdBase)) && !(Epd1(mem(cdBase)) && Epd0(mem(cdBase)))
    && root < TWO_52 && root % 16 == 0 && ttbLow < 16
    && mem(if Epd1(mem(cdBase)) then Wrap(cdBase + 8) else Wrap(cdBase + 16)) == ttbHigh * TWO_52 + root + ttbLow
  }

  /** 4K granule: a table descriptor pointing at `table` at level 0 of
      `root`, and a 1GB block descriptor holding `out` at level 1 of `table`. */
  predicate BlockTablesAt(mem: Memory, iova: u64, root: u64, table: u64, tableHigh: nat, tableLow: nat,
                          out: u64, blockHigh: nat, blockLow: nat) {
    && table < TWO_52 && table % 0x1000 == 0 && tableLow < 0x1000 && tableLow % 4 == 3
    && mem(PteAddress(root, iova, 39)) == tableHigh * TWO_52 + table + tableLow
    && out < TWO_52 && out % 0x4000_0000 == 0 && blockLow < 0x4000_0000 && blockLow % 4 == 1
    && mem(PteAddress(table, iova, 30)) == blockHigh * TWO_52 + out + blockLow
  }

  /** End to end, for a linear stream table with 4K pages, a stage-1 STE
      with a single CD (S1CDMax = 0), and translation tables that hold a
      table descriptor at level 0 and a 1GB block descriptor at level 1: the
      resolution reads the four registers, the STE at `strtab + sid * 64`, the
      CD at the STE's S1ContextPtr and one descriptor at each of the two
      levels, and hands back exactly the output address stored in the block
      descriptor. */
  lemma Stage1BlockRoundTrip(regs: Registers, mem: Memory, sid: u64, ssid: u64, iova: u64,
                             cdBase: u64, fmt: nat, other: nat,
                             root: u64, ttbHigh: nat, ttbLow: nat,
                             table: u64, tableHigh: nat, tableLow: nat,
                             out: u64, blockHigh: nat, blockLow: nat)
    requires PassesRegisterChecks(regs, sid, ssid)
    requires Stage1SteAt(regs, mem, sid, cdBase, fmt, other)
    requires SingleCdAt(mem, cdBase, root, ttbHigh, ttbLow)
    requires BlockTablesAt(mem, iova, root, table, tableHigh, tableLow, out, blockHigh, blockLow)
    ensures Translate(regs, mem, Page4K, sid, ssid, iova)
      == Run(PageWalk(Block(1, mem(PteAddress(table, iova, 30)), out)),
             RegisterReads + EntryReads(StrtabBaseAddress(regs.strtabBase) + sid * 64) + EntryReads(cdBase)
               + [MemRead(PteAddress(root, iova, 39)), MemRead(PteAddress(table, iova, 30))])
  {
    Stage1SingleCd(regs, mem, sid, ssid, iova, cdBase, fmt, other);
    Stage1CdWalk(mem, ssid, iova, cdBase, fmt, other, root, ttbHigh, ttbLow,
                 table, tableHigh, tableLow, out, blockHigh, blockLow);
    var prefix := RegisterReads + EntryReads(StrtabBaseAddress(regs.strtabBase) + sid * 64);
    var tail := [MemRead(PteAddress(root, iova, 39)), MemRead(PteAddress(table, iova, 30))];
    assert prefix + (EntryReads(cdBase) + tail) == prefix + EntryReads(cdBase) + tail;
  }

  /** The CD and page-table stages of `Stage1BlockRoundTrip`: from the
      single CD at `cdBase`, the resolution reads that CD and the two
      descriptors, and ends with the block holding `out`. */
  lemma Stage1CdWalk(mem: Memory, ssid: u64, iova: u64, cdBase: u64, fmt: nat, other: nat,
                     root: u64, ttbHigh: nat, ttbLow: nat,
                     table: u64, tableHigh: nat, tableLow: nat,
                     out: u64, blockHigh: nat, blockLow: nat)
    requires cdBase < TWO_52 && cdBase % 64 == 0 && fmt < 4 && other < 0x80
    requires SingleCdAt(mem, cdBase, root, ttbHigh, ttbLow)
    requires BlockTablesAt(mem, iova, root, table, tableHigh, tableLow, out, blockHigh, blockLow)
    ensures FromCdTable(mem, Page4K, Stage1SteWord0(cdBase, 0, fmt, other), cdBase, ssid, iova)
      == Run(PageWalk(Block(1, mem(PteAddress(table, iova, 30)), out)),
             EntryReads(cdBase) + [MemRead(PteAddress(root, iova, 39)), MemRead(PteAddress(table, iova, 30))])
  {
    var walk := [PteAddress(root, iova, 39), PteAddress(table, iova, 30)];
    Stage1Word0Fields(cdBase, fmt, other);
    SingleCdRoot(mem, Stage1SteWord0(cdBase, 0, fmt, other), cdBase, ssid, iova, root, ttbHigh, ttbLow);
    TwoLevelBlockWalk(mem, iova, root, table, tableHigh, tableLow, out, blockHigh, blockLow);
    assert MemReads(walk) == [MemRead(walk[0]), MemRead(walk[1])];
  }

  /** A linear stream table with 4K pages and a stage-1 STE with
      S1CDMax = 0 at `strtab + sid * 64`: the resolution reads the registers
      and the STE there, then goes on to the CD table at its S1ContextPtr. */
  lemma Stage1SingleCd(regs: Registers, mem: Memory, sid: u64, ssid: u64, iova: u64, cdBase: u64, fmt: nat, other: nat)
    requires PassesRegisterChecks(regs, sid, ssid)
    requires Stage1SteAt(regs, mem, sid, cdBase, fmt, other)
    ensures Translate(regs, mem, Page4K, sid, ssid, iova)
      == Prepend(RegisterReads + EntryReads(StrtabBaseAddress(regs.strtabBase) + sid * 64),
                 FromCdTable(mem, Page4K, Stage1SteWord0(cdBase, 0, fmt, other), cdBase, ssid, iova))
  {
    LinearSteWord0(regs, mem, sid);
    Stage1Word0Fields(cdBase, fmt, other);
    SteReadsLinear(regs, mem, sid);
    Stage1Continues(regs, mem, Page4K, sid, ssid, iova);
  }

  /** The Config 5 case of `SteStops` on its own. */
  lemma Stage1Continues(regs: Registers, mem: Memory, ps: PageSize, sid: u64, ssid: u64, iova: u64)
    requires PassesRegisterChecks(regs, sid, ssid)
    requires SteValid(SteOf(regs, mem, ps, sid).w0) && SteConfig(SteOf(regs, mem, ps, sid).w0) == 5
    ensures var ste0 := SteOf(regs, mem, ps, sid).w0;
      Translate(regs, mem, ps, sid, ssid, iova)
        == Prepend(RegisterReads + SteReads(regs, mem, ps, sid), FromCdTable(mem, ps, ste0, S1ContextPtr(ste0), ssid, iova))
  {
    SteStops(regs, mem, ps, sid, ssid, iova);
  }

  /** Linear stream table, 4K pages: word 0 of the STE of `sid` is the
      memory word at `strtab + sid * 64`. */
  lemma LinearSteWord0(regs: Registers, mem: Memory, sid: u64)
    requires !TwoLevelStrtab(regs.strtabBaseCfg)
    ensures SteOf(regs, mem, Page4K, sid).w0 == mem(Wrap(StrtabBaseAddress(regs.strtabBase) + sid * 64))
  {
    var strtab := StrtabBaseAddress(regs.strtabBase);
    var loc := SteLocation(regs, mem, Page4K, sid);
    LinearSteAddress4K(mem, regs.strtabBaseCfg, strtab, sid);
    assert QuadReads(loc.base, loc.offset)[0] == MemRead(Wrap(strtab + sid * 64 + 8 * 0));
  }

  /** A stage-1 word 0 assembled with S1CDMax = 0 is valid, has Config 5,
      and carries its CD table base. */
  lemma Stage1Word0Fields(cdBase: u64, fmt: nat, other: nat)
    requires cdBase < TWO_52 && cdBase % 64 == 0 && fmt < 4 && other < 0x80
    ensures var w0 := Stage1SteWord0(cdBase, 0, fmt, other);
      SteValid(w0) && SteConfig(w0) == 5 && S1ContextPtr(w0) == cdBase && S1CdMax(w0) == 0
  {
    var w0 := Stage1SteWord0(cdBase, 0, fmt, other);
    Stage1SteRoundTrip(cdBase, 0, fmt, other, 0, 0, 0);
    LowNibble(w0);
  }

  /** Linear stream table, 4K pages: the STE reads are those of the entry at
      `strtab + sid * 64`. */
  lemma SteReadsLinear(regs: Registers, mem: Memory, sid: u64)
    requires !TwoLevelStrtab(regs.strtabBaseCfg)
    ensures SteReads(regs, mem, Page4K, sid) == EntryReads(StrtabBaseAddress(regs.strtabBase) + sid * 64)
  {
    var strtab := StrtabBaseAddress(regs.strtabBase);
    var loc := SteLocation(regs, mem, Page4K, sid);
    LinearSteAddress4K(mem, regs.strtabBaseCfg, strtab, sid);
    AreEntryReads(QuadReads(loc.base, loc.offset), strtab + sid * 64);
    assert [] + QuadReads(loc.base, loc.offset) == QuadReads(loc.base, loc.offset);
  }

  /** A single CD (S1CDMax = 0) at `cdBase`, valid, with one TTB enabled and
      `root` stored in the TTB word the resolver picks: the CD stage reads the
      CD at `cdBase + 8k` and goes on to the walk from `root`. */
  lemma SingleCdRoot(mem: Memory, ste0: u64, cdBase: u64, ssid: u64, iova: u64, root: u64, ttbHigh: nat, ttbLow: nat)
    requires S1CdMax(ste0) == 0
    requires CdValid(mem(cdBase)) && !(Epd1(mem(cdBase)) && Epd0(mem(cdBase)))
    requires root < TWO_52 && root % 16 == 0 && ttbLow < 16
    requires mem(if Epd1(mem(cdBase)) then Wrap(cdBase + 8) else Wrap(cdBase + 16)) == ttbHigh * TWO_52 + root + ttbLow
    ensures var w := WalkFrom(mem, Page4K, iova, root, 0);
      FromCdTable(mem, Page4K, ste0, cdBase, ssid, iova) == Run(PageWalk(w.end), EntryReads(cdBase) + MemReads(w.addresses))
  {
    SingleCdIgnoresSsid(mem, ste0, cdBase, ssid, Page4K);
    ReadQuadAt(mem, cdBase, 0);
    CdRootRoundTrip(ReadQuad(mem, cdBase, 0), ttbHigh, root, ttbLow);
    CdStops(mem, Page4K, ste0, cdBase, ssid, iova);
    AreEntryReads(QuadReads(cdBase, 0), cdBase);
    assert [] + QuadReads(cdBase, 0) == QuadReads(cdBase, 0);
  }

  /** 4K granule: a table descriptor at level 0 of `root` pointing at
      `table`, and a block descriptor at level 1 of `table` holding `out`,
      end the walk at level 1 with exactly `out`, after those two reads. */
  lemma TwoLevelBlockWalk(mem: Memory, iova: u64, root: u64, table: u64, tableHigh: nat, tableLow: nat,
                          out: u64, blockHigh: nat, blockLow: nat)
    requires table < TWO_52 && table % 0x1000 == 0 && tableLow < 0x1000 && tableLow % 4 == 3
    requires mem(PteAddress(root, iova, 39)) == tableHigh * TWO_52 + table + tableLow
    requires out < TWO_52 && out % 0x4000_0000 == 0 && blockLow < 0x4000_0000 && blockLow % 4 == 1
    requires mem(PteAddress(table, iova, 30)) == blockHigh * TWO_52 + out + blockLow
    ensures WalkFrom(mem, Page4K, iova, root, 0)
      == Walk(Block(1, mem(PteAddress(table, iova, 30)), out), [PteAddress(root, iova, 39), PteAddress(table, iova, 30)])
  {
    assert IndexShift(Page4K, 0) == 39 && IndexShift(Page4K, 1) == 30;
    assert Pow2(30) == 0x4000_0000;
    TableRoundTrip(mem, Page4K, iova, root, 0, tableHigh, table, tableLow);
    BlockRoundTrip(mem, Page4K, iova, table, 1, blockHigh, out, blockLow);
  }
}
