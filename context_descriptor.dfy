/** Locating the Context Descriptor a stage-1 STE selects for a SubstreamID,
    and picking the translation-table root from it (Arm SMMUv3, section 5.4). */
module ContextDescriptor {
  import opened Machine
  import opened Registers
  import opened Tables
  import opened StreamTable

  /** Where the CD is, or the S1CDMax range check that failed. `ssid` is the
      SubstreamID the CD was located for, after S1CDMax = 0 forced it to 0. */
  datatype CdLocation =
    | CdSsidTooLarge(max: u64)
    | CdAt(ssid: u64, loc: EntryLocation)

  /** Size of a level-2 CD array for S1Fmt 1 (4K) and 2 (64K). */
  function CdLeafBytes(fmt: nat): (w: u64)
    requires fmt == 1 || fmt == 2
    ensures fmt == 1 ==> w == 0x1000
    ensures fmt == 2 ==> w == 0x10000
  {
    if fmt == 1 then 0x1000 else 0x10000
  }

  /** Offset of the level-1 CD descriptor: `(ssid / (W / 64)) * 8` with W the
      leaf size. */
  function CdL1Offset(ssid: u64, fmt: nat): (o: u64)
    requires fmt == 1 || fmt == 2
  {
    Wrap(ssid / (CdLeafBytes(fmt) / 64) * 8)
  }

  /** Offset of the CD in its leaf: `(ssid * 64) & (W - 1)`. */
  function CdLeafOffset(ssid: u64, fmt: nat): (o: u64)
    requires fmt == 1 || fmt == 2
  {
    EntryOffset(ssid, CdLeafBytes(fmt))
  }

  /** Finds the CD of `ssid` from the STE word 0 `ste0` and the CD table base
      `cdBase` (its S1ContextPtr).
      S1CDMax = 0: there is a single CD at `cdBase`, whatever SubstreamID was
      asked for. Otherwise `ssid` must be below 2^S1CDMax, and S1Fmt selects a
      two-level table (1: 4K leaves, 2: 64K leaves; the level-1 descriptor at
      `(ssid / (W / 64)) * 8`, its address field aligned to 4K, the CD at
      `(ssid * 64) & (W - 1)`) or the linear one. */
  function LocateCd(mem: Memory, ste0: u64, cdBase: u64, ssid: u64, ps: PageSize): (r: CdLocation)
    ensures S1CdMax(ste0) == 0 ==> r == CdAt(0, EntryLocation(cdBase, 0, []))
    ensures S1CdMax(ste0) > 0 ==> (r.CdSsidTooLarge? <==> ssid >= Pow2(S1CdMax(ste0)))
    ensures r.CdSsidTooLarge? ==> r.max == Pow2(S1CdMax(ste0)) - 1
    ensures r.CdAt? && S1CdMax(ste0) > 0 ==> r.ssid == ssid
    ensures r.CdAt? ==> |r.loc.l1Reads| == (if S1CdMax(ste0) > 0 && S1Fmt(ste0) in {1, 2} then 1 else 0)
  {
    var cdMax := S1CdMax(ste0);
    if cdMax == 0 then
      CdAt(0, EntryLocation(cdBase, EntryOffset(0, PageBytes(ps)), []))
    else if !IdFits(ssid, cdMax) then
      CdSsidTooLarge(IdMax(cdMax))
    else
      var fmt := S1Fmt(ste0);
      if fmt == 1 || fmt == 2 then
        CdAt(ssid, TwoLevelLocation(mem, cdBase, CdL1Offset(ssid, fmt), 0x1000, CdLeafOffset(ssid, fmt)))
      else
        CdAt(ssid, LinearLocation(cdBase, ssid, ps))
  }

  /** With S1CDMax = 0 the SubstreamID does not matter: every SubstreamID gets
      the CD at the CD table base, read at `cdBase + 8k`. */
  lemma SingleCdIgnoresSsid(mem: Memory, ste0: u64, cdBase: u64, ssid: u64, ps: PageSize)
    requires S1CdMax(ste0) == 0
    ensures LocateCd(mem, ste0, cdBase, ssid, ps) == LocateCd(mem, ste0, cdBase, 0, ps)
    ensures var r := LocateCd(mem, ste0, cdBase, ssid, ps);
      && r.CdAt? && r.ssid == 0 && r.loc.l1Reads == []
      && (forall k :: 0 <= k < 4 ==> QuadReads(r.loc.base, r.loc.offset)[k] == MemRead(Wrap(cdBase + 8 * k)))
  {
    QuadReadsAt(cdBase, 0);
  }

  /** Two-level CD table (S1Fmt 1 or 2, leaf size W): the level-1 descriptor is
      read at `cdBase + (ssid / (W / 64)) * 8`, the leaf array is its address
      field aligned to 4K, and CD word k is read at
      `leaf + (ssid mod (W / 64)) * 64 + 8k`. */
  lemma TwoLevelCdAddress(mem: Memory, ste0: u64, cdBase: u64, ssid: u64, ps: PageSize)
    requires S1CdMax(ste0) > 0 && ssid < Pow2(S1CdMax(ste0))
    requires S1Fmt(ste0) == 1 || S1Fmt(ste0) == 2
    ensures var n := CdLeafBytes(S1Fmt(ste0)) / 64;
      var descAddr := Wrap(cdBase + ssid / n * 8);
      var r := LocateCd(mem, ste0, cdBase, ssid, ps);
      && r.CdAt?
      && r.loc.l1Reads == [MemRead(descAddr)]
      && r.loc.base == AddressField(mem(descAddr), 0x1000)
      && (forall k :: 0 <= k < 4 ==>
            QuadReads(r.loc.base, r.loc.offset)[k] == MemRead(Wrap(r.loc.base + ssid % n * 64 + 8 * k)))
  {
    var fmt := S1Fmt(ste0);
    SsidBelow2To31(ssid, S1CdMax(ste0));
    TwoLevelCdOffsets(ssid, fmt);
    TwoLevelDescriptor(mem, cdBase, CdL1Offset(ssid, fmt), 0x1000, CdLeafOffset(ssid, fmt));
    var loc := TwoLevelLocation(mem, cdBase, CdL1Offset(ssid, fmt), 0x1000, CdLeafOffset(ssid, fmt));
    QuadReadsAt(loc.base, loc.offset);
  }

  /** For a SubstreamID below 2^31 neither offset of the two-level CD walk
      wraps, and the leaf offset is the SubstreamID's slot within its leaf. */
  lemma TwoLevelCdOffsets(ssid: u64, fmt: nat)
    requires ssid < TWO_31 && (fmt == 1 || fmt == 2)
    ensures var n := CdLeafBytes(fmt) / 64;
      && CdL1Offset(ssid, fmt) == ssid / n * 8
      && CdLeafOffset(ssid, fmt) == ssid % n * 64
      && ssid % n * 64 + 0x18 < TWO_31
  {
    var w := CdLeafBytes(fmt);
    var n := w / 64;
    assert ssid / n * 8 <= ssid;
    assert Wrap(ssid * 64) == ssid * 64;
    assert n * 64 == w;
    ScaledMod(ssid, 64, n);
  }

  /** A SubstreamID that passed the S1CDMax check is below 2^31. */
  lemma SsidBelow2To31(ssid: u64, cdMax: nat)
    requires cdMax < 32 && ssid < Pow2(cdMax)
    ensures ssid < TWO_31
  {
    Pow2Monotone(cdMax, 31);
    Pow2Add(16, 15);
    Pow2Add(12, 3);
    Pow2Values();
  }

  /** Linear CD table with 4K pages: CD word k of `ssid` is read at
      `cdBase + ssid * 64 + 8k`. */
  lemma LinearCdAddress4K(mem: Memory, ste0: u64, cdBase: u64, ssid: u64)
    requires S1CdMax(ste0) > 0 && ssid < Pow2(S1CdMax(ste0))
    requires S1Fmt(ste0) != 1 && S1Fmt(ste0) != 2
    ensures var r := LocateCd(mem, ste0, cdBase, ssid, Page4K);
      && r.CdAt? && r.loc.l1Reads == []
      && (forall k :: 0 <= k < 4 ==>
            QuadReads(r.loc.base, r.loc.offset)[k] == MemRead(Wrap(cdBase + ssid * 64 + 8 * k)))
  {
    LinearQuadReads(cdBase, ssid, Page4K);
  }

  /** CD.V, word 0 bit 31. */
  predicate CdValid(w0: u64) {
    w0 / 0x8000_0000 % 2 == 1
  }

  /** CD.EPD1, word 0 bit 30: walks through TTB1 are disabled. */
  predicate Epd1(w0: u64) {
    w0 / 0x4000_0000 % 2 == 1
  }

  /** CD.EPD0, word 0 bit 14: walks through TTB0 are disabled. */
  predicate Epd0(w0: u64) {
    w0 / 0x4000 % 2 == 1
  }

  /** A TTB field as the resolver extracts it: bits 4..51 of the word. */
  function TtbAddress(w: u64): (p: u64)
    ensures p < TWO_52 && p % 16 == 0
    ensures p <= w % TWO_52 < p + 16
  {
    AddressField(w, 16)
  }

  /** What a CD tells the resolver to do next. */
  datatype CdDecision =
    | CdNotValid
    | CdBothTtbDisabled
    | CdRoot(root: u64)

  /** The resolver's CD checks: V, then both EPD bits, and then the root comes
      from TTB0 (word 1) when EPD1 is set and from TTB1 (word 2) otherwise. */
  function DecodeCd(cd: Quad): (d: CdDecision)
    ensures d.CdNotValid? <==> !CdValid(cd.w0)
    ensures d.CdBothTtbDisabled? <==> CdValid(cd.w0) && Epd1(cd.w0) && Epd0(cd.w0)
    ensures d.CdRoot? <==> CdValid(cd.w0) && !(Epd1(cd.w0) && Epd0(cd.w0))
    ensures d.CdRoot? && Epd1(cd.w0) ==> d.root == TtbAddress(cd.w1)
    ensures d.CdRoot? && !Epd1(cd.w0) ==> d.root == TtbAddress(cd.w2)
  {
    if !CdValid(cd.w0) then CdNotValid
    else if Epd1(cd.w0) && Epd0(cd.w0) then CdBothTtbDisabled
    else if Epd1(cd.w0) then CdRoot(TtbAddress(cd.w1))
    else CdRoot(TtbAddress(cd.w2))
  }

  /** A valid CD with one TTB enabled yields the table address stored in the
      TTB word the resolver picks, whatever the attribute bits below bit 4 and
      the bits above bit 51 hold. */
  lemma CdRootRoundTrip(cd: Quad, high: nat, root: nat, low: nat)
    requires CdValid(cd.w0) && !(Epd1(cd.w0) && Epd0(cd.w0))
    requires root < TWO_52 && root % 16 == 0 && low < 16
    requires (if Epd1(cd.w0) then cd.w1 else cd.w2) == high * TWO_52 + root + low
    ensures DecodeCd(cd) == CdRoot(root)
  {
    AddressFieldOfDescriptor(high, root, low, 16);
  }
}
