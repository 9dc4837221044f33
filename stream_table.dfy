/** Locating a StreamID's Stream Table Entry (linear or two-level table) and
    decoding the STE fields the resolver uses (Arm SMMUv3, section 5.2). */
module StreamTable {
  import opened Machine
  import opened Registers
  import opened Tables

  /** Offset of the level-1 descriptor for `sid` in a two-level table:
      `(sid >> split) * 8`. */
  function L1DescriptorOffset(sid: u64, split: nat): (o: u64)
  {
    Wrap(sid / Pow2(split) * 8)
  }

  /** Size of the window the resolver maps over a level-2 STE array:
      `1ULL << (split + 6)`, one 64-byte STE per StreamID low part. */
  function L2WindowSize(split: nat): (n: u64)
    requires split < 32
    ensures n == Pow2(split) * 64
  {
    Pow2Add(split, 6);
    Pow2Values();
    Pow2Monotone(split + 6, 63);
    Pow2Succ(63);
    Pow2(split + 6)
  }

  /** Offset of the STE in the level-2 window: `(sid * 64) & (mapsz - 1)`. */
  function L2SteOffset(sid: u64, split: nat): (o: u64)
    requires split < 32
  {
    EntryOffset(sid, L2WindowSize(split))
  }

  /** Finds the STE of `sid` in the stream table at `strtab`. Two-level
      (STRTAB_BASE_CFG.FMT is 1): the level-1 descriptor is at
      `(sid >> split) * 8`, its L2Ptr is mapped over `1 << (split + 6)` bytes
      and the STE sits at `(sid * 64) & (mapsz - 1)`. Otherwise the table is
      linear. */
  function LocateSte(mem: Memory, cfg: u32, strtab: u64, sid: u64, ps: PageSize): (loc: EntryLocation)
    ensures TwoLevelStrtab(cfg) ==> |loc.l1Reads| == 1
    ensures !TwoLevelStrtab(cfg) ==> loc == LinearLocation(strtab, sid, ps)
  {
    if TwoLevelStrtab(cfg) then
      var split := StrtabSplit(cfg);
      TwoLevelLocation(mem, strtab, L1DescriptorOffset(sid, split), 64, L2SteOffset(sid, split))
    else LinearLocation(strtab, sid, ps)
  }

  /** Linear table, 4K pages: STE word k of StreamID `sid` is read at
      `strtab + sid * 64 + 8 * k`. */
  lemma LinearSteAddress4K(mem: Memory, cfg: u32, strtab: u64, sid: u64)
    requires !TwoLevelStrtab(cfg)
    ensures var loc := LocateSte(mem, cfg, strtab, sid, Page4K);
      && loc.l1Reads == []
      && (forall k :: 0 <= k < 4 ==>
            QuadReads(loc.base, loc.offset)[k] == MemRead(Wrap(strtab + sid * 64 + 8 * k)))
  {
    LinearQuadReads(strtab, sid, Page4K);
  }

  /** Linear table, 64K pages, as the resolver computes it: bits 12..15 of
      `sid * 64` are added twice. */
  lemma LinearSteAddress64K(mem: Memory, cfg: u32, strtab: u64, sid: u64)
    requires !TwoLevelStrtab(cfg)
    ensures var loc := LocateSte(mem, cfg, strtab, sid, Page64K);
      && loc.l1Reads == []
      && (forall k :: 0 <= k < 4 ==>
            QuadReads(loc.base, loc.offset)[k]
              == MemRead(Wrap(strtab + sid * 64 + Wrap(sid * 64) % 0x10000 / 0x1000 * 0x1000 + 8 * k)))
  {
    LinearQuadReads(strtab, sid, Page64K);
  }

  /** Two-level table: the level-1 descriptor of `sid` is read at
      `strtab + (sid >> split) * 8`, the STE offset in the level-2 window is
      `(sid mod 2^split) * 64`, and, for the SPLIT values whose offsets fit the
      `int` offset of `smmu_readq` (the architecture allows 6, 8 and 10), STE
      word k is read at `L2Ptr + (sid mod 2^split) * 64 + 8 * k`. */
  lemma TwoLevelSteAddress(mem: Memory, cfg: u32, strtab: u64, sid: u64, ps: PageSize)
    requires TwoLevelStrtab(cfg)
    ensures var split := StrtabSplit(cfg);
      var descAddr := Wrap(strtab + sid / Pow2(split) * 8);
      var loc := LocateSte(mem, cfg, strtab, sid, ps);
      && loc.l1Reads == [MemRead(descAddr)]
      && loc.base == AddressField(mem(descAddr), 64)
      && loc.offset == sid % Pow2(split) * 64
      && (split <= 25 ==> (forall k :: 0 <= k < 4 ==>
            QuadReads(loc.base, loc.offset)[k] == MemRead(Wrap(loc.base + loc.offset + 8 * k))))
  {
    var split := StrtabSplit(cfg);
    var loc := LocateSte(mem, cfg, strtab, sid, ps);
    TwoLevelSteParts(mem, cfg, strtab, sid, ps);
    if split <= 25 {
      SmallL2Offset(sid, split);
      QuadReadsAt(loc.base, loc.offset);
    }
  }

  /** The level-1 descriptor read, the leaf array and the STE offset of a
      two-level table. */
  lemma TwoLevelSteParts(mem: Memory, cfg: u32, strtab: u64, sid: u64, ps: PageSize)
    requires TwoLevelStrtab(cfg)
    ensures var split := StrtabSplit(cfg);
      var descAddr := Wrap(strtab + sid / Pow2(split) * 8);
      var loc := LocateSte(mem, cfg, strtab, sid, ps);
      && loc.l1Reads == [MemRead(descAddr)]
      && loc.base == AddressField(mem(descAddr), 64)
      && loc.offset == sid % Pow2(split) * 64
  {
    var split := StrtabSplit(cfg);
    var l1, off := L1DescriptorOffset(sid, split), L2SteOffset(sid, split);
    TwoLevelSteLocation(mem, cfg, strtab, sid, ps);
    TwoLevelDescriptor(mem, strtab, l1, 64, off);
    WrapAddWrap(strtab, sid / Pow2(split) * 8);
    L2EntryOffset(sid, split);
  }

  /** Proof helper: unfolds `LocateSte` on a two-level table, so that
      `TwoLevelSteParts` can reason about `TwoLevelLocation` alone. */
  lemma TwoLevelSteLocation(mem: Memory, cfg: u32, strtab: u64, sid: u64, ps: PageSize)
    requires TwoLevelStrtab(cfg)
    ensures LocateSte(mem, cfg, strtab, sid, ps)
      == TwoLevelLocation(mem, strtab, L1DescriptorOffset(sid, StrtabSplit(cfg)), 64, L2SteOffset(sid, StrtabSplit(cfg)))
  {
  }

  /** With SPLIT at most 25, every STE offset in the level-2 window, plus
      the 0x18 of the last word, fits an `int`; from SPLIT = 26 on it does not. */
  lemma SmallL2Offset(sid: u64, split: nat)
    requires split <= 25
    ensures sid % Pow2(split) * 64 + 0x18 < TWO_31
  {
    Pow2Values();
    Pow2Monotone(split, 25);
    Pow2Add(25, 6);
    assert Pow2(31) == TWO_31 by {
      Pow2Add(16, 15);
      Pow2Add(12, 3);
    }
  }

  /** With SPLIT = 26 the bound of `SmallL2Offset` fails: the last STE of a
      level-2 window sits at offset 2^32 - 64, which `smmu_readq`'s `int`
      parameter truncates to -64, so its four words are read one STE below
      the leaf array, at `L2Ptr - 64 + 8k`. */
  lemma LargeSplitReadsBelowLeaf(mem: Memory, cfg: u32, strtab: u64, sid: u64, ps: PageSize)
    requires TwoLevelStrtab(cfg) && StrtabSplit(cfg) == 26
    requires sid % Pow2(26) == Pow2(26) - 1
    ensures var loc := LocateSte(mem, cfg, strtab, sid, ps);
      && loc.offset + 0x18 >= TWO_31
      && CInt(loc.offset) == -64
      && (forall k :: 0 <= k < 4 ==>
            QuadReads(loc.base, loc.offset)[k] == MemRead(Wrap(loc.base - 64 + 8 * k)))
  {
    var loc := LocateSte(mem, cfg, strtab, sid, ps);
    TwoLevelSteParts(mem, cfg, strtab, sid, ps);
    Pow2Values();
    Pow2Add(26, 6);
    assert loc.offset == TWO_32 - 64;
    TruncatedQuadReads(loc.base);
  }

  /** Proof helper: the four reads at offset 2^32 - 64, which `CInt` turns
      into -64. */
  lemma TruncatedQuadReads(base: u64)
    ensures CInt(TWO_32 - 64) == -64
    ensures forall k :: 0 <= k < 4 ==> QuadReads(base, TWO_32 - 64)[k] == MemRead(Wrap(base - 64 + 8 * k))
  {
    assert CInt(TWO_32 - 64) == -64 && CInt(TWO_32 - 56) == -56;
    assert CInt(TWO_32 - 48) == -48 && CInt(TWO_32 - 40) == -40;
    var r := QuadReads(base, TWO_32 - 64);
    assert r[0] == MemRead(Wrap(base - 64 + 8 * 0));
    assert r[1] == MemRead(Wrap(base - 64 + 8 * 1));
    assert r[2] == MemRead(Wrap(base - 64 + 8 * 2));
    assert r[3] == MemRead(Wrap(base - 64 + 8 * 3));
  }

  /** `(sid * 64) & ((1 << (split + 6)) - 1)` is the low `split` bits of `sid`
      times 64. */
  lemma L2EntryOffset(sid: u64, split: nat)
    requires split < 32
    ensures L2SteOffset(sid, split) == sid % Pow2(split) * 64
  {
    Pow2Add(split, 6);
    Pow2Values();
    WrapMod(sid * 64, split + 6);
    ScaledMod(sid, 64, Pow2(split));
  }

  /** STE.V, word 0 bit 0. */
  predicate SteValid(w0: u64) {
    w0 % 2 == 1
  }

  /** STE.Config, word 0 bits 1..3. */
  function SteConfig(w0: u64): (c: nat)
    ensures c < 8
  {
    w0 / 2 % 8
  }

  /** STE.S1ContextPtr as the resolver extracts it: word 0, bits 6..51. */
  function S1ContextPtr(w0: u64): (p: u64)
    ensures p < TWO_52 && p % 64 == 0
  {
    AddressField(w0, 64)
  }

  /** STE.S1CDMax, word 0 bits 59..63: the STE's CDs are indexed by SubstreamIDs
      below 2^S1CdMax; 0 means one CD and no substreams. */
  function S1CdMax(w0: u64): (m: nat)
    ensures m < 32
  {
    w0 / 0x800_0000_0000_0000
  }

  /** STE.S1Fmt, word 0 bits 4..5: 1 two-level with 4K leaves, 2 two-level with
      64K leaves, anything else linear. */
  function S1Fmt(w0: u64): (f: nat)
    ensures f < 4
  {
    w0 / 16 % 4
  }

  /** STE.S2TTB as the resolver extracts it: word 3 with the low 6 bits (not
      the architectural 4) cleared. */
  function S2Ttb(w3: u64): (p: u64)
    ensures p < TWO_52 && p % 64 == 0
  {
    AddressField(w3, 64)
  }

  /** What an STE tells the resolver to do next. */
  datatype SteDecision =
    | SteNotValid
    | SteBypass                                      // Config 0b100: both stages bypass
    | SteStage1(cdBase: u64, cdMax: nat, fmt: nat)   // Config 0b101: stage-1 translate
    | SteStage2(root: u64)                           // Config 0b110: stage-2 translate
    | SteUnknown(config: nat)                        // any other Config

  /** The resolver's STE checks: V first, then Config. The decision depends on
      the low four bits of word 0 alone, and each translating decision carries
      the fields the resolver goes on with. */
  function DecodeSte(ste: Quad): (d: SteDecision)
    ensures d.SteNotValid? <==> ste.w0 % 2 == 0
    ensures d.SteBypass? <==> ste.w0 % 16 == 0x9
    ensures d.SteStage1? <==> ste.w0 % 16 == 0xb
    ensures d.SteStage2? <==> ste.w0 % 16 == 0xd
    ensures d.SteUnknown? <==> ste.w0 % 2 == 1 && ste.w0 % 16 !in {0x9, 0xb, 0xd}
    ensures d.SteStage1? ==> d == SteStage1(S1ContextPtr(ste.w0), S1CdMax(ste.w0), S1Fmt(ste.w0))
    ensures d.SteStage2? ==> d == SteStage2(S2Ttb(ste.w3))
    ensures d.SteUnknown? ==> d.config == ste.w0 / 2 % 8 && d.config !in {4, 5, 6}
  {
    LowNibble(ste.w0);
    if !SteValid(ste.w0) then SteNotValid
    else
      match SteConfig(ste.w0)
      case 4 => SteBypass
      case 5 => SteStage1(S1ContextPtr(ste.w0), S1CdMax(ste.w0), S1Fmt(ste.w0))
      case 6 => SteStage2(S2Ttb(ste.w3))
      case c => SteUnknown(c)
  }

  /** The low four bits of word 0 are the V bit and Config. */
  lemma LowNibble(w0: u64)
    ensures w0 % 16 == SteConfig(w0) * 2 + w0 % 2
  {
    var a := w0 / 2;
    assert w0 == a * 2 + w0 % 2;
    assert a == a / 8 * 8 + a % 8;
    DivModUnique(w0, 16, a / 8, a % 8 * 2 + w0 % 2);
  }

  /** Word 0 of a valid stage-1 STE assembled from S1ContextPtr, S1CDMax and
      S1Fmt, with `other` in the bits 52..58 the resolver ignores. */
  function Stage1SteWord0(cdBase: u64, cdMax: nat, fmt: nat, other: nat): (w0: u64)
    requires cdBase < TWO_52 && cdBase % 64 == 0
    requires cdMax < 32 && fmt < 4 && other < 0x80
  {
    assert cdMax * 0x800_0000_0000_0000 + other * TWO_52 <= 31 * 0x800_0000_0000_0000 + 0x7f * TWO_52;
    cdMax * 0x800_0000_0000_0000 + other * TWO_52 + cdBase + fmt * 16 + 0xb
  }

  /** Building an STE from stage-1 fields and decoding it gives those fields back. */
  lemma Stage1SteRoundTrip(cdBase: u64, cdMax: nat, fmt: nat, other: nat, w1: u64, w2: u64, w3: u64)
    requires cdBase < TWO_52 && cdBase % 64 == 0
    requires cdMax < 32 && fmt < 4 && other < 0x80
    ensures DecodeSte(Quad(Stage1SteWord0(cdBase, cdMax, fmt, other), w1, w2, w3)) == SteStage1(cdBase, cdMax, fmt)
  {
    var w0 := Stage1SteWord0(cdBase, cdMax, fmt, other);
    var high := cdMax * 0x80 + other;
    var low := fmt * 16 + 0xb;
    assert w0 == high * TWO_52 + cdBase + low;
    AddressFieldOfDescriptor(high, cdBase, low, 64);
    DivModUnique(cdBase, 64, cdBase / 64, 0);
    var mid := high * (TWO_52 / 64) + cdBase / 64;
    assert w0 == mid * 64 + low;
    DivModUnique(w0, 64, mid, low);
    ModOfMod(w0, 16, 4);
    DivModUnique(low, 16, fmt, 0xb);
    DivModUnique(w0, 16, mid * 4 + fmt, 0xb);
    DivModUnique(mid * 4 + fmt, 4, mid, fmt);
    DivModUnique(w0, 2, mid * 32 + fmt * 8 + 5, 1);
    DivModUnique(mid * 32 + fmt * 8 + 5, 8, mid * 4 + fmt, 5);
    DivModUnique(w0, 0x800_0000_0000_0000, cdMax, other * TWO_52 + cdBase + low);
  }

  /** A valid STE with Config 0b110 decodes to its S2TTB, whatever else word 0
      and the attribute bits of word 3 hold. */
  lemma Stage2SteRoundTrip(w0: u64, high: nat, root: nat, low: nat, w1: u64, w2: u64)
    requires w0 % 16 == 0xd
    requires root < TWO_52 && root % 64 == 0 && low < 64
    requires high * TWO_52 + root + low < TWO_64
    ensures DecodeSte(Quad(w0, w1, w2, high * TWO_52 + root + low)) == SteStage2(root)
  {
    AddressFieldOfDescriptor(high, root, low, 64);
  }
}
