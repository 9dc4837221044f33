# SMMUv3 IOVA resolver, modelled in Dafny

`iommu/pgtbl.c` is a diagnostic tool. Given an Arm SMMUv3 register block, a
StreamID, an IOVA and an optional SubstreamID, it finds the translation the
SMMU would use:

- it checks the identifier widths in IDR1 and the enable bit in CR0;
- it finds the Stream Table Entry (STE) through STRTAB_BASE and
  STRTAB_BASE_CFG, in a linear or a two-level stream table;
- it decodes the STE and, for stage-1 translation, finds the Context
  Descriptor (CD) in a linear or two-level CD table;
- it picks a translation-table root from the CD (or takes the STE's S2TTB for
  stage 2);
- it walks the VMSAv8-64 translation tables with a 4K or 64K granule until it
  reaches a block descriptor, an invalid descriptor or the last level.

This project models that resolver. Physical memory is a total function from
64-bit addresses to 64-bit words. The five registers are plain input values.
`PAGE_SIZE` is a parameter with two values, `Page4K` and `Page64K`.

Every run is described by two things:

- the outcome: the reason it stopped, or the end of the walk;
- the trace: every register and memory read it made, in order.

Arithmetic is on mathematical integers with C's unsigned wrap-around written
out (`Wrap`). `smmu_readq`'s `int` offset parameter is modelled explicitly
(`CInt`).

Modules, one file each:

- `Machine` (`machine.dfy`): memory, reads, `1ULL << n`, the 52-bit address
  masks, and arithmetic facts.
- `Registers` (`registers.dfy`): register offsets and field decoders.
- `Tables` (`tables.dfy`): the linear and two-level entry lookup, shared by
  STEs and CDs.
- `StreamTable` (`stream_table.dfy`): finding and decoding the STE.
- `ContextDescriptor` (`context_descriptor.dfy`): finding and decoding the CD.
- `PageTable` (`page_table.dfy`): the walk.
  - `WalkFrom` specifies it recursively.
  - `WalkLoop` is the same walk shaped like the loop.
  - `WalkTables` is the loop itself, an imperative method.
- `Resolver` (`resolver.dfy`): the whole resolution.
  - `Translate` is the specification, stage by stage.
  - `Resolve` and its helper methods are the tool's own step-by-step driver:
    locals are reassigned, the four-word `ste`/`cde` buffers are filled as
    arrays, and the early exits are returns.
  - `Resolve` is proved to produce exactly `Translate`'s outcome and trace.
- `ResolverProperties` (`resolver_properties.dfy`): what a whole resolution
  reads and where it stops, and one end-to-end round trip from constructed
  tables to the output address they map.

Where the code and the architecture disagree, the model follows the code:

- S2TTB is masked with `~0x3f`, not `~0xf`.
- When CD bit 30 is set, the root comes from TTB0 (`cde[1]`). Otherwise it
  comes from TTB1 (`cde[2]`), even when both TTBs are enabled. The model
  names bit 30 EPD1 and bit 14 EPD0, as the architecture does.
- The level index is always masked with `0x1ff`, also on the 64K granule,
  where `idx` steps by 13.

The results that carry the weight are these:

- `PageTable.WalkShape` and `PageTable.ShapedIsWalk` characterize the walk completely: every walk has the shape, and only the walk has it.
- `PageTable.WalkLoopIsWalkFrom` and `PageTable.WalkTables` tie the loop to it.
- `Resolver.Resolve` has the contract that the imperative driver computes exactly `Translate`.
- `ResolverProperties.RegisterStops`, `SteStops` and `CdStops` state, over `Translate`, where each run stops and what it has read.
- `ResolverProperties.Stage1BlockRoundTrip` follows one run from constructed tables to the output address they map.

Most other lemmas are the arithmetic and sequence facts those proofs rest on.

## Model

| member | source | states |
|---|---|---|
| Machine.PageBytes | iommu/pgtbl.c:13 | `PAGE_SIZE`, the mapping size of lines 124 and 193: exactly 0x1000 for `Page4K` and exactly 0x10000 for `Page64K`. |
| Machine.Pow2 | iommu/pgtbl.c:75 | `1ULL << n`, used at lines 75, 80, 99, 104, 112 and 171: at least 1. `Pow2Succ` states that it doubles with each step of `n`, and `Pow2Add` that exponents add. |
| Machine.Wrap | iommu/pgtbl.c:114 | Unsigned 64-bit arithmetic, as in the `u64` updates `base += …` of lines 114, 123, 192 and 199: a value already in range is unchanged. `WrapCongruent` states the wrap-around itself. |
| Machine.WrapCongruent | iommu/pgtbl.c:114 | The wrapped value equals the mathematical one modulo 2^64, so together with `Wrap`'s range it is the C result. |
| Machine.CInt | iommu/pgtbl.c:40-43 | An offset below 2^31 reaches `smmu_readq` unchanged. Every converted offset lies in the `int` range and agrees with the `size_t` offset modulo 2^32: larger offsets are truncated. |
| Machine.ReadAddress | iommu/pgtbl.c:40-43 | For an offset below 2^31, `smmu_readq(vbase, offset)` reads the physical address `base + offset`, modulo 2^64. |
| Machine.AddressField | iommu/pgtbl.c:104 | `(v & ((1ULL << 52) - 1)) & ~(unit - 1)`, the address extraction of lines 104, 119, 149, 153, 204, 226, 228, 253 and 257. Its alignment and bounds are stated by `AddressFieldBounds`, its exact extraction by `AddressFieldOfDescriptor`. |
| Machine.AddressFieldBounds | iommu/pgtbl.c:253 | `(v & (2^52-1)) & ~(unit-1)` is a multiple of `unit` below 2^52. It is the largest one not above the low 52 bits of `v`. |
| Machine.AddressFieldOfDescriptor | iommu/pgtbl.c:119 | A word built from an aligned address below 2^52, any bits above 51 and attributes below `unit` yields exactly that address. |
| Machine.ReadQuad | iommu/pgtbl.c:130-133 | The four `smmu_readq` calls that fill `ste[]` (and `cde[]`, lines 212-215). Word 0 is the word at the entry offset. The addresses of all four are stated by `ReadQuadAt`. |
| Machine.QuadReads | iommu/pgtbl.c:212-215 | The four memory reads those calls make, in order: exactly four. Their addresses are stated by `QuadReadsAt`. |
| Machine.QuadReadsAt | iommu/pgtbl.c:130-133 | When the offset fits an `int`, the four entry reads are at `base + offset + 8k` for k = 0..3. |
| Machine.ReadQuadAt | iommu/pgtbl.c:212-215 | When the offset fits an `int`, the four words read are the memory words at `base + offset + 8k`. |
| Registers.SidBits | iommu/pgtbl.c:75 | `reg & 0x3f`: the StreamID width is below 64. `Idr1RoundTrip` decodes it back. |
| Registers.SsidBits | iommu/pgtbl.c:80 | `(reg >> 6) & 0x1f`: the SubstreamID width is below 32. `Idr1RoundTrip` decodes it back. |
| Registers.Idr1RoundTrip | iommu/pgtbl.c:74-80 | An IDR1 value built from SIDSIZE (bits 0..5), SSIDSIZE (bits 6..10) and other bits decodes back to both widths. |
| Registers.IdFits | iommu/pgtbl.c:75 | The range test `id >= (1ULL << w)` of lines 75, 80, 99 and 171, negated. `IdMax` states that it holds iff `id <= (1 << w) - 1`. |
| Registers.IdMax | iommu/pgtbl.c:75-76 | The reported maximum `(1 << w) - 1` is exact: an identifier passes the width-`w` check iff it is at most that value. |
| Registers.SmmuEnabled | iommu/pgtbl.c:86 | CR0.SMMUEN, bit 0. `RegisterStops` states that a clear bit stops the run after reading GBPA. |
| Registers.StrtabBaseAddress | iommu/pgtbl.c:104 | The stream-table base is below 2^52 and 64-byte aligned. It lies within 64 bytes below the low 52 bits of STRTAB_BASE. |
| Registers.StrtabLog2Size | iommu/pgtbl.c:99 | `cfg & 0x3f`: LOG2SIZE is below 64. `StrtabCfgRoundTrip` decodes it back. |
| Registers.TwoLevelStrtab | iommu/pgtbl.c:106 | `((cfg >> 16) & 0x3) == 1`. `StrtabCfgRoundTrip` states it holds iff FMT = 1. |
| Registers.StrtabSplit | iommu/pgtbl.c:111 | `(cfg >> 6) & 0x1f`: SPLIT is below 32. `StrtabCfgRoundTrip` decodes it back. |
| Registers.StrtabCfgRoundTrip | iommu/pgtbl.c:99-111 | A STRTAB_BASE_CFG built from LOG2SIZE, SPLIT, FMT and other bits decodes back to those fields. It selects the two-level table iff FMT = 1. |
| Tables.EntryOffset | iommu/pgtbl.c:129 | `(id * 64) & (mapsz - 1)` (also line 209): the entry offset lies inside the window. |
| Tables.LinearLocation | iommu/pgtbl.c:121-129 | The linear lookup (also lines 188-193 and 209) makes no level-1 read, and its offset lies inside one page. |
| Tables.LinearQuadReads | iommu/pgtbl.c:121-133 | Linear table, 4K pages: entry word k is read at `table + id*64 + 8k`. With 64K pages, bits 12..15 of `id*64` are added a second time. |
| Tables.LinearWordAddress | iommu/pgtbl.c:123-129 | The page window base plus the in-window offset, for one word of a linear entry, under both window sizes. |
| Tables.TwoLevelLocation | iommu/pgtbl.c:114-119 | The two-level lookup (also lines 197-205) makes exactly one level-1 read and keeps the given leaf offset. `TwoLevelDescriptor` states where the read is. |
| Tables.TwoLevelDescriptor | iommu/pgtbl.c:114-119 | Reading through the page window at `table + (l1 & ~0xfff)`, offset `l1 & 0xfff`, reads the level-1 descriptor at `table + l1`. Its address field is the leaf array. |
| StreamTable.L1DescriptorOffset | iommu/pgtbl.c:114-117 | `(sid >> split) * 8`. `TwoLevelSteParts` states that the level-1 read is at `strtab` plus this offset. |
| StreamTable.L2WindowSize | iommu/pgtbl.c:112 | The level-2 window `1 << (split + 6)` is 2^split STEs of 64 bytes. |
| StreamTable.L2SteOffset | iommu/pgtbl.c:129 | `(sid * 64) & (mapsz - 1)` in the level-2 window. `L2EntryOffset` states that it is `(sid mod 2^split) * 64`. |
| StreamTable.L2EntryOffset | iommu/pgtbl.c:112-129 | `(sid * 64) & (mapsz - 1)` in the level-2 window is `(sid mod 2^split) * 64`. |
| StreamTable.LocateSte | iommu/pgtbl.c:104-129 | A two-level stream table makes exactly one level-1 read. A linear one is the shared linear lookup. |
| StreamTable.LinearSteAddress4K | iommu/pgtbl.c:121-133 | Linear stream table, 4K pages: no level-1 read, and STE word k is read at `strtab + sid*64 + 8k`. |
| StreamTable.LinearSteAddress64K | iommu/pgtbl.c:123-133 | Linear stream table, 64K pages, as written: STE word k is read at `strtab + sid*64 + ((sid*64) & 0xf000) + 8k`. |
| StreamTable.TwoLevelSteAddress | iommu/pgtbl.c:106-133 | Two-level: the level-1 descriptor is read at `strtab + (sid >> split)*8`. L2 is its address field with the low 6 bits cleared. The STE offset is `(sid mod 2^split)*64`. For SPLIT <= 25, word k is read at `L2 + offset + 8k`. |
| StreamTable.TwoLevelSteParts | iommu/pgtbl.c:111-129 | The level-1 read, the leaf base and the STE offset of the two-level lookup. |
| StreamTable.SmallL2Offset | iommu/pgtbl.c:129-133 | For SPLIT <= 25, every level-2 STE offset, plus 0x18, fits `smmu_readq`'s `int`. |
| StreamTable.LargeSplitReadsBelowLeaf | iommu/pgtbl.c:111-133 | Two-level table with SPLIT = 26, for a sid whose low 26 bits are all ones: the level-2 offset plus 0x18 reaches 2^31, the `int` conversion turns the offset into -64, and the four STE words are read at `L2Ptr - 64 + 8k`, one STE below the leaf array. So the bound of `SmallL2Offset` is tight. |
| StreamTable.SteValid | iommu/pgtbl.c:137 | STE.V, `ste[0] & 0x1`. `DecodeSte` states that the STE is invalid iff this bit is clear. |
| StreamTable.SteConfig | iommu/pgtbl.c:143 | Config is a 3-bit field. |
| StreamTable.S1ContextPtr | iommu/pgtbl.c:149 | The CD table base is below 2^52 and 64-byte aligned. |
| StreamTable.S1CdMax | iommu/pgtbl.c:161 | `ste0 >> 59` is below 32. |
| StreamTable.S1Fmt | iommu/pgtbl.c:177 | S1Fmt is a 2-bit field. |
| StreamTable.S2Ttb | iommu/pgtbl.c:153 | The stage-2 root is below 2^52 and 64-byte aligned: the code clears 6 low bits. |
| StreamTable.DecodeSte | iommu/pgtbl.c:136-158 | The decision depends on word 0's low 4 bits alone, in both directions: invalid iff V = 0; bypass iff 0x9; stage 1 iff 0xb; stage 2 iff 0xd; unknown otherwise. Stage 1 carries S1ContextPtr, S1CDMax and S1Fmt. Stage 2 carries S2TTB. |
| StreamTable.LowNibble | iommu/pgtbl.c:137-143 | Word 0's low 4 bits are V plus twice Config. |
| StreamTable.Stage1SteRoundTrip | iommu/pgtbl.c:143-177 | A stage-1 STE built from S1ContextPtr, S1CDMax and S1Fmt decodes back to exactly those fields. |
| StreamTable.Stage2SteRoundTrip | iommu/pgtbl.c:151-154 | A stage-2 STE decodes to the aligned root stored in word 3, whatever bits 0..5 and 52..63 hold. |
| ContextDescriptor.LocateCd | iommu/pgtbl.c:160-209 | With S1CDMax = 0, the CD is at the CD base for SubstreamID 0. Otherwise `ssid >= 2^S1CDMax` stops the lookup, with max `2^S1CDMax - 1`. S1Fmt 1 and 2 make exactly one level-1 read. |
| ContextDescriptor.CdLeafBytes | iommu/pgtbl.c:178-187 | The level-2 CD array size `mapsz`: 0x1000 for S1Fmt 1 and 0x10000 for S1Fmt 2. |
| ContextDescriptor.CdL1Offset | iommu/pgtbl.c:198 | `(ssid / (mapsz / 64)) * 8`. `TwoLevelCdOffsets` states that it does not wrap; `TwoLevelCdAddress` places the level-1 read there. |
| ContextDescriptor.CdLeafOffset | iommu/pgtbl.c:209 | `(ssid * 64) & (mapsz - 1)` in the leaf. `TwoLevelCdOffsets` states that it is `(ssid mod (W/64)) * 64`. |
| ContextDescriptor.SingleCdIgnoresSsid | iommu/pgtbl.c:161-167 | With S1CDMax = 0, every SubstreamID gets the CD at the CD base, read at `cdBase + 8k`, with no level-1 read. |
| ContextDescriptor.TwoLevelCdAddress | iommu/pgtbl.c:176-215 | Two-level CD table with leaf size W: the level-1 descriptor is at `cdBase + (ssid / (W/64))*8`. The leaf is its address field aligned to 4K. CD word k is at `leaf + (ssid mod (W/64))*64 + 8k`. |
| ContextDescriptor.TwoLevelCdOffsets | iommu/pgtbl.c:198-209 | For a SubstreamID below 2^31, the level-1 offset and the leaf offset do not wrap. |
| ContextDescriptor.SsidBelow2To31 | iommu/pgtbl.c:171 | A SubstreamID that passed the S1CDMax check is below 2^31. |
| ContextDescriptor.LinearCdAddress4K | iommu/pgtbl.c:188-215 | Linear CD table, 4K pages: CD word k is read at `cdBase + ssid*64 + 8k`. |
| ContextDescriptor.CdValid | iommu/pgtbl.c:219 | CD.V, bit 31 of `cde[0]`. `DecodeCd` states that the CD is invalid iff this bit is clear. |
| ContextDescriptor.Epd1 | iommu/pgtbl.c:222-225 | Bit 30 of `cde[0]`. `DecodeCd` states that it selects `cde[1]` when set and `cde[2]` when clear. |
| ContextDescriptor.Epd0 | iommu/pgtbl.c:222 | Bit 14 of `cde[0]`. `DecodeCd` states that with bit 30 it stops the run as both disabled. |
| ContextDescriptor.TtbAddress | iommu/pgtbl.c:226-228 | A TTB is below 2^52 and 16-byte aligned. It lies within 16 bytes below the word's low 52 bits. |
| ContextDescriptor.DecodeCd | iommu/pgtbl.c:219-229 | Each case holds in both directions: invalid iff bit 31 is clear; both disabled iff bits 30 and 14 are set; a root otherwise. The root is TTB0 (word 1) when bit 30 is set, else TTB1 (word 2). |
| ContextDescriptor.CdRootRoundTrip | iommu/pgtbl.c:219-229 | A valid CD with one TTB enabled yields the aligned table address stored in the chosen TTB word. |
| PageTable.Levels | iommu/pgtbl.c:235-243 | `max_lvl` is 4 for the 4K granule and 3 for 64K. |
| PageTable.IndexShift | iommu/pgtbl.c:245 | Every level's shift is at least 12. |
| PageTable.IndexShifts | iommu/pgtbl.c:235-245 | `idx` runs through 39, 30, 21, 12 for 4K and through 42, 29, 16 for 64K. |
| PageTable.PteIndex | iommu/pgtbl.c:248 | The descriptor index is below 512, also on the 64K granule. |
| PageTable.PteAddress | iommu/pgtbl.c:248 | `smmu_readq(vbase, ((iova >> idx) & 0x1ff) * 8)` on the table at `base`. `WalkShape` states that every walk read is at such an address. |
| PageTable.IsBlock | iommu/pgtbl.c:251-252 | `(val & 0x3) == 1`. `WalkShape` states that a walk ends at a block exactly where it reads such a descriptor. |
| PageTable.IsTable | iommu/pgtbl.c:251-256 | `(val & 0x3) == 3`. `WalkShape` states that the walk goes on exactly through such descriptors. |
| PageTable.BlockBase | iommu/pgtbl.c:253 | The block output base. `WalkOutputAligned` states its alignment to `1 << idx`, and `BlockRoundTrip` its exact value. |
| PageTable.TableBase | iommu/pgtbl.c:257 | The next-level table base. `WalkOutputAligned` states its 4K alignment, and `TableRoundTrip` its exact value. |
| PageTable.WalkFrom | iommu/pgtbl.c:245-265 | The walk, level by level from `i = level`. `WalkShape` states its shape and `WalkOutputAligned` its output. |
| PageTable.WalkShape | iommu/pgtbl.c:245-265 | A walk reads at most one descriptor per level. The first read is at the root, at the index of level 0. Each later read is in the table the previous (table) descriptor points to. The walk ends at a block descriptor (with its block base), at an invalid descriptor, or after the last level (with the last table's base). |
| PageTable.ShapedIsWalk | iommu/pgtbl.c:245-265 | The converse of `WalkShape`: any reads and end of that shape from a level are exactly the walk from that level. |
| PageTable.TableStepShape | iommu/pgtbl.c:256-258 | Through a table descriptor, the walk keeps that shape. |
| PageTable.LastStepShape | iommu/pgtbl.c:251-262 | A walk that stops at a level has that shape. |
| PageTable.ShapeExtends | iommu/pgtbl.c:256-258 | A table read in front of a walk of that shape gives a walk of that shape. |
| PageTable.ChainExtends | iommu/pgtbl.c:245-258 | A table read in front of a chain of reads gives a chain. |
| PageTable.EndExtends | iommu/pgtbl.c:256-258 | The end of the rest of the walk is the end of the whole walk. |
| PageTable.BlockRoundTrip | iommu/pgtbl.c:251-255 | A block descriptor built from an output address aligned to its level's block size ends the walk at that level, with exactly that address. |
| PageTable.TableRoundTrip | iommu/pgtbl.c:256-258 | A table descriptor built from a 4K-aligned address sends the walk to exactly that table. |
| PageTable.BlockUnit | iommu/pgtbl.c:253 | Every level's block size `1 << idx` divides 2^52 and is a multiple of 4. |
| PageTable.DescriptorType | iommu/pgtbl.c:251 | A descriptor's type bits are those of its attribute part. |
| PageTable.WalkLoop | iommu/pgtbl.c:245-265 | The walk as the loop makes it, with the reads already done. `WalkLoopExtendsWalkFrom` states that it equals those reads followed by `WalkFrom`. |
| PageTable.WalkLoopExtendsWalkFrom | iommu/pgtbl.c:245-265 | The loop's walk from a level, with reads already done, is those reads followed by the walk from that level. |
| PageTable.WalkLoopIsWalkFrom | iommu/pgtbl.c:245-265 | From the root with nothing read, the loop's walk is the walk. |
| PageTable.WalkTables | iommu/pgtbl.c:231-265 | The loop over `i` and `idx` returns the end and the descriptor addresses of the walk from the root. |
| Resolver.RegistersOnlyAppend | iommu/pgtbl.c:74-95 | A joined trace reads only registers iff both parts do. |
| Resolver.Translate | iommu/pgtbl.c:74-265 | IDR1 is read first. A run reads only registers iff it stops on IDR1, CR0 or STRTAB_BASE_CFG. "Disabled" iff both ID checks pass and SMMUEN is clear. "ssid too large" iff the sid passes and the ssid does not. At most 14 + max_lvl reads. |
| Resolver.FromStreamTable | iommu/pgtbl.c:104-158 | From the stream table on, a run reads memory, at least the four STE words. It never stops on a register value. |
| Resolver.FromSte | iommu/pgtbl.c:136-158 | After the STE, at most 5 + max_lvl reads: a CD with its level-1 descriptor, and one descriptor per level. |
| Resolver.FromCdTable | iommu/pgtbl.c:160-229 | After the STE of a stage-1 stream, at most 5 + max_lvl reads. |
| Resolver.FromCd | iommu/pgtbl.c:219-229 | After the CD, at most max_lvl reads. |
| Resolver.FromRoot | iommu/pgtbl.c:231-265 | The walk from a root always ends in a page-walk outcome, within max_lvl reads. |
| Resolver.ReadEntry | iommu/pgtbl.c:130-133 | A fresh `u64[4]` holding the four words read at `offset`, `offset + 8`, `offset + 0x10` and `offset + 0x18`. |
| Resolver.FollowL1Descriptor | iommu/pgtbl.c:114-119 | The level-1 step reads what the two-level lookup specifies and returns its leaf base. |
| Resolver.FindSte | iommu/pgtbl.c:104-129 | The `base`/`mapsz`/`offset` updates locate the STE where `LocateSte` says. |
| Resolver.FindCd | iommu/pgtbl.c:160-209 | The `ssid`/`base`/`mapsz`/`offset` updates locate the CD where `LocateCd` says, or stop on S1CDMax exactly when it does. |
| Resolver.FollowCdTable | iommu/pgtbl.c:160-229 | The CD stage of the driver has `FromCdTable`'s outcome and reads. |
| Resolver.FollowCd | iommu/pgtbl.c:219-229 | The CD checks of the driver have `FromCd`'s outcome and reads. |
| Resolver.WalkFromRoot | iommu/pgtbl.c:231-265 | The driver's walk has the specified walk's end and descriptor reads. |
| Resolver.FollowSte | iommu/pgtbl.c:136-158 | The STE checks of the driver have `FromSte`'s outcome and reads. |
| Resolver.Resolve | iommu/pgtbl.c:74-265 | The whole driver produces exactly `Translate`'s outcome and the same reads in the same order. |
| ResolverProperties.RegisterStops | iommu/pgtbl.c:74-102 | A run stops on a register value iff an ID or enable check fails. "sid too large" iff the sid fails IDR1, or it fails LOG2SIZE after the other checks pass. "ssid too large" reads only IDR1. "Disabled" reads IDR1, CR0 and GBPA and reports GBPA. Register stops read at most 4 registers and no memory. |
| ResolverProperties.RegisterStopIgnoresMemory | iommu/pgtbl.c:74-102 | A register stop does not depend on memory, the page size or the IOVA. |
| ResolverProperties.SteStops | iommu/pgtbl.c:94-158 | After the four register reads and the STE reads: an invalid, bypass or unknown-Config STE stops with no further read. A stage-1 STE goes on to the CD table at its S1ContextPtr. A stage-2 STE goes straight to the walk from S2TTB, with no CD read. |
| ResolverProperties.CdStops | iommu/pgtbl.c:160-229 | The S1CDMax stop happens iff S1CDMax > 0 and `ssid >= 2^S1CDMax`. It reads nothing and reports `2^S1CDMax - 1`. An invalid or both-disabled CD stops after the CD reads, with no translation-table read. A CD with a root goes on to the walk from that root right after the CD reads. |
| ResolverProperties.SingleCdIgnoresSubstream | iommu/pgtbl.c:160-167 | When the STE has S1CDMax = 0, every SubstreamID that passes IDR1 resolves exactly as SubstreamID 0. |
| ResolverProperties.WalkOutputAligned | iommu/pgtbl.c:251-258 | A block's output base is aligned to `1 << idx` and lies within one block below the descriptor's low 52 bits. A completed walk's base is 4K aligned. Both are below 2^52. |
| ResolverProperties.Stage1BlockRoundTrip | iommu/pgtbl.c:74-265 | End to end, for a linear stream table with 4K pages, a stage-1 STE with S1CDMax = 0, a valid CD, a table descriptor at level 0 and a 1GB block at level 1: the outcome is that block with exactly its stored output address. The trace is the 4 register reads, the STE at `strtab + sid*64 + 8k`, the CD at `S1ContextPtr + 8k` and the two descriptor reads. |
| ResolverProperties.LinearSteWord0 | iommu/pgtbl.c:121-130 | Linear stream table, 4K pages: STE word 0 is the memory word at `strtab + sid*64`. |
| ResolverProperties.Stage1SingleCd | iommu/pgtbl.c:74-161 | Linear stream table, 4K pages, a stage-1 STE with S1CDMax = 0 at `strtab + sid*64`: the run is the register reads and the STE reads, followed by the CD stage at that STE's S1ContextPtr. |
| ResolverProperties.Stage1CdWalk | iommu/pgtbl.c:160-258 | From a single valid CD whose chosen TTB holds the root, over a level-0 table descriptor and a level-1 block: the CD stage ends with that block and its stored output address, after the CD reads and the two descriptor reads. |
| ResolverProperties.Stage1Word0Fields | iommu/pgtbl.c:137-161 | A stage-1 word 0 built with S1CDMax = 0 is valid, has Config 5, carries its CD base and has S1CDMax 0. |
| ResolverProperties.SteReadsLinear | iommu/pgtbl.c:121-133 | Linear stream table, 4K pages: the STE reads are the four words at `strtab + sid*64 + 8k`. |
| ResolverProperties.SingleCdRoot | iommu/pgtbl.c:160-229 | S1CDMax = 0 and a valid CD with one TTB enabled: the CD stage reads the CD at `cdBase + 8k` and goes on to the walk from the root stored in the chosen TTB. |
| ResolverProperties.TwoLevelBlockWalk | iommu/pgtbl.c:245-258 | 4K granule: a table descriptor at level 0 and a block descriptor at level 1 end the walk at level 1 with exactly the stored output address, after exactly those two reads. |

## Left out

- Mapping `/dev/mem` is not modelled: `open`, `mmap`, `munmap`, `BUG_ON`, `report_error` and `exit` (lines 26–32, 60–61, 72–73 and every map/unmap pair). Memory is a total read function, so a mapping failure, an unaligned mapping and the `munmap(vbase, PAGE_SIZE)` size that differs from `mapsz` (line 134) cannot arise.
- Reads through a mapping are not bounded by its size. For example, a 64K CD leaf is read through a `PAGE_SIZE` mapping (line 210). The model reads the address the code computes.
- Argument parsing and the usage text (lines 55–70) are not modelled: sid, ssid and iova are inputs. The register-block base is not modelled, because the five register values are inputs and the trace records register offsets, not addresses.
- `fprintf` output is not modelled, including the "sid is too large" wording of the S1CDMax message (line 172). Each stop is an `Outcome` constructor with the values the message shows.
- `sysconf(_SC_PAGESIZE)` (line 13) is the `PageSize` parameter, limited to 4K and 64K.
- `close(fd)` and the return value are not modelled.
- Memory does not change during a run; the model does not cover concurrent updates of the tables.
- StreamTable.TwoLevelSteAddress: the clean formula `L2 + (sid mod 2^split)*64 + 8k` is stated only for SPLIT <= 25. From SPLIT = 26 on, the offset passed to `smmu_readq` can exceed `int`. `LocateSte` models that truncation as written, through `CInt`; `LargeSplitReadsBelowLeaf` states where the reads then land for the last STE at SPLIT = 26.
- StreamTable.LinearSteAddress64K and Tables.LinearQuadReads: the `base + id*64` formula for a linear table is claimed for 4K pages only. With 64K pages, bits 12..15 of `id*64` are added twice (lines 123/129 and 192/209). This is modelled as written.
- ContextDescriptor.LinearCdAddress4K: stated for 4K pages only, for the same reason.
