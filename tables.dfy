/** The two ways the resolver finds a 32-byte entry (an STE or a CD) in a
    table of 64-byte slots: a linear table read through a page window, or a
    two-level table whose level-1 descriptor points at the leaf array. */
module Tables {
  import opened Machine

  /** Where the entry of `id` sits in a window of `window` bytes holding
      64-byte slots: `(id * 64) & (window - 1)`. */
  function EntryOffset(id: u64, window: u64): (o: u64)
    requires window > 0
    ensures o < window
  {
    Wrap(id * 64) % window
  }

  /** Linear table at `table`: the window starts at
      `table + ((id * 64) & ~0xfff)`, is one page long, and the entry sits at
      `(id * 64) & (PAGE_SIZE - 1)` in it. */
  function LinearLocation(table: u64, id: u64, ps: PageSize): (loc: EntryLocation)
    ensures loc.l1Reads == []
    ensures loc.offset < PageBytes(ps)
  {
    EntryLocation(Wrap(table + Wrap(id * 64) / 0x1000 * 0x1000), EntryOffset(id, PageBytes(ps)), [])
  }

  /** Word k of a linear-table entry is read at `table + id * 64 + 8k` with 4K
      pages; with 64K pages the window base keeps bits 12..15 of `id * 64`
      and so does the in-window offset, so they are added a second time. */
  lemma LinearQuadReads(table: u64, id: u64, ps: PageSize)
    ensures ps == Page4K ==> forall k :: 0 <= k < 4 ==>
      QuadReads(LinearLocation(table, id, ps).base, LinearLocation(table, id, ps).offset)[k]
        == MemRead(Wrap(table + id * 64 + 8 * k))
    ensures ps == Page64K ==> forall k :: 0 <= k < 4 ==>
      QuadReads(LinearLocation(table, id, ps).base, LinearLocation(table, id, ps).offset)[k]
        == MemRead(Wrap(table + id * 64 + Wrap(id * 64) % 0x10000 / 0x1000 * 0x1000 + 8 * k))
  {
    var loc := LinearLocation(table, id, ps);
    QuadReadsAt(loc.base, loc.offset);
    if ps == Page4K {
      forall k | 0 <= k < 4
        ensures Wrap(loc.base + loc.offset + 8 * k) == Wrap(table + id * 64 + 8 * k)
      {
        LinearWordAddress(table, id, k, 0x1000);
      }
    } else {
      forall k | 0 <= k < 4
        ensures Wrap(loc.base + loc.offset + 8 * k)
          == Wrap(table + id * 64 + Wrap(id * 64) % 0x10000 / 0x1000 * 0x1000 + 8 * k)
      {
        LinearWordAddress(table, id, k, 0x10000);
      }
    }
  }

  /** Word k of the entry at offset `(id * 64) & (window - 1)` of the page
      window at `table + ((id * 64) & ~0xfff)`. */
  lemma LinearWordAddress(table: u64, id: u64, k: int, window: int)
    requires window == 0x1000 || window == 0x10000
    ensures var x: int := Wrap(id * 64);
      Wrap(Wrap(table + x / 0x1000 * 0x1000) + x % window + 8 * k)
        == Wrap(table + id * 64 + (if window == 0x1000 then 0 else x % 0x10000 / 0x1000 * 0x1000) + 8 * k)
  {
    var x: int := Wrap(id * 64);
    var b := table + x / 0x1000 * 0x1000;
    var extra := if window == 0x1000 then 0 else x % 0x10000 / 0x1000 * 0x1000;
    WrapAddWrap(x % window + 8 * k, b);
    assert Wrap(b) + x % window + 8 * k == x % window + 8 * k + Wrap(b);
    if window == 0x10000 {
      ModOfMod(x, 0x1000, 0x10);
    }
    assert x % window + 8 * k + b == table + extra + 8 * k + x;
    WrapAddWrap(table + extra + 8 * k, id * 64);
  }

  /** Two-level table at `table`: the level-1 descriptor at byte `l1Offset` is
      read through the page window at `table + (l1Offset & ~0xfff)`, at offset
      `l1Offset & 0xfff`; the leaf array starts at the descriptor's address
      field aligned down to `l2Unit`, and the entry sits at `offset` in it. */
  function TwoLevelLocation(mem: Memory, table: u64, l1Offset: u64, l2Unit: nat, offset: u64): (loc: EntryLocation)
    requires l2Unit > 0
    ensures |loc.l1Reads| == 1 && loc.offset == offset
  {
    var descAddr := ReadAddress(Wrap(table + l1Offset / 0x1000 * 0x1000), l1Offset % 0x1000);
    EntryLocation(AddressField(mem(descAddr), l2Unit), offset, [MemRead(descAddr)])
  }

  /** The level-1 descriptor is read at `table + l1Offset`, and the leaf array
      is that descriptor's address field. */
  lemma TwoLevelDescriptor(mem: Memory, table: u64, l1Offset: u64, l2Unit: nat, offset: u64)
    requires l2Unit > 0
    ensures var loc := TwoLevelLocation(mem, table, l1Offset, l2Unit, offset);
      && loc.l1Reads == [MemRead(Wrap(table + l1Offset))]
      && loc.base == AddressField(mem(Wrap(table + l1Offset)), l2Unit)
  {
    SplitAtUnit(table, l1Offset, 0x1000);
  }
}
