/** The translation-table walk: VMSAv8-64 descriptors with a 4K granule
    (4 levels, index shifts 39, 30, 21, 12) or a 64K granule (3 levels,
    shifts 42, 29, 16), each level indexed by 9 bits of the IOVA. */
module PageTable {
  import opened Machine

  /** Number of levels the resolver walks (`max_lvl`). */
  function Levels(ps: PageSize): (n: nat)
    ensures ps == Page4K ==> n == 4
    ensures ps == Page64K ==> n == 3
  {
    match ps
    case Page4K => 4
    case Page64K => 3
  }

  /** The IOVA bit at which the index of `level` starts: `va_bits` minus
      `level` times `nr_pte_bits_per_page`. */
  function IndexShift(ps: PageSize, level: nat): (idx: nat)
    requires level < Levels(ps)
    ensures idx >= 12
  {
    match ps
    case Page4K => 39 - 9 * level
    case Page64K => 42 - 13 * level
  }

  /** The shifts the loop walks through, level by level. */
  lemma IndexShifts()
    ensures seq(Levels(Page4K), l requires 0 <= l < Levels(Page4K) => IndexShift(Page4K, l)) == [39, 30, 21, 12]
    ensures seq(Levels(Page64K), l requires 0 <= l < Levels(Page64K) => IndexShift(Page64K, l)) == [42, 29, 16]
  {
  }

  /** `(iova >> idx) & 0x1ff`: the descriptor index at a level. */
  function PteIndex(iova: u64, idx: nat): (i: nat)
    ensures i < 512
  {
    iova / Pow2(idx) % 512
  }

  /** Where the descriptor of a level is read: `smmu_readq` on the table at
      `base`, offset `index * 8`. */
  function PteAddress(base: u64, iova: u64, idx: nat): (a: u64)
  {
    ReadAddress(base, PteIndex(iova, idx) * 8)
  }

  /** How a walk ends: an invalid descriptor at a level, a block descriptor
      at a level (with the output base it maps), or a table descriptor at the
      last level (with the page it points to). */
  datatype WalkEnd =
    | PteInvalid(level: nat, pte: u64)
    | Block(level: nat, pte: u64, base: u64)
    | Walked(base: u64)

  /** A walk's end and the addresses of the descriptors it read, in order. */
  datatype Walk = Walk(end: WalkEnd, addresses: seq<u64>)

  /** Descriptor type, bits 0..1: 0b01 block, 0b11 table (or page at the last
      level), anything else invalid. */
  predicate IsBlock(pte: u64) {
    pte % 4 == 1
  }

  predicate IsTable(pte: u64) {
    pte % 4 == 3
  }

  /** The output base of a block descriptor at shift `idx`: its address field
      with the low `idx` bits cleared. */
  function BlockBase(pte: u64, idx: nat): (b: u64)
  {
    AddressField(pte, Pow2(idx))
  }

  /** The next-level table (or page) a table descriptor points to: its address
      field with the low 12 bits cleared. */
  function TableBase(pte: u64): (b: u64)
  {
    AddressField(pte, 0x1000)
  }

  /** Read `j` of a walk that started at `level` is in the table the
      preceding (table) descriptor points to, at the index of level
      `level + j`. */
  predicate ChainStep(mem: Memory, ps: PageSize, iova: u64, level: nat, addresses: seq<u64>, j: nat)
    requires 0 < j < |addresses| && level + j < Levels(ps)
  {
    && IsTable(mem(addresses[j - 1]))
    && addresses[j] == PteAddress(TableBase(mem(addresses[j - 1])), iova, IndexShift(ps, level + j))
  }

  /** The reads of a walk from the table at `base`, starting at `level`, form
      a chain: the first reads `base` at the index of `level`, and each later
      one reads the table the previous (table) descriptor points to. */
  predicate ReadsChain(mem: Memory, ps: PageSize, iova: u64, base: u64, level: nat, addresses: seq<u64>)
    requires level + |addresses| <= Levels(ps)
  {
    && (|addresses| > 0 ==> addresses[0] == PteAddress(base, iova, IndexShift(ps, level)))
    && (forall j :: 0 < j < |addresses| ==> ChainStep(mem, ps, iova, level, addresses, j))
  }

  /** How a walk from `base` at `level` ends, in terms of the last descriptor
      it read: a block descriptor at level `l` ends it there with its block
      base; a descriptor that is neither block nor table ends it there as
      invalid; a completed walk read all remaining levels and hands back the
      page the last (table) descriptor points to, or `base` if no level was
      left. */
  predicate EndsAtLastRead(mem: Memory, ps: PageSize, base: u64, level: nat, w: Walk)
  {
    var n := |w.addresses|;
    match w.end
    case Block(l, pte, b) =>
      && level <= l < Levels(ps) && n == l - level + 1
      && pte == mem(w.addresses[n - 1])
      && IsBlock(pte) && b == BlockBase(pte, IndexShift(ps, l))
    case PteInvalid(l, pte) =>
      && level <= l < Levels(ps) && n == l - level + 1
      && pte == mem(w.addresses[n - 1])
      && !IsBlock(pte) && !IsTable(pte)
    case Walked(b) =>
      && level + n == Levels(ps)
      && if n == 0 then b == base
         else IsTable(mem(w.addresses[n - 1])) && b == TableBase(mem(w.addresses[n - 1]))
  }

  /** The walk from the table at `base`, starting at `level` (the resolver's
      loop from `i = level`). It reads at most one descriptor per remaining
      level, its reads form a chain, and it ends at the first block or invalid
      descriptor or after the last level. */
  function WalkFrom(mem: Memory, ps: PageSize, iova: u64, base: u64, level: nat): (w: Walk)
    requires level <= Levels(ps)
    decreases Levels(ps) - level
  {
    if level == Levels(ps) then Walk(Walked(base), [])
    else
      var idx := IndexShift(ps, level);
      var addr := PteAddress(base, iova, idx);
      var pte := mem(addr);
      if IsBlock(pte) then Walk(Block(level, pte, BlockBase(pte, idx)), [addr])
      else if IsTable(pte) then
        var rest := WalkFrom(mem, ps, iova, TableBase(pte), level + 1);
        Walk(rest.end, [addr] + rest.addresses)
      else Walk(PteInvalid(level, pte), [addr])
  }

  /** The shape every walk from `level` has. */
  ghost predicate Shaped(mem: Memory, ps: PageSize, iova: u64, base: u64, level: nat, w: Walk) {
    && level + |w.addresses| <= Levels(ps)
    && ReadsChain(mem, ps, iova, base, level, w.addresses)
    && EndsAtLastRead(mem, ps, base, level, w)
  }

  /** Every walk has that shape: at most one read per remaining level, the
      reads form a chain, and the walk ends at its last read. */
  lemma {:induction false} WalkShape(mem: Memory, ps: PageSize, iova: u64, base: u64, level: nat)
    requires level <= Levels(ps)
    ensures Shaped(mem, ps, iova, base, level, WalkFrom(mem, ps, iova, base, level))
    decreases Levels(ps) - level
  {
    if level < Levels(ps) && TableAt(mem, ps, iova, base, level) {
      WalkShape(mem, ps, iova, TableBase(mem(PteAddress(base, iova, IndexShift(ps, level)))), level + 1);
      TableStepShape(mem, ps, iova, base, level);
    } else {
      LastStepShape(mem, ps, iova, base, level);
    }
  }

  /** Through a table descriptor, the walk from `level` has the shape if the
      walk from the next level has it. */
  lemma TableStepShape(mem: Memory, ps: PageSize, iova: u64, base: u64, level: nat)
    requires level < Levels(ps) && TableAt(mem, ps, iova, base, level)
    requires var next := TableBase(mem(PteAddress(base, iova, IndexShift(ps, level))));
      Shaped(mem, ps, iova, next, level + 1, WalkFrom(mem, ps, iova, next, level + 1))
    ensures Shaped(mem, ps, iova, base, level, WalkFrom(mem, ps, iova, base, level))
  {
    var addr := PteAddress(base, iova, IndexShift(ps, level));
    WalkFromTable(mem, ps, iova, base, level, addr);
    ShapeExtends(mem, ps, iova, base, level, addr, WalkFrom(mem, ps, iova, TableBase(mem(addr)), level + 1));
  }

  /** The descriptor the walk reads at `level` is a table descriptor. */
  predicate TableAt(mem: Memory, ps: PageSize, iova: u64, base: u64, level: nat)
    requires level < Levels(ps)
  {
    var pte := mem(PteAddress(base, iova, IndexShift(ps, level)));
    !IsBlock(pte) && IsTable(pte)
  }

  /** A walk that ends at `level`, with no level left or at a block or invalid
      descriptor, has the shape. */
  lemma LastStepShape(mem: Memory, ps: PageSize, iova: u64, base: u64, level: nat)
    requires level <= Levels(ps)
    requires level < Levels(ps) ==> !TableAt(mem, ps, iova, base, level)
    ensures Shaped(mem, ps, iova, base, level, WalkFrom(mem, ps, iova, base, level))
  {
  }

  /** Reading a table descriptor in front of a walk of that shape from the
      next level gives a walk of that shape from `level`. */
  lemma ShapeExtends(mem: Memory, ps: PageSize, iova: u64, base: u64, level: nat, addr: u64, rest: Walk)
    requires level < Levels(ps)
    requires addr == PteAddress(base, iova, IndexShift(ps, level)) && IsTable(mem(addr))
    requires Shaped(mem, ps, iova, TableBase(mem(addr)), level + 1, rest)
    ensures Shaped(mem, ps, iova, base, level, Walk(rest.end, [addr] + rest.addresses))
  {
    ChainExtends(mem, ps, iova, base, level, level + 1, addr, rest.addresses);
    EndExtends(mem, ps, base, level, addr, rest);
  }

  /** Reading a table descriptor at `level` in front of a chain that starts at
      the table it points to gives a chain from `level`. */
  lemma ChainExtends(mem: Memory, ps: PageSize, iova: u64, base: u64, level: nat, next: nat, addr: u64, rest: seq<u64>)
    requires next == level + 1 && next + |rest| <= Levels(ps)
    requires addr == PteAddress(base, iova, IndexShift(ps, level)) && IsTable(mem(addr))
    requires ReadsChain(mem, ps, iova, TableBase(mem(addr)), next, rest)
    ensures ReadsChain(mem, ps, iova, base, level, [addr] + rest)
  {
    var all := [addr] + rest;
    forall j | 0 < j < |all|
      ensures ChainStep(mem, ps, iova, level, all, j)
    {
      if j > 1 {
        assert ChainStep(mem, ps, iova, next, rest, j - 1);
        assert all[j] == rest[j - 1] && all[j - 1] == rest[j - 2];
      }
    }
  }

  /** The end of the rest of a walk, reached through a table descriptor at
      `level`, is the end of the whole walk. */
  lemma EndExtends(mem: Memory, ps: PageSize, base: u64, level: nat, addr: u64, rest: Walk)
    requires IsTable(mem(addr))
    requires EndsAtLastRead(mem, ps, TableBase(mem(addr)), level + 1, rest)
    ensures EndsAtLastRead(mem, ps, base, level, Walk(rest.end, [addr] + rest.addresses))
  {
    var all := [addr] + rest.addresses;
    if rest.addresses == [] {
      assert all[|all| - 1] == addr;
    } else {
      assert all[|all| - 1] == rest.addresses[|rest.addresses| - 1];
    }
  }

  /** Conversely, the shape determines the walk: a walk of that shape from
      `level` is `WalkFrom`'s, so `Shaped` characterizes the walk fully. */
  lemma {:induction false} ShapedIsWalk(mem: Memory, ps: PageSize, iova: u64, base: u64, level: nat, w: Walk)
    requires level <= Levels(ps)
    requires Shaped(mem, ps, iova, base, level, w)
    ensures w == WalkFrom(mem, ps, iova, base, level)
    decreases Levels(ps) - level
  {
    ShapedStart(mem, ps, iova, base, level, w);
    if level < Levels(ps) && TableAt(mem, ps, iova, base, level) {
      var addr := PteAddress(base, iova, IndexShift(ps, level));
      var next := TableBase(mem(addr));
      var rest := Walk(w.end, w.addresses[1..]);
      ShapedPeel(mem, ps, iova, base, level, w);
      ShapedIsWalk(mem, ps, iova, next, level + 1, rest);
      TableStepJoin(mem, ps, iova, base, level, w);
    }
  }

  /** Proof helper: a walk whose first read is the table descriptor at
      `level` and whose rest is the walk from the next level is the walk. */
  lemma TableStepJoin(mem: Memory, ps: PageSize, iova: u64, base: u64, level: nat, w: Walk)
    requires level < Levels(ps) && TableAt(mem, ps, iova, base, level)
    requires |w.addresses| >= 1 && w.addresses[0] == PteAddress(base, iova, IndexShift(ps, level))
    requires Walk(w.end, w.addresses[1..]) == WalkFrom(mem, ps, iova, TableBase(mem(w.addresses[0])), level + 1)
    ensures w == WalkFrom(mem, ps, iova, base, level)
  {
    var addr := w.addresses[0];
    var rest := Walk(w.end, w.addresses[1..]);
    WalkFromTable(mem, ps, iova, base, level, addr);
    assert w.addresses == [addr] + rest.addresses;
  }

  /** Proof helper: a shaped walk from a level that is left reads at least
      once, first at `base`; with no level left, or when that descriptor is
      not a table, the walk stops as `WalkFrom` does. */
  lemma ShapedStart(mem: Memory, ps: PageSize, iova: u64, base: u64, level: nat, w: Walk)
    requires level <= Levels(ps)
    requires Shaped(mem, ps, iova, base, level, w)
    ensures level < Levels(ps) ==> |w.addresses| >= 1 && w.addresses[0] == PteAddress(base, iova, IndexShift(ps, level))
    ensures (level < Levels(ps) ==> !TableAt(mem, ps, iova, base, level)) ==> w == WalkFrom(mem, ps, iova, base, level)
  {
    if level < Levels(ps) && |w.addresses| > 1 {
      assert ChainStep(mem, ps, iova, level, w.addresses, 1);
    }
  }

  /** Proof helper: removing the first read, a table descriptor, from a
      shaped walk leaves a shaped walk from the next level. */
  lemma ShapedPeel(mem: Memory, ps: PageSize, iova: u64, base: u64, level: nat, w: Walk)
    requires level < Levels(ps) && TableAt(mem, ps, iova, base, level)
    requires Shaped(mem, ps, iova, base, level, w)
    requires |w.addresses| >= 1 && w.addresses[0] == PteAddress(base, iova, IndexShift(ps, level))
    ensures Shaped(mem, ps, iova, TableBase(mem(w.addresses[0])), level + 1, Walk(w.end, w.addresses[1..]))
  {
    var next, rest, l1 := TableBase(mem(w.addresses[0])), w.addresses[1..], level + 1;
    if |rest| > 0 {
      assert ChainStep(mem, ps, iova, level, w.addresses, 1);
    }
    forall j | 0 < j < |rest|
      ensures ChainStep(mem, ps, iova, l1, rest, j)
    {
      assert ChainStep(mem, ps, iova, level, w.addresses, j + 1);
    }
    if |rest| > 0 {
      assert rest[|rest| - 1] == w.addresses[|w.addresses| - 1];
    }
  }

  /** A block descriptor made of an output address aligned to the block size
      of `level`, type bits 0b01 and attributes below the block size ends the
      walk at that level with exactly that output address. */
  lemma BlockRoundTrip(mem: Memory, ps: PageSize, iova: u64, base: u64, level: nat, high: nat, out: nat, low: nat)
    requires level < Levels(ps)
    requires out < TWO_52 && out % Pow2(IndexShift(ps, level)) == 0
    requires low < Pow2(IndexShift(ps, level)) && low % 4 == 1
    requires mem(PteAddress(base, iova, IndexShift(ps, level))) == high * TWO_52 + out + low
    ensures WalkFrom(mem, ps, iova, base, level)
      == Walk(Block(level, high * TWO_52 + out + low, out), [PteAddress(base, iova, IndexShift(ps, level))])
  {
    var idx := IndexShift(ps, level);
    BlockUnit(ps, level);
    AddressFieldOfDescriptor(high, out, low, Pow2(idx));
    DescriptorType(high, out, low, Pow2(idx));
  }

  /** A table descriptor made of a 4K-aligned next-level address, type bits
      0b11 and attributes below bit 12 sends the walk to that table. */
  lemma TableRoundTrip(mem: Memory, ps: PageSize, iova: u64, base: u64, level: nat, high: nat, next: nat, low: nat)
    requires level < Levels(ps)
    requires next < TWO_52 && next % 0x1000 == 0 && low < 0x1000 && low % 4 == 3
    requires mem(PteAddress(base, iova, IndexShift(ps, level))) == high * TWO_52 + next + low
    ensures var rest := WalkFrom(mem, ps, iova, next, level + 1);
      WalkFrom(mem, ps, iova, base, level) == Walk(rest.end, [PteAddress(base, iova, IndexShift(ps, level))] + rest.addresses)
  {
    AddressFieldOfDescriptor(high, next, low, 0x1000);
    DescriptorType(high, next, low, 0x1000);
  }

  /** The block sizes of the levels divide 2^52 and are multiples of 4. */
  lemma BlockUnit(ps: PageSize, level: nat)
    requires level < Levels(ps)
    ensures TWO_52 % Pow2(IndexShift(ps, level)) == 0 && Pow2(IndexShift(ps, level)) % 4 == 0
  {
    match ps
    case Page4K =>
      assert Pow2(39) == 0x80_0000_0000 && Pow2(30) == 0x4000_0000;
      assert Pow2(21) == 0x20_0000 && Pow2(12) == 0x1000;
    case Page64K =>
      assert Pow2(42) == 0x400_0000_0000 && Pow2(29) == 0x2000_0000 && Pow2(16) == 0x1_0000;
  }

  /** The type bits of a descriptor are those of its attribute part when the
      address part is aligned to a multiple of 4. */
  lemma DescriptorType(high: nat, addr: nat, low: nat, unit: nat)
    requires unit > 0 && unit % 4 == 0 && addr % unit == 0
    ensures (high * TWO_52 + addr + low) % 4 == low % 4
  {
    var k := high * (TWO_52 / 4) + addr / unit * (unit / 4);
    assert addr == addr / unit * (unit / 4) * 4 by {
      MulAssociates(addr / unit, unit / 4, 4);
    }
    assert high * TWO_52 + addr + low == low + k * 4;
    ModAddMultiple(low, k, 4);
  }

  /** The walk as the resolver's loop makes it: `done` holds the descriptor
      addresses read at the levels before `level`, and each step either ends
      the walk or moves to the next table with one more address read. */
  function WalkLoop(mem: Memory, ps: PageSize, iova: u64, base: u64, level: nat, done: seq<u64>): (w: Walk)
    requires level <= Levels(ps)
    decreases Levels(ps) - level
  {
    if level == Levels(ps) then Walk(Walked(base), done)
    else
      var idx := IndexShift(ps, level);
      var addr := PteAddress(base, iova, idx);
      var pte := mem(addr);
      if IsBlock(pte) then Walk(Block(level, pte, BlockBase(pte, idx)), done + [addr])
      else if IsTable(pte) then WalkLoop(mem, ps, iova, TableBase(pte), level + 1, done + [addr])
      else Walk(PteInvalid(level, pte), done + [addr])
  }

  /** The loop's walk is the walk from `level` with the reads already done in
      front of it. */
  lemma {:induction false} WalkLoopExtendsWalkFrom(mem: Memory, ps: PageSize, iova: u64, base: u64, level: nat, done: seq<u64>)
    requires level <= Levels(ps)
    ensures WalkLoop(mem, ps, iova, base, level, done)
      == Walk(WalkFrom(mem, ps, iova, base, level).end, done + WalkFrom(mem, ps, iova, base, level).addresses)
    decreases Levels(ps) - level
  {
    if level == Levels(ps) {
      assert done + [] == done;
    } else {
      var addr := PteAddress(base, iova, IndexShift(ps, level));
      if !IsBlock(mem(addr)) && IsTable(mem(addr)) {
        var next := TableBase(mem(addr));
        WalkFromTable(mem, ps, iova, base, level, addr);
        WalkLoopTable(mem, ps, iova, base, level, addr, done);
        WalkLoopExtendsWalkFrom(mem, ps, iova, next, level + 1, done + [addr]);
        AppendAssociates(done, [addr], WalkFrom(mem, ps, iova, next, level + 1).addresses);
      }
    }
  }

  /** Proof helper: unfolds `WalkFrom` through a table descriptor. */
  lemma WalkFromTable(mem: Memory, ps: PageSize, iova: u64, base: u64, level: nat, addr: u64)
    requires level < Levels(ps)
    requires addr == PteAddress(base, iova, IndexShift(ps, level)) && !IsBlock(mem(addr)) && IsTable(mem(addr))
    ensures WalkFrom(mem, ps, iova, base, level)
      == Walk(WalkFrom(mem, ps, iova, TableBase(mem(addr)), level + 1).end, [addr] + WalkFrom(mem, ps, iova, TableBase(mem(addr)), level + 1).addresses)
  {
  }

  /** Proof helper: unfolds `WalkLoop` through a table descriptor. */
  lemma WalkLoopTable(mem: Memory, ps: PageSize, iova: u64, base: u64, level: nat, addr: u64, done: seq<u64>)
    requires level < Levels(ps)
    requires addr == PteAddress(base, iova, IndexShift(ps, level)) && !IsBlock(mem(addr)) && IsTable(mem(addr))
    ensures WalkLoop(mem, ps, iova, base, level, done) == WalkLoop(mem, ps, iova, TableBase(mem(addr)), level + 1, done + [addr])
  {
  }

  /** Proof helper for the loop of `WalkTables`: unfolds one step of
      `WalkLoop` on the descriptor `val` read at `addr` for `level`. */
  lemma WalkLoopStep(mem: Memory, ps: PageSize, iova: u64, base: u64, level: nat, done: seq<u64>, idx: nat, addr: u64, val: u64)
    requires level < Levels(ps) && idx == IndexShift(ps, level)
    requires addr == PteAddress(base, iova, idx) && val == mem(addr)
    ensures val % 4 == 1 ==> WalkLoop(mem, ps, iova, base, level, done) == Walk(Block(level, val, BlockBase(val, idx)), done + [addr])
    ensures val % 4 == 3 ==> WalkLoop(mem, ps, iova, base, level, done) == WalkLoop(mem, ps, iova, TableBase(val), level + 1, done + [addr])
    ensures val % 4 != 1 && val % 4 != 3 ==> WalkLoop(mem, ps, iova, base, level, done) == Walk(PteInvalid(level, val), done + [addr])
  {
  }

  lemma AppendAssociates(a: seq<u64>, b: seq<u64>, c: seq<u64>)
    ensures (a + b) + c == a + (b + c)
  {
  }

  /** From the root with nothing read yet, the loop's walk is the walk. */
  lemma WalkLoopIsWalkFrom(mem: Memory, ps: PageSize, iova: u64, root: u64)
    ensures WalkLoop(mem, ps, iova, root, 0, []) == WalkFrom(mem, ps, iova, root, 0)
  {
    WalkLoopExtendsWalkFrom(mem, ps, iova, root, 0, []);
    assert [] + WalkFrom(mem, ps, iova, root, 0).addresses == WalkFrom(mem, ps, iova, root, 0).addresses;
  }

  /** The resolver's page-walk loop: from `root`, for `i = 0 .. max_lvl - 1`
      with `idx` stepping down from `va_bits`, read the descriptor, stop at a
      block (with its block base) or at an invalid descriptor, and follow a
      table descriptor to the next level. */
  method WalkTables(mem: Memory, ps: PageSize, iova: u64, root: u64) returns (end: WalkEnd, addresses: seq<u64>)
    ensures Walk(end, addresses) == WalkLoop(mem, ps, iova, root, 0, [])
  {
    var vaBits, maxLvl, bitsPerLevel;
    if ps == Page4K {
      vaBits, maxLvl, bitsPerLevel := 39, 4, 9;
    } else {
      vaBits, maxLvl, bitsPerLevel := 42, 3, 13;
    }
    ghost var target := WalkLoop(mem, ps, iova, root, 0, []);
    var base := root;
    var i := 0;
    var idx: int := vaBits;
    addresses := [];
    while i < maxLvl
      invariant maxLvl == Levels(ps) && 0 <= i <= maxLvl
      invariant bitsPerLevel == (if ps == Page4K then 9 else 13)
      invariant i < maxLvl ==> idx == IndexShift(ps, i)
      invariant WalkLoop(mem, ps, iova, base, i, addresses) == target
      decreases maxLvl - i
    {
      var addr := ReadAddress(base, PteIndex(iova, idx) * 8);
      var val := mem(addr);
      WalkLoopStep(mem, ps, iova, base, i, addresses, idx, addr, val);
      addresses := addresses + [addr];
      if val % 4 == 1 {
        base := BlockBase(val, idx);
        return Block(i, val, base), addresses;
      } else if val % 4 == 3 {
        base := TableBase(val);
      } else {
        return PteInvalid(i, val), addresses;
      }
      i := i + 1;
      idx := idx - bitsPerLevel;
    }
    end := Walked(base);
  }
}
