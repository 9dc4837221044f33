/** Machine words, physical memory, C's unsigned arithmetic and the address-field
    extraction that every SMMUv3 structure (stream table, context descriptor,
    page table) shares.

    Words are unbounded integers restricted to their C range; C's wrap-around is
    written out with `Wrap`. For a power of two `2^k`, the masks the resolver
    uses are written arithmetically: `x & (2^k - 1)` is `x % 2^k`,
    `x & ~(2^k - 1)` is `x / 2^k * 2^k` and `x >> k` is `x / 2^k`. */
module Machine {

  const TWO_31: int := 0x8000_0000
  const TWO_32: int := 0x1_0000_0000
  const TWO_52: int := 0x10_0000_0000_0000
  const TWO_64: int := 0x1_0000_0000_0000_0000

  /** C's `u32` and `u64`. */
  type u32 = x: int | 0 <= x < 0x1_0000_0000
  type u64 = x: int | 0 <= x < 0x1_0000_0000_0000_0000

  /** Physical memory as seen through 8-byte reads (`smmu_readq` on a mapped
      window): the 64-bit word stored at a physical byte address. */
  type Memory = u64 -> u64

  /** One access the resolver makes, in program order: a 32/64-bit read of an
      SMMU register at its offset in the register page, or an 8-byte read of
      physical memory at an address. */
  datatype Access = RegRead(offset: u64) | MemRead(addr: u64)

  /** The memory reads of a list of addresses, in order. */
  function MemReads(addrs: seq<u64>): (r: seq<Access>)
    ensures |r| == |addrs|
    ensures forall k :: 0 <= k < |r| ==> r[k] == MemRead(addrs[k])
  {
    seq(|addrs|, k requires 0 <= k < |addrs| => MemRead(addrs[k]))
  }

  /** The page size the resolver runs with; it sizes the memory windows and
      selects the page-walk geometry. */
  datatype PageSize = Page4K | Page64K

  function PageBytes(ps: PageSize): (n: u64)
    ensures ps == Page4K <==> n == 0x1000
    ensures ps == Page64K <==> n == 0x10000
  {
    match ps
    case Page4K => 0x1000
    case Page64K => 0x10000
  }

  /** `1ULL << n`, eight doublings at a time. */
  function Pow2(n: nat): (p: nat)
    ensures p >= 1
  {
    if n < 8 then [1, 2, 4, 8, 16, 32, 64, 128][n] else 256 * Pow2(n - 8)
  }

  lemma {:induction false} Pow2Succ(n: nat)
    ensures Pow2(n + 1) == 2 * Pow2(n)
    decreases n
  {
    if n >= 8 {
      Pow2Succ(n - 8);
    }
  }

  lemma {:induction false} Pow2Add(a: nat, b: nat)
    ensures Pow2(a + b) == Pow2(a) * Pow2(b)
    decreases a
  {
    if a > 0 {
      var x, y := Pow2(a - 1), Pow2(b);
      Pow2Add(a - 1, b);
      Pow2Succ(a - 1 + b);
      Pow2Succ(a - 1);
      MulAssociates(2, x, y);
    }
  }

  lemma {:induction false} Pow2Monotone(a: nat, b: nat)
    requires a <= b
    ensures Pow2(a) <= Pow2(b)
    decreases b
  {
    if a < b {
      Pow2Monotone(a, b - 1);
      Pow2Succ(b - 1);
    }
  }

  /** The powers of two the model needs as numbers. */
  lemma Pow2Values()
    ensures Pow2(6) == 64 && Pow2(8) == 0x100 && Pow2(12) == 0x1000 && Pow2(16) == 0x10000
    ensures Pow2(32) == TWO_32 && Pow2(52) == TWO_52 && Pow2(64) == TWO_64
  {
    assert Pow2(6) == 64 && Pow2(8) == 0x100;
    Pow2Add(6, 6);
    Pow2Add(8, 8);
    Pow2Add(16, 16);
    Pow2Add(32, 32);
    Pow2Add(16, 4);
    Pow2Add(32, 20);
  }

  /** The value an unsigned 64-bit C expression takes: the mathematical value
      modulo 2^64. */
  function Wrap(x: int): (r: u64)
    ensures 0 <= x < TWO_64 ==> r == x
  {
    x % TWO_64
  }

  /** `Wrap` is reduction modulo 2^64: the wrapped value differs from the
      mathematical one by a multiple of 2^64. */
  lemma WrapCongruent(x: int)
    ensures (x - Wrap(x)) % TWO_64 == 0
  {
    DivModUnique(x, TWO_64, x / TWO_64, Wrap(x));
    MultipleMod(x / TWO_64, TWO_64);
  }

  /** Wrapping an addend first does not change a wrapped sum. */
  lemma WrapAddWrap(a: int, b: int)
    ensures Wrap(a + Wrap(b)) == Wrap(a + b)
  {
    var q := b / TWO_64;
    assert b == q * TWO_64 + Wrap(b);
    assert a + b == q * TWO_64 + (a + Wrap(b));
    ModAddMultiple(a + Wrap(b), q, TWO_64);
  }

  /** The remainder of a wrapped value by a power of two up to 2^64 is that of
      the value itself. */
  lemma WrapMod(x: int, n: nat)
    requires n <= 64
    ensures Wrap(x) % Pow2(n) == x % Pow2(n)
  {
    var p, m := Pow2(n), Pow2(64 - n);
    Pow2Add(n, 64 - n);
    Pow2Values();
    var q := x / TWO_64;
    assert x == q * TWO_64 + Wrap(x);
    assert p * m == TWO_64;
    MulAssociates(q, m, p);
    ModAddMultiple(Wrap(x), q * m, p);
  }

  /** C's conversion of a `size_t` offset to the `int` parameter of
      `smmu_readq`/`smmu_readl`: the low 32 bits, read as a signed number. */
  function CInt(offset: u64): (i: int)
    ensures offset < TWO_31 ==> i == offset
    ensures -TWO_31 <= i < TWO_31
    ensures (i - offset) % TWO_32 == 0
  {
    var low := offset % TWO_32;
    DivModUnique(offset, TWO_32, offset / TWO_32, low);
    assert offset - low == offset / TWO_32 * TWO_32;
    MultipleMod(-(offset / TWO_32), TWO_32);
    MultipleMod(-(offset / TWO_32) - 1, TWO_32);
    if low < TWO_31 then low else low - TWO_32
  }

  /** The physical address `smmu_readq(vbase, offset)` reads when `vbase` maps
      the physical address `base`: `(u64)vbase + offset`. */
  function ReadAddress(base: u64, offset: u64): (a: u64)
    ensures offset < TWO_31 ==> a == Wrap(base + offset)
  {
    Wrap(base + CInt(offset))
  }

  /** Physical addresses are at most 52 bits wide.
      `(v & ((1ULL << 52) - 1)) & ~(unit - 1)` for a power of two `unit`: the
      address field of a descriptor word, with the bits above 51 and below
      `unit` cleared. It is the largest multiple of `unit` not above the low 52
      bits of `v`. */
  function AddressField(v: u64, unit: nat): (a: u64)
    requires unit > 0
  {
    RoundDown(v % TWO_52, unit);
    v % TWO_52 / unit * unit
  }

  /** The address field is aligned to `unit`, below 2^52, and within one unit
      below the low 52 bits of the word. */
  lemma AddressFieldBounds(v: u64, unit: nat)
    requires unit > 0
    ensures AddressField(v, unit) % unit == 0
    ensures AddressField(v, unit) <= v % TWO_52 < AddressField(v, unit) + unit
    ensures AddressField(v, unit) < TWO_52
  {
    RoundDown(v % TWO_52, unit);
  }

  /** Rounding down to a multiple of `d` gives a multiple of `d` within `d`
      below the value. */
  lemma RoundDown(x: nat, d: nat)
    requires d > 0
    ensures (x / d * d) % d == 0
    ensures x / d * d <= x < x / d * d + d
  {
    MultipleMod(x / d, d);
  }

  /** A word made of an aligned address below 2^52, bits above bit 51 and low
      attribute bits below `unit` yields exactly that address. */
  lemma AddressFieldOfDescriptor(high: nat, addr: nat, low: nat, unit: nat)
    requires unit > 0 && TWO_52 % unit == 0
    requires addr < TWO_52 && addr % unit == 0 && low < unit
    requires high * TWO_52 + addr + low < TWO_64
    ensures AddressField(high * TWO_52 + addr + low, unit) == addr
  {
    AlignedRoom(addr, low, unit, TWO_52);
    ModAddMultiple(addr + low, high, TWO_52);
    DivModUnique(addr + low, TWO_52, 0, addr + low);
    DivModUnique(addr, unit, addr / unit, 0);
    DivModUnique(addr + low, unit, addr / unit, low);
  }

  /** Below a bound that is a multiple of `unit`, an aligned address leaves room
      for a whole unit. */
  lemma AlignedRoom(addr: nat, low: nat, unit: nat, bound: nat)
    requires unit > 0 && bound % unit == 0
    requires addr < bound && addr % unit == 0 && low < unit
    ensures addr + low < bound
  {
    var a, b := addr / unit, bound / unit;
    assert addr == a * unit;
    assert bound == b * unit;
    if a < b {
      MulAtLeast(b - a, unit);
      assert (b - a) * unit == bound - addr;
    }
  }

  /** Where a 32-byte STE or CD is read: the physical base the resolver maps,
      the offset inside that mapping, and the level-1 descriptor reads it made
      to find them. */
  datatype EntryLocation = EntryLocation(base: u64, offset: u64, l1Reads: seq<Access>)

  /** The four 64-bit words of a 32-byte STE or CD. */
  datatype Quad = Quad(w0: u64, w1: u64, w2: u64, w3: u64)

  /** `ste[k] = smmu_readq(vbase, offset + 8 * k)` for k = 0..3, with `vbase`
      mapping `base`. */
  function ReadQuad(mem: Memory, base: u64, offset: u64): (q: Quad)
    ensures q.w0 == mem(ReadAddress(base, offset))
  {
    Quad(mem(ReadAddress(base, offset)),
         mem(ReadAddress(base, Wrap(offset + 0x8))),
         mem(ReadAddress(base, Wrap(offset + 0x10))),
         mem(ReadAddress(base, Wrap(offset + 0x18))))
  }

  /** The accesses `ReadQuad` makes, in order. */
  function QuadReads(base: u64, offset: u64): (r: seq<Access>)
    ensures |r| == 4
  {
    [MemRead(ReadAddress(base, offset)),
     MemRead(ReadAddress(base, Wrap(offset + 0x8))),
     MemRead(ReadAddress(base, Wrap(offset + 0x10))),
     MemRead(ReadAddress(base, Wrap(offset + 0x18)))]
  }

  /** When the offset is small enough for `smmu_readq`'s `int` parameter, the
      k-th word comes from `base + offset + 8k`. */
  lemma QuadReadsAt(base: u64, offset: u64)
    requires offset + 0x18 < TWO_31
    ensures forall k :: 0 <= k < 4 ==> QuadReads(base, offset)[k] == MemRead(Wrap(base + offset + 8 * k))
  {
  }

  /** The same for the words read. */
  lemma ReadQuadAt(mem: Memory, base: u64, offset: u64)
    requires offset + 0x18 < TWO_31
    ensures ReadQuad(mem, base, offset) == Quad(mem(Wrap(base + offset)), mem(Wrap(base + offset + 8)),
                                                mem(Wrap(base + offset + 0x10)), mem(Wrap(base + offset + 0x18)))
  {
  }

  /** Division and remainder are determined by any decomposition `x = q*d + r`
      with `0 <= r < d`. */
  lemma DivModUnique(x: int, d: int, q: int, r: int)
    requires d > 0 && x == q * d + r && 0 <= r < d
    ensures x / d == q && x % d == r
  {
    var q0, r0 := x / d, x % d;
    assert x == q0 * d + r0;
    assert (q - q0) * d == r0 - r;
    if q > q0 {
      MulAtLeast(q - q0, d);
    } else if q < q0 {
      MulAtLeast(q0 - q, d);
    }
  }

  lemma MulAssociates(a: int, b: int, c: int)
    ensures (a * b) * c == a * (b * c) == a * (c * b)
  {
  }

  lemma MulAtLeast(k: int, d: int)
    requires k >= 1 && d > 0
    ensures k * d >= d
  {
  }

  /** Adding a multiple of `d` leaves the remainder unchanged. */
  lemma ModAddMultiple(x: int, k: int, d: int)
    requires d > 0
    ensures (x + k * d) % d == x % d
  {
    DivModUnique(x + k * d, d, x / d + k, x % d);
  }

  lemma MultipleMod(q: int, d: int)
    requires d > 0
    ensures (q * d) % d == 0
  {
    DivModUnique(q * d, d, q, 0);
  }

  /** A remainder by `a` survives an earlier remainder by a multiple of `a`. */
  lemma ModOfMod(x: int, a: int, b: int)
    requires a > 0 && b > 0
    ensures (x % (a * b)) % a == x % a
  {
    var q := x / (a * b);
    assert x == (q * b) * a + x % (a * b) by {
      MulAssociates(q, b, a);
    }
    ModAddMultiple(x % (a * b), q * b, a);
  }

  /** Splitting an offset at a page boundary and adding the parts back is
      adding the offset. */
  lemma SplitAtUnit(base: int, x: int, unit: int)
    requires unit > 0
    ensures Wrap(Wrap(base + x / unit * unit) + x % unit) == Wrap(base + x)
  {
    var b := base + x / unit * unit;
    WrapAddWrap(x % unit, b);
    assert Wrap(b) + x % unit == x % unit + Wrap(b);
    assert x % unit + b == base + x;
  }

  /** Scaling both sides of a remainder: `(a * b) % (m * b) == (a % m) * b`. */
  lemma ScaledMod(a: int, b: int, m: int)
    requires b > 0 && m > 0
    ensures (a * b) % (m * b) == (a % m) * b
  {
    var q, r := a / m, a % m;
    assert a * b == q * (m * b) + r * b;
    assert r * b < m * b;
    DivModUnique(a * b, m * b, q, r * b);
  }
}
