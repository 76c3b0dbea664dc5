/**
  The bump allocator under the memtable.  Addresses are numbers; where `new` puts a block is up
  to the system, as long as the block lies in the address space and apart from blocks still owned.
*/
module Arena {
  import opened Wrappers

  const SIZE_MAX: nat := 0xFFFF_FFFF_FFFF_FFFF

  /** size_t and uintptr_t: every expression of this type is proved not to wrap. */
  type Size = n: nat | n <= SIZE_MAX

  datatype Block = Block(base: Size, size: Size)

  /** What one call handed out, and from which block. */
  datatype Region = Region(block: nat, addr: Size, len: Size)

  datatype Allocation = Allocated(addr: Size) | BadAlignment | BadAlloc

  predicate Apart(a: nat, m: nat, b: nat, n: nat) { a + m <= b || b + n <= a }

  /** The block and one past its end are addresses. */
  predicate InSpace(b: Block) { b.base + b.size <= SIZE_MAX }

  predicate Inside(r: Region, b: Block) { b.base <= r.addr && r.addr + r.len <= b.base + b.size }

  // ----- the power-of-two test -----

  function BitAnd(a: nat, b: nat): nat {
    if a == 0 || b == 0 then 0 else 2 * BitAnd(a / 2, b / 2) + if a % 2 == 1 && b % 2 == 1 then 1 else 0
  }

  predicate PowerOfTwo(n: nat) { n == 1 || (n > 1 && n % 2 == 0 && PowerOfTwo(n / 2)) }

  lemma {:induction false} BitAndSelf(n: nat)
    ensures BitAnd(n, n) == n
  {
    if n > 0 { BitAndSelf(n / 2); }
  }

  /** The mask test accepts exactly the powers of two. */
  lemma {:induction false} MaskTest(n: nat)
    requires n > 0
    ensures BitAnd(n, n - 1) == 0 <==> PowerOfTwo(n)
  {
    if n % 2 == 1 {
      if n > 1 {
        assert (n - 1) / 2 == n / 2;
        BitAndSelf(n / 2);
      }
    } else {
      assert (n - 1) / 2 == n / 2 - 1;
      MaskTest(n / 2);
    }
  }

  // ----- padding -----

  function PadFor(p: nat, alignment: nat): (pad: nat)
    requires alignment > 0
    ensures pad < alignment && (p + pad) % alignment == 0
  {
    var rem := p % alignment;
    PadAligns(p, alignment);
    if rem != 0 then alignment - rem else 0
  }

  lemma PadAligns(p: nat, a: nat)
    requires a > 0
    ensures p % a != 0 ==> (p + (a - p % a)) % a == 0
  {
    var q, r := p / a, p % a;
    assert p + (a - r) == (q + 1) * a;
    MultipleOf(q + 1, a);
  }

  lemma {:induction false} MultipleOf(q: nat, a: nat)
    requires a > 0
    ensures q * a % a == 0
  {
    if q > 0 {
      MultipleOf(q - 1, a);
      var m := (q - 1) * a;
      assert q * a == m + a;
      assert m == a * (m / a) + m % a;
      assert m + a == a * (m / a + 1);
      UniqueQuotient(m + a, a, m / a + 1);
    }
  }

  lemma UniqueQuotient(n: nat, a: nat, q: nat)
    requires a > 0 && n == a * q
    ensures n % a == 0
  {
    var k, r := n / a, n % a;
    var d := q - k;
    assert n == a * k + r;
    assert a * q == a * (k + d) == a * k + a * d;
    SmallMultiple(a, d, r);
  }

  lemma SmallMultiple(a: int, d: int, r: int)
    requires 0 <= r < a && r == a * d
    ensures r == 0
  {
    Multiples(a, d);
  }

  lemma Multiples(a: int, d: int)
    requires a > 0
    ensures d >= 1 ==> a * d >= a
    ensures d <= -1 ==> a * d <= -a
  {
  }

  class Arena {
    const blockSize: Size
    var blocks: seq<Block>
    var current: Size
    var currentSize: Size
    var offset: Size
    ghost var regions: seq<Region>

    /** Bump state: the last block is in hand and everything handed out of it lies below `offset`. */
    ghost predicate Valid()
      reads this
    {
      && blocks != [] && blocks[|blocks| - 1] == Block(current, currentSize) && offset <= currentSize
      && (forall i | 0 <= i < |blocks| :: InSpace(blocks[i]))
      && (forall i, j | 0 <= i < j < |blocks| :: Apart(blocks[i].base, blocks[i].size, blocks[j].base, blocks[j].size))
      && (forall i | 0 <= i < |regions| :: regions[i].block < |blocks| && Inside(regions[i], blocks[regions[i].block]))
      && (forall i | 0 <= i < |regions| && regions[i].block == |blocks| - 1 ::
            regions[i].addr + regions[i].len <= current + offset)
      && Disjoint(regions)
    }

    /** `new char[size]` may put a block at `base`. */
    ghost predicate MayPlace(base: Size, size: nat)
      reads this
    {
      && base + size <= SIZE_MAX
      && (forall i | 0 <= i < |blocks| :: Apart(blocks[i].base, blocks[i].size, base, size))
    }

    constructor (size: Size, base: Size)
      requires base + size <= SIZE_MAX
      ensures Valid() && regions == [] && blockSize == size && blocks == [Block(base, size)]
    {
      blockSize := size;
      blocks := [Block(base, size)];
      current, currentSize, offset := base, size, 0;
      regions := [];
    }

    /** Whether the request fits behind what the block in hand has already given away. */
    predicate FitsHere(bytes: Size, alignment: Size)
      requires alignment > 0
      reads this
    {
      current + offset + PadFor(current + offset, alignment) + bytes <= current + currentSize
    }

    /**
      Hands out `bytes` at `alignment`.  `place` is where the system would put a fresh block,
      None if it has no memory left.
    */
    method Allocate(bytes: Size, alignment: Size, place: Option<Size>) returns (r: Allocation)
      requires Valid()
      requires place.Some? && bytes + alignment <= SIZE_MAX ==>
        MayPlace(place.value, if blockSize < bytes + alignment then bytes + alignment else blockSize)
      modifies this
      ensures Valid()
      ensures r.BadAlignment? <==> !PowerOfTwo(alignment)
      ensures r.BadAlloc? == (PowerOfTwo(alignment) &&
        (bytes + alignment > SIZE_MAX || (!old(FitsHere(bytes, alignment)) && place.None?)))
      ensures !r.Allocated? ==> unchanged(this)
      ensures r.Allocated? ==> r.addr % alignment == 0
      ensures r.Allocated? ==> regions == old(regions) + [Region(|blocks| - 1, r.addr, bytes)]
      ensures old(blocks) <= blocks && |blocks| <= |old(blocks)| + 1
      ensures r.Allocated? && old(FitsHere(bytes, alignment)) ==> blocks == old(blocks)
    {
      if alignment == 0 { return BadAlignment; }
      MaskTest(alignment);
      if BitAnd(alignment, alignment - 1) != 0 { return BadAlignment; }
      if bytes > SIZE_MAX - alignment { return BadAlloc; }
      var at: Size := current + offset;
      var pad: Size := PadFor(at, alignment);
      var remaining: Size := currentSize - offset;
      if pad > remaining || bytes > remaining - pad {
        var wanted: Size := bytes + alignment;
        var nextSize: Size := if blockSize < wanted then wanted else blockSize;
        if place.None? { return BadAlloc; }
        TakeBlock(place.value, nextSize);
        at := current;
        pad := PadFor(at, alignment);
      }
      var result: Size := at + pad;
      Bump(result, pad, bytes);
      r := Allocated(result);
    }

    /** A fresh block replaces the one in hand. */
    method TakeBlock(base: Size, size: Size)
      requires Valid() && MayPlace(base, size)
      modifies this
      ensures Valid() && regions == old(regions) && blocks == old(blocks) + [Block(base, size)]
      ensures current == base && currentSize == size && offset == 0
    {
      blocks := blocks + [Block(base, size)];
      current, currentSize, offset := base, size, 0;
    }

    /** Moves the bump pointer past `pad` and `bytes`. */
    method Bump(result: Size, pad: Size, bytes: Size)
      requires Valid() && offset + pad + bytes <= currentSize && result == current + offset + pad
      modifies this
      ensures Valid() && blocks == old(blocks)
      ensures regions == old(regions) + [Region(|blocks| - 1, result, bytes)]
    {
      ghost var given := Region(|blocks| - 1, result, bytes);
      forall i | 0 <= i < |regions| ensures Apart(regions[i].addr, regions[i].len, result, bytes) {
        if regions[i].block < |blocks| - 1 {
          var b := blocks[regions[i].block];
          assert Inside(regions[i], b) && Apart(b.base, b.size, current, currentSize);
        }
      }
      offset := offset + (pad + bytes);
      regions := regions + [given];
    }
  }

  /** No two calls were given a common byte. */
  predicate Disjoint(regions: seq<Region>) {
    forall i, j | 0 <= i < j < |regions| :: Apart(regions[i].addr, regions[i].len, regions[j].addr, regions[j].len)
  }
}
