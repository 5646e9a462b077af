/**
 The allocators of include/pool/memory_pool.hpp over a byte memory: the free list of a
 `FixedMemPool` is the chain of pointers stored in the free blocks themselves.
 */
module RawMemory {

  newtype Byte = b: nat | b < 256

  /** The bytes of memory; an address never written holds 0. */
  type Memory = map<nat, Byte>

  const WORD := 8
  const ADDRESS_LIMIT: nat := 0x1_0000_0000_0000_0000

  function Peek(m: Memory, a: nat): Byte {
    if a in m then m[a] else 0
  }

  /** The byte of a number that stands at place `i`, least significant first. */
  function Digit(p: nat, i: nat): Byte {
    if i == 0 then (p % 256) as Byte else Digit(p / 256, i - 1)
  }

  function Digits(p: nat, n: nat): seq<Byte> {
    seq(n, i requires 0 <= i < n => Digit(p, i))
  }

  function WordOf(s: seq<Byte>): nat {
    if s == [] then 0 else s[0] as nat + 256 * WordOf(s[1..])
  }

  function Read(m: Memory, a: nat, n: nat): seq<Byte> {
    seq(n, i requires 0 <= i < n => Peek(m, a + i))
  }

  function Write(m: Memory, a: nat, s: seq<Byte>): (m': Memory)
    ensures forall x: nat :: Peek(m', x) == if a <= x < a + |s| then s[x - a] else Peek(m, x)
    decreases |s|
  {
    if s == [] then m else Write(m[a := s[0]], a + 1, s[1..])
  }

  /** The 8-byte little-endian word at an address. */
  function Load(m: Memory, a: nat): nat {
    WordOf(Read(m, a, WORD))
  }

  function Store(m: Memory, a: nat, p: nat): Memory {
    Write(m, a, Digits(p, WORD))
  }

  function Power256(n: nat): nat {
    if n == 0 then 1 else 256 * Power256(n - 1)
  }

  lemma {:induction false} DigitsWord(p: nat, n: nat)
    requires p < Power256(n)
    ensures WordOf(Digits(p, n)) == p
    decreases n
  {
    if n > 0 {
      DigitsWord(p / 256, n - 1);
      assert Digits(p, n)[1..] == Digits(p / 256, n - 1);
    }
  }

  /** A stored pointer is read back, and a store writes only its own word. */
  lemma LoadStored(m: Memory, a: nat, p: nat)
    requires p < ADDRESS_LIMIT
    ensures Load(Store(m, a, p), a) == p
    ensures forall x: nat :: x < a || a + WORD <= x ==> Peek(Store(m, a, p), x) == Peek(m, x)
  {
    assert Power256(8) == ADDRESS_LIMIT;
    DigitsWord(p, WORD);
    assert Read(Store(m, a, p), a, WORD) == Digits(p, WORD);
  }

  /** Words are the same when their bytes are. */
  lemma LoadSame(m: Memory, m': Memory, a: nat)
    requires forall x: nat :: a <= x < a + WORD ==> Peek(m', x) == Peek(m, x)
    ensures Load(m', a) == Load(m, a)
  {
    assert Read(m', a, WORD) == Read(m, a, WORD);
  }
}

module PoolMemory {
  import opened Options
  import opened RawMemory

  /** The product of a count and a size. */
  function Times(n: nat, size: nat): nat {
    if n == 0 then 0 else Times(n - 1, size) + size
  }

  lemma {:induction false} TimesIsProduct(n: nat, size: nat)
    ensures Times(n, size) == n * size
  {
    if n > 0 {
      TimesIsProduct(n - 1, size);
      assert n * size == (n - 1) * size + size;
    }
  }

  /** Base addresses and sizes of what `operator new` has handed out. */
  type Regions = map<nat, nat>

  datatype Pool = Pool(blockSize: nat, blockCount: nat, freeList: nat, chunks: seq<nat>) {
    function ChunkSize(): nat { Times(blockCount, blockSize) }
  }

  /** Memory, regions and one pool: what a FixedMemPool works on. */
  datatype Arena = Arena(m: Memory, regions: Regions, pool: Pool)

  /** `operator new` may answer with any base at which the size fits beside the other regions. */
  predicate Fits(regions: Regions, base: nat, size: nat) {
    && 0 < base && base + size <= ADDRESS_LIMIT && base !in regions
    && forall r :: r in regions ==> r + regions[r] <= base || base + size <= r
  }

  // ----- the code of FixedMemPool as functions -----

  /** The loop of `allocate_chunk`: memory and list head after the first `n` blocks. */
  function Linked(m: Memory, head: nat, base: nat, size: nat, n: nat): (Memory, nat) {
    if n == 0 then (m, head)
    else
      var before := Linked(m, head, base, size, n - 1);
      var block := base + Times(n - 1, size);
      (Store(before.0, block, before.1), block)
  }

  function Grown(a: Arena, base: nat): Arena {
    var p := a.pool;
    var linked := Linked(a.m, p.freeList, base, p.blockSize, p.blockCount);
    Arena(linked.0, a.regions[base := p.ChunkSize()],
          p.(freeList := linked.1, chunks := p.chunks + [base]))
  }

  /** None is the exception of an `operator new` that finds no memory at `base`. */
  function Allocated(a: Arena, base: nat): Option<(Arena, nat)> {
    if a.pool.freeList == 0 && !Fits(a.regions, base, a.pool.ChunkSize()) then None
    else
      var b := if a.pool.freeList == 0 then Grown(a, base) else a;
      var p := b.pool.freeList;
      Some((b.(pool := b.pool.(freeList := Load(b.m, p))), p))
  }

  function Deallocated(a: Arena, ptr: nat): Arena {
    a.(m := Store(a.m, ptr, a.pool.freeList), pool := a.pool.(freeList := ptr))
  }

  // ----- blocks -----

  /** The blocks of a chunk, last one first, as the free list links them. */
  function Down(base: nat, size: nat, n: nat): seq<nat> {
    if n == 0 then [] else [base + Times(n - 1, size)] + Down(base, size, n - 1)
  }

  lemma {:induction false} DownWithin(base: nat, size: nat, n: nat, end: nat)
    requires base + Times(n, size) <= end
    ensures forall b :: b in Down(base, size, n) ==> base <= b && b + size <= end
    decreases n
  {
    if n > 0 {
      DownWithin(base, size, n - 1, end);
    }
  }

  ghost predicate Distinct(s: seq<nat>) {
    forall i, j :: 0 <= i < j < |s| ==> s[i] != s[j]
  }

  /** Different blocks of a chunk do not overlap. */
  lemma {:induction false} DownApart(base: nat, size: nat, n: nat)
    requires size > 0
    ensures Distinct(Down(base, size, n))
    ensures forall b, c :: b in Down(base, size, n) && c in Down(base, size, n) && b != c ==>
              b + size <= c || c + size <= b
    decreases n
  {
    if n > 0 {
      DownApart(base, size, n - 1);
      DownWithin(base, size, n - 1, base + Times(n - 1, size));
      var s := Down(base, size, n);
      forall i, j | 0 <= i < j < |s| ensures s[i] != s[j] {
        assert s[j] in Down(base, size, n - 1);
      }
    }
  }

  ghost predicate InChunks(chunks: seq<nat>, size: nat, count: nat, b: nat) {
    exists c :: c in chunks && b in Down(c, size, count)
  }

  /** A block carved from one of the pool's chunks. */
  ghost predicate Carved(p: Pool, b: nat) {
    InChunks(p.chunks, p.blockSize, p.blockCount, b)
  }

  /** The free list: from `head` through the words stored in the blocks, ending at null. */
  ghost predicate Chain(m: Memory, head: nat, blocks: seq<nat>)
    decreases |blocks|
  {
    if blocks == [] then head == 0
    else head == blocks[0] && 0 < head < ADDRESS_LIMIT && Chain(m, Load(m, head), blocks[1..])
  }

  ghost predicate SameBytes(m: Memory, m': Memory, a: nat, size: nat) {
    forall x :: a <= x < a + size ==> Peek(m', x) == Peek(m, x)
  }

  lemma {:induction false} ChainKept(m: Memory, m': Memory, head: nat, blocks: seq<nat>)
    requires Chain(m, head, blocks)
    requires forall b :: b in blocks ==> SameBytes(m, m', b, WORD)
    ensures Chain(m', head, blocks)
    decreases |blocks|
  {
    if blocks != [] {
      assert blocks[0] in blocks;
      LoadSame(m, m', head);
      assert forall b :: b in blocks[1..] ==> b in blocks;
      ChainKept(m, m', Load(m, head), blocks[1..]);
    }
  }

  /** Pushing a block writes only that block and puts it in front of the chain. */
  lemma ChainPush(m: Memory, head: nat, blocks: seq<nat>, block: nat)
    requires Chain(m, head, blocks) && 0 < block < ADDRESS_LIMIT
    requires forall b :: b in blocks ==> b + WORD <= block || block + WORD <= b
    ensures Chain(Store(m, block, head), block, [block] + blocks)
    ensures forall x: nat :: x < block || block + WORD <= x ==> Peek(Store(m, block, head), x) == Peek(m, x)
  {
    var m' := Store(m, block, head);
    LoadStored(m, block, head);
    ChainKept(m, m', head, blocks);
    assert ([block] + blocks)[1..] == blocks;
  }

  ghost predicate Outside(blocks: seq<nat>, base: nat, end: nat) {
    forall b :: b in blocks ==> b + WORD <= base || end <= b
  }

  ghost predicate SameOutside(m: Memory, m': Memory, base: nat, end: nat) {
    forall x: nat :: x < base || end <= x ==> Peek(m', x) == Peek(m, x)
  }

  /** The first `n` blocks are linked in front of the old chain, and nothing outside was written. */
  ghost predicate LinkedOk(m: Memory, linked: (Memory, nat), blocks: seq<nat>, base: nat, end: nat) {
    Chain(linked.0, linked.1, blocks) && SameOutside(m, linked.0, base, end)
  }

  /** `allocate_chunk` links all its blocks in front of the old chain and writes nowhere else. */
  lemma {:induction false} LinkedChain(m: Memory, head: nat, blocks: seq<nat>, base: nat, size: nat, n: nat, end: nat)
    requires Chain(m, head, blocks) && size >= WORD && 0 < base && base + Times(n, size) <= end <= ADDRESS_LIMIT
    requires Outside(blocks, base, end)
    ensures LinkedOk(m, Linked(m, head, base, size, n), Down(base, size, n) + blocks, base, end)
    decreases n
  {
    if n == 0 {
      assert Down(base, size, 0) + blocks == blocks;
    } else {
      var k := n - 1;
      LinkedChain(m, head, blocks, base, size, k, end);
      DownWithin(base, size, k, base + Times(k, size));
      LinkNext(m, Linked(m, head, base, size, k), blocks, base, size, k, end);
    }
  }

  lemma LinkNext(m: Memory, before: (Memory, nat), blocks: seq<nat>, base: nat, size: nat, n: nat, end: nat)
    requires size >= WORD && 0 < base && base + Times(n, size) + size <= end <= ADDRESS_LIMIT
    requires Outside(blocks, base, end)
    requires forall b :: b in Down(base, size, n) ==> base <= b && b + size <= base + Times(n, size)
    requires LinkedOk(m, before, Down(base, size, n) + blocks, base, end)
    ensures var block := base + Times(n, size);
            LinkedOk(m, (Store(before.0, block, before.1), block), Down(base, size, n + 1) + blocks, base, end)
  {
    var block := base + Times(n, size);
    LinkOne(before.0, before.1, Down(base, size, n) + blocks, base, end, block);
    DownNext(base, size, n + 1, blocks);
  }

  lemma DownNext(base: nat, size: nat, n: nat, blocks: seq<nat>)
    requires n > 0
    ensures Down(base, size, n) + blocks == [base + Times(n - 1, size)] + (Down(base, size, n - 1) + blocks)
  {
  }

  lemma LinkOne(m: Memory, head: nat, blocks: seq<nat>, base: nat, end: nat, block: nat)
    requires Chain(m, head, blocks) && 0 < base <= block && block + WORD <= end <= ADDRESS_LIMIT
    requires forall b :: b in blocks ==> b + WORD <= block || end <= b
    ensures Chain(Store(m, block, head), block, [block] + blocks)
    ensures SameOutside(m, Store(m, block, head), base, end)
  {
    ChainPush(m, head, blocks, block);
  }

  // ----- runs: pools, direct allocations and their clients in one memory -----

  /** What a held address is: a block of the pool with that index, or memory of its own. */
  datatype Grant = FromPool(k: nat) | Direct

  datatype System = System(m: Memory, regions: Regions, pools: seq<Pool>, held: map<nat, Grant>)

  /** The free blocks of each pool in list order, and for each region the pool it is a chunk of. */
  datatype View = View(free: seq<seq<nat>>, owner: map<nat, Grant>)

  function ArenaOf(s: System, k: nat): Arena
    requires k < |s.pools|
  {
    Arena(s.m, s.regions, s.pools[k])
  }

  function WithArena(s: System, k: nat, a: Arena): System
    requires k < |s.pools|
  {
    s.(m := a.m, regions := a.regions, pools := s.pools[k := a.pool])
  }

  /** The bytes behind a held address. */
  function SizeOf(s: System, p: nat): nat
    requires p in s.held
  {
    match s.held[p]
    case FromPool(k) => if k < |s.pools| then s.pools[k].blockSize else 0
    case Direct => if p in s.regions then s.regions[p] else 0
  }

  datatype Event =
    | NewPool(blockSize: nat, blockCount: nat, base: nat)
    | Allocate(k: nat, base: nat)
    | Deallocate(p: nat)
    | New(size: nat, base: nat)     // ::operator new
    | Delete(p: nat)                // ::operator delete
    | ClientWrite(a: nat, v: Byte)  // a client writes into memory it holds

  /** What the callers have to keep to. */
  ghost predicate Legal(s: System, e: Event) {
    match e
    case NewPool(size, count, base) => size >= WORD && count >= 1
    case Allocate(k, _) => k < |s.pools|
    case Deallocate(p) => p in s.held && s.held[p].FromPool? && s.held[p].k < |s.pools|
    case New(size, _) => size > 0
    case Delete(p) => p in s.held && s.held[p] == Direct
    case ClientWrite(a, _) => exists p :: p in s.held && p <= a < p + SizeOf(s, p)
  }

  ghost function Next(s: System, e: Event): System
    requires Legal(s, e)
  {
    match e
    case NewPool(size, count, base) =>
      if !Fits(s.regions, base, Times(count, size)) then s
      else
        var k := |s.pools|;
        var t := s.(pools := s.pools + [Pool(size, count, 0, [])]);
        WithArena(t, k, Grown(ArenaOf(t, k), base))
    case Allocate(k, base) =>
      var r := Allocated(ArenaOf(s, k), base);
      if r.None? then s
      else WithArena(s, k, r.value.0).(held := s.held[r.value.1 := FromPool(k)])
    case Deallocate(p) =>
      WithArena(s, s.held[p].k, Deallocated(ArenaOf(s, s.held[p].k), p)).(held := s.held - {p})
    case New(size, base) =>
      if !Fits(s.regions, base, size) then s
      else s.(regions := s.regions[base := size], held := s.held[base := Direct])
    case Delete(p) => s.(regions := s.regions - {p}, held := s.held - {p})
    case ClientWrite(a, v) => s.(m := s.m[a := v])
  }

  // ----- the invariant -----

  ghost predicate RegionsApart(regions: Regions) {
    && (forall r :: r in regions ==> 0 < r && r + regions[r] <= ADDRESS_LIMIT)
    && (forall r, q :: r in regions && q in regions && r != q ==> r + regions[r] <= q || q + regions[q] <= r)
  }

  ghost predicate Owned(s: System, v: View) {
    && v.owner.Keys == s.regions.Keys
    && (forall k, c :: 0 <= k < |s.pools| && c in s.pools[k].chunks ==> Chunk(s, v, k, c))
    && (forall p :: p in s.held && s.held[p] == Direct ==> Piece(s, v, p))
  }

  ghost predicate Chunk(s: System, v: View, k: nat, c: nat) {
    k < |s.pools| && c in s.regions && c in v.owner && v.owner[c] == FromPool(k)
    && s.regions[c] == s.pools[k].ChunkSize()
  }

  ghost predicate Piece(s: System, v: View, p: nat) {
    p in s.regions && s.regions[p] > 0 && p in v.owner && v.owner[p] == Direct
  }

  ghost predicate HeldFrom(s: System, k: nat, b: nat) {
    b in s.held && s.held[b] == FromPool(k)
  }

  /** The free list runs once through exactly the carved blocks nobody holds. */
  ghost predicate PoolOk(s: System, k: nat, free: seq<nat>)
    requires k < |s.pools|
  {
    var p := s.pools[k];
    && p.blockSize >= WORD && p.blockCount >= 1
    && Chain(s.m, p.freeList, free)
    && Distinct(free)
    && (forall b :: b in free <==> Carved(p, b) && !HeldFrom(s, k, b))
    && (forall b :: HeldFrom(s, k, b) ==> Carved(p, b))
  }

  ghost predicate PoolIn(s: System, v: View, k: nat) {
    k < |s.pools| && k < |v.free| && PoolOk(s, k, v.free[k])
  }

  ghost predicate Placed(s: System, v: View) {
    && RegionsApart(s.regions)
    && Owned(s, v)
    && |v.free| == |s.pools|
    && (forall p :: p in s.held && s.held[p].FromPool? ==> s.held[p].k < |s.pools|)
  }

  ghost predicate Inv(s: System, v: View) {
    Placed(s, v) && forall k :: 0 <= k < |s.pools| ==> PoolIn(s, v, k)
  }

  /** Blocks of any two pools, or of one, lie apart. */
  lemma BlocksApart(s: System, v: View, k: nat, b: nat, l: nat, c: nat)
    requires RegionsApart(s.regions) && Owned(s, v) && k < |s.pools| && l < |s.pools|
    requires s.pools[k].blockSize > 0
    requires Carved(s.pools[k], b) && Carved(s.pools[l], c) && (k != l || b != c)
    ensures b + s.pools[k].blockSize <= c || c + s.pools[l].blockSize <= b
  {
    var p, q := s.pools[k], s.pools[l];
    var cb :| cb in p.chunks && b in Down(cb, p.blockSize, p.blockCount);
    var cc :| cc in q.chunks && c in Down(cc, q.blockSize, q.blockCount);
    assert Chunk(s, v, k, cb) && Chunk(s, v, l, cc);
    DownWithin(cb, p.blockSize, p.blockCount, cb + p.ChunkSize());
    DownWithin(cc, q.blockSize, q.blockCount, cc + q.ChunkSize());
    if cb == cc {
      assert v.owner[cb] == FromPool(k) == FromPool(l);
      DownApart(cb, p.blockSize, p.blockCount);
    } else {
      assert cb + s.regions[cb] <= cc || cc + s.regions[cc] <= cb;
    }
  }

  /** A block lies inside a region that is a chunk of its pool. */
  lemma BlockRegion(s: System, v: View, k: nat, b: nat) returns (c: nat)
    requires RegionsApart(s.regions) && Owned(s, v) && k < |s.pools| && Carved(s.pools[k], b)
    ensures c in s.regions && c in v.owner && v.owner[c] == FromPool(k)
    ensures 0 < c <= b && b + s.pools[k].blockSize <= c + s.regions[c] <= ADDRESS_LIMIT
  {
    var p := s.pools[k];
    c :| c in p.chunks && b in Down(c, p.blockSize, p.blockCount);
    assert Chunk(s, v, k, c);
    DownWithin(c, p.blockSize, p.blockCount, c + p.ChunkSize());
  }

  ghost predicate Apart(a: nat, size: nat, b: nat, size': nat) {
    a + size <= b || b + size' <= a
  }

  lemma PoolHolds(s: System, v: View, k: nat)
    requires Inv(s, v) && k < |s.pools|
    ensures PoolOk(s, k, v.free[k])
  {
    assert PoolIn(s, v, k);
  }

  lemma HeldCarved(s: System, v: View, p: nat)
    requires Inv(s, v) && p in s.held && s.held[p].FromPool?
    ensures var k := s.held[p].k;
            k < |s.pools| && Carved(s.pools[k], p) && s.pools[k].blockSize >= WORD
  {
    PoolHolds(s, v, s.held[p].k);
    assert HeldFrom(s, s.held[p].k, p);
  }

  lemma FreeCarved(s: System, v: View, k: nat, b: nat)
    requires Inv(s, v) && k < |s.pools| && b in v.free[k]
    ensures Carved(s.pools[k], b) && s.pools[k].blockSize >= WORD && !HeldFrom(s, k, b)
  {
    PoolHolds(s, v, k);
  }

  /** A block lies apart from memory that was allocated directly. */
  lemma DirectApart(s: System, v: View, k: nat, b: nat, p: nat)
    requires RegionsApart(s.regions) && Owned(s, v) && k < |s.pools| && Carved(s.pools[k], b)
    requires p in s.held && s.held[p] == Direct
    ensures Apart(b, s.pools[k].blockSize, p, SizeOf(s, p))
  {
    var c := BlockRegion(s, v, k, b);
  }

  /** Any two held pieces of memory are disjoint. */
  lemma HeldApart(s: System, v: View, p: nat, q: nat)
    requires Inv(s, v) && p in s.held && q in s.held && p != q
    ensures Apart(p, SizeOf(s, p), q, SizeOf(s, q))
  {
    if s.held[p].FromPool? {
      HeldCarved(s, v, p);
      if s.held[q].FromPool? {
        HeldCarved(s, v, q);
        BlocksApart(s, v, s.held[p].k, p, s.held[q].k, q);
      } else {
        DirectApart(s, v, s.held[p].k, p, q);
      }
    } else if s.held[q].FromPool? {
      HeldCarved(s, v, q);
      DirectApart(s, v, s.held[q].k, q, p);
    }
  }

  /** No free block overlaps anything a client holds. */
  lemma FreeApart(s: System, v: View, k: nat, b: nat, p: nat)
    requires Inv(s, v) && k < |s.pools| && b in v.free[k] && p in s.held
    ensures Apart(b, s.pools[k].blockSize, p, SizeOf(s, p))
  {
    FreeCarved(s, v, k, b);
    if s.held[p].FromPool? {
      HeldCarved(s, v, p);
      BlocksApart(s, v, k, b, s.held[p].k, p);
    } else {
      DirectApart(s, v, k, b, p);
    }
  }

  // ----- every event keeps the invariant -----

  /** What does not touch a pool, its free blocks or its grants leaves it in order. */
  lemma PoolFrame(s: System, v: View, s': System, v': View, k: nat)
    requires PoolIn(s, v, k) && k < |s'.pools| && k < |v'.free|
    requires s'.pools[k] == s.pools[k] && v'.free[k] == v.free[k]
    requires forall b :: HeldFrom(s', k, b) <==> HeldFrom(s, k, b)
    requires forall b :: b in v.free[k] ==> SameBytes(s.m, s'.m, b, WORD)
    ensures PoolIn(s', v', k)
  {
    ChainKept(s.m, s'.m, s.pools[k].freeList, v.free[k]);
  }

  /** New memory lies apart from every block. */
  lemma FreshApart(s: System, v: View, k: nat, b: nat, base: nat, size: nat)
    requires RegionsApart(s.regions) && Owned(s, v) && k < |s.pools| && Carved(s.pools[k], b)
    requires Fits(s.regions, base, size)
    ensures Apart(b, s.pools[k].blockSize, base, size)
  {
    var c: nat := BlockRegion(s, v, k, b);
    assert c + s.regions[c] <= base || base + size <= c;
  }

  lemma RegionAdded(regions: Regions, base: nat, size: nat)
    requires RegionsApart(regions) && Fits(regions, base, size)
    ensures RegionsApart(regions[base := size])
  {
  }

  // a pool grows by a chunk

  function GrownSystem(s: System, k: nat, base: nat): System
    requires k < |s.pools|
  {
    WithArena(s, k, Grown(ArenaOf(s, k), base))
  }

  function GrownView(s: System, v: View, k: nat, base: nat): View
    requires k < |s.pools| == |v.free|
  {
    var p := s.pools[k];
    View(v.free[k := Down(base, p.blockSize, p.blockCount) + v.free[k]], v.owner[base := FromPool(k)])
  }

  lemma DistinctAppend(a: seq<nat>, b: seq<nat>)
    requires Distinct(a) && Distinct(b) && forall x :: x in a ==> x !in b
    ensures Distinct(a + b)
  {
    forall i, j | 0 <= i < j < |a + b| ensures (a + b)[i] != (a + b)[j] {
      if i < |a| <= j {
        assert a[i] in a && b[j - |a|] in b;
      }
    }
  }

  lemma DistinctTail(s: seq<nat>)
    requires Distinct(s) && s != []
    ensures Distinct(s[1..]) && forall b :: b in s[1..] <==> b in s && b != s[0]
  {
    assert s == [s[0]] + s[1..];
  }

  /** The new blocks of a growing pool lie apart from its old ones. */
  lemma GrownApart(s: System, v: View, k: nat, base: nat)
    requires Inv(s, v) && k < |s.pools| && Fits(s.regions, base, s.pools[k].ChunkSize())
    ensures var p, end := s.pools[k], base + s.pools[k].ChunkSize();
            && Outside(v.free[k], base, end)
            && Distinct(Down(base, p.blockSize, p.blockCount) + v.free[k])
            && forall b :: b in Down(base, p.blockSize, p.blockCount) ==> !Carved(p, b)
  {
    PoolHolds(s, v, k);
    var p, end := s.pools[k], base + s.pools[k].ChunkSize();
    var added := Down(base, p.blockSize, p.blockCount);
    forall b: nat | Carved(p, b) ensures b + p.blockSize <= base || end <= b {
      FreshApart(s, v, k, b, base, p.ChunkSize());
    }
    DownWithin(base, p.blockSize, p.blockCount, end);
    DownApart(base, p.blockSize, p.blockCount);
    DistinctAppend(added, v.free[k]);
  }

  lemma GrownPool(s: System, v: View, k: nat, base: nat)
    requires Inv(s, v) && k < |s.pools| && Fits(s.regions, base, s.pools[k].ChunkSize())
    ensures PoolIn(GrownSystem(s, k, base), GrownView(s, v, k, base), k)
    ensures SameOutside(s.m, GrownSystem(s, k, base).m, base, base + s.pools[k].ChunkSize())
  {
    PoolHolds(s, v, k);
    GrownApart(s, v, k, base);
    var p := s.pools[k];
    LinkedChain(s.m, p.freeList, v.free[k], base, p.blockSize, p.blockCount, base + p.ChunkSize());
    assert LinkedOk(s.m, Linked(s.m, p.freeList, base, p.blockSize, p.blockCount),
                    Down(base, p.blockSize, p.blockCount) + v.free[k], base, base + p.ChunkSize());
    GrownMembers(s, v, k, base);
  }

  lemma GrownMembers(s: System, v: View, k: nat, base: nat)
    requires Inv(s, v) && k < |s.pools| && Fits(s.regions, base, s.pools[k].ChunkSize())
    ensures var s', free := GrownSystem(s, k, base), GrownView(s, v, k, base).free[k];
            && (forall b :: b in free <==> Carved(s'.pools[k], b) && !HeldFrom(s', k, b))
            && (forall b :: HeldFrom(s', k, b) ==> Carved(s'.pools[k], b))
  {
    PoolHolds(s, v, k);
    GrownApart(s, v, k, base);
    var p := s.pools[k];
    forall b ensures Carved(GrownSystem(s, k, base).pools[k], b)
                <==> Carved(p, b) || b in Down(base, p.blockSize, p.blockCount)
    {
    }
  }

  lemma GrownPlaced(s: System, v: View, k: nat, base: nat)
    requires Placed(s, v) && k < |s.pools| && Fits(s.regions, base, s.pools[k].ChunkSize())
    ensures Placed(GrownSystem(s, k, base), GrownView(s, v, k, base))
  {
    RegionAdded(s.regions, base, s.pools[k].ChunkSize());
    var s', v' := GrownSystem(s, k, base), GrownView(s, v, k, base);
    forall j: nat, c | j < |s'.pools| && c in s'.pools[j].chunks ensures Chunk(s', v', j, c) {
      assert c in s.pools[j].chunks ==> Chunk(s, v, j, c);
    }
    forall p | p in s'.held && s'.held[p] == Direct ensures Piece(s', v', p) {
      assert Piece(s, v, p);
    }
  }

  lemma GrownOther(s: System, v: View, k: nat, base: nat, j: nat)
    requires Inv(s, v) && k < |s.pools| && Fits(s.regions, base, s.pools[k].ChunkSize())
    requires j < |s.pools| && j != k
    ensures PoolIn(GrownSystem(s, k, base), GrownView(s, v, k, base), j)
  {
    GrownPool(s, v, k, base);
    PoolHolds(s, v, j);
    var s' := GrownSystem(s, k, base);
    forall b | b in v.free[j] ensures SameBytes(s.m, s'.m, b, WORD) {
      FreshApart(s, v, j, b, base, s.pools[k].ChunkSize());
    }
    PoolFrame(s, v, s', GrownView(s, v, k, base), j);
  }

  lemma GrownInv(s: System, v: View, k: nat, base: nat)
    requires Inv(s, v) && k < |s.pools| && Fits(s.regions, base, s.pools[k].ChunkSize())
    ensures Inv(GrownSystem(s, k, base), GrownView(s, v, k, base))
  {
    GrownPlaced(s, v, k, base);
    GrownPool(s, v, k, base);
    forall j: nat | j < |s.pools| ensures PoolIn(GrownSystem(s, k, base), GrownView(s, v, k, base), j) {
      if j != k {
        GrownOther(s, v, k, base, j);
      }
    }
  }

  // a block is taken

  function TakenSystem(s: System, k: nat): System
    requires k < |s.pools|
  {
    var p := s.pools[k].freeList;
    s.(pools := s.pools[k := s.pools[k].(freeList := Load(s.m, p))], held := s.held[p := FromPool(k)])
  }

  function TakenView(v: View, k: nat): View
    requires k < |v.free| && v.free[k] != []
  {
    v.(free := v.free[k := v.free[k][1..]])
  }

  /** The head of a free list is not held by anyone. */
  lemma HeadFree(s: System, v: View, k: nat)
    requires Inv(s, v) && k < |s.pools| && s.pools[k].freeList != 0
    ensures v.free[k] != [] && s.pools[k].freeList == v.free[k][0] && v.free[k][0] !in s.held
  {
    PoolHolds(s, v, k);
    var b := v.free[k][0];
    assert b in v.free[k];
    if b in s.held {
      FreeCarved(s, v, k, b);
      FreeApart(s, v, k, b, b);
      if s.held[b].FromPool? {
        HeldCarved(s, v, b);
      }
    }
  }

  lemma TakenPool(s: System, v: View, k: nat)
    requires Inv(s, v) && k < |s.pools| && s.pools[k].freeList != 0 && v.free[k] != []
    ensures PoolIn(TakenSystem(s, k), TakenView(v, k), k)
  {
    HeadFree(s, v, k);
    PoolHolds(s, v, k);
    var s', free := TakenSystem(s, k), v.free[k];
    DistinctTail(free);
    forall b ensures HeldFrom(s', k, b) <==> HeldFrom(s, k, b) || b == free[0] {
    }
    assert Carved(s.pools[k], free[0]);
  }

  lemma TakenInv(s: System, v: View, k: nat)
    requires Inv(s, v) && k < |s.pools| && s.pools[k].freeList != 0
    ensures v.free[k] != [] && Inv(TakenSystem(s, k), TakenView(v, k))
  {
    HeadFree(s, v, k);
    TakenPool(s, v, k);
    var s', v' := TakenSystem(s, k), TakenView(v, k);
    forall j: nat | j < |s.pools| ensures PoolIn(s', v', j) {
      if j != k {
        PoolHolds(s, v, j);
        PoolFrame(s, v, s', v', j);
      }
    }
  }

  // a block is given back

  function FreedSystem(s: System, k: nat, p: nat): System
    requires k < |s.pools|
  {
    WithArena(s, k, Deallocated(ArenaOf(s, k), p)).(held := s.held - {p})
  }

  function FreedView(v: View, k: nat, p: nat): View
    requires k < |v.free|
  {
    v.(free := v.free[k := [p] + v.free[k]])
  }

  lemma FreeWordsApart(s: System, v: View, j: nat, b: nat, p: nat)
    requires Inv(s, v) && j < |s.pools| && b in v.free[j] && p in s.held && SizeOf(s, p) >= WORD
    ensures b + WORD <= p || p + WORD <= b
  {
    FreeApart(s, v, j, b, p);
    FreeCarved(s, v, j, b);
  }

  /** The block given back goes in front of the chain. */
  lemma FreedChain(s: System, v: View, k: nat, p: nat)
    requires Inv(s, v) && k < |s.pools| && HeldFrom(s, k, p)
    ensures Chain(FreedSystem(s, k, p).m, p, [p] + v.free[k])
    ensures SameOutside(s.m, FreedSystem(s, k, p).m, p, p + WORD)
  {
    HeldCarved(s, v, p);
    var c := BlockRegion(s, v, k, p);
    PoolHolds(s, v, k);
    forall b | b in v.free[k] ensures b + WORD <= p || p + WORD <= b {
      FreeWordsApart(s, v, k, b, p);
    }
    ChainPush(s.m, s.pools[k].freeList, v.free[k], p);
  }

  lemma FreedPool(s: System, v: View, k: nat, p: nat)
    requires Inv(s, v) && k < |s.pools| && HeldFrom(s, k, p)
    ensures PoolIn(FreedSystem(s, k, p), FreedView(v, k, p), k)
    ensures SameOutside(s.m, FreedSystem(s, k, p).m, p, p + WORD)
  {
    HeldCarved(s, v, p);
    PoolHolds(s, v, k);
    FreedChain(s, v, k, p);
    DistinctAppend([p], v.free[k]);
    forall b ensures HeldFrom(FreedSystem(s, k, p), k, b) <==> HeldFrom(s, k, b) && b != p {
    }
  }

  lemma FreedOther(s: System, v: View, k: nat, p: nat, j: nat)
    requires Inv(s, v) && k < |s.pools| && HeldFrom(s, k, p) && j < |s.pools| && j != k
    ensures PoolIn(FreedSystem(s, k, p), FreedView(v, k, p), j)
  {
    HeldCarved(s, v, p);
    PoolHolds(s, v, j);
    forall b | b in v.free[j] ensures SameBytes(s.m, FreedSystem(s, k, p).m, b, WORD) {
      FreeWordsApart(s, v, j, b, p);
    }
    PoolFrame(s, v, FreedSystem(s, k, p), FreedView(v, k, p), j);
  }

  lemma FreedInv(s: System, v: View, k: nat, p: nat)
    requires Inv(s, v) && k < |s.pools| && HeldFrom(s, k, p)
    ensures Inv(FreedSystem(s, k, p), FreedView(v, k, p))
  {
    FreedPool(s, v, k, p);
    forall j: nat | j < |s.pools| ensures PoolIn(FreedSystem(s, k, p), FreedView(v, k, p), j) {
      if j != k {
        FreedOther(s, v, k, p, j);
      }
    }
  }

  // memory allocated directly

  lemma NewPlaced(s: System, v: View, size: nat, base: nat)
    requires Placed(s, v) && size > 0 && Fits(s.regions, base, size)
    ensures Placed(Next(s, New(size, base)), v.(owner := v.owner[base := Direct]))
  {
    RegionAdded(s.regions, base, size);
    var s', v' := Next(s, New(size, base)), v.(owner := v.owner[base := Direct]);
    forall j: nat, c | j < |s'.pools| && c in s'.pools[j].chunks ensures Chunk(s', v', j, c) {
      assert Chunk(s, v, j, c);
    }
    forall p | p in s'.held && s'.held[p] == Direct ensures Piece(s', v', p) {
      assert p == base || Piece(s, v, p);
    }
  }

  lemma NewInv(s: System, v: View, size: nat, base: nat)
    requires Inv(s, v) && size > 0 && Fits(s.regions, base, size)
    ensures Inv(Next(s, New(size, base)), v.(owner := v.owner[base := Direct]))
  {
    NewPlaced(s, v, size, base);
    if base in s.held && s.held[base].FromPool? {
      HeldCarved(s, v, base);
      FreshApart(s, v, s.held[base].k, base, base, size);
    }
    var s', v' := Next(s, New(size, base)), v.(owner := v.owner[base := Direct]);
    forall j: nat | j < |s.pools| ensures PoolIn(s', v', j) {
      PoolHolds(s, v, j);
      PoolFrame(s, v, s', v', j);
    }
  }

  lemma DeletedInv(s: System, v: View, p: nat)
    requires Inv(s, v) && Legal(s, Delete(p))
    ensures Inv(Next(s, Delete(p)), v.(owner := v.owner - {p}))
  {
    var s', v' := Next(s, Delete(p)), v.(owner := v.owner - {p});
    forall j: nat | j < |s.pools| ensures PoolIn(s', v', j) {
      PoolHolds(s, v, j);
      PoolFrame(s, v, s', v', j);
    }
  }

  // a client writes

  lemma WrittenPool(s: System, v: View, a: nat, b: Byte, p: nat, j: nat)
    requires Inv(s, v) && p in s.held && p <= a < p + SizeOf(s, p) && j < |s.pools|
    ensures PoolIn(s.(m := s.m[a := b]), v, j)
  {
    PoolHolds(s, v, j);
    forall f | f in v.free[j] ensures SameBytes(s.m, s.m[a := b], f, WORD) {
      FreeApart(s, v, j, f, p);
      FreeCarved(s, v, j, f);
    }
    PoolFrame(s, v, s.(m := s.m[a := b]), v, j);
  }

  lemma WrittenInv(s: System, v: View, a: nat, b: Byte)
    requires Inv(s, v) && Legal(s, ClientWrite(a, b))
    ensures Inv(Next(s, ClientWrite(a, b)), v)
  {
    var p :| p in s.held && p <= a < p + SizeOf(s, p);
    var s' := s.(m := s.m[a := b]);
    forall j: nat | j < |s'.pools| ensures PoolIn(s', v, j) {
      WrittenPool(s, v, a, b, p, j);
    }
  }

  // all events

  lemma EmptyPoolInv(s: System, v: View, size: nat, count: nat)
    requires Inv(s, v) && size >= WORD && count >= 1
    ensures Inv(s.(pools := s.pools + [Pool(size, count, 0, [])]), v.(free := v.free + [[]]))
  {
    var s', v' := s.(pools := s.pools + [Pool(size, count, 0, [])]), v.(free := v.free + [[]]);
    forall j: nat | j < |s'.pools| ensures PoolIn(s', v', j) {
      if j < |s.pools| {
        PoolHolds(s, v, j);
        PoolFrame(s, v, s', v', j);
      }
    }
  }

  lemma AllocatedInv(s: System, v: View, k: nat, base: nat) returns (v': View)
    requires Inv(s, v) && Legal(s, Allocate(k, base))
    ensures Inv(Next(s, Allocate(k, base)), v')
  {
    v' := v;
    if s.pools[k].freeList != 0 {
      TakenInv(s, v, k);
      v' := TakenView(v, k);
    } else if Fits(s.regions, base, s.pools[k].ChunkSize()) {
      v' := GrownThenTaken(s, v, k, base);
    }
  }

  lemma GrownThenTaken(s: System, v: View, k: nat, base: nat) returns (v': View)
    requires Inv(s, v) && k < |s.pools| && s.pools[k].freeList == 0
    requires Fits(s.regions, base, s.pools[k].ChunkSize())
    ensures Next(s, Allocate(k, base)) == TakenSystem(GrownSystem(s, k, base), k)
    ensures Inv(TakenSystem(GrownSystem(s, k, base), k), v')
  {
    GrownInv(s, v, k, base);
    GrownNonempty(s, v, k, base);
    TakenInv(GrownSystem(s, k, base), GrownView(s, v, k, base), k);
    v' := TakenView(GrownView(s, v, k, base), k);
  }

  lemma GrownNonempty(s: System, v: View, k: nat, base: nat)
    requires Inv(s, v) && k < |s.pools| && Fits(s.regions, base, s.pools[k].ChunkSize())
    ensures GrownSystem(s, k, base).pools[k].freeList != 0
  {
    PoolHolds(s, v, k);
    GrownPool(s, v, k, base);
    var p := s.pools[k];
    assert Down(base, p.blockSize, p.blockCount) != [];
  }

  lemma InvNext(s: System, v: View, e: Event) returns (v': View)
    requires Inv(s, v) && Legal(s, e)
    ensures Inv(Next(s, e), v')
  {
    v' := v;
    match e
    case NewPool(size, count, base) =>
      if Fits(s.regions, base, Times(count, size)) {
        EmptyPoolInv(s, v, size, count);
        var t, w := s.(pools := s.pools + [Pool(size, count, 0, [])]), v.(free := v.free + [[]]);
        GrownInv(t, w, |s.pools|, base);
        v' := GrownView(t, w, |s.pools|, base);
      }
    case Allocate(k, base) => v' := AllocatedInv(s, v, k, base);
    case Deallocate(p) =>
      FreedInv(s, v, s.held[p].k, p);
      v' := FreedView(v, s.held[p].k, p);
    case New(size, base) =>
      if Fits(s.regions, base, size) {
        NewInv(s, v, size, base);
        v' := v.(owner := v.owner[base := Direct]);
      }
    case Delete(p) =>
      DeletedInv(s, v, p);
      v' := v.(owner := v.owner - {p});
    case ClientWrite(a, b) => WrittenInv(s, v, a, b);
  }

  // ----- runs -----

  /** No pools yet; `regions` are what the rest of the process has allocated. */
  function Start(m: Memory, regions: Regions): System {
    System(m, regions, [], map[])
  }

  function StartView(regions: Regions): View {
    View([], map r | r in regions :: Direct)
  }

  lemma StartInv(m: Memory, regions: Regions)
    requires RegionsApart(regions)
    ensures Inv(Start(m, regions), StartView(regions))
  {
  }

  ghost predicate LegalRun(s: System, events: seq<Event>)
    decreases |events|
  {
    events == [] || (Legal(s, events[0]) && LegalRun(Next(s, events[0]), events[1..]))
  }

  ghost function Run(s: System, events: seq<Event>): System
    requires LegalRun(s, events)
    decreases |events|
  {
    if events == [] then s else Run(Next(s, events[0]), events[1..])
  }

  lemma {:induction false} RunInv(s: System, v: View, events: seq<Event>) returns (v': View)
    requires Inv(s, v) && LegalRun(s, events)
    ensures Inv(Run(s, events), v')
    decreases |events|
  {
    v' := v;
    if events != [] {
      v' := InvNext(s, v, events[0]);
      v' := RunInv(Next(s, events[0]), v', events[1..]);
    }
  }

  /**
   In every run the chain from a pool's free list through the words stored in the blocks ends at
   null and visits exactly once exactly the carved blocks that are not held; what is held was
   carved from the pool.
   */
  lemma FreeListExact(m: Memory, regions: Regions, events: seq<Event>, k: nat) returns (free: seq<nat>)
    requires RegionsApart(regions) && LegalRun(Start(m, regions), events) && k < |Run(Start(m, regions), events).pools|
    ensures var s := Run(Start(m, regions), events);
            && Chain(s.m, s.pools[k].freeList, free) && Distinct(free)
            && (forall b :: b in free <==> Carved(s.pools[k], b) && !HeldFrom(s, k, b))
            && (forall b :: HeldFrom(s, k, b) ==> Carved(s.pools[k], b))
  {
    StartInv(m, regions);
    var v := RunInv(Start(m, regions), StartView(regions), events);
    PoolHolds(Run(Start(m, regions), events), v, k);
    free := v.free[k];
  }

  /** In every run any two held pieces of memory, of the pools or of operator new, are disjoint. */
  lemma HeldDisjoint(m: Memory, regions: Regions, events: seq<Event>, p: nat, q: nat)
    requires RegionsApart(regions) && LegalRun(Start(m, regions), events)
    requires p in Run(Start(m, regions), events).held && q in Run(Start(m, regions), events).held && p != q
    ensures var s := Run(Start(m, regions), events); Apart(p, SizeOf(s, p), q, SizeOf(s, q))
  {
    StartInv(m, regions);
    var v := RunInv(Start(m, regions), StartView(regions), events);
    HeldApart(Run(Start(m, regions), events), v, p, q);
  }

  /** What the allocator writes lies outside everything that is held before and after. */
  lemma ClientDataKept(s: System, v: View, e: Event, p: nat)
    requires Inv(s, v) && Legal(s, e) && !e.ClientWrite?
    requires p in s.held && p in Next(s, e).held
    ensures SameBytes(s.m, Next(s, e).m, p, SizeOf(s, p))
  {
    match e
    case NewPool(size, count, base) =>
      if Fits(s.regions, base, Times(count, size)) {
        EmptyPoolInv(s, v, size, count);
        var t, w := s.(pools := s.pools + [Pool(size, count, 0, [])]), v.(free := v.free + [[]]);
        GrowthElsewhere(t, w, |s.pools|, base, p);
        assert SizeOf(t, p) == SizeOf(s, p);
      }
    case Allocate(k, base) =>
      if s.pools[k].freeList == 0 && Fits(s.regions, base, s.pools[k].ChunkSize()) {
        GrowthElsewhere(s, v, k, base, p);
      }
    case Deallocate(q) =>
      HeldApart(s, v, p, q);
      HeldCarved(s, v, q);
    case New(_, _) =>
    case Delete(_) =>
  }

  /** A chunk is linked up outside everything that is held. */
  lemma GrowthElsewhere(s: System, v: View, k: nat, base: nat, p: nat)
    requires Inv(s, v) && k < |s.pools| && Fits(s.regions, base, s.pools[k].ChunkSize()) && p in s.held
    ensures SameBytes(s.m, GrownSystem(s, k, base).m, p, SizeOf(s, p))
  {
    GrownPool(s, v, k, base);
    if s.held[p].FromPool? {
      HeldCarved(s, v, p);
      FreshApart(s, v, s.held[p].k, p, base, s.pools[k].ChunkSize());
    } else {
      assert Piece(s, v, p);
      assert p + s.regions[p] <= base || base + s.pools[k].ChunkSize() <= p;
    }
  }
}

/** `MemoryPool`: ten pools, one for each power of two from 8 to 4096, behind one interface. */
module SizeClasses {
  import opened Options
  import opened RawMemory
  import opened PoolMemory

  const MIN_BLOCK_SIZE: nat := 8
  const MAX_BLOCK_SIZE: nat := 4096
  const BLOCK_COUNT: nat := 1024
  const CLASSES: nat := 10

  function ClassSize(k: nat): nat {
    if k == 0 then MIN_BLOCK_SIZE else 2 * ClassSize(k - 1)
  }

  lemma {:induction false} ClassSizesGrow(j: nat, k: nat)
    requires j <= k
    ensures 8 <= ClassSize(j) <= ClassSize(k) && (j < k ==> ClassSize(j) < ClassSize(k))
    decreases k
  {
    if j < k {
      ClassSizesGrow(j, k - 1);
    } else if k > 0 {
      ClassSizesGrow(k - 1, k - 1);
    }
  }

  /** The classes are the sizes the two loops go through. */
  lemma ClassesEnd(k: nat)
    requires k <= CLASSES
    ensures WORD <= ClassSize(k) && ClassSize(k + 1) == 2 * ClassSize(k)
    ensures ClassSize(k) <= MAX_BLOCK_SIZE <==> k < CLASSES
  {
    ClassSizesGrow(0, k);
    assert ClassSize(9) == MAX_BLOCK_SIZE;
    if k < CLASSES {
      ClassSizesGrow(k, 9);
    } else {
      ClassSizesGrow(9, k);
    }
  }

  /** The class of a size: the least power of two that holds both it and a pointer. */
  ghost predicate IsClass(size: nat, k: nat) {
    k < CLASSES && size <= ClassSize(k) && (k > 0 ==> ClassSize(k - 1) < size)
  }

  function ClassFrom(size: nat, k: nat): nat
    requires k < CLASSES
    decreases CLASSES - k
  {
    if size <= ClassSize(k) || k + 1 == CLASSES then k else ClassFrom(size, k + 1)
  }

  function ClassOf(size: nat): nat {
    ClassFrom(size, 0)
  }

  lemma {:induction false} ClassFromFits(size: nat, k: nat)
    requires k < CLASSES && size <= MAX_BLOCK_SIZE && (k > 0 ==> ClassSize(k - 1) < size)
    ensures IsClass(size, ClassFrom(size, k))
    decreases CLASSES - k
  {
    if !(size <= ClassSize(k) || k + 1 == CLASSES) {
      ClassFromFits(size, k + 1);
    }
    assert ClassSize(9) == MAX_BLOCK_SIZE;
  }

  /** A size has exactly one class. */
  lemma ClassUnique(size: nat, k: nat)
    requires size <= MAX_BLOCK_SIZE
    ensures IsClass(size, k) <==> k == ClassOf(size)
  {
    ClassFromFits(size, 0);
    var c := ClassOf(size);
    if IsClass(size, k) && k < c {
      ClassSizesGrow(k, c - 1);
    } else if IsClass(size, k) && c < k {
      ClassSizesGrow(c, k - 1);
    }
  }

  // ----- the two operations -----

  ghost predicate Standard(s: System) {
    |s.pools| == CLASSES
    && forall k :: 0 <= k < CLASSES ==>
         s.pools[k].blockSize == ClassSize(k) && s.pools[k].blockCount == BLOCK_COUNT
  }

  /** Memory, regions and pools after `allocate`, and the address; None is bad_alloc. */
  function AfterAllocate(s: System, size: nat, base: nat): (System, Option<nat>)
    requires |s.pools| == CLASSES
  {
    if size > MAX_BLOCK_SIZE then
      if Fits(s.regions, base, size) then (s.(regions := s.regions[base := size]), Some(base)) else (s, None)
    else
      var k := ClassOf(size);
      if k >= CLASSES then (s, None)
      else
        var r := Allocated(ArenaOf(s, k), base);
        if r.None? then (s, None) else (WithArena(s, k, r.value.0), Some(r.value.1))
  }

  /** `deallocate(ptr, size)`: which pool the block goes to is decided by the size alone. */
  function AfterDeallocate(s: System, p: nat, size: nat): System
    requires |s.pools| == CLASSES
  {
    if size > MAX_BLOCK_SIZE then s.(regions := s.regions - {p})
    else
      var k := ClassOf(size);
      if k >= CLASSES then s else WithArena(s, k, Deallocated(ArenaOf(s, k), p))
  }

  // ----- clients that free with the size they asked for -----

  datatype Client = Client(sys: System, asked: map<nat, nat>)

  datatype Request = Get(size: nat, base: nat) | Release(p: nat) | Put(a: nat, v: Byte)

  ghost predicate Fair(c: Client, q: Request) {
    match q
    case Get(_, _) => true
    case Release(p) => p in c.asked
    case Put(a, _) => exists p :: p in c.asked && p <= a < p + c.asked[p]
  }

  ghost function Served(c: Client, q: Request): Client
    requires |c.sys.pools| == CLASSES
  {
    match q
    case Get(size, base) =>
      var r := AfterAllocate(c.sys, size, base);
      if r.1.None? then c
      else
        var grant := if size > MAX_BLOCK_SIZE then Direct else FromPool(ClassOf(size));
        Client(r.0.(held := c.sys.held[r.1.value := grant]), c.asked[r.1.value := size])
    case Release(p) =>
      if p !in c.asked then c
      else Client(AfterDeallocate(c.sys, p, c.asked[p]).(held := c.sys.held - {p}), c.asked - {p})
    case Put(a, v) => c.(sys := c.sys.(m := c.sys.m[a := v]))
  }

  /** Each address is held from the class its size belongs to, or on its own with that size. */
  ghost predicate Granted(c: Client, p: nat) {
    p in c.asked && p in c.sys.held &&
    if c.asked[p] > MAX_BLOCK_SIZE
    then c.sys.held[p] == Direct && p in c.sys.regions && c.sys.regions[p] == c.asked[p]
    else c.sys.held[p] == FromPool(ClassOf(c.asked[p]))
  }

  ghost predicate Sound(c: Client, v: View) {
    && Standard(c.sys) && Inv(c.sys, v)
    && c.asked.Keys == c.sys.held.Keys
    && forall p :: p in c.asked ==> Granted(c, p)
  }

  /** A held piece is at least as large as what was asked for. */
  lemma LargeEnough(c: Client, v: View, p: nat)
    requires Sound(c, v) && p in c.asked
    ensures c.asked[p] <= SizeOf(c.sys, p)
  {
    assert Granted(c, p);
    if c.asked[p] <= MAX_BLOCK_SIZE {
      ClassUnique(c.asked[p], ClassOf(c.asked[p]));
    }
  }

  /** What a client does is an event of the allocators' world; in particular a block freed with
      the size it was asked for goes back to the pool that carved it. */
  lemma ServedIsEvent(c: Client, v: View, q: Request) returns (e: Event)
    requires Sound(c, v) && Fair(c, q)
    ensures Legal(c.sys, e) && Served(c, q).sys == Next(c.sys, e)
    ensures e.ClientWrite? <==> q.Put?
    ensures q.Release? ==> e == (if c.asked[q.p] > MAX_BLOCK_SIZE then Delete(q.p) else Deallocate(q.p))
  {
    match q
    case Get(size, base) =>
      if size > MAX_BLOCK_SIZE {
        e := New(size, base);
      } else {
        ClassUnique(size, ClassOf(size));
        e := Allocate(ClassOf(size), base);
      }
    case Release(p) =>
      assert Granted(c, p);
      if c.asked[p] > MAX_BLOCK_SIZE {
        e := Delete(p);
      } else {
        ClassUnique(c.asked[p], ClassOf(c.asked[p]));
        e := Deallocate(p);
      }
    case Put(a, b) =>
      var p :| p in c.asked && p <= a < p + c.asked[p];
      LargeEnough(c, v, p);
      e := ClientWrite(a, b);
  }

  lemma AllocatedShape(a: Arena, base: nat)
    requires Allocated(a, base).Some?
    ensures var p := Allocated(a, base).value.0.pool;
            p.blockSize == a.pool.blockSize && p.blockCount == a.pool.blockCount
  {
  }

  lemma WithArenaStandard(s: System, k: nat, a: Arena)
    requires Standard(s) && k < CLASSES
    requires a.pool.blockSize == s.pools[k].blockSize && a.pool.blockCount == s.pools[k].blockCount
    ensures Standard(WithArena(s, k, a))
  {
  }

  lemma ServedStandard(c: Client, v: View, q: Request)
    requires Sound(c, v) && Fair(c, q)
    ensures Standard(Served(c, q).sys)
  {
    match q
    case Get(size, base) =>
      var k := ClassOf(size);
      if size <= MAX_BLOCK_SIZE && k < CLASSES && Allocated(ArenaOf(c.sys, k), base).Some? {
        AllocatedShape(ArenaOf(c.sys, k), base);
        WithArenaStandard(c.sys, k, Allocated(ArenaOf(c.sys, k), base).value.0);
      }
    case Release(p) =>
      var k := ClassOf(c.asked[p]);
      if c.asked[p] <= MAX_BLOCK_SIZE && k < CLASSES {
        WithArenaStandard(c.sys, k, Deallocated(ArenaOf(c.sys, k), p));
      }
    case Put(_, _) =>
  }

  /** `operator new` answers with memory no allocation has. */
  lemma NewGranted(c: Client, v: View, size: nat, base: nat, p: nat)
    requires Sound(c, v) && size > MAX_BLOCK_SIZE && p in Served(c, Get(size, base)).asked
    ensures Granted(Served(c, Get(size, base)), p)
  {
    assert p in c.asked ==> Granted(c, p);
  }

  lemma BlockGranted(c: Client, v: View, size: nat, base: nat, p: nat)
    requires Sound(c, v) && size <= MAX_BLOCK_SIZE && p in Served(c, Get(size, base)).asked
    ensures Granted(Served(c, Get(size, base)), p)
  {
    assert p in c.asked ==> Granted(c, p);
  }

  lemma ReleaseGranted(c: Client, v: View, r: nat, p: nat)
    requires Sound(c, v) && r in c.asked && p in Served(c, Release(r)).asked
    ensures Granted(Served(c, Release(r)), p)
  {
    assert Granted(c, p) && Granted(c, r);
  }

  lemma ServedGranted(c: Client, v: View, q: Request, p: nat)
    requires Sound(c, v) && Fair(c, q) && p in Served(c, q).asked
    ensures Granted(Served(c, q), p)
  {
    match q
    case Get(size, base) =>
      if size > MAX_BLOCK_SIZE {
        NewGranted(c, v, size, base, p);
      } else {
        BlockGranted(c, v, size, base, p);
      }
    case Release(r) => ReleaseGranted(c, v, r, p);
    case Put(_, _) => assert Granted(c, p);
  }

  /** No request of anybody changes a byte of an allocation but a write to that allocation. */
  lemma ClientBytesKept(c: Client, v: View, q: Request, p: nat)
    requires Sound(c, v) && Fair(c, q) && p in c.asked && p in Served(c, q).asked
    requires q.Put? ==> !(p <= q.a < p + c.asked[p])
    ensures SameBytes(c.sys.m, Served(c, q).sys.m, p, c.asked[p])
  {
    LargeEnough(c, v, p);
    if !q.Put? {
      var e := ServedIsEvent(c, v, q);
      ClientDataKept(c.sys, v, e, p);
    }
  }

  lemma ServedSound(c: Client, v: View, q: Request) returns (v': View)
    requires Sound(c, v) && Fair(c, q)
    ensures Sound(Served(c, q), v')
  {
    var e := ServedIsEvent(c, v, q);
    v' := InvNext(c.sys, v, e);
    ServedStandard(c, v, q);
    forall p | p in Served(c, q).asked ensures Granted(Served(c, q), p) {
      ServedGranted(c, v, q, p);
    }
  }

  // ----- requests are served -----

  /** The ten classes, in bytes. */
  lemma ClassBytes()
    ensures ClassSize(0) == 8 && ClassSize(1) == 16 && ClassSize(2) == 32 && ClassSize(3) == 64
    ensures ClassSize(4) == 128 && ClassSize(5) == 256 && ClassSize(6) == 512 && ClassSize(7) == 1024
    ensures ClassSize(8) == 2048 && ClassSize(9) == 4096
  {
  }

  lemma LinkedHead(m: Memory, head: nat, base: nat, size: nat, n: nat)
    requires n > 0
    ensures Linked(m, head, base, size, n).1 == base + (n - 1) * size
  {
    TimesIsProduct(n - 1, size);
  }

  /** A pool hands out the head of its free list, or if that is empty the last block of a new chunk. */
  lemma PoolServes(s: System, v: View, k: nat, base: nat) returns (p: nat)
    requires Inv(s, v) && k < |s.pools|
    requires v.free[k] != [] || Fits(s.regions, base, s.pools[k].ChunkSize())
    ensures Allocated(ArenaOf(s, k), base).Some? && Allocated(ArenaOf(s, k), base).value.1 == p && p !in s.held
    ensures p == if v.free[k] != [] then v.free[k][0] else base + (s.pools[k].blockCount - 1) * s.pools[k].blockSize
  {
    PoolHolds(s, v, k);
    p := Allocated(ArenaOf(s, k), base).value.1;
    if v.free[k] != [] {
      HeadFree(s, v, k);
    } else {
      var pool := s.pools[k];
      GrownInv(s, v, k, base);
      GrownNonempty(s, v, k, base);
      HeadFree(GrownSystem(s, k, base), GrownView(s, v, k, base), k);
      LinkedHead(s.m, pool.freeList, base, pool.blockSize, pool.blockCount);
    }
  }

  lemma PoolRefuses(s: System, v: View, k: nat, base: nat)
    requires Inv(s, v) && k < |s.pools|
    ensures Allocated(ArenaOf(s, k), base) == None
       <==> v.free[k] == [] && !Fits(s.regions, base, s.pools[k].ChunkSize())
  {
    PoolHolds(s, v, k);
  }

  /**
   A request of up to 4096 bytes fails exactly when the free list of its class is empty and a chunk of
   1024 such blocks does not fit where the system would put it; then nothing is handed out.  Else
   exactly one address is, which was in nobody's hands: the head of the free list, or the last
   block of the new chunk.
   */
  lemma SmallServed(c: Client, v: View, size: nat, base: nat, k: nat)
    requires Sound(c, v) && size <= 4096 && IsClass(size, k)
    ensures var bytes, after := ClassSize(k), Served(c, Get(size, base)).asked;
            var fails := v.free[k] == [] && !Fits(c.sys.regions, base, 1024 * bytes);
            && (after == c.asked <==> fails)
            && (!fails ==> var p := if v.free[k] != [] then v.free[k][0] else base + 1023 * bytes;
                           p !in c.asked && after == c.asked[p := size])
  {
    ClassUnique(size, k);
    var pool := c.sys.pools[k];
    assert pool.blockSize == ClassSize(k) && pool.blockCount == BLOCK_COUNT;
    TimesIsProduct(BLOCK_COUNT, ClassSize(k));
    PoolRefuses(c.sys, v, k, base);
    if v.free[k] != [] || Fits(c.sys.regions, base, 1024 * ClassSize(k)) {
      var p := PoolServes(c.sys, v, k, base);
      assert p !in c.asked;
    }
  }

  /** A larger request fails exactly when it does not fit where the system would put it; else it is
      given that address, which was in nobody's hands. */
  lemma LargeServed(c: Client, v: View, size: nat, base: nat)
    requires Sound(c, v) && size > 4096
    ensures var after := Served(c, Get(size, base)).asked;
            && (after == c.asked <==> !Fits(c.sys.regions, base, size))
            && (Fits(c.sys.regions, base, size) ==> base !in c.asked && after == c.asked[base := size])
  {
    if Fits(c.sys.regions, base, size) && base in c.asked {
      BaseUnheld(c, v, size, base);
    }
  }

  lemma BaseUnheld(c: Client, v: View, size: nat, base: nat)
    requires Sound(c, v) && size > 0 && Fits(c.sys.regions, base, size)
    ensures base !in c.asked
  {
    if base in c.sys.held {
      if c.sys.held[base].FromPool? {
        HeldCarved(c.sys, v, base);
        FreshApart(c.sys, v, c.sys.held[base].k, base, base, size);
      }
    }
  }

  /** A small block given back is the next one its class hands out, wherever new chunks would go. */
  lemma ReleaseThenGet(c: Client, v: View, p: nat, size: nat, base: nat, k: nat)
    requires Sound(c, v) && p in c.asked && c.asked[p] <= 4096 && size <= 4096
    requires IsClass(c.asked[p], k) && IsClass(size, k)
    ensures var d := Served(c, Release(p));
            && d.asked == c.asked - {p} && d.sys.regions == c.sys.regions && |d.sys.pools| == CLASSES
            && Served(d, Get(size, base)).asked == d.asked[p := size]
  {
    ClassUnique(size, k);
    ClassUnique(c.asked[p], k);
    assert Granted(c, p);
    HeldInRange(c.sys, v, p);
  }

  /** Memory of its own goes back to the system: exactly its region is gone, and it would fit again. */
  lemma ReleaseLarge(c: Client, v: View, p: nat)
    requires Sound(c, v) && p in c.asked && c.asked[p] > 4096
    ensures var d := Served(c, Release(p));
            && d.asked == c.asked - {p} && d.sys.regions == c.sys.regions - {p}
            && Fits(d.sys.regions, p, c.asked[p])
  {
    assert Granted(c, p);
  }

  ghost predicate FairRun(c: Client, qs: seq<Request>)
    requires |c.sys.pools| == CLASSES
    decreases |qs|
  {
    qs == [] || (Fair(c, qs[0]) && FairRun(Served(c, qs[0]), qs[1..]))
  }

  ghost function ServedAll(c: Client, qs: seq<Request>): Client
    requires |c.sys.pools| == CLASSES
    decreases |qs|
  {
    if qs == [] then c else ServedAll(Served(c, qs[0]), qs[1..])
  }

  lemma {:induction false} ServedAllSound(c: Client, v: View, qs: seq<Request>) returns (v': View)
    requires Sound(c, v) && FairRun(c, qs)
    ensures Sound(ServedAll(c, qs), v')
    decreases |qs|
  {
    v' := v;
    if qs != [] {
      v' := ServedSound(c, v, qs[0]);
      v' := ServedAllSound(Served(c, qs[0]), v', qs[1..]);
    }
  }

  // ----- the constructor -----

  /** The pools built with these bases; None is an operator new that fails. */
  ghost function Built(m: Memory, regions: Regions, bases: seq<nat>): (r: Option<System>)
    ensures r.Some? ==> |r.value.pools| == |bases|
    decreases |bases|
  {
    if bases == [] then Some(Start(m, regions))
    else
      var k := |bases| - 1;
      var before := Built(m, regions, bases[..k]);
      if before.None? || !Fits(before.value.regions, bases[k], Times(BLOCK_COUNT, ClassSize(k))) then None
      else
        ClassSizesGrow(0, k);
        Some(Next(before.value, NewPool(ClassSize(k), BLOCK_COUNT, bases[k])))
  }

  lemma BuiltMore(m: Memory, regions: Regions, bases: seq<nat>, k: nat, s: System)
    requires k < |bases| && Built(m, regions, bases[..k]) == Some(s) && ClassSize(k) >= WORD
    ensures Built(m, regions, bases[..k + 1])
         == if Fits(s.regions, bases[k], Times(BLOCK_COUNT, ClassSize(k)))
            then Some(Next(s, NewPool(ClassSize(k), BLOCK_COUNT, bases[k]))) else None
  {
    assert bases[..k + 1][..k] == bases[..k];
  }

  /** A constructor that failed once does not come to an end. */
  lemma {:induction false} BuiltPrefix(m: Memory, regions: Regions, bases: seq<nat>, k: nat)
    requires k <= |bases| && Built(m, regions, bases[..k]).None?
    ensures Built(m, regions, bases).None?
    decreases |bases|
  {
    if k == |bases| {
      assert bases[..k] == bases;
    } else {
      assert bases[..|bases| - 1][..k] == bases[..k];
      BuiltPrefix(m, regions, bases[..|bases| - 1], k);
    }
  }

  ghost predicate ClassPools(s: System) {
    forall j :: 0 <= j < |s.pools| ==>
      s.pools[j].blockSize == ClassSize(j) && s.pools[j].blockCount == BLOCK_COUNT
  }

  lemma {:induction false} BuiltSound(m: Memory, regions: Regions, bases: seq<nat>) returns (v: View)
    requires RegionsApart(regions) && Built(m, regions, bases).Some?
    ensures var s := Built(m, regions, bases).value;
            Inv(s, v) && s.held == map[] && |s.pools| == |bases| && ClassPools(s)
    decreases |bases|
  {
    if bases == [] {
      StartInv(m, regions);
      v := StartView(regions);
    } else {
      var k := |bases| - 1;
      v := BuiltSound(m, regions, bases[..k]);
      ClassSizesGrow(0, k);
      v := InvNext(Built(m, regions, bases[..k]).value, v, NewPool(ClassSize(k), BLOCK_COUNT, bases[k]));
    }
  }

  /** The constructor gives every class one chunk of 1024 blocks, all of them free. */
  lemma {:induction false} BuiltPools(m: Memory, regions: Regions, bases: seq<nat>, j: nat)
    requires Built(m, regions, bases).Some? && j < |bases|
    ensures var p := Built(m, regions, bases).value.pools[j];
            p == Pool(ClassSize(j), 1024, bases[j] + 1023 * ClassSize(j), [bases[j]])
    decreases |bases|
  {
    var k := |bases| - 1;
    ClassSizesGrow(0, k);
    if j < k {
      BuiltPools(m, regions, bases[..k], j);
    } else {
      var s := Built(m, regions, bases[..k]).value;
      LinkedHead(s.m, 0, bases[k], ClassSize(k), BLOCK_COUNT);
    }
  }

  /** Room enough for every class, eight megabytes apart. */
  function Spread(n: nat): seq<nat> {
    seq(n, i requires 0 <= i < n => (i + 1) * 0x80_0000)
  }

  ghost predicate Below(regions: Regions, end: nat) {
    forall r :: r in regions ==> r < end && r + regions[r] <= end
  }

  /** A chunk of any class is at most four megabytes. */
  lemma ChunkBytes(k: nat)
    requires k < CLASSES
    ensures 0 < Times(BLOCK_COUNT, ClassSize(k)) <= 0x40_0000 && ClassSize(k) >= WORD
  {
    ClassSizesGrow(0, k);
    ClassSizesGrow(k, 9);
    ClassBytes();
    TimesIsProduct(BLOCK_COUNT, ClassSize(k));
  }

  lemma SpreadNext(s: System, k: nat)
    requires k < CLASSES && Below(s.regions, (k + 1) * 0x80_0000) && ClassSize(k) >= WORD
    ensures var base := (k + 1) * 0x80_0000;
            && Fits(s.regions, base, Times(BLOCK_COUNT, ClassSize(k)))
            && Below(Next(s, NewPool(ClassSize(k), BLOCK_COUNT, base)).regions, (k + 2) * 0x80_0000)
  {
    ChunkBytes(k);
  }

  lemma {:induction false} SpreadBuilt(m: Memory, n: nat)
    requires n <= CLASSES
    ensures Built(m, map[], Spread(n)).Some? && Below(Built(m, map[], Spread(n)).value.regions, (n + 1) * 0x80_0000)
  {
    if n > 0 {
      var k := n - 1;
      SpreadBuilt(m, k);
      assert Spread(n)[..k] == Spread(k);
      ChunkBytes(k);
      SpreadNext(Built(m, map[], Spread(k)).value, k);
    }
  }

  /** The constructor can succeed. */
  lemma BuildPossible(m: Memory)
    ensures exists bases :: |bases| == CLASSES && Built(m, map[], bases).Some?
  {
    SpreadBuilt(m, CLASSES);
    assert |Spread(CLASSES)| == CLASSES;
  }

  /**
   In every run of clients that keep to their own memory, any two outstanding allocations occupy
   disjoint byte ranges of at least the requested sizes, wherever operator new puts its regions.
   */
  lemma AllocationsDisjoint(m: Memory, regions: Regions, bases: seq<nat>, qs: seq<Request>, p: nat, q: nat)
    requires |bases| == CLASSES && RegionsApart(regions) && Built(m, regions, bases).Some?
    requires FairRun(Client(Built(m, regions, bases).value, map[]), qs)
    requires var c := ServedAll(Client(Built(m, regions, bases).value, map[]), qs);
             p in c.asked && q in c.asked && p != q
    ensures var c := ServedAll(Client(Built(m, regions, bases).value, map[]), qs);
            && Apart(p, c.asked[p], q, c.asked[q])
            && 0 < p && p + c.asked[p] <= ADDRESS_LIMIT
  {
    var v := BuiltSound(m, regions, bases);
    v := ServedAllSound(Client(Built(m, regions, bases).value, map[]), v, qs);
    var c := ServedAll(Client(Built(m, regions, bases).value, map[]), qs);
    HeldApart(c.sys, v, p, q);
    LargeEnough(c, v, p);
    LargeEnough(c, v, q);
    HeldInRange(c.sys, v, p);
  }

  lemma HeldInRange(s: System, v: View, p: nat)
    requires Inv(s, v) && p in s.held
    ensures 0 < p && p + SizeOf(s, p) <= ADDRESS_LIMIT
  {
    if s.held[p].FromPool? {
      HeldCarved(s, v, p);
      var c := BlockRegion(s, v, s.held[p].k, p);
    } else {
      assert Piece(s, v, p);
    }
  }
}

/** The classes themselves. */
module PoolObjects {
  import opened Options
  import opened RawMemory
  import opened PoolMemory
  import opened SizeClasses

  /** The process's memory.  `base` is where the system would put a new region. */
  class Heap {
    var m: Memory
    var regions: Regions

    /** `operator new`; false is bad_alloc. */
    method New(size: nat, base: nat) returns (ok: bool)
      modifies `regions
      ensures ok == Fits(old(regions), base, size)
      ensures regions == if ok then old(regions)[base := size] else old(regions)
    {
      ok := Fits(regions, base, size);
      if ok { regions := regions[base := size]; }
    }

    /** `operator delete`. */
    method Delete(p: nat)
      modifies `regions
      ensures regions == old(regions) - {p}
    {
      regions := regions - {p};
    }
  }

  class FixedMemPool {
    const heap: Heap
    const blockSize: nat
    const blockCount: nat
    var freeList: nat
    var chunks: seq<nat>

    ghost function View(): Pool
      reads this
    {
      Pool(blockSize, blockCount, freeList, chunks)
    }

    ghost function State(): Arena
      reads this, heap
    {
      Arena(heap.m, heap.regions, View())
    }

    /** The members of a pool before its first chunk. */
    constructor (heap: Heap, blockSize: nat, blockCount: nat)
      ensures this.heap == heap && View() == Pool(blockSize, blockCount, 0, [])
    {
      this.heap, this.blockSize, this.blockCount := heap, blockSize, blockCount;
      freeList, chunks := 0, [];
    }

    method AllocateChunk(base: nat) returns (ok: bool)
      modifies this, heap
      ensures ok == Fits(old(heap.regions), base, View().ChunkSize())
      ensures State() == if ok then Grown(old(State()), base) else old(State())
    {
      TimesIsProduct(blockCount, blockSize);
      ok := heap.New(blockCount * blockSize, base);
      if !ok { return; }
      chunks := chunks + [base];
      for i := 0 to blockCount
        invariant (heap.m, freeList) == Linked(old(heap.m), old(freeList), base, blockSize, i)
        invariant chunks == old(chunks) + [base]
        invariant heap.regions == old(heap.regions)[base := View().ChunkSize()]
      {
        TimesIsProduct(i, blockSize);
        var block := base + i * blockSize;
        heap.m := Store(heap.m, block, freeList);
        freeList := block;
      }
    }

    /** None is the bad_alloc of a new chunk. */
    method Allocate(base: nat) returns (ptr: Option<nat>)
      modifies this, heap
      ensures Allocated(old(State()), base) == None ==> ptr == None && State() == old(State())
      ensures Allocated(old(State()), base).Some? ==>
                ptr.Some? && Allocated(old(State()), base) == Some((State(), ptr.value))
      ensures old(freeList) != 0 ==> ptr == Some(old(freeList))
      ensures ptr == None <==> old(freeList) == 0 && !Fits(old(heap.regions), base, Times(blockCount, blockSize))
    {
      if freeList == 0 {
        var ok := AllocateChunk(base);
        if !ok { return None; }
      }
      var p := freeList;
      freeList := Load(heap.m, p);
      return Some(p);
    }

    method Deallocate(ptr: nat)
      modifies this, heap
      ensures State() == Deallocated(old(State()), ptr)
    {
      heap.m := Store(heap.m, ptr, freeList);
      freeList := ptr;
    }
  }

  class MemoryPool {
    const heap: Heap
    var pools: seq<FixedMemPool>

    constructor (heap: Heap)
      ensures this.heap == heap && pools == []
    {
      this.heap, pools := heap, [];
    }

    ghost predicate Separate()
      reads this, pools
    {
      && |pools| <= CLASSES
      && (forall k :: 0 <= k < |pools| ==> pools[k].heap == heap && pools[k].blockSize == ClassSize(k))
      && (forall k :: 0 <= k < |pools| ==> pools[k].blockCount == BLOCK_COUNT)
      && (forall j, k :: 0 <= j < k < |pools| ==> pools[j] != pools[k])
    }

    /** `pools_.push_back(new FixedMemPool(sz))`; false is the bad_alloc of its first chunk. */
    method PushPool(sz: nat, base: nat) returns (ok: bool)
      requires Separate() && |pools| < CLASSES && sz == ClassSize(|pools|) && sz >= WORD
      modifies this, heap
      ensures ok == Fits(old(heap.regions), base, Times(BLOCK_COUNT, sz))
      ensures ok ==> Separate() && |pools| == |old(pools)| + 1
      ensures ok ==> State() == Next(old(State()), NewPool(sz, BLOCK_COUNT, base))
    {
      var pool := new FixedMemPool(heap, sz, BLOCK_COUNT);
      ghost var before, n := Pools(), |pools|;
      ok := pool.AllocateChunk(base);
      if ok {
        pools := pools + [pool];
        assert Pools() == before + [pool.View()];
        assert Pools() == (before + [Pool(sz, BLOCK_COUNT, 0, [])])[n := pool.View()];
      }
    }

    /** The first `k` classes are built. */
    ghost predicate BuiltTo(m: Memory, regions: Regions, bases: seq<nat>, k: nat)
      requires k <= |bases|
      reads this, pools, heap
    {
      k <= CLASSES && |pools| == k && Separate() && Built(m, regions, bases[..k]) == Some(State())
    }

    /** One turn of the constructor's loop; false is an exception. */
    method BuildNext(sz: nat, bases: seq<nat>, k: nat, ghost m: Memory, ghost regions: Regions) returns (ok: bool)
      requires k < |bases| == CLASSES && sz == ClassSize(k) && BuiltTo(m, regions, bases, k)
      modifies this, heap
      ensures ok ==> BuiltTo(m, regions, bases, k + 1)
      ensures !ok ==> Built(m, regions, bases).None?
    {
      ClassesEnd(k);
      BuiltMore(m, regions, bases, k, State());
      ok := PushPool(sz, bases[k]);
      if !ok {
        BuiltPrefix(m, regions, bases, k + 1);
      }
    }

    /** The loop of the constructor; false is an exception. */
    method Build(bases: seq<nat>) returns (ok: bool)
      requires |bases| == CLASSES && pools == []
      modifies this, heap
      ensures ok == Built(old(heap.m), old(heap.regions), bases).Some?
      ensures ok ==> Valid() && State() == Built(old(heap.m), old(heap.regions), bases).value
    {
      var sz, k := MIN_BLOCK_SIZE, 0;
      assert Pools() == [];
      ClassesEnd(0);
      while sz <= MAX_BLOCK_SIZE
        invariant k <= CLASSES && sz == ClassSize(k) && BuiltTo(old(heap.m), old(heap.regions), bases, k)
        invariant sz <= MAX_BLOCK_SIZE <==> k < CLASSES
        decreases CLASSES - k
      {
        ok := BuildNext(sz, bases, k, old(heap.m), old(heap.regions));
        if !ok { return; }
        ClassesEnd(k);
        ClassesEnd(k + 1);
        sz, k := 2 * sz, k + 1;
      }
      assert bases[..k] == bases;
      return true;
    }

    ghost predicate Valid()
      reads this, pools
    {
      |pools| == CLASSES && Separate()
    }

    ghost function Pools(): (ps: seq<Pool>)
      reads this, pools
    {
      seq(|pools|, k requires 0 <= k < |pools| reads this, pools => pools[k].View())
    }

    ghost function State(): System
      reads this, pools, heap
    {
      System(heap.m, heap.regions, Pools(), map[])
    }

    /** The search for the size class. */
    method FindPool(size: nat) returns (idx: nat)
      requires Valid() && size <= MAX_BLOCK_SIZE
      ensures IsClass(size, idx) && idx == ClassOf(size)
      ensures size <= pools[idx].blockSize
    {
      idx := 0;
      var sz := MIN_BLOCK_SIZE;
      while sz < size && sz <= MAX_BLOCK_SIZE
        invariant idx < CLASSES && sz == ClassSize(idx)
        invariant idx > 0 ==> ClassSize(idx - 1) < size
        decreases CLASSES - idx
      {
        ClassesEnd(idx);
        ClassesEnd(idx + 1);
        sz := 2 * sz;
        idx := idx + 1;
      }
      ClassUnique(size, idx);
    }

    /** What a request of up to 4096 bytes was answered, by the free list it found in its class. */
    ghost predicate SmallAnswer(size: nat, base: nat, freeLists: seq<nat>, regions: Regions, ptr: Option<nat>) {
      var k := ClassOf(size);
      && IsClass(size, k) && k < |freeLists|
      && (freeLists[k] != 0 ==> ptr == Some(freeLists[k]))
      && (ptr == None <==> freeLists[k] == 0 && !Fits(regions, base, 1024 * ClassSize(k)))
    }

    ghost function FreeLists(): seq<nat>
      reads this, pools
    {
      seq(|pools|, k requires 0 <= k < |pools| reads this, pools => pools[k].freeList)
    }

    method AllocateSmall(size: nat, base: nat) returns (ptr: Option<nat>)
      requires Valid() && size <= MAX_BLOCK_SIZE
      modifies heap, pools
      ensures Valid() && (State(), ptr) == AfterAllocate(old(State()), size, base)
      ensures SmallAnswer(size, base, old(FreeLists()), old(heap.regions), ptr)
    {
      var k := FindPool(size);
      ClassUnique(size, k);
      TimesIsProduct(BLOCK_COUNT, ClassSize(k));
      assert ArenaOf(State(), k) == pools[k].State();
      ptr := pools[k].Allocate(base);
      assert Pools() == old(Pools())[k := pools[k].View()];
      if ptr.None? {
        assert Pools() == old(Pools());
      }
    }

    method Allocate(size: nat, base: nat) returns (ptr: Option<nat>)
      requires Valid()
      modifies heap, pools
      ensures Valid() && (State(), ptr) == AfterAllocate(old(State()), size, base)
      ensures size > 4096 ==> ptr == if Fits(old(heap.regions), base, size) then Some(base) else None
      ensures size <= 4096 ==> SmallAnswer(size, base, old(FreeLists()), old(heap.regions), ptr)
    {
      if size > MAX_BLOCK_SIZE {
        var ok := heap.New(size, base);
        assert Pools() == old(Pools());
        return if ok then Some(base) else None;
      }
      ptr := AllocateSmall(size, base);
    }

    method Deallocate(ptr: nat, size: nat)
      requires Valid()
      modifies heap, pools
      ensures Valid() && State() == AfterDeallocate(old(State()), ptr, size)
    {
      if size > MAX_BLOCK_SIZE {
        heap.Delete(ptr);
        return;
      }
      var k := FindPool(size);
      assert ArenaOf(State(), k) == pools[k].State();
      pools[k].Deallocate(ptr);
      assert Pools() == old(Pools())[k := pools[k].View()];
    }
  }
}
