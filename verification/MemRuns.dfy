/**
 Whole runs of the allocator: any sequence of allocations and releases of live blocks.
 A step is what the contracts of Pool.Alloc and Pool.Free promise.
 */
module MemRuns {
  import opened Blocks
  import opened Pointers

  datatype Heap = Heap(free: map<nat, nat>, live: map<nat, nat>)

  ghost predicate Disjoint(m: map<nat, nat>) {
    forall b, c :: b in m && c in m && b < c ==> b + m[b] <= c
  }

  /** Free and live blocks tile the pool exactly. */
  ghost predicate Tiles(h: Heap, lo: nat, hi: nat)
    requires lo <= hi
  {
    Bytes(h.free) !! Bytes(h.live) && Bytes(h.free) + Bytes(h.live) == Range(lo, hi - lo)
  }

  ghost predicate Inv(h: Heap, lo: nat, hi: nat) {
    && 0 < lo <= hi
    && WellFormed(h.free, lo, hi)
    && InPool(h.live, lo, hi) && Disjoint(h.live)
    && Tiles(h, lo, hi)
  }

  ghost predicate AllocStep(h: Heap, size: nat, p: nat, h': Heap, lo: nat, hi: nat) {
    && 0 < size && Aligned(size)
    && AllocSpec(h.free, size, p, h'.free) && WellFormed(h'.free, lo, hi)
    && h'.live == if p == NIL then h.live else h.live[p := size]
  }

  ghost predicate FreeStep(h: Heap, addr: nat, h': Heap, lo: nat, hi: nat) {
    && addr in h.live
    && FreeSpec(h.free, addr, h.live[addr], h'.free) && WellFormed(h'.free, lo, hi)
    && h'.live == h.live - {addr}
  }

  ghost predicate Step(h: Heap, h': Heap, lo: nat, hi: nat) {
    (exists size, p :: AllocStep(h, size, p, h', lo, hi)) || (exists addr :: FreeStep(h, addr, h', lo, hi))
  }

  // ------------------------------------------------------------------- steps

  /** Moving a part of one side of a partition to the other keeps the partition. */
  lemma MovePart(from: iset<nat>, to: iset<nat>, part: iset<nat>)
    requires from !! to && part <= from
    ensures (from - part) !! (to + part) && (from - part) + (to + part) == from + to
  {
  }

  lemma BytesWith(m: map<nat, nat>, b: nat, size: nat)
    requires b !in m
    ensures Bytes(m[b := size]) == Bytes(m) + Range(b, size)
  {
    var m' := m[b := size];
    forall x: nat ensures Covered(m', x) <==> Covered(m, x) || Within(b, size, x) {
      if Covered(m, x) {
        var c :| c in m && Within(c, m[c], x);
        assert c in m' && Within(c, m'[c], x);
      }
      if Within(b, size, x) {
        assert b in m' && Within(b, m'[b], x);
      }
      if Covered(m', x) && !Within(b, size, x) {
        var c :| c in m' && Within(c, m'[c], x);
        assert c in m && Within(c, m[c], x);
      }
    }
  }

  lemma BytesWithout(m: map<nat, nat>, b: nat)
    requires Disjoint(m) && b in m
    ensures Range(b, m[b]) <= Bytes(m) && Bytes(m - {b}) == Bytes(m) - Range(b, m[b])
  {
    var m' := m - {b};
    forall x: nat ensures Covered(m', x) <==> Covered(m, x) && !Within(b, m[b], x) {
      if Covered(m, x) && !Within(b, m[b], x) {
        var c :| c in m && Within(c, m[c], x);
        assert c in m' && Within(c, m'[c], x);
      }
    }
  }

  /** The tail of a free block lies in the pool. */
  lemma TailInPool(m: map<nat, nat>, b: nat, size: nat, p: nat, lo: nat, hi: nat)
    requires WellFormed(m, lo, hi) && b in m && Aligned(size) && size <= m[b] && p + size == b + m[b]
    ensures Aligned(p) && lo <= p && p + size <= hi
  {
    InsidePool(m, b, lo, hi);
    AlignedDifference(b, m[b], size);
    hide WellFormed, Aligned;
  }

  lemma InsidePool(m: map<nat, nat>, b: nat, lo: nat, hi: nat)
    requires WellFormed(m, lo, hi) && b in m
    ensures Aligned(b) && Aligned(m[b]) && lo <= b && b + m[b] <= hi
  {
  }

  lemma AlignedDifference(b: nat, n: nat, size: nat)
    requires Aligned(b) && Aligned(n) && Aligned(size) && size <= n
    ensures Aligned(b + n - size)
  {
  }

  /** A range of free addresses meets no live block. */
  lemma MissesLive(free: map<nat, nat>, live: map<nat, nat>, p: nat, size: nat, c: nat)
    requires Bytes(free) !! Bytes(live) && Range(p, size) <= Bytes(free) && c in live
    requires 0 < size && 0 < live[c]
    ensures c + live[c] <= p || p + size <= c
  {
    if p < c + live[c] && c < p + size {
      var x := if p <= c then c else p;
      assert x in Range(p, size);
      InBytes(live, c, x);
    }
  }

  /** An allocated range is part of one free block of the pool and meets no live block. */
  lemma AllocatedRange(h: Heap, size: nat, p: nat, h': Heap, lo: nat, hi: nat)
    requires Inv(h, lo, hi) && AllocStep(h, size, p, h', lo, hi) && p != NIL
    ensures Aligned(p) && lo <= p && p + size <= hi && p !in h.live
    ensures forall c :: c in h.live ==> c + h.live[c] <= p || p + size <= c
  {
    var b :| BestFit(h.free, size, b) && p + size == b + h.free[b];
    assert forall c :: c in h.live ==> 0 < h.live[c];
    hide WellFormed, Aligned, Bytes, Range, InPool;
    TailInPool(h.free, b, size, p, lo, hi);
    forall c | c in h.live ensures c + h.live[c] <= p || p + size <= c {
      MissesLive(h.free, h.live, p, size, c);
    }
  }

  lemma AllocKeeps(h: Heap, size: nat, p: nat, h': Heap, lo: nat, hi: nat)
    requires Inv(h, lo, hi) && AllocStep(h, size, p, h', lo, hi)
    ensures Inv(h', lo, hi)
  {
    if p != NIL {
      AllocatedRange(h, size, p, h', lo, hi);
      BytesWith(h.live, p, size);
      MovePart(Bytes(h.free), Bytes(h.live), Range(p, size));
    }
  }

  /** A live block may always be released: it lies apart from every free block. */
  lemma LiveIsReleasable(h: Heap, addr: nat, lo: nat, hi: nat)
    requires Inv(h, lo, hi) && addr in h.live
    ensures Aligned(addr) && Aligned(h.live[addr]) && 0 < h.live[addr]
    ensures lo <= addr && addr + h.live[addr] <= hi && Apart(h.free, addr, h.live[addr])
  {
    forall x: nat | Within(addr, h.live[addr], x) ensures !Covered(h.free, x) {
      InBytes(h.live, addr, x);
    }
  }

  lemma FreeKeeps(h: Heap, addr: nat, h': Heap, lo: nat, hi: nat)
    requires Inv(h, lo, hi) && FreeStep(h, addr, h', lo, hi)
    ensures Inv(h', lo, hi)
  {
    BytesWithout(h.live, addr);
    MovePart(Bytes(h.live), Bytes(h.free), Range(addr, h.live[addr]));
  }

  // -------------------------------------------------------------------- runs

  /** What a fresh pool looks like. */
  function Fresh(addr: nat, size: nat): Heap { Heap(map[addr := size], map[]) }

  lemma FreshInv(addr: nat, size: nat)
    requires 0 < addr && 0 < size && Aligned(addr) && Aligned(size)
    ensures Inv(Fresh(addr, size), addr, addr + size)
  {
    var h := Fresh(addr, size);
    BytesWith(map[], addr, size);
    assert map[][addr := size] == h.free;
    assert Bytes(h.live) == iset{};
  }

  ghost predicate Run(hs: seq<Heap>, lo: nat, hi: nat) {
    && |hs| > 0 && lo <= hi && hs[0] == Fresh(lo, hi - lo)
    && forall i :: 0 < i < |hs| ==> Step(hs[i - 1], hs[i], lo, hi)
  }

  /** Over any run, free and live blocks tile the pool and free blocks are never adjacent. */
  lemma {:induction false} RunInv(hs: seq<Heap>, lo: nat, hi: nat, i: nat)
    requires 0 < lo < hi && Aligned(lo) && Aligned(hi - lo) && Run(hs, lo, hi) && i < |hs|
    ensures Inv(hs[i], lo, hi)
  {
    if i == 0 {
      FreshInv(lo, hi - lo);
    } else {
      RunInv(hs, lo, hi, i - 1);
      var h, h' := hs[i - 1], hs[i];
      assert Step(h, h', lo, hi);
      if addr :| FreeStep(h, addr, h', lo, hi) {
        FreeKeeps(h, addr, h', lo, hi);
      } else {
        var size, p :| AllocStep(h, size, p, h', lo, hi);
        AllocKeeps(h, size, p, h', lo, hi);
      }
    }
  }

  /** In any run, at any moment: with nothing live, one free block is the whole pool. */
  lemma EverythingFreed(hs: seq<Heap>, lo: nat, hi: nat, i: nat)
    requires 0 < lo < hi && Aligned(lo) && Aligned(hi - lo) && Run(hs, lo, hi) && i < |hs|
    requires hs[i].live == map[]
    ensures hs[i].free == map[lo := hi - lo]
  {
    RunInv(hs, lo, hi, i);
    FreshInv(lo, hi - lo);
    FreeSetDependsOnLive(hs[i], Fresh(lo, hi - lo), lo, hi);
  }

  /** In any run, two moments with the same live blocks have the same free blocks. */
  lemma FreeSetDependsOnLive(h: Heap, h': Heap, lo: nat, hi: nat)
    requires Inv(h, lo, hi) && Inv(h', lo, hi) && h.live == h'.live
    ensures h == h'
  {
    var whole := Range(lo, hi - lo);
    assert Bytes(h.free) == whole - Bytes(h.live) && Bytes(h'.free) == whole - Bytes(h'.live);
    Canonical(h.free, h'.free, lo, hi);
  }

  /** Allocating a block and releasing it restores the heap. */
  lemma AllocThenFree(h: Heap, size: nat, p: nat, h1: Heap, h2: Heap, lo: nat, hi: nat)
    requires Inv(h, lo, hi) && AllocStep(h, size, p, h1, lo, hi) && p != NIL && FreeStep(h1, p, h2, lo, hi)
    ensures h2 == h
  {
    AllocatedRange(h, size, p, h1, lo, hi);
    AllocKeeps(h, size, p, h1, lo, hi);
    FreeKeeps(h1, p, h2, lo, hi);
    assert h2.live == h.live;
    FreeSetDependsOnLive(h, h2, lo, hi);
  }

  /** Releases of the given blocks, one after the other. */
  ghost predicate Releases(h: Heap, order: seq<nat>, h': Heap, lo: nat, hi: nat)
    decreases |order|
  {
    if order == [] then h' == h
    else exists h1 :: FreeStep(h, order[0], h1, lo, hi) && Releases(h1, order[1..], h', lo, hi)
  }

  lemma {:induction false} ReleasesKeep(h: Heap, order: seq<nat>, h': Heap, lo: nat, hi: nat)
    requires Inv(h, lo, hi) && Releases(h, order, h', lo, hi)
    ensures Inv(h', lo, hi) && h'.live == h.live - (set b | b in order)
    decreases |order|
  {
    if order != [] {
      var h1 :| FreeStep(h, order[0], h1, lo, hi) && Releases(h1, order[1..], h', lo, hi);
      assert h1.live == h.live - {order[0]};
      hide *;
      FreeKeeps(h, order[0], h1, lo, hi);
      ReleasesKeep(h1, order[1..], h', lo, hi);
      AllOf(order);
    }
  }

  lemma AllOf(order: seq<nat>)
    requires order != []
    ensures (set b | b in order) == {order[0]} + (set b | b in order[1..])
  {
    assert order == [order[0]] + order[1..];
  }

  /** Releasing the same blocks in any two orders reaches the same heap. */
  lemma ReleaseOrderIrrelevant(h: Heap, order: seq<nat>, order': seq<nat>, h1: Heap, h2: Heap, lo: nat, hi: nat)
    requires Inv(h, lo, hi) && multiset(order) == multiset(order')
    requires Releases(h, order, h1, lo, hi) && Releases(h, order', h2, lo, hi)
    ensures h1 == h2
  {
    ReleasesKeep(h, order, h1, lo, hi);
    ReleasesKeep(h, order', h2, lo, hi);
    assert forall b :: b in order <==> b in multiset(order);
    assert forall b :: b in order' <==> b in multiset(order');
    FreeSetDependsOnLive(h1, h2, lo, hi);
  }
}
