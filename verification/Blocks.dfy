/**
 Sets of free (or live) memory blocks, as maps from start address to length, and what the
 dynamic allocator promises about them, independently of how it indexes them.
 */
module Blocks {
  import opened Pointers

  // Size of a block descriptor: two tree nodes of four words each.
  const UNIT: nat := 32

  predicate Aligned(x: nat) { x % UNIT == 0 }

  predicate Within(addr: nat, size: nat, x: nat) { addr <= x < addr + size }

  ghost predicate Covered(m: map<nat, nat>, x: nat) {
    exists b :: b in m && Within(b, m[b], x)
  }

  /** The addresses that lie in some block. */
  ghost function Bytes(m: map<nat, nat>): iset<nat> {
    iset x: nat | Covered(m, x)
  }

  ghost function Range(addr: nat, size: nat): iset<nat> {
    iset x: nat | Within(addr, size, x)
  }

  ghost predicate InPool(m: map<nat, nat>, lo: nat, hi: nat) {
    forall b :: b in m ==> Aligned(b) && Aligned(m[b]) && 0 < m[b] && lo <= b && b + m[b] <= hi
  }

  /** Pairwise disjoint and never adjacent. */
  ghost predicate Separated(m: map<nat, nat>) {
    forall b, c :: b in m && c in m && b < c ==> b + m[b] < c
  }

  ghost predicate WellFormed(m: map<nat, nat>, lo: nat, hi: nat) {
    InPool(m, lo, hi) && Separated(m)
  }

  ghost predicate Apart(m: map<nat, nat>, addr: nat, size: nat) {
    forall x :: Covered(m, x) ==> !Within(addr, size, x)
  }

  // ------------------------------------------------------------ specification

  ghost predicate BestFit(m: map<nat, nat>, size: nat, b: nat) {
    b in m && size <= m[b] && forall c :: c in m && size <= m[c] ==> m[b] <= m[c]
  }

  /** An allocation: NULL exactly when nothing fits, else the tail of a smallest block that fits. */
  ghost predicate AllocSpec(m: map<nat, nat>, size: nat, p: nat, m': map<nat, nat>) {
    && (p == NIL <==> forall b :: b in m ==> m[b] < size)
    && (p == NIL ==> m' == m)
    && (p != NIL ==> exists b :: BestFit(m, size, b) && p + size == b + m[b])
    && (p != NIL ==> Range(p, size) <= Bytes(m) && Bytes(m') == Bytes(m) - Range(p, size))
  }

  /** A release gives back exactly the released addresses. */
  ghost predicate FreeSpec(m: map<nat, nat>, addr: nat, size: nat, m': map<nat, nat>) {
    Bytes(m') == Bytes(m) + Range(addr, size)
  }

  // ---------------------------------------------------------------- canonical

  lemma InBytes(m: map<nat, nat>, b: nat, x: nat)
    requires b in m && Within(b, m[b], x)
    ensures x in Bytes(m)
  {
  }

  lemma GapBefore(m: map<nat, nat>, lo: nat, hi: nat, b: nat)
    requires WellFormed(m, lo, hi) && b in m && 0 < b
    ensures b - 1 !in Bytes(m)
  {
  }

  lemma GapAfter(m: map<nat, nat>, lo: nat, hi: nat, b: nat)
    requires WellFormed(m, lo, hi) && b in m
    ensures b + m[b] !in Bytes(m)
  {
  }

  lemma StartsAgree(m: map<nat, nat>, m': map<nat, nat>, lo: nat, hi: nat, b: nat)
    requires WellFormed(m, lo, hi) && WellFormed(m', lo, hi)
    requires Bytes(m) == Bytes(m')
    requires b in m
    ensures b in m'
  {
    assert Within(b, m[b], b);
    assert b in Bytes(m');
    var c :| c in m' && Within(c, m'[c], b);
    if c < b {
      GapBefore(m, lo, hi, b);
      InBytes(m', c, b - 1);
      assert false;
    }
  }

  lemma LengthsAgree(m: map<nat, nat>, m': map<nat, nat>, lo: nat, hi: nat, b: nat)
    requires WellFormed(m, lo, hi) && WellFormed(m', lo, hi)
    requires Bytes(m) == Bytes(m')
    requires b in m && b in m'
    ensures m[b] <= m'[b]
  {
    if m'[b] < m[b] {
      InBytes(m, b, b + m'[b]);
      GapAfter(m', lo, hi, b);
      assert false;
    }
  }

  /** Coalescing is canonical: the set of blocks depends only on which addresses are free. */
  lemma Canonical(m: map<nat, nat>, m': map<nat, nat>, lo: nat, hi: nat)
    requires WellFormed(m, lo, hi) && WellFormed(m', lo, hi)
    requires Bytes(m) == Bytes(m')
    ensures m == m'
  {
    forall b | b in m ensures b in m' && m[b] == m'[b] {
      StartsAgree(m, m', lo, hi, b);
      LengthsAgree(m, m', lo, hi, b);
      LengthsAgree(m', m, lo, hi, b);
    }
    forall b | b in m' ensures b in m {
      StartsAgree(m', m, lo, hi, b);
    }
  }

  // --------------------------------------------------- taking blocks and tails

  lemma TakeBlock(m: map<nat, nat>, lo: nat, hi: nat, b: nat)
    requires WellFormed(m, lo, hi) && b in m
    ensures WellFormed(m - {b}, lo, hi)
    ensures Range(b, m[b]) <= Bytes(m) && Bytes(m - {b}) == Bytes(m) - Range(b, m[b])
  {
    var m' := m - {b};
    forall x: nat ensures Covered(m', x) <==> Covered(m, x) && !Within(b, m[b], x) {
      if Covered(m, x) && !Within(b, m[b], x) {
        var c :| c in m && Within(c, m[c], x);
        assert c in m' && Within(c, m'[c], x);
      }
    }
  }

  lemma TakeTailAt(m: map<nat, nat>, lo: nat, hi: nat, b: nat, size: nat, x: nat)
    requires WellFormed(m, lo, hi) && b in m && size < m[b]
    ensures Covered(m[b := m[b] - size], x) <==> Covered(m, x) && !Within(b + m[b] - size, size, x)
    ensures Within(b + m[b] - size, size, x) ==> Covered(m, x)
  {
    var m' := m[b := m[b] - size];
    if Covered(m, x) && !Within(b + m[b] - size, size, x) {
      var c :| c in m && Within(c, m[c], x);
      assert c in m' && Within(c, m'[c], x);
    }
    if Covered(m', x) {
      var c :| c in m' && Within(c, m'[c], x);
      assert c in m && Within(c, m[c], x);
    }
    if Within(b + m[b] - size, size, x) {
      assert Within(b, m[b], x);
    }
  }

  lemma TailWellFormed(m: map<nat, nat>, lo: nat, hi: nat, b: nat, size: nat)
    requires WellFormed(m, lo, hi) && b in m && Aligned(size) && size < m[b]
    ensures WellFormed(m[b := m[b] - size], lo, hi)
  {
    assert Aligned(m[b]);
    AlignedRest(m[b], size);
    hide Aligned;
  }

  lemma AlignedRest(whole: nat, part: nat)
    requires Aligned(whole) && Aligned(part) && part <= whole
    ensures Aligned(whole - part)
  {
  }

  lemma TakeTail(m: map<nat, nat>, lo: nat, hi: nat, b: nat, size: nat)
    requires WellFormed(m, lo, hi) && b in m && Aligned(size) && size < m[b]
    ensures WellFormed(m[b := m[b] - size], lo, hi)
    ensures var p := b + m[b] - size;
            Range(p, size) <= Bytes(m) && Bytes(m[b := m[b] - size]) == Bytes(m) - Range(p, size)
  {
    TailWellFormed(m, lo, hi, b, size);
    hide WellFormed, Aligned, Covered, Within;
    forall x: nat
      ensures Covered(m[b := m[b] - size], x) <==> Covered(m, x) && !Within(b + m[b] - size, size, x)
      ensures Within(b + m[b] - size, size, x) ==> Covered(m, x)
    {
      TakeTailAt(m, lo, hi, b, size, x);
    }
  }

  lemma AllocNothing(m: map<nat, nat>, size: nat)
    requires forall b :: b in m ==> m[b] < size
    ensures AllocSpec(m, size, NIL, m)
  {
  }

  lemma AllocBlock(m: map<nat, nat>, lo: nat, hi: nat, b: nat, size: nat)
    requires 0 < lo && WellFormed(m, lo, hi) && BestFit(m, size, b) && m[b] == size
    ensures WellFormed(m - {b}, lo, hi) && AllocSpec(m, size, b, m - {b})
  {
    TakeBlock(m, lo, hi, b);
    assert BestFit(m, size, b) && b + size == b + m[b];
  }

  lemma AllocTail(m: map<nat, nat>, lo: nat, hi: nat, b: nat, size: nat)
    requires 0 < lo && WellFormed(m, lo, hi) && BestFit(m, size, b) && Aligned(size) && size < m[b]
    ensures WellFormed(m[b := m[b] - size], lo, hi)
    ensures AllocSpec(m, size, b + (m[b] - size), m[b := m[b] - size])
  {
    TakeTail(m, lo, hi, b, size);
    assert BestFit(m, size, b) && b + (m[b] - size) + size == b + m[b];
  }

  // ----------------------------------------------------------------- merging

  /** Whether `left` is the free block that ends at addr (NIL when there is none). */
  ghost predicate LeftNeighbour(m: map<nat, nat>, addr: nat, left: nat) {
    if left == NIL then forall b :: b in m ==> b + m[b] != addr
    else left in m && left + m[left] == addr
  }

  /** Whether `right` is the free block that starts at addr + size (NIL when there is none). */
  ghost predicate RightNeighbour(m: map<nat, nat>, addr: nat, size: nat, right: nat) {
    if right == NIL then addr + size !in m
    else right in m && right == addr + size
  }

  function Merge(m: map<nat, nat>, addr: nat, size: nat, left: nat, right: nat): map<nat, nat>
    requires left != NIL ==> left in m && left <= addr
    requires right != NIL ==> right in m && addr + size <= right
  {
    var start := if left == NIL then addr else left;
    var end := if right == NIL then addr + size else right + m[right];
    (m - {left, right})[start := end - start]
  }

  ghost predicate Beside(m: map<nat, nat>, addr: nat, size: nat) {
    forall b :: b in m ==> b + m[b] <= addr || addr + size <= b
  }

  ghost predicate Mergeable(m: map<nat, nat>, lo: nat, hi: nat, addr: nat, size: nat, left: nat, right: nat) {
    && 0 < lo && WellFormed(m, lo, hi)
    && Aligned(addr) && Aligned(size) && 0 < size && lo <= addr && addr + size <= hi
    && Beside(m, addr, size)
    && LeftNeighbour(m, addr, left) && RightNeighbour(m, addr, size, right)
  }

  /** Every block that is not absorbed stays clear of the merged one. */
  lemma EntryClear(m: map<nat, nat>, lo: nat, hi: nat, addr: nat, size: nat, left: nat, right: nat, b: nat)
    requires Mergeable(m, lo, hi, addr, size, left, right)
    requires b in m && b != left && b != right
    ensures var start := if left == NIL then addr else left;
            var end := if right == NIL then addr + size else right + m[right];
            b != start && (b + m[b] < start || end < b)
  {
  }

  lemma MergeBounds(m: map<nat, nat>, lo: nat, hi: nat, addr: nat, size: nat, left: nat, right: nat)
    requires Mergeable(m, lo, hi, addr, size, left, right)
    ensures left != NIL ==> left in m && left <= addr
    ensures right != NIL ==> right in m && addr + size <= right
    ensures var start := if left == NIL then addr else left;
            var end := if right == NIL then addr + size else right + m[right];
            && Aligned(start) && Aligned(end - start) && lo <= start < end <= hi
            && WellFormed(m, lo, hi)
            && Merge(m, addr, size, left, right) == (m - {left, right})[start := end - start]
  {
    hide Aligned, Separated;
    var start := if left == NIL then addr else left;
    var end := if right == NIL then addr + size else right + m[right];
    AlignedSum(addr, size);
    if right != NIL {
      AlignedSum(right, m[right]);
    }
    AlignedSum(start, end - start);
  }

  lemma AlignedSum(a: nat, b: nat)
    requires Aligned(a)
    ensures Aligned(a + b) <==> Aligned(b)
  {
  }

  lemma RestWellFormed(m: map<nat, nat>, lo: nat, hi: nat, gone: set<nat>)
    requires WellFormed(m, lo, hi)
    ensures WellFormed(m - gone, lo, hi)
  {
  }

  /** One entry that lies clear of the others can join a well-formed set. */
  lemma AddEntry(m: map<nat, nat>, lo: nat, hi: nat, start: nat, size: nat)
    requires WellFormed(m, lo, hi)
    requires Aligned(start) && Aligned(size) && 0 < size && lo <= start && start + size <= hi
    requires forall b :: b in m ==> b + m[b] < start || start + size < b
    ensures WellFormed(m[start := size], lo, hi)
  {
  }

  lemma MergeWellFormed(m: map<nat, nat>, lo: nat, hi: nat, addr: nat, size: nat, left: nat, right: nat)
    requires Mergeable(m, lo, hi, addr, size, left, right)
    ensures left != NIL ==> left in m && left <= addr
    ensures right != NIL ==> right in m && addr + size <= right
    ensures WellFormed(Merge(m, addr, size, left, right), lo, hi)
  {
    hide *;
    MergeBounds(m, lo, hi, addr, size, left, right);
    var start := if left == NIL then addr else left;
    var end := if right == NIL then addr + size else right + m[right];
    RestWellFormed(m, lo, hi, {left, right});
    var rest := m - {left, right};
    forall b | b in rest ensures b + rest[b] < start || end < b {
      EntryClear(m, lo, hi, addr, size, left, right, b);
    }
    AddEntry(rest, lo, hi, start, end - start);
  }

  lemma MergeKeeps(m: map<nat, nat>, lo: nat, hi: nat, addr: nat, size: nat, left: nat, right: nat, x: nat)
    requires Mergeable(m, lo, hi, addr, size, left, right) && (Covered(m, x) || Within(addr, size, x))
    ensures Covered(Merge(m, addr, size, left, right), x)
  {
    var m' := Merge(m, addr, size, left, right);
    var start := if left == NIL then addr else left;
    if Within(addr, size, x) {
      assert start in m' && Within(start, m'[start], x);
    } else {
      var c :| c in m && Within(c, m[c], x);
      var d := if c == left || c == right then start else c;
      assert d in m' && Within(d, m'[d], x);
    }
  }

  lemma MergeAddsOnly(m: map<nat, nat>, lo: nat, hi: nat, addr: nat, size: nat, left: nat, right: nat, x: nat)
    requires Mergeable(m, lo, hi, addr, size, left, right) && Covered(Merge(m, addr, size, left, right), x)
    ensures Covered(m, x) || Within(addr, size, x)
  {
    var m' := Merge(m, addr, size, left, right);
    var start := if left == NIL then addr else left;
    if !Within(addr, size, x) {
      var c :| c in m' && Within(c, m'[c], x);
      var d := if c != start then c else if x < addr then left else right;
      assert d in m && Within(d, m[d], x);
    }
  }

  lemma MergeAt(m: map<nat, nat>, lo: nat, hi: nat, addr: nat, size: nat, left: nat, right: nat, x: nat)
    requires Mergeable(m, lo, hi, addr, size, left, right)
    ensures Covered(Merge(m, addr, size, left, right), x) <==> Covered(m, x) || Within(addr, size, x)
  {
    hide Covered, Within;
    if Covered(m, x) || Within(addr, size, x) {
      MergeKeeps(m, lo, hi, addr, size, left, right, x);
    }
    if Covered(Merge(m, addr, size, left, right), x) {
      MergeAddsOnly(m, lo, hi, addr, size, left, right, x);
    }
  }

  lemma MergeSound(m: map<nat, nat>, lo: nat, hi: nat, addr: nat, size: nat, left: nat, right: nat)
    requires Mergeable(m, lo, hi, addr, size, left, right)
    ensures WellFormed(Merge(m, addr, size, left, right), lo, hi)
    ensures FreeSpec(m, addr, size, Merge(m, addr, size, left, right))
  {
    MergeWellFormed(m, lo, hi, addr, size, left, right);
    forall x: nat
      ensures Covered(Merge(m, addr, size, left, right), x) <==> Covered(m, x) || Within(addr, size, x)
    {
      MergeAt(m, lo, hi, addr, size, left, right, x);
    }
  }

  /** A range that shares no address with the blocks lies wholly beside each of them. */
  lemma ApartMeansBeside(m: map<nat, nat>, addr: nat, size: nat)
    requires Apart(m, addr, size) && 0 < size
    requires forall b :: b in m ==> 0 < m[b]
    ensures Beside(m, addr, size)
  {
    forall b | b in m ensures b + m[b] <= addr || addr + size <= b {
      if b < addr + size && addr < b + m[b] {
        var x := if b <= addr then addr else b;
        assert Within(b, m[b], x) && Within(addr, size, x);
      }
    }
  }
}
