/**
 A pool of the dynamic allocator: best-fit allocation and coalescing release over the two
 indices, proved against the address sets of module Blocks.
 */
module MemPool {
  import opened Allocator
  import opened Blocks
  import opened Pointers
  import opened RbTree

  /** The two trees and the colour words index the well-formed block set m. */
  ghost predicate Indexed(lMap: Tree, aMap: Tree, word: map<nat, nat>, m: map<nat, nat>, lo: nat, hi: nat) {
    && 0 < lo && WellFormed(m, lo, hi)
    && BySize(InOrder(lMap), m) && Lengths(word, m)
    && ByAddr(InOrder(aMap), m.Keys)
  }

  lemma IndexedFacts(lMap: Tree, aMap: Tree, word: map<nat, nat>, m: map<nat, nat>, lo: nat, hi: nat)
    requires Indexed(lMap, aMap, word, m, lo, hi)
    ensures 0 < lo && WellFormed(m, lo, hi) && AllAligned(m)
    ensures BySize(InOrder(lMap), m) && Lengths(word, m) && ByAddr(InOrder(aMap), m.Keys)
  {
  }

  lemma IndexedAgain(lMap: Tree, aMap: Tree, word: map<nat, nat>, m: map<nat, nat>, lo: nat, hi: nat)
    requires 0 < lo && WellFormed(m, lo, hi)
    requires BySize(InOrder(lMap), m) && Lengths(word, m) && ByAddr(InOrder(aMap), m.Keys)
    ensures Indexed(lMap, aMap, word, m, lo, hi)
  {
  }

  lemma BestFits(m: map<nat, nat>, size: nat, b: nat)
    requires BestFit(m, size, b)
    ensures b in m && size <= m[b]
  {
  }

  /** Allocation on the two indices. */
  method Take(lMap: Tree, aMap: Tree, word: map<nat, nat>, size: nat, ghost m: map<nat, nat>, ghost lo: nat,
              ghost hi: nat)
    returns (lMap': Tree, aMap': Tree, word': map<nat, nat>, p: nat, ghost m': map<nat, nat>)
    requires Indexed(lMap, aMap, word, m, lo, hi) && Aligned(size)
    ensures Indexed(lMap', aMap', word', m', lo, hi)
    ensures AllocSpec(m, size, p, m')
  {
    hide *;
    IndexedFacts(lMap, aMap, word, m, lo, hi);
    lMap', aMap', word', m' := lMap, aMap, word, m;
    var b: nat := FindBySize(lMap, word, size, m);
    if b == NIL {
      AllocNothing(m, size);
      return lMap, aMap, word, NIL, m;
    }
    BestFits(m, size, b);
    var rest;
    lMap', word', rest := Shorten(lMap, word, b, size, m);
    if rest == 0 {
      // the entire block goes to the user
      aMap' := DeleteAddr(aMap, b, m.Keys);
      AllocBlock(m, lo, hi, b, size);
      m' := m - {b};
      p := b;
      assert m'.Keys == m.Keys - {b};
    } else {
      // the tail of the block goes to the user; its address entry stays
      AllocTail(m, lo, hi, b, size);
      m' := m[b := rest];
      p := b + rest;
      assert m'.Keys == m.Keys;
    }
    IndexedAgain(lMap', aMap', word', m', lo, hi);
  }

  /** Merges a released range with the free block that ends where it starts, if there is one. */
  method GrowLeft(lMap: Tree, word: map<nat, nat>, addr: nat, size: nat, below: nat, ghost m: map<nat, nat>)
    returns (lMap': Tree, word': map<nat, nat>, left: nat, b: nat, len: nat)
    requires BySize(InOrder(lMap), m) && Lengths(word, m) && AllAligned(m)
    requires Aligned(size) && addr !in m && (below != NIL ==> below in m && below < addr)
    ensures left == if below != NIL && below + m[below] == addr then below else NIL
    ensures b == if left != NIL then left else addr
    ensures len == addr + size - b
    ensures BySize(InOrder(lMap'), m - {left}) && Lengths(word', m - {left})
    ensures b in word' && Length(word'[b]) == len
  {
    hide *;
    ReleasedWord(word, m, addr, size);
    lMap', word' := lMap, word[addr := size];
    left, b, len := NIL, addr, size;
    if below != NIL {
      WordOf(word', m, below);
      if below + Length(word'[below]) == addr {
        lMap', word' := DeleteSize(lMap, word', below, m);
        WordOf(word', m, below);
        ColourKept(word'[below], size);
        OtherLengths(word', m, below, word'[below] + size);
        word' := word'[below := word'[below] + size];
        left, b, len := below, below, Length(word'[below]);
      }
    }
  }

  lemma ReleasedWord(word: map<nat, nat>, m: map<nat, nat>, addr: nat, size: nat)
    requires Lengths(word, m) && AllAligned(m) && Aligned(size) && addr !in m
    ensures Lengths(word[addr := size], m) && Length(size) == size && m - {NIL} == m
  {
  }

  /** Merges the range at b with the free block that starts where it ends, if there is one. */
  method GrowRight(lMap: Tree, word: map<nat, nat>, b: nat, len: nat, above: nat, ghost m: map<nat, nat>)
    returns (lMap': Tree, word': map<nat, nat>, right: nat, len': nat)
    requires BySize(InOrder(lMap), m) && Lengths(word, m) && AllAligned(m)
    requires b !in m && b in word && Length(word[b]) == len && (above != NIL ==> above in m)
    ensures right == if above != NIL && above == b + len then above else NIL
    ensures len' == if right != NIL then len + m[right] else len
    ensures BySize(InOrder(lMap'), m - {right}) && Lengths(word', m - {right})
    ensures b in word' && Length(word'[b]) == len'
  {
    hide *;
    lMap', word', right, len' := lMap, word, NIL, len;
    NothingAtNil(m);
    if above != NIL && above == b + len {
      lMap', word' := DeleteSize(lMap, word, above, m);
      SameLengthAt(word, word', b);
      WordOf(word', m, above);
      AlignedAt(m, above);
      ColourKept(word'[b], Length(word'[above]));
      OtherLengths(word', m - {above}, b, word'[b] + Length(word'[above]));
      assert m - {above} - {b} == m - {above};
      word' := word'[b := word'[b] + Length(word'[above])];
      right, len' := above, Length(word'[b]);
    }
  }

  lemma NothingAtNil(m: map<nat, nat>)
    requires AllAligned(m)
    ensures m - {NIL} == m
  {
  }

  lemma AlignedAt(m: map<nat, nat>, b: nat)
    requires AllAligned(m) && b in m
    ensures Aligned(m[b])
  {
  }

  /** Enters the merged block into the address index, in place of what it absorbed. */
  method UpdateAddr(aMap: Tree, left: nat, right: nat, b: nat, ghost blocks: set<nat>) returns (aMap': Tree)
    requires ByAddr(InOrder(aMap), blocks) && NIL !in blocks && Aligned(b)
    requires forall c :: c in blocks ==> Aligned(c)
    requires left != NIL ==> left in blocks && b == left
    requires right != NIL ==> right in blocks && b < right
    requires left == NIL ==> b !in blocks
    requires left == NIL && right != NIL ==> forall c :: c in blocks ==> c < b || right <= c
    ensures ByAddr(InOrder(aMap'), blocks - {left, right} + {b})
  {
    hide *;
    aMap' := aMap;
    if right != NIL {
      if left != NIL {
        aMap' := DeleteAddr(aMap, right, blocks);
        assert blocks - {right} == blocks - {left, right} + {b};
      } else {
        aMap' := ReplaceAddr(aMap, right, b, blocks);
        assert blocks - {right} == blocks - {left, right};
      }
    } else if left == NIL {
      aMap' := InsertAddr(aMap, b, blocks);
      assert blocks == blocks - {left, right};
    } else {
      assert blocks == blocks - {left, right} + {b};
    }
  }

  lemma GiveFacts(lMap: Tree, aMap: Tree, word: map<nat, nat>, m: map<nat, nat>, lo: nat, hi: nat, addr: nat, size: nat)
    requires Indexed(lMap, aMap, word, m, lo, hi) && Apart(m, addr, size) && 0 < size
    ensures 0 < lo && WellFormed(m, lo, hi) && AllAligned(m)
    ensures BySize(InOrder(lMap), m) && Lengths(word, m) && ByAddr(InOrder(aMap), m.Keys)
    ensures addr !in m && NIL !in m.Keys && forall b :: b in m.Keys ==> Aligned(b)
    ensures Beside(m, addr, size)
  {
    ApartMeansBeside(m, addr, size);
  }

  lemma RestAligned(m: map<nat, nat>, left: nat, above: nat, b: nat)
    requires AllAligned(m) && (left == NIL ==> b !in m) && (left != NIL ==> b == left)
    requires above != NIL ==> above in m && above != left
    ensures AllAligned(m - {left}) && b !in m - {left} && (above != NIL ==> above in m - {left})
  {
  }

  /** The nearest blocks are the only ones that can touch the released range. */
  lemma NeighboursFound(m: map<nat, nat>, lo: nat, hi: nat, addr: nat, size: nat,
                        below: nat, above: nat, left: nat, right: nat)
    requires 0 < lo && WellFormed(m, lo, hi) && Beside(m, addr, size)
    requires Aligned(addr) && Aligned(size) && 0 < size && lo <= addr && addr + size <= hi
    requires if below == NIL then forall b :: b in m ==> addr <= b
             else below in m && below < addr && forall b :: b in m && b < addr ==> b <= below
    requires if above == NIL then forall b :: b in m ==> b < addr
             else above in m && addr <= above && forall b :: b in m && addr <= b ==> above <= b
    requires left == if below != NIL && below + m[below] == addr then below else NIL
    requires right == if above != NIL && above == addr + size then above else NIL
    ensures Mergeable(m, lo, hi, addr, size, left, right)
    ensures right != NIL ==> right in m && addr < right
    ensures left != NIL ==> left in m && Aligned(left) && left < addr
    ensures right != NIL ==> forall c :: c in m ==> c < addr || right <= c
  {
  }

  lemma MergedAligned(m: map<nat, nat>, left: nat, right: nat, addr: nat, size: nat, len: nat)
    requires AllAligned(m) && Aligned(addr) && Aligned(size)
    requires left != NIL ==> left in m && left < addr
    requires right != NIL ==> right in m
    requires var b := if left != NIL then left else addr;
             len == addr + size - b + (if right != NIL then m[right] else 0)
    ensures AllAligned(m - {left, right}) && Aligned(len)
  {
  }

  lemma MergeIs(m: map<nat, nat>, addr: nat, size: nat, left: nat, right: nat, b: nat, len: nat)
    requires left != NIL ==> left in m && left <= addr
    requires right != NIL ==> right in m && addr + size <= right
    requires b == if left != NIL then left else addr
    requires len == addr + size - b + (if right != NIL then m[right] else 0)
    requires right != NIL ==> right == addr + size
    ensures (m - {left, right})[b := len] == Merge(m, addr, size, left, right)
    ensures (m - {left, right})[b := len].Keys == m.Keys - {left, right} + {b}
  {
  }

  /** Release on the two indices. */
  method Give(lMap: Tree, aMap: Tree, word: map<nat, nat>, addr: nat, size: nat,
              ghost m: map<nat, nat>, ghost lo: nat, ghost hi: nat)
    returns (lMap': Tree, aMap': Tree, word': map<nat, nat>, ghost m': map<nat, nat>)
    requires Indexed(lMap, aMap, word, m, lo, hi)
    requires Aligned(addr) && Aligned(size) && 0 < size && lo <= addr && addr + size <= hi
    requires Apart(m, addr, size)
    ensures Indexed(lMap', aMap', word', m', lo, hi)
    ensures FreeSpec(m, addr, size, m')
  {
    hide *;
    GiveFacts(lMap, aMap, word, m, lo, hi, addr, size);
    var below: nat, above: nat := FindByAddr(aMap, addr, m.Keys);
    var left, right, b, len;
    lMap', word', left, b, len := GrowLeft(lMap, word, addr, size, below, m);
    RestAligned(m, left, above, b);
    lMap', word', right, len := GrowRight(lMap', word', b, len, above, m - {left});
    NeighboursFound(m, lo, hi, addr, size, below, above, left, right);
    aMap' := UpdateAddr(aMap, left, right, b, m.Keys);
    assert m - {left} - {right} == m - {left, right};
    MergedAligned(m, left, right, addr, size, len);
    lMap', word' := InsertSize(lMap', word', b, len, m - {left, right});
    m' := (m - {left, right})[b := len];
    MergeSound(m, lo, hi, addr, size, left, right);
    MergeIs(m, addr, size, left, right, b, len);
    IndexedAgain(lMap', aMap', word', m', lo, hi);
  }

  class Pool {
    var lMap: Tree              // free blocks ordered by length
    var aMap: Tree              // free blocks ordered by address
    var word: map<nat, nat>     // colour words of the length nodes: length and colour bit
    var addr: nat
    var size: nat
    ghost var blocks: map<nat, nat>

    ghost predicate Valid()
      reads this
    {
      Indexed(lMap, aMap, word, blocks, addr, addr + size)
    }

    constructor ()
    {
      lMap, aMap, word, addr, size := Null, Null, map[], 0, 0;
      blocks := map[];
    }

    method Init(addr: nat, size: nat) returns (ok: bool)
      requires 0 < addr && 0 < size
      modifies this
      ensures ok <==> Aligned(addr) && Aligned(size)
      ensures ok ==> Valid() && this.addr == addr && this.size == size
      ensures ok ==> blocks == map[addr := size]
      ensures !ok ==> unchanged(this)
    {
      if !Aligned(addr) || !Aligned(size) {
        return false;
      }
      this.addr, this.size := addr, size;
      lMap, aMap, word := Null, Null, map[];
      blocks := map[];
      Free(addr, size);
      WholePool(blocks, addr, size);
      return true;
    }

    method Alloc(size: nat) returns (p: nat)
      requires Valid() && Aligned(size)
      modifies this
      ensures Valid() && addr == old(addr) && this.size == old(this.size)
      ensures AllocSpec(old(blocks), size, p, blocks)
    {
      hide Indexed, AllocSpec;
      lMap, aMap, word, p, blocks := Take(lMap, aMap, word, size, blocks, addr, addr + this.size);
    }

    method Free(addr: nat, size: nat)
      requires Valid() && Aligned(addr) && Aligned(size) && 0 < size
      requires this.addr <= addr && addr + size <= this.addr + this.size
      requires Apart(blocks, addr, size)
      modifies this
      ensures Valid() && this.addr == old(this.addr) && this.size == old(this.size)
      ensures FreeSpec(old(blocks), addr, size, blocks)
    {
      hide Indexed, FreeSpec, Apart;
      lMap, aMap, word, blocks := Give(lMap, aMap, word, addr, size, blocks, this.addr, this.addr + this.size);
    }
  }

  lemma WholePool(m: map<nat, nat>, addr: nat, size: nat)
    requires WellFormed(m, addr, addr + size) && 0 < addr && 0 < size && Aligned(addr) && Aligned(size)
    requires Bytes(m) == Range(addr, size)
    ensures m == map[addr := size]
  {
    var whole := map[addr := size];
    forall x: nat ensures Covered(whole, x) <==> Within(addr, size, x) {
      if Within(addr, size, x) {
        assert addr in whole && Within(addr, whole[addr], x);
      }
    }
    Canonical(m, whole, addr, addr + size);
  }
}
