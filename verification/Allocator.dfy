/**
 The dynamic memory allocator: one set of free blocks indexed by two trees, by length
 and by address.

 A block is named by its address, which is also the address of its length node.  The node
 that links it into the address index lies behind it, so the address index compares biased
 addresses (NodeAddr) with unbiased ones.  The length of a block shares one word with the
 colour bit of its length node: the colour is the least significant bit, and rebalancing
 repaints nodes as it likes.
 */
module Allocator {
  import opened Blocks
  import opened Pointers
  import opened RbTree

  // Offset of the address-index node inside a block descriptor.
  const NODE: nat := 16

  /** The exact length kept in a colour word. */
  function Length(word: nat): nat { word - word % 2 }

  /** The address that the address index compares: biased by the offset of the node. */
  function NodeAddr(b: nat): nat { b + NODE }

  /** Repaints every node: red when in `red`, black otherwise. */
  function Paint(word: map<nat, nat>, red: set<nat>): (w: map<nat, nat>)
    ensures SameLengths(word, w)
  {
    map b | b in word :: Length(word[b]) + (if b in red then 1 else 0)
  }

  /** Repainting changes no length. */
  ghost predicate SameLengths(word: map<nat, nat>, word': map<nat, nat>) {
    word'.Keys == word.Keys && forall b :: b in word ==> Length(word'[b]) == Length(word[b])
  }

  lemma SameLengthAt(word: map<nat, nat>, word': map<nat, nat>, b: nat)
    requires SameLengths(word, word') && b in word
    ensures b in word' && Length(word'[b]) == Length(word[b])
  {
  }

  // ------------------------------------------------------- meaning of the indices

  ghost predicate Distinct(s: seq<nat>) {
    forall i, j :: 0 <= i < j < |s| ==> s[i] != s[j]
  }

  ghost predicate Increasing(s: seq<nat>) {
    forall i, j :: 0 <= i < j < |s| ==> s[i] < s[j]
  }

  ghost predicate SortedBy(s: seq<nat>, m: map<nat, nat>)
    requires forall b :: b in s ==> b in m
  {
    forall i, j :: 0 <= i < j < |s| ==> m[s[i]] <= m[s[j]]
  }

  /** The colour words give the lengths of the blocks in m. */
  ghost predicate Lengths(word: map<nat, nat>, m: map<nat, nat>) {
    forall b :: b in m ==> b in word && Length(word[b]) == m[b]
  }

  ghost predicate AllAligned(m: map<nat, nat>) {
    NIL !in m && forall b :: b in m ==> Aligned(b) && Aligned(m[b])
  }

  /** s lists exactly the blocks of m, shortest first. */
  ghost predicate BySize(s: seq<nat>, m: map<nat, nat>) {
    && Distinct(s)
    && (forall b :: b in s <==> b in m)
    && SortedBy(s, m)
  }

  /** s lists exactly the given blocks, lowest address first. */
  ghost predicate ByAddr(s: seq<nat>, blocks: set<nat>) {
    && Increasing(s)
    && (forall b :: b in s <==> b in blocks)
  }

  // ------------------------------------------------- edits of the two sequences

  /** How a sequence and the same sequence with one more element correspond. */
  lemma Splice(pre: seq<nat>, x: nat, post: seq<nat>)
    ensures var s, t := pre + [x] + post, pre + post;
            && s[|pre|] == x
            && (forall i :: 0 <= i < |t| ==> t[i] == s[if i < |pre| then i else i + 1])
            && (forall i :: 0 <= i < |s| && i != |pre| ==> s[i] == t[if i < |pre| then i else i - 1])
            && (forall e :: e in s <==> e == x || e in t)
  {
    var s, t := pre + [x] + post, pre + post;
    assert s[|pre|] == x;
    forall e | e in t ensures e in s {
      if e in pre {
        assert e in pre + [x];
      }
    }
  }

  /** Leaving out the k-th element keeps the elements distinct and sorted. */
  lemma LeaveOut(s: seq<nat>, t: seq<nat>, k: nat, m: map<nat, nat>)
    requires k < |s| == |t| + 1 && forall i :: 0 <= i < |t| ==> t[i] == s[if i < k then i else i + 1]
    requires Distinct(s) && (forall b :: b in s ==> b in m) && SortedBy(s, m)
    ensures Distinct(t) && s[k] !in t && (forall b :: b in t ==> b in m - {s[k]}) && SortedBy(t, m - {s[k]})
  {
    forall i | 0 <= i < |t| ensures t[i] != s[k] && t[i] in m - {s[k]} {
    }
  }

  lemma BySizeDelete(pre: seq<nat>, b: nat, post: seq<nat>, m: map<nat, nat>)
    requires BySize(pre + [b] + post, m)
    ensures BySize(pre + post, m - {b})
  {
    Splice(pre, b, post);
    LeaveOut(pre + [b] + post, pre + post, |pre|, m);
    hide Distinct, SortedBy;
  }

  lemma BySizeInsert(pre: seq<nat>, b: nat, post: seq<nat>, m: map<nat, nat>, size: nat)
    requires BySize(pre + post, m) && b !in m
    requires forall c :: c in pre ==> c in m && m[c] < size
    requires forall c :: c in post ==> c in m && size <= m[c]
    ensures BySize(pre + [b] + post, m[b := size])
  {
    Splice(pre, b, post);
    var s, t, m' := pre + post, pre + [b] + post, m[b := size];
    forall i, j | 0 <= i < j < |t| ensures t[i] != t[j] && m'[t[i]] <= m'[t[j]] {
      assert i < |pre| ==> t[i] in pre;
      assert j > |pre| ==> t[j] in post;
      assert i != |pre| ==> t[i] in s;
      assert j != |pre| ==> t[j] in s;
    }
  }

  lemma ByAddrDelete(pre: seq<nat>, b: nat, post: seq<nat>, blocks: set<nat>)
    requires ByAddr(pre + [b] + post, blocks)
    ensures ByAddr(pre + post, blocks - {b})
  {
    Splice(pre, b, post);
    var t := pre + post;
    forall i | 0 <= i < |t| ensures t[i] != b {
    }
  }

  lemma ByAddrInsert(pre: seq<nat>, b: nat, post: seq<nat>, blocks: set<nat>)
    requires ByAddr(pre + post, blocks)
    requires forall k :: k in pre ==> k < b
    requires forall k :: k in post ==> b < k
    ensures ByAddr(pre + [b] + post, blocks + {b})
  {
    Splice(pre, b, post);
    var t := pre + [b] + post;
    forall i, j | 0 <= i < j < |t| ensures t[i] < t[j] {
      assert i < |pre| ==> t[i] in pre;
      assert j > |pre| ==> t[j] in post;
    }
  }

  // ---------------------------------------------------------------- searches

  /** Comparing a colour word with an aligned size ignores the colour. */
  lemma ColourIrrelevant(word: nat, size: nat)
    requires Aligned(Length(word)) && Aligned(size)
    ensures word < size <==> Length(word) < size
  {
  }

  /** Comparing a biased node address with an aligned address compares the blocks. */
  lemma BiasIrrelevant(b: nat, addr: nat)
    requires Aligned(b) && Aligned(addr)
    ensures NodeAddr(b) < addr <==> b < addr
  {
  }

  /** The two-phase descent of the length index: whatever the order of the lengths, it ends
      between a word that is too small and one that is not. */
  method DescendBySize(tree: Tree, word: map<nat, nat>, size: nat) returns (best: nat, ghost path: Path)
    requires KeysIn(tree, word.Keys)
    ensures Plug(path, Null) == tree && best == UpperBound(path)
    ensures LowerBound(path) != NIL ==> LowerBound(path) in word && word[LowerBound(path)] < size
    ensures best != NIL ==> best in word && size <= word[best]
  {
    path := Top;
    var p := tree;
    // find the first block on the right spine that is long enough
    while p.Node? && word[p.key] < size
      invariant Plug(path, p) == tree && KeysIn(p, word.Keys) && UpperBound(path) == NIL
      invariant LowerBound(path) != NIL ==> LowerBound(path) in word && word[LowerBound(path)] < size
      decreases p
    {
      path := InRight(p.key, p.left, path);
      p := p.right;
    }
    if p.Null? {
      return NIL, path;
    }
    // try to find a better match in its left subtree
    best := p.key;
    path := InLeft(p.key, p.right, path);
    var t := p.left;
    while t.Node?
      invariant Plug(path, t) == tree && KeysIn(t, word.Keys) && best == UpperBound(path)
      invariant LowerBound(path) != NIL ==> LowerBound(path) in word && word[LowerBound(path)] < size
      invariant best in word && size <= word[best]
      decreases t
    {
      if !(word[t.key] < size) {
        best := t.key;
        path := InLeft(t.key, t.right, path);
        t := t.left;
      } else {
        path := InRight(t.key, t.left, path);
        t := t.right;
      }
    }
  }

  /** Best fit in any tree whose in-order lengths never decrease (equal lengths may sit anywhere). */
  method FindBySize(tree: Tree, word: map<nat, nat>, size: nat, ghost m: map<nat, nat>) returns (best: nat)
    requires BySize(InOrder(tree), m) && Lengths(word, m) && AllAligned(m) && Aligned(size)
    ensures best == NIL <==> forall b :: b in m ==> m[b] < size
    ensures best != NIL ==> BestFit(m, size, best)
  {
    hide *;
    KeysOfIndex(tree, m, word);
    ghost var path;
    best, path := DescendBySize(tree, word, size);
    LinkedBetween(path, tree);
    FitSplit(Before(path), After(path), m, word, size);
  }

  lemma KeysOfIndex(tree: Tree, m: map<nat, nat>, word: map<nat, nat>)
    requires BySize(InOrder(tree), m) && Lengths(word, m)
    ensures KeysIn(tree, word.Keys)
  {
    InOrderKeys(tree, word.Keys);
  }

  /** The first block after the split of the length index is the best fit. */
  lemma FitSplit(pre: seq<nat>, post: seq<nat>, m: map<nat, nat>, word: map<nat, nat>, size: nat)
    requires BySize(pre + post, m) && Lengths(word, m) && AllAligned(m) && Aligned(size)
    requires pre != [] && pre[|pre| - 1] != NIL ==> pre[|pre| - 1] in word && word[pre[|pre| - 1]] < size
    requires post != [] && post[0] != NIL ==> post[0] in word && size <= word[post[0]]
    ensures post == [] ==> forall b :: b in m ==> m[b] < size
    ensures post != [] ==> post[0] != NIL && BestFit(m, size, post[0])
  {
    SplitBySize(pre, post, m, word, size);
    var s := pre + post;
    if post != [] {
      assert s[|pre|] == post[0];
      assert forall i :: 0 <= i < |pre| ==> s[i] in pre;
      forall b | b in m && size <= m[b] ensures m[post[0]] <= m[b] {
        var i :| |pre| <= i < |s| && s[i] == b;
      }
    }
  }

  // ------------------------------------------------------------ address search

  /** The descent of the address index: it ends between a node below addr and one that is not. */
  method DescendByAddr(tree: Tree, addr: nat) returns (l: nat, r: nat, ghost path: Path)
    ensures Plug(path, Null) == tree && l == LowerBound(path) && r == UpperBound(path)
    ensures l != NIL ==> NodeAddr(l) < addr
    ensures r != NIL ==> addr <= NodeAddr(r)
  {
    path := Top;
    var p := tree;
    l, r := NIL, NIL;
    while p.Node?
      invariant Plug(path, p) == tree && l == LowerBound(path) && r == UpperBound(path)
      invariant l != NIL ==> NodeAddr(l) < addr
      invariant r != NIL ==> addr <= NodeAddr(r)
      decreases p
    {
      if NodeAddr(p.key) < addr {
        path := InRight(p.key, p.left, path);
        l := p.key;
        p := p.right;
      } else {
        path := InLeft(p.key, p.right, path);
        r := p.key;
        p := p.left;
      }
    }
  }

  /** The free neighbours of an address: the nearest block below and the nearest at or above. */
  method FindByAddr(tree: Tree, addr: nat, ghost blocks: set<nat>) returns (left: nat, right: nat)
    requires ByAddr(InOrder(tree), blocks) && NIL !in blocks
    requires Aligned(addr) && forall b :: b in blocks ==> Aligned(b)
    ensures if left == NIL then forall b :: b in blocks ==> addr <= b
            else left in blocks && left < addr && forall b :: b in blocks && b < addr ==> b <= left
    ensures if right == NIL then forall b :: b in blocks ==> b < addr
            else right in blocks && addr <= right && forall b :: b in blocks && addr <= b ==> right <= b
  {
    ghost var path;
    left, right, path := DescendByAddr(tree, addr);
    LinkedBetween(path, tree);
    Neighbours(Before(path), After(path), blocks, addr);
  }

  /** The two keys around a split of the address index are the nearest on either side. */
  lemma Neighbours(pre: seq<nat>, post: seq<nat>, blocks: set<nat>, addr: nat)
    requires ByAddr(pre + post, blocks) && Aligned(addr) && forall b :: b in blocks ==> Aligned(b)
    requires NIL !in blocks
    requires pre != [] && pre[|pre| - 1] != NIL ==> NodeAddr(pre[|pre| - 1]) < addr
    requires post != [] && post[0] != NIL ==> addr <= NodeAddr(post[0])
    ensures pre != [] ==> pre[|pre| - 1] in blocks && pre[|pre| - 1] < addr
    ensures post != [] ==> post[0] in blocks && addr <= post[0]
    ensures forall b :: b in blocks && b < addr ==> pre != [] && b <= pre[|pre| - 1]
    ensures forall b :: b in blocks && addr <= b ==> post != [] && post[0] <= b
  {
    var s := pre + post;
    if pre != [] {
      assert s[|pre| - 1] == pre[|pre| - 1] && s[|pre| - 1] in s;
      BiasIrrelevant(pre[|pre| - 1], addr);
    }
    if post != [] {
      assert s[|pre|] == post[0] && s[|pre|] in s;
      BiasIrrelevant(post[0], addr);
    }
    forall b | b in blocks
      ensures b < addr ==> pre != [] && b <= pre[|pre| - 1]
      ensures addr <= b ==> post != [] && post[0] <= b
    {
      var i :| 0 <= i < |s| && s[i] == b;
    }
  }

  // ------------------------------------------------------- index updates

  /** Where a node of the given length is linked into the length index. */
  method PlaceBySize(tree: Tree, word: map<nat, nat>, size: nat) returns (path: Path)
    requires KeysIn(tree, word.Keys)
    ensures Plug(path, Null) == tree
    ensures LowerBound(path) != NIL ==> LowerBound(path) in word && word[LowerBound(path)] < size
    ensures UpperBound(path) != NIL ==> UpperBound(path) in word && size <= word[UpperBound(path)]
  {
    path := Top;
    var p := tree;
    while p.Node?
      invariant Plug(path, p) == tree && KeysIn(p, word.Keys)
      invariant LowerBound(path) != NIL ==> LowerBound(path) in word && word[LowerBound(path)] < size
      invariant UpperBound(path) != NIL ==> UpperBound(path) in word && size <= word[UpperBound(path)]
      decreases p
    {
      if word[p.key] < size {
        path := InRight(p.key, p.left, path);
        p := p.right;
      } else {
        path := InLeft(p.key, p.right, path);
        p := p.left;
      }
    }
  }

  /** Where a block is linked into the address index. */
  method PlaceByAddr(tree: Tree, b: nat) returns (path: Path)
    ensures Plug(path, Null) == tree
    ensures LowerBound(path) != NIL ==> NodeAddr(LowerBound(path)) < b
    ensures UpperBound(path) != NIL ==> b <= NodeAddr(UpperBound(path))
  {
    path := Top;
    var p := tree;
    while p.Node?
      invariant Plug(path, p) == tree
      invariant LowerBound(path) != NIL ==> NodeAddr(LowerBound(path)) < b
      invariant UpperBound(path) != NIL ==> b <= NodeAddr(UpperBound(path))
      decreases p
    {
      if NodeAddr(p.key) < b {
        path := InRight(p.key, p.left, path);
        p := p.right;
      } else {
        path := InLeft(p.key, p.right, path);
        p := p.left;
      }
    }
  }

  /** Adds a block to the length index. */
  method InsertSize(tree: Tree, word: map<nat, nat>, b: nat, size: nat, ghost m: map<nat, nat>)
    returns (tree': Tree, word': map<nat, nat>)
    requires BySize(InOrder(tree), m) && Lengths(word, m) && AllAligned(m)
    requires Aligned(size) && b !in m && b in word && Length(word[b]) == size
    ensures BySize(InOrder(tree'), m[b := size]) && Lengths(word', m[b := size])
  {
    hide *;
    KeysOfIndex(tree, m, word);
    var path := PlaceBySize(tree, word, size);
    var moves: seq<Rotation>, red: set<nat> := *, *;
    tree' := Insert(path, b, moves);
    word' := Paint(word, red);
    LinkedBetween(path, tree);
    LinkedBySize(Before(path), b, After(path), m, word, size);
    LengthsWith(word, word', m, b, size);
  }

  lemma LengthsWith(word: map<nat, nat>, word': map<nat, nat>, m: map<nat, nat>, b: nat, size: nat)
    requires Lengths(word, m) && SameLengths(word, word') && b in word && Length(word[b]) == size
    ensures Lengths(word', m[b := size])
  {
  }

  lemma LinkedBySize(pre: seq<nat>, b: nat, post: seq<nat>, m: map<nat, nat>, word: map<nat, nat>, size: nat)
    requires BySize(pre + post, m) && Lengths(word, m) && AllAligned(m) && b !in m && Aligned(size)
    requires pre != [] && pre[|pre| - 1] != NIL ==> pre[|pre| - 1] in word && word[pre[|pre| - 1]] < size
    requires post != [] && post[0] != NIL ==> post[0] in word && size <= word[post[0]]
    ensures BySize(pre + [b] + post, m[b := size])
  {
    SplitBySize(pre, post, m, word, size);
    BySizeInsert(pre, b, post, m, size);
  }

  lemma SplitBySize(pre: seq<nat>, post: seq<nat>, m: map<nat, nat>, word: map<nat, nat>, size: nat)
    requires BySize(pre + post, m) && Lengths(word, m) && AllAligned(m) && Aligned(size)
    requires pre != [] && pre[|pre| - 1] != NIL ==> pre[|pre| - 1] in word && word[pre[|pre| - 1]] < size
    requires post != [] && post[0] != NIL ==> post[0] in word && size <= word[post[0]]
    ensures forall c :: c in pre ==> c in m && m[c] < size
    ensures forall c :: c in post ==> c in m && size <= m[c]
  {
    var s := pre + post;
    if pre != [] {
      assert s[|pre| - 1] == pre[|pre| - 1] && s[|pre| - 1] in s;
      ColourIrrelevant(word[pre[|pre| - 1]], size);
    }
    if post != [] {
      assert s[|pre|] == post[0] && s[|pre|] in s;
      ColourIrrelevant(word[post[0]], size);
    }
    forall i | 0 <= i < |pre| ensures pre[i] in m && m[pre[i]] < size {
      assert s[i] == pre[i] && s[i] in s;
    }
    forall i | 0 <= i < |post| ensures post[i] in m && size <= m[post[i]] {
      assert s[|pre| + i] == post[i] && s[|pre| + i] in s;
    }
  }

  /** Takes a block out of the length index. */
  method DeleteSize(tree: Tree, word: map<nat, nat>, b: nat, ghost m: map<nat, nat>)
    returns (tree': Tree, word': map<nat, nat>)
    requires BySize(InOrder(tree), m) && Lengths(word, m) && b in m
    ensures BySize(InOrder(tree'), m - {b}) && Lengths(word', m) && SameLengths(word, word')
  {
    var moves: seq<Rotation>, red: set<nat> := *, *;
    assert b in InOrder(tree);
    tree' := Delete(tree, b, moves);
    word' := Paint(word, red);
    DeleteInOrder(tree, b, moves);
    BySizeDelete(Around(tree, b).0, b, Around(tree, b).1, m);
  }

  /** Adds a block to the address index. */
  method InsertAddr(tree: Tree, b: nat, ghost blocks: set<nat>) returns (tree': Tree)
    requires ByAddr(InOrder(tree), blocks) && NIL !in blocks && b !in blocks && Aligned(b)
    requires forall c :: c in blocks ==> Aligned(c)
    ensures ByAddr(InOrder(tree'), blocks + {b})
  {
    var path := PlaceByAddr(tree, b);
    var moves: seq<Rotation> := *;
    tree' := Insert(path, b, moves);
    LinkedBetween(path, tree);
    LinkedByAddr(Before(path), b, After(path), blocks);
  }

  lemma LinkedByAddr(pre: seq<nat>, b: nat, post: seq<nat>, blocks: set<nat>)
    requires ByAddr(pre + post, blocks) && NIL !in blocks && b !in blocks && Aligned(b)
    requires forall c :: c in blocks ==> Aligned(c)
    requires pre != [] && pre[|pre| - 1] != NIL ==> NodeAddr(pre[|pre| - 1]) < b
    requires post != [] && post[0] != NIL ==> b <= NodeAddr(post[0])
    ensures ByAddr(pre + [b] + post, blocks + {b})
  {
    Neighbours(pre, post, blocks, b);
    var s := pre + post;
    forall i | 0 <= i < |pre| ensures pre[i] < b {
      assert s[i] == pre[i] && s[|pre| - 1] == pre[|pre| - 1];
    }
    forall i | 0 <= i < |post| ensures b < post[i] {
      assert s[|pre| + i] == post[i] && s[|pre|] == post[0] && s[|pre| + i] in s;
    }
    ByAddrInsert(pre, b, post, blocks);
  }

  /** Takes a block out of the address index. */
  method DeleteAddr(tree: Tree, b: nat, ghost blocks: set<nat>) returns (tree': Tree)
    requires ByAddr(InOrder(tree), blocks) && b in blocks
    ensures ByAddr(InOrder(tree'), blocks - {b})
  {
    var moves: seq<Rotation> := *;
    tree' := Delete(tree, b, moves);
    DeleteInOrder(tree, b, moves);
    ByAddrDelete(Around(tree, b).0, b, Around(tree, b).1, blocks);
  }

  /** Puts block b into the place of block n in the address index; although the key changes,
      the order is kept when no block starts in between. */
  method ReplaceAddr(tree: Tree, n: nat, b: nat, ghost blocks: set<nat>) returns (tree': Tree)
    requires ByAddr(InOrder(tree), blocks) && n in blocks && b < n
    requires forall c :: c in blocks ==> c < b || n <= c
    ensures ByAddr(InOrder(tree'), blocks - {n} + {b})
  {
    tree' := Replace(tree, n, b);
    ReplaceInOrder(tree, n, b);
    ReplacedByAddr(Around(tree, n).0, n, Around(tree, n).1, blocks, b);
  }

  lemma ReplacedByAddr(pre: seq<nat>, n: nat, post: seq<nat>, blocks: set<nat>, b: nat)
    requires ByAddr(pre + [n] + post, blocks) && b < n
    requires forall c :: c in blocks ==> c < b || n <= c
    ensures ByAddr(pre + [b] + post, blocks - {n} + {b})
  {
    ByAddrDelete(pre, n, post, blocks);
    var s := pre + [n] + post;
    assert s[|pre|] == n;
    forall i | 0 <= i < |pre| ensures pre[i] < b {
      assert s[i] == pre[i] && s[i] in s;
    }
    forall i | 0 <= i < |post| ensures b < post[i] {
      assert s[|pre| + 1 + i] == post[i];
    }
    ByAddrInsert(pre, b, post, blocks - {n});
  }

  // --------------------------------------------------------- changing lengths

  lemma WordOf(word: map<nat, nat>, m: map<nat, nat>, b: nat)
    requires Lengths(word, m) && b in m
    ensures b in word && Length(word[b]) == m[b]
  {
  }

  /** Adding or subtracting an aligned size leaves the colour alone. */
  lemma ColourKept(word: nat, size: nat)
    requires Aligned(size)
    ensures Length(word + size) == Length(word) + size
    ensures size <= Length(word) ==> size <= word && Length(word - size) == Length(word) - size
  {
  }

  lemma OtherLengths(word: map<nat, nat>, m: map<nat, nat>, b: nat, w: nat)
    requires Lengths(word, m)
    ensures Lengths(word[b := w], m - {b})
  {
  }

  lemma StillAligned(m: map<nat, nat>, b: nat, size: nat)
    requires AllAligned(m) && Aligned(size) && b in m && size <= m[b]
    ensures AllAligned(m - {b}) && Aligned(m[b] - size)
  {
  }

  /** Shortens a block by `size`, or takes it out of the length index when nothing is left. */
  method Shorten(tree: Tree, word: map<nat, nat>, b: nat, size: nat, ghost m: map<nat, nat>)
    returns (tree': Tree, word': map<nat, nat>, rest: nat)
    requires BySize(InOrder(tree), m) && Lengths(word, m) && AllAligned(m)
    requires Aligned(size) && b in m && size <= m[b]
    ensures rest == m[b] - size
    ensures rest == 0 ==> BySize(InOrder(tree'), m - {b}) && Lengths(word', m - {b})
    ensures rest != 0 ==> BySize(InOrder(tree'), m[b := rest]) && Lengths(word', m[b := rest])
  {
    hide *;
    StillAligned(m, b, size);
    tree', word' := DeleteSize(tree, word, b, m);
    WordOf(word', m, b);
    ColourKept(word'[b], size);
    OtherLengths(word', m, b, word'[b] - size);
    word' := word'[b := word'[b] - size];
    rest := Length(word'[b]);
    if rest != 0 {
      tree', word' := InsertSize(tree', word', b, rest, m - {b});
      assert (m - {b})[b := rest] == m[b := rest];
    }
  }
}
