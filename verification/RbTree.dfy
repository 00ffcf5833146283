/** The null pointer (and the null node of a tree). */
module Pointers {
  const NIL: nat := 0
}

/**
 The ordered trees of the framework: binary search trees whose nodes are linked to
 their parents, with a sentinel in place of missing children.

 A tree is a value here.  The chain of parent pointers that leads from a node to the
 root is a `Path`, so "the subtree at p, hanging below its parent" is the pair
 (path, subtree), and writing a child pointer is `Plug`.  Red-black rebalancing is an
 arbitrary list of rotations: whatever holds for every list holds for the one the
 colours select.
 */
module RbTree {

  // Nodes are identified by their addresses.
  import opened Pointers

  datatype Tree = Null | Node(left: Tree, key: nat, right: Tree)

  datatype Path =
    | Top
    | InLeft(parent: nat, sibling: Tree, up: Path)
    | InRight(parent: nat, sibling: Tree, up: Path)

  datatype Rotation = Rotation(at: seq<bool>, leftwards: bool)

  function InOrder(t: Tree): seq<nat> {
    match t
    case Null => []
    case Node(l, k, r) => InOrder(l) + [k] + InOrder(r)
  }

  /** The in-order sequence that precedes a subtree hanging at `path`. */
  function Before(path: Path): seq<nat> {
    match path
    case Top => []
    case InLeft(_, _, up) => Before(up)
    case InRight(p, l, up) => Before(up) + InOrder(l) + [p]
  }

  /** The in-order sequence that follows a subtree hanging at `path`. */
  function After(path: Path): seq<nat> {
    match path
    case Top => []
    case InLeft(p, r, up) => [p] + InOrder(r) + After(up)
    case InRight(_, _, up) => After(up)
  }

  function Plug(path: Path, t: Tree): Tree {
    match path
    case Top => t
    case InLeft(p, r, up) => Plug(up, Node(t, p, r))
    case InRight(p, l, up) => Plug(up, Node(l, p, t))
  }

  lemma {:induction false} PlugInOrder(path: Path, t: Tree)
    ensures InOrder(Plug(path, t)) == Before(path) + InOrder(t) + After(path)
  {
    match path
    case Top =>
    case InLeft(p, r, up) =>
      PlugInOrder(up, Node(t, p, r));
      ToTheLeft(Before(up), InOrder(t), [p], InOrder(r), After(up));
    case InRight(p, l, up) =>
      PlugInOrder(up, Node(l, p, t));
      ToTheRight(Before(up), InOrder(l), [p], InOrder(t), After(up));
  }

  lemma ToTheLeft(before: seq<nat>, l: seq<nat>, mid: seq<nat>, r: seq<nat>, after: seq<nat>)
    ensures before + (l + mid + r) + after == before + l + (mid + r + after)
  {
  }

  lemma ToTheRight(before: seq<nat>, l: seq<nat>, mid: seq<nat>, r: seq<nat>, after: seq<nat>)
    ensures before + (l + mid + r) + after == (before + l + mid) + r + after
  {
  }

  // ---------------------------------------------------------------- positions

  /** The key just before a subtree hanging at `path`, and the key just after it (NIL for none):
      the last turns to the right and to the left on the way down. */
  function LowerBound(path: Path): nat {
    match path
    case Top => NIL
    case InLeft(_, _, up) => LowerBound(up)
    case InRight(p, _, _) => p
  }

  function UpperBound(path: Path): nat {
    match path
    case Top => NIL
    case InLeft(p, _, _) => p
    case InRight(_, _, up) => UpperBound(up)
  }

  lemma {:induction false} BoundsInOrder(path: Path)
    ensures LowerBound(path) == if Before(path) == [] then NIL else Before(path)[|Before(path)| - 1]
    ensures UpperBound(path) == if After(path) == [] then NIL else After(path)[0]
  {
    match path
    case Top =>
    case InLeft(_, _, up) => BoundsInOrder(up);
    case InRight(_, _, up) => BoundsInOrder(up);
  }

  /** The in-order sequence splits where a descent ended. */
  lemma LinkedBetween(path: Path, tree: Tree)
    requires Plug(path, Null) == tree
    ensures InOrder(tree) == Before(path) + After(path)
    ensures LowerBound(path) == if Before(path) == [] then NIL else Before(path)[|Before(path)| - 1]
    ensures UpperBound(path) == if After(path) == [] then NIL else After(path)[0]
  {
    PlugInOrder(path, Null);
    BoundsInOrder(path);
    assert Before(path) + [] + After(path) == Before(path) + After(path);
  }

  predicate KeysIn(t: Tree, keys: set<nat>) {
    t.Null? || (t.key in keys && KeysIn(t.left, keys) && KeysIn(t.right, keys))
  }

  lemma {:induction false} KeysGrow(t: Tree, keys: set<nat>, more: set<nat>)
    requires KeysIn(t, keys) && keys <= more
    ensures KeysIn(t, more)
  {
    if t.Node? {
      KeysGrow(t.left, keys, more);
      KeysGrow(t.right, keys, more);
    }
  }

  lemma {:induction false} InOrderKeys(t: Tree, keys: set<nat>)
    requires forall k :: k in InOrder(t) ==> k in keys
    ensures KeysIn(t, keys)
  {
    if t.Node? {
      var l, r := InOrder(t.left), InOrder(t.right);
      assert forall k :: k in l || k == t.key || k in r ==> k in l + [t.key] + r;
      InOrderKeys(t.left, keys);
      InOrderKeys(t.right, keys);
    }
  }

  // ---------------------------------------------------------------- rotations

  function Rotate(t: Tree, at: seq<bool>, leftwards: bool): Tree {
    if t.Null? then t
    else if at != [] then
      if at[0] then Node(Rotate(t.left, at[1..], leftwards), t.key, t.right)
      else Node(t.left, t.key, Rotate(t.right, at[1..], leftwards))
    else if leftwards && t.right.Node? then
      Node(Node(t.left, t.key, t.right.left), t.right.key, t.right.right)
    else if !leftwards && t.left.Node? then
      Node(t.left.left, t.left.key, Node(t.left.right, t.key, t.right))
    else t
  }

  /** Rebalancing: any number of rotations at any nodes. */
  function Rebalance(t: Tree, moves: seq<Rotation>): Tree
    decreases |moves|
  {
    if moves == [] then t else Rebalance(Rotate(t, moves[0].at, moves[0].leftwards), moves[1..])
  }

  lemma {:induction false} RotateInOrder(t: Tree, at: seq<bool>, leftwards: bool)
    ensures InOrder(Rotate(t, at, leftwards)) == InOrder(t)
    decreases t
  {
    if t.Node? {
      if at != [] {
        RotateInOrder(t.left, at[1..], leftwards);
        RotateInOrder(t.right, at[1..], leftwards);
      } else if leftwards && t.right.Node? {
        assert InOrder(t.left) + [t.key] + (InOrder(t.right.left) + [t.right.key] + InOrder(t.right.right))
            == (InOrder(t.left) + [t.key] + InOrder(t.right.left)) + [t.right.key] + InOrder(t.right.right);
      } else if !leftwards && t.left.Node? {
        assert (InOrder(t.left.left) + [t.left.key] + InOrder(t.left.right)) + [t.key] + InOrder(t.right)
            == InOrder(t.left.left) + [t.left.key] + (InOrder(t.left.right) + [t.key] + InOrder(t.right));
      }
    }
  }

  lemma {:induction false} RebalanceInOrder(t: Tree, moves: seq<Rotation>)
    ensures InOrder(Rebalance(t, moves)) == InOrder(t)
    decreases |moves|
  {
    if moves != [] {
      RotateInOrder(t, moves[0].at, moves[0].leftwards);
      RebalanceInOrder(Rotate(t, moves[0].at, moves[0].leftwards), moves[1..]);
    }
  }

  // ------------------------------------------------------------------- insert

  /** Links a new node at the end of a descent, then rebalances. */
  function Insert(path: Path, node: nat, moves: seq<Rotation>): (t: Tree)
    ensures InOrder(t) == Before(path) + [node] + After(path)
  {
    PlugInOrder(path, Node(Null, node, Null));
    RebalanceInOrder(Plug(path, Node(Null, node, Null)), moves);
    Rebalance(Plug(path, Node(Null, node, Null)), moves)
  }

  // ------------------------------------------------------------------- locate

  /** Where a node hangs: what its parent pointers say. */
  function Locate(t: Tree, node: nat, path: Path): (r: (Path, Tree))
    requires node in InOrder(t)
    ensures r.1.Node? && r.1.key == node && Plug(r.0, r.1) == Plug(path, t)
  {
    if t.key == node then (path, t)
    else if node in InOrder(t.left) then Locate(t.left, node, InLeft(t.key, t.right, path))
    else Locate(t.right, node, InRight(t.key, t.left, path))
  }

  // ------------------------------------------------------------------- delete

  function First(t: Tree): (k: nat)
    requires t.Node?
    ensures |InOrder(t)| > 0 && k == InOrder(t)[0]
  {
    if t.left.Null? then t.key else First(t.left)
  }

  function Last(t: Tree): (k: nat)
    requires t.Node?
    ensures |InOrder(t)| > 0 && k == InOrder(t)[|InOrder(t)| - 1]
  {
    if t.right.Null? then t.key else Last(t.right)
  }

  function WithoutFirst(t: Tree): (r: Tree)
    requires t.Node?
    ensures |InOrder(t)| > 0 && InOrder(r) == InOrder(t)[1..]
  {
    if t.left.Null? then t.right else Node(WithoutFirst(t.left), t.key, t.right)
  }

  function WithoutLast(t: Tree): (r: Tree)
    requires t.Node?
    ensures |InOrder(t)| > 0 && InOrder(r) == InOrder(t)[..|InOrder(t)| - 1]
  {
    if t.right.Null? then t.left else Node(t.left, t.key, WithoutLast(t.right))
  }

  /** What takes the place of a deleted node: its in-order predecessor if it has a left
      subtree, else its in-order successor if it has a right one. */
  function Join(l: Tree, r: Tree): (t: Tree)
    ensures InOrder(t) == InOrder(l) + InOrder(r)
  {
    if l.Node? then Node(WithoutLast(l), Last(l), r)
    else if r.Node? then Node(Null, First(r), WithoutFirst(r))
    else Null
  }

  function Delete(t: Tree, node: nat, moves: seq<Rotation>): Tree
    requires node in InOrder(t)
  {
    var (path, n) := Locate(t, node, Top);
    Rebalance(Plug(path, Join(n.left, n.right)), moves)
  }

  /** The node that a deletion reports: the one that replaced the deleted node, its parent
      when it was a leaf, or the null node when the tree becomes empty. */
  function DeleteResult(t: Tree, node: nat): nat
    requires node in InOrder(t)
  {
    var (path, n) := Locate(t, node, Top);
    if n.left.Node? then Last(n.left)
    else if n.right.Node? then First(n.right)
    else if path.Top? then NIL
    else path.parent
  }

  lemma Regroup(before: seq<nat>, l: seq<nat>, mid: seq<nat>, r: seq<nat>, after: seq<nat>)
    ensures before + (l + mid + r) + after == (before + l) + mid + (r + after)
  {
  }

  /** The in-order sequence around a node. */
  ghost function Around(t: Tree, node: nat): (r: (seq<nat>, seq<nat>))
    requires node in InOrder(t)
    ensures InOrder(t) == r.0 + [node] + r.1
  {
    var (path, n) := Locate(t, node, Top);
    PlugInOrder(path, n);
    Regroup(Before(path), InOrder(n.left), [node], InOrder(n.right), After(path));
    (Before(path) + InOrder(n.left), InOrder(n.right) + After(path))
  }

  lemma Regroup3(a: seq<nat>, b: seq<nat>, c: seq<nat>, d: seq<nat>)
    ensures a + (b + c) + d == (a + b) + (c + d)
  {
  }

  lemma JoinInOrder(path: Path, l: Tree, r: Tree, moves: seq<Rotation>)
    ensures InOrder(Rebalance(Plug(path, Join(l, r)), moves))
         == (Before(path) + InOrder(l)) + (InOrder(r) + After(path))
  {
    var joined := Join(l, r);
    hide *;
    assert InOrder(joined) == InOrder(l) + InOrder(r);
    PlugInOrder(path, joined);
    RebalanceInOrder(Plug(path, joined), moves);
    Regroup3(Before(path), InOrder(l), InOrder(r), After(path));
  }

  /** Deleting a node takes exactly that node out of the in-order sequence. */
  lemma DeleteInOrder(t: Tree, node: nat, moves: seq<Rotation>)
    requires node in InOrder(t)
    ensures InOrder(Delete(t, node, moves)) == Around(t, node).0 + Around(t, node).1
  {
    var (path, n) := Locate(t, node, Top);
    JoinInOrder(path, n.left, n.right, moves);
  }

  /** Deleting the first node in order reports the second: its in-order successor. */
  lemma DeleteFirstResult(t: Tree, node: nat)
    requires node in InOrder(t) && Around(t, node).0 == []
    ensures DeleteResult(t, node) == (if Around(t, node).1 == [] then NIL else Around(t, node).1[0])
  {
    var (path, n) := Locate(t, node, Top);
    assert InOrder(n.left) == [];
    assert n.left.Null?;
  }

  // ------------------------------------------------------------------ replace

  /** Puts another node into the place of `node`, keeping all links. */
  function Replace(t: Tree, node: nat, other: nat): Tree
    requires node in InOrder(t)
  {
    var (path, n) := Locate(t, node, Top);
    Plug(path, Node(n.left, other, n.right))
  }

  lemma ReplaceInOrder(t: Tree, node: nat, other: nat)
    requires node in InOrder(t)
    ensures InOrder(Replace(t, node, other)) == Around(t, node).0 + [other] + Around(t, node).1
  {
    var (path, n) := Locate(t, node, Top);
    PlugInOrder(path, Node(n.left, other, n.right));
    Regroup(Before(path), InOrder(n.left), [other], InOrder(n.right), After(path));
  }
}
