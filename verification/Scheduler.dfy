/**
 The non-preemptive earliest-deadline-first scheduler: a tree of tasks with a cached first
 node, whose 32-bit timestamps refine the ideal queue of module Deadlines.
 */
module Scheduler {
  import opened Deadlines
  import opened Pointers
  import opened RbTree

  function Tasks(q: seq<Entry>): (s: seq<nat>)
    ensures |s| == |q| && forall i :: 0 <= i < |q| ==> s[i] == q[i].task
  {
    seq(|q|, i requires 0 <= i < |q| => q[i].task)
  }

  /** Whether a task waits. */
  ghost predicate Waits(w: Arrivals, t: nat) { exists i :: 0 <= i < |w| && w[i].task == t }

  ghost predicate DistinctTasks(w: Arrivals) {
    forall i, j :: 0 <= i < j < |w| ==> w[i].task != w[j].task
  }

  function FirstTask(q: seq<Entry>): nat { if q == [] then NIL else q[0].task }

  /** Every waiting deadline lies in the half-window above the current time, and the timestamp
      word of its task is that deadline modulo 2^32, but for the colour bit. */
  ghost predicate InWindow(word: map<nat, nat>, now: nat, w: Arrivals) {
    forall i :: 0 <= i < |w| ==>
      && w[i].task != NIL && w[i].task in word
      && now <= w[i].due < now + HALF && w[i].due % 2 == 0
      && Masked(word[w[i].task]) == w[i].due % WRAP
  }

  ghost predicate WordsFit(word: map<nat, nat>) {
    forall t :: t in word ==> word[t] < WRAP
  }

  function Paint(word: map<nat, nat>, red: set<nat>): (r: map<nat, nat>)
    ensures r.Keys == word.Keys && forall t :: t in word ==> Masked(r[t]) == Masked(word[t])
    ensures WordsFit(word) ==> WordsFit(r)
  {
    map t | t in word :: Masked(word[t]) + (if t in red then 1 else 0)
  }

  // ---------------------------------------------------- sequences of entries

  lemma TasksTail(q: seq<Entry>)
    requires q != []
    ensures Tasks(q) == [q[0].task] + Tasks(q[1..])
  {
  }

  lemma TasksCons(e: Entry, q: seq<Entry>)
    ensures Tasks([e] + q) == [e.task] + Tasks(q)
  {
  }

  lemma PeelFront(x: nat, rest: seq<nat>, pre: seq<nat>, t: nat, post: seq<nat>)
    requires [x] + rest == pre + [t] + post
    ensures pre == [] ==> x == t && rest == post
    ensures pre != [] ==> x == pre[0] && rest == pre[1..] + [t] + post && t in rest
  {
    var s := pre + [t] + post;
    assert s[0] == x && s[1..] == rest;
    if pre != [] {
      assert s[0] == pre[0] && s[1..] == pre[1..] + [t] + post;
      assert (pre[1..] + [t] + post)[|pre| - 1] == t;
    } else {
      assert s == [t] + post;
    }
  }

  lemma TaskWaits(q: seq<Entry>, t: nat)
    ensures t in Tasks(q) <==> Waits(q, t)
  {
    if Waits(q, t) {
      var i :| 0 <= i < |q| && q[i].task == t;
      assert Tasks(q)[i] == t;
    }
  }

  lemma HeadUnlikeTail(q: seq<Entry>)
    requires DistinctTasks(q) && q != []
    ensures DistinctTasks(q[1..]) && !Waits(q[1..], q[0].task)
  {
    assert forall i :: 0 <= i < |q[1..]| ==> q[1..][i] == q[i + 1];
  }

  lemma {:induction false} DropAround(q: seq<Entry>, t: nat, pre: seq<nat>, post: seq<nat>)
    requires DistinctTasks(q) && Tasks(q) == pre + [t] + post
    ensures Tasks(Drop(q, t)) == pre + post
    ensures FirstTask(q) == t <==> pre == []
    ensures FirstTask(q) != t ==> FirstTask(Drop(q, t)) == FirstTask(q)
  {
    assert q != [];
    hide DistinctTasks, Waits, Tasks;
    TasksTail(q);
    HeadUnlikeTail(q);
    PeelFront(q[0].task, Tasks(q[1..]), pre, t, post);
    TaskWaits(q[1..], q[0].task);
    if pre == [] {
      DropAbsent(q[1..], t);
    } else {
      DropAround(q[1..], t, pre[1..], post);
      TasksCons(q[0], Drop(q[1..], t));
      assert [pre[0]] + (pre[1..] + post) == pre + post;
    }
  }

  lemma {:induction false} DropAbsent(q: seq<Entry>, t: nat)
    requires !Waits(q, t)
    ensures Drop(q, t) == q
  {
    if q != [] {
      assert q[0].task != t;
      forall i | 0 <= i < |q[1..]| ensures q[1..][i].task != t {
        assert q[i + 1].task != t;
      }
      DropAbsent(q[1..], t);
    }
  }

  /** What remains after a drop is a sub-multiset without the task. */
  lemma {:induction false} DropKeeps(w: Arrivals, t: nat)
    requires DistinctTasks(w)
    ensures DistinctTasks(Drop(w, t)) && !Waits(Drop(w, t), t)
    ensures forall e :: e in Drop(w, t) <==> e in w && e.task != t
  {
    if w != [] {
      DropKeeps(w[1..], t);
      var d := Drop(w[1..], t);
      assert w == [w[0]] + w[1..];
      forall i | 0 <= i < |d| ensures d[i].task != w[0].task {
        assert d[i] in d;
        var j :| 0 <= j < |w[1..]| && w[1..][j] == d[i];
        assert w[j + 1].task == d[i].task;
      }
    }
  }

  lemma SameMembers(w: Arrivals, e: Entry)
    ensures e in Served(w) <==> e in w
  {
    ServedSorted(w);
    assert e in Served(w) <==> e in multiset(Served(w));
  }

  /** The service order has no duplicates either. */
  lemma {:induction false} ServedDistinct(w: Arrivals)
    requires DistinctTasks(w)
    ensures DistinctTasks(Served(w))
  {
    if w != [] {
      var v, e := w[..|w| - 1], w[|w| - 1];
      ServedDistinct(v);
      ServedSorted(v);
      forall i | 0 <= i < |Served(v)| ensures Served(v)[i].task != e.task {
        SameMembers(v, Served(v)[i]);
      }
      InsertDistinct(Served(v), e);
    }
  }

  lemma {:induction false} InsertDistinct(q: seq<Entry>, e: Entry)
    requires DistinctTasks(q) && !Waits(q, e.task)
    ensures DistinctTasks(InsertByDue(q, e))
  {
    if q != [] && q[0].due <= e.due {
      var t := q[1..];
      assert forall i :: 0 <= i < |t| ==> t[i] == q[i + 1];
      InsertDistinct(t, e);
      InsertContents(t, e);
      var r := InsertByDue(t, e);
      forall i | 0 <= i < |r| ensures r[i].task != q[0].task {
        assert r[i] in multiset(r);
      }
    }
  }

  // ------------------------------------------------------------- the queue

  /** The tree, its cached first node, the timestamp words and the scheduler time stand for an
      ideal queue at an unbounded time. */
  ghost predicate Holds(tree: Tree, cache: nat, stamp: nat, word: map<nat, nat>, now: nat, w: Arrivals) {
    && now % 2 == 0 && stamp == now % WRAP
    && DistinctTasks(w) && InWindow(word, now, w) && WordsFit(word)
    && InOrder(tree) == Tasks(Served(w))
    && cache == FirstTask(Served(w))
  }

  /** Where a task with timestamp ts is linked: behind all that are not later.  Also tells
      whether it becomes the head. */
  method Place(tree: Tree, cache: nat, word: map<nat, nat>, ts: nat) returns (path: Path, head: bool)
    requires KeysIn(tree, word.Keys) && ts < WRAP && WordsFit(word)
    ensures Plug(path, Null) == tree
    ensures LowerBound(path) != NIL ==> LowerBound(path) in word && !TimeBefore(ts, Masked(word[LowerBound(path)]))
    ensures UpperBound(path) != NIL ==> UpperBound(path) in word && TimeBefore(ts, Masked(word[UpperBound(path)]))
    ensures head <==> path.Top? || (path.InLeft? && path.parent == cache)
  {
    path, head := Top, true;
    var p := tree;
    while p.Node?
      invariant Plug(path, p) == tree && KeysIn(p, word.Keys)
      invariant LowerBound(path) != NIL ==> LowerBound(path) in word && !TimeBefore(ts, Masked(word[LowerBound(path)]))
      invariant UpperBound(path) != NIL ==> UpperBound(path) in word && TimeBefore(ts, Masked(word[UpperBound(path)]))
      invariant p.Null? ==> (head <==> path.Top? || (path.InLeft? && path.parent == cache))
      decreases p
    {
      if TimeBefore(ts, Masked(word[p.key])) {
        path := InLeft(p.key, p.right, path);
        if p.left.Null? {
          head := p.key == cache;
        }
        p := p.left;
      } else {
        path := InRight(p.key, p.left, path);
        if p.right.Null? {
          head := false;
        }
        p := p.right;
      }
    }
  }

  lemma HoldsFacts(tree: Tree, cache: nat, stamp: nat, word: map<nat, nat>, now: nat, w: Arrivals)
    requires Holds(tree, cache, stamp, word, now, w)
    ensures now % 2 == 0 && stamp == now % WRAP
    ensures DistinctTasks(w) && InWindow(word, now, w) && WordsFit(word)
    ensures InOrder(tree) == Tasks(Served(w)) && cache == FirstTask(Served(w))
    ensures DistinctTasks(Served(w)) && InWindow(word, now, Served(w)) && KeysIn(tree, word.Keys)
    ensures SortedByDue(Served(w))
  {
    ServedDistinct(w);
    ServedSorted(w);
    var q := Served(w);
    forall i | 0 <= i < |q| ensures q[i] in w {
      SameMembers(w, q[i]);
    }
    InOrderKeys(tree, word.Keys);
  }

  lemma HoldsAgain(tree: Tree, cache: nat, stamp: nat, word: map<nat, nat>, now: nat, w: Arrivals)
    requires now % 2 == 0 && stamp == now % WRAP
    requires DistinctTasks(w) && InWindow(word, now, w) && WordsFit(word)
    requires InOrder(tree) == Tasks(Served(w)) && cache == FirstTask(Served(w))
    ensures Holds(tree, cache, stamp, word, now, w)
  {
  }

  /** A new node becomes the head exactly when it is the first in order. */
  lemma HeadIsFirst(path: Path, tree: Tree, q: seq<Entry>)
    requires Plug(path, Null) == tree && InOrder(tree) == Tasks(q) && DistinctTasks(q)
    ensures path.Top? || (path.InLeft? && path.parent == FirstTask(q)) <==> Before(path) == []
  {
    LinkedBetween(path, tree);
    var pre, post := Before(path), After(path);
    if path.InLeft? && pre != [] {
      assert (pre + post)[0] == pre[0] == q[0].task;
      assert (pre + post)[|pre|] == post[0] == q[|pre|].task;
    }
    if path.InLeft? && pre == [] {
      assert (pre + post)[0] == post[0] == q[0].task;
    }
  }

  /** The 32-bit comparisons around a position place a deadline correctly among the others. */
  lemma PlacedRight(q: seq<Entry>, word: map<nat, nat>, now: nat, at: nat, pre: seq<nat>, post: seq<nat>)
    requires Tasks(q) == pre + post && SortedByDue(q) && InWindow(word, now, q) && now <= at < now + HALF
    requires WordsFit(word)
    requires pre != [] && pre[|pre| - 1] != NIL ==>
      pre[|pre| - 1] in word && !TimeBefore(at % WRAP, Masked(word[pre[|pre| - 1]]))
    requires post != [] && post[0] != NIL ==>
      post[0] in word && TimeBefore(at % WRAP, Masked(word[post[0]]))
    ensures forall t :: InsertByDue(q, Entry(t, Masked(at))) == q[..|pre|] + [Entry(t, Masked(at))] + q[|pre|..]
  {
    var k := |pre|;
    if 0 < k {
      assert q[k - 1].task == (pre + post)[k - 1] == pre[k - 1];
      CompareInWindow(now, at, q[k - 1].due);
    }
    if k < |q| {
      assert q[k].task == (pre + post)[k] == post[0];
      CompareInWindow(now, at, q[k].due);
    }
    forall t ensures InsertByDue(q, Entry(t, Masked(at))) == q[..k] + [Entry(t, Masked(at))] + q[k..] {
      InsertAt(q, Entry(t, Masked(at)), k);
    }
  }

  lemma TasksInserted(q: seq<Entry>, e: Entry, pre: seq<nat>, post: seq<nat>)
    requires Tasks(q) == pre + post
    ensures Tasks(q[..|pre|] + [e] + q[|pre|..]) == pre + [e.task] + post
    ensures FirstTask(q[..|pre|] + [e] + q[|pre|..]) == if pre == [] then e.task else FirstTask(q)
  {
    var s, r := pre + post, q[..|pre|] + [e] + q[|pre|..];
    forall i | 0 <= i < |r| ensures r[i].task == (pre + [e.task] + post)[i] {
      assert i < |pre| ==> r[i] == q[i] && s[i] == pre[i];
      assert i > |pre| ==> r[i] == q[i - 1] && s[i - 1] == post[i - 1 - |pre|];
    }
  }

  lemma ServedAppend(w: Arrivals, e: Entry)
    ensures Served(w + [e]) == InsertByDue(Served(w), e)
  {
    assert (w + [e])[..|w|] == w;
  }

  lemma OddRemainder(q: nat, r: nat)
    ensures (2 * q + r) % 2 == r % 2
  {
  }

  lemma Remainder(q: nat, r: nat)
    requires r < WRAP
    ensures (q * WRAP + r) % WRAP == r
  {
  }

  lemma EvenBelow(now: nat, at: nat)
    requires now % 2 == 0 && now <= at
    ensures now <= Masked(at) <= at && Masked(at) % 2 == 0
  {
  }

  lemma MaskedWraps(now: nat, at: nat)
    requires now % 2 == 0 && now <= at < now + HALF
    ensures Masked(at % WRAP) == Masked(at) % WRAP
    ensures now <= Masked(at) < now + HALF && Masked(at) % 2 == 0
  {
    EvenBelow(now, at);
    var q, r := at / WRAP, at % WRAP;
    assert at == q * WRAP + r == 2 * (q * HALF) + r;
    OddRemainder(q * HALF, r);
    assert Masked(at) == q * WRAP + (r - r % 2);
    Remainder(q, r - r % 2);
  }

  lemma NotWaiting(w: Arrivals, t: nat)
    requires !Waits(w, t)
    ensures forall i :: 0 <= i < |w| ==> w[i].task != t
  {
  }

  lemma WindowWith(word: map<nat, nat>, now: nat, w: Arrivals, t: nat, at: nat, word': map<nat, nat>)
    requires DistinctTasks(w) && InWindow(word, now, w) && !Waits(w, t) && t != NIL
    requires now % 2 == 0 && now <= at < now + HALF
    requires word'.Keys == word.Keys + {t} && Masked(word'[t]) == Masked(at % WRAP)
    requires forall u :: u in word && u != t ==> Masked(word'[u]) == Masked(word[u])
    ensures DistinctTasks(w + [Entry(t, Masked(at))]) && InWindow(word', now, w + [Entry(t, Masked(at))])
  {
    MaskedWraps(now, at);
    hide Masked, Waits;
    assert forall i :: 0 <= i < |w| ==> w[i].task != t by {
      NotWaiting(w, t);
    }
  }

  /** Places a task into the queue (xf_sched_put). */
  method Enter(tree: Tree, cache: nat, word: map<nat, nat>, t: nat, ts: nat,
               ghost stamp: nat, ghost now: nat, ghost w: Arrivals, ghost at: nat)
    returns (tree': Tree, cache': nat, word': map<nat, nat>)
    requires Holds(tree, cache, stamp, word, now, w)
    requires t != NIL && !Waits(w, t) && now <= at < now + HALF && ts == at % WRAP
    ensures Holds(tree', cache', stamp, word', now, w + [Entry(t, Masked(at))])
  {
    assert ts < WRAP;
    hide *;
    HoldsFacts(tree, cache, stamp, word, now, w);
    StampWritten(word, now, w, Served(w), t, ts);
    KeysStay(tree, word, t, ts);
    var stamped := word[t := ts];
    var path, head := Place(tree, cache, stamped, ts);
    var moves: seq<Rotation>, red: set<nat> := *, *;
    tree' := Insert(path, t, moves);
    word' := Paint(stamped, red);
    cache' := if head then t else cache;
    LinkedBetween(path, tree);
    HeadIsFirst(path, tree, Served(w));
    PlacedRight(Served(w), stamped, now, at, Before(path), After(path));
    ServedAppend(w, Entry(t, Masked(at)));
    TasksInserted(Served(w), Entry(t, Masked(at)), Before(path), After(path));
    WindowWith(word, now, w, t, at, word');
    HoldsAgain(tree', cache', stamp, word', now, w + [Entry(t, Masked(at))]);
  }

  /** Writing the timestamp word of a task that does not wait disturbs nothing. */
  lemma StampWritten(word: map<nat, nat>, now: nat, w: Arrivals, q: seq<Entry>, t: nat, ts: nat)
    requires InWindow(word, now, q) && q == Served(w) && !Waits(w, t) && ts < WRAP
    requires WordsFit(word)
    ensures InWindow(word[t := ts], now, q)
    ensures WordsFit(word[t := ts])
  {
    forall i | 0 <= i < |q| ensures q[i].task != t {
      SameMembers(w, q[i]);
    }
  }

  lemma KeysStay(tree: Tree, word: map<nat, nat>, t: nat, ts: nat)
    requires KeysIn(tree, word.Keys)
    ensures KeysIn(tree, word[t := ts].Keys)
  {
    KeysGrow(tree, word.Keys, word[t := ts].Keys);
  }

  /** Unlinks a waiting task; when it was the head, its in-order successor becomes the head. */
  method Leave(tree: Tree, cache: nat, word: map<nat, nat>, t: nat,
               ghost stamp: nat, ghost now: nat, ghost w: Arrivals)
    returns (tree': Tree, cache': nat, word': map<nat, nat>)
    requires Holds(tree, cache, stamp, word, now, w) && Waits(w, t)
    ensures Holds(tree', cache', stamp, word', now, Drop(w, t))
  {
    hide *;
    HoldsFacts(tree, cache, stamp, word, now, w);
    InTree(tree, w, t);
    var moves: seq<Rotation>, red: set<nat> := *, *;
    tree' := Delete(tree, t, moves);
    word' := Paint(word, red);
    cache' := if t == cache then DeleteResult(tree, t) else cache;
    LeftTree(tree, w, t, moves);
    WindowWithout(word, now, w, t, word');
    HoldsAgain(tree', cache', stamp, word', now, Drop(w, t));
  }

  lemma InTree(tree: Tree, w: Arrivals, t: nat)
    requires InOrder(tree) == Tasks(Served(w)) && Waits(w, t)
    ensures t in InOrder(tree)
  {
    var i :| 0 <= i < |w| && w[i].task == t;
    SameMembers(w, w[i]);
    TaskWaits(Served(w), t);
  }

  lemma LeftTree(tree: Tree, w: Arrivals, t: nat, moves: seq<Rotation>)
    requires InOrder(tree) == Tasks(Served(w)) && t in InOrder(tree) && DistinctTasks(Served(w))
    ensures InOrder(Delete(tree, t, moves)) == Tasks(Served(Drop(w, t)))
    ensures FirstTask(Served(Drop(w, t)))
         == if t == FirstTask(Served(w)) then DeleteResult(tree, t) else FirstTask(Served(w))
  {
    var pre, post := Around(tree, t).0, Around(tree, t).1;
    hide *;
    DeleteInOrder(tree, t, moves);
    DropAround(Served(w), t, pre, post);
    ServedDrop(w, t);
    FirstOfTasks(Served(Drop(w, t)));
    if pre == [] {
      DeleteFirstResult(tree, t);
      assert pre + post == post;
    }
  }

  lemma FirstOfTasks(q: seq<Entry>)
    ensures FirstTask(q) == if Tasks(q) == [] then NIL else Tasks(q)[0]
  {
  }

  lemma WindowWithout(word: map<nat, nat>, now: nat, w: Arrivals, t: nat, word': map<nat, nat>)
    requires DistinctTasks(w) && InWindow(word, now, w)
    requires word'.Keys == word.Keys && forall u :: u in word ==> Masked(word'[u]) == Masked(word[u])
    ensures DistinctTasks(Drop(w, t)) && InWindow(word', now, Drop(w, t))
  {
    DropKeeps(w, t);
    var d := Drop(w, t);
    hide Masked, DistinctTasks, Waits, Drop;
    forall i | 0 <= i < |d| ensures d[i] in w {
      assert d[i] in d;
    }
  }

  /** Moving the current time to the earliest deadline keeps all others in the window. */
  lemma TimeMoves(word: map<nat, nat>, now: nat, w: Arrivals, t: nat, i: nat)
    requires InWindow(word, now, w) && DistinctTasks(w) && Next(w, i) && t == w[i].task
    ensures now <= w[i].due && w[i].due % 2 == 0 && InWindow(word, w[i].due, Drop(w, t))
    ensures t in word && w[i].due % WRAP == Masked(word[t])
  {
    DropKeeps(w, t);
    var d := Drop(w, t);
    forall j | 0 <= j < |d| ensures d[j] in w {
      assert d[j] in d;
    }
  }

  class Sched {
    var tree: Tree            // tasks ordered by timestamp
    var cache: nat            // first task, or the null node
    var stamp: nat            // current scheduler timestamp
    var word: map<nat, nat>   // timestamp words of the tasks
    ghost var now: nat
    ghost var waiting: Arrivals

    ghost predicate Valid()
      reads this
    {
      Holds(tree, cache, stamp, word, now, waiting)
    }

    constructor ()
      ensures Valid() && waiting == [] && now == 0
    {
      tree, cache, stamp, word := Null, NIL, 0, map[];
      now, waiting := 0, [];
    }

    /** Places a task whose 32-bit timestamp stands for the unbounded time `at`. */
    method Put(t: nat, ts: nat, ghost at: nat)
      requires Valid() && t != NIL && !Waits(waiting, t)
      requires now <= at < now + HALF && ts == at % WRAP
      modifies this
      ensures Valid() && now == old(now) && stamp == old(stamp)
      ensures waiting == old(waiting) + [Entry(t, Masked(at))]
    {
      hide Holds, Waits;
      tree, cache, word := Enter(tree, cache, word, t, ts, stamp, now, waiting, at);
      waiting := waiting + [Entry(t, Masked(at))];
    }

    /** Schedules a task dts after the current time. */
    method Schedule(t: nat, dts: nat)
      requires Valid() && t != NIL && !Waits(waiting, t) && dts < HALF
      modifies this
      ensures Valid() && now == old(now) && stamp == old(stamp)
      ensures waiting == old(waiting) + [Entry(t, Masked(now + dts))]
    {
      assert stamp == now % WRAP;
      SumWraps(now, dts);
      hide Holds, Waits;
      Put(t, (stamp + dts) % WRAP, now + dts);
    }

    /** Takes the task with the earliest deadline, first come first served among equals, and
        moves the time to that deadline. */
    method Get() returns (t: nat)
      requires Valid()
      modifies this
      ensures Valid() && old(now) <= now
      ensures t == NIL <==> old(waiting) == []
      ensures t == NIL ==> unchanged(this)
      ensures t != NIL ==> exists i: nat :: Next(old(waiting), i) && old(waiting)[i] == Entry(t, now)
      ensures t != NIL ==> waiting == Drop(old(waiting), t)
    {
      ghost var i := HeadIsNext(tree, cache, stamp, word, now, waiting);
      t := cache;
      if t == NIL {
        return;
      }
      ghost var w := waiting;
      HeadWaits(w, i, t);
      TimeMoves(word, now, w, t, i);
      var ts := Masked(word[t]);
      tree, cache, word := Leave(tree, cache, word, t, stamp, now, waiting);
      waiting := Drop(waiting, t);
      HoldsLater(tree, cache, stamp, word, now, waiting, w, t, i, ts);
      stamp := ts;
      now := w[i].due;
    }

    method Cancel(t: nat)
      requires Valid() && Waits(waiting, t)
      modifies this
      ensures Valid() && now == old(now) && stamp == old(stamp)
      ensures waiting == Drop(old(waiting), t)
    {
      hide Holds, Waits, Drop;
      tree, cache, word := Leave(tree, cache, word, t, stamp, now, waiting);
      waiting := Drop(waiting, t);
    }
  }

  lemma SumWraps(now: nat, dts: nat)
    ensures (now % WRAP + dts) % WRAP == (now + dts) % WRAP
  {
  }

  /** The cached head is the task to be served next. */
  lemma HeadIsNext(tree: Tree, cache: nat, stamp: nat, word: map<nat, nat>, now: nat, w: Arrivals) returns (i: nat)
    requires Holds(tree, cache, stamp, word, now, w)
    ensures cache == NIL <==> w == []
    ensures w != [] ==> Next(w, i) && w[i].task == cache
    ensures DistinctTasks(w) && InWindow(word, now, w)
  {
    i := 0;
    if w != [] {
      i := FirstIsNext(w);
      assert w[i].task != NIL;
    }
  }

  lemma HeadWaits(w: Arrivals, i: nat, t: nat)
    requires Next(w, i) && w[i].task == t
    ensures Waits(w, t)
  {
  }

  lemma HoldsLater(tree: Tree, cache: nat, stamp: nat, word: map<nat, nat>, now: nat, d: Arrivals,
                   w: Arrivals, t: nat, i: nat, ts: nat)
    requires Holds(tree, cache, stamp, word, now, d) && d == Drop(w, t)
    requires DistinctTasks(w) && Next(w, i) && t == w[i].task && now <= w[i].due && w[i].due % 2 == 0
    requires ts == w[i].due % WRAP
    ensures Holds(tree, cache, ts, word, w[i].due, d)
  {
    DropKeeps(w, t);
    hide Masked, DistinctTasks, Waits, Drop;
    forall j | 0 <= j < |d| ensures w[i].due <= d[j].due {
      assert d[j] in d;
    }
  }
}
