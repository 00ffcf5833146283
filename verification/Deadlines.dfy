/**
 An ideal earliest-deadline-first queue with unbounded time, and the arithmetic that lets
 32-bit timestamps stand for it.
 */
module Deadlines {

  // Number of 32-bit timestamps, and half of it: the largest distance that compares correctly.
  const WRAP: nat := 0x1_0000_0000
  const HALF: nat := 0x8000_0000

  // The least significant bit of a task's timestamp word is the colour of its tree node.
  function Masked(word: nat): nat { word - word % 2 }

  /** Whether t0 is before t1 with respect to wrap-around: the sign of their 32-bit difference. */
  predicate TimeBefore(t0: nat, t1: nat)
    requires t0 < WRAP && t1 < WRAP
  {
    var u := if t0 < t1 then t0 - t1 + WRAP else t0 - t1;
    HALF <= u
  }

  // `due` is an unbounded point in time.
  datatype Entry = Entry(task: nat, due: nat)

  /** Waiting entries in the order of their arrival. */
  type Arrivals = seq<Entry>

  /** Entry i is served next: the earliest deadline, and among equal ones the first arrival. */
  ghost predicate Next(w: Arrivals, i: nat) {
    && i < |w|
    && (forall j :: 0 <= j < |w| ==> w[i].due <= w[j].due)
    && (forall j :: 0 <= j < i ==> w[i].due < w[j].due)
  }

  /** The arrivals without a task. */
  function Drop(w: Arrivals, task: nat): Arrivals {
    if w == [] then []
    else if w[0].task == task then Drop(w[1..], task)
    else [w[0]] + Drop(w[1..], task)
  }

  // ------------------------------------------------------------ service order

  /** Inserts an entry behind all entries that are not later. */
  function InsertByDue(q: seq<Entry>, e: Entry): seq<Entry> {
    if q == [] || e.due < q[0].due then [e] + q else [q[0]] + InsertByDue(q[1..], e)
  }

  /** The order in which the waiting entries are served: a stable sort by deadline. */
  function Served(w: Arrivals): seq<Entry> {
    if w == [] then [] else InsertByDue(Served(w[..|w| - 1]), w[|w| - 1])
  }

  ghost predicate SortedByDue(q: seq<Entry>) {
    forall i, j :: 0 <= i < j < |q| ==> q[i].due <= q[j].due
  }

  lemma {:induction false} InsertContents(q: seq<Entry>, e: Entry)
    ensures multiset(InsertByDue(q, e)) == multiset(q) + multiset{e}
  {
    if q != [] && q[0].due <= e.due {
      InsertContents(q[1..], e);
      assert q == [q[0]] + q[1..];
    }
  }

  lemma SortedCons(x: Entry, q: seq<Entry>)
    requires SortedByDue(q) && forall e :: e in q ==> x.due <= e.due
    ensures SortedByDue([x] + q)
  {
  }

  lemma {:induction false} InsertSorted(q: seq<Entry>, e: Entry)
    requires SortedByDue(q)
    ensures SortedByDue(InsertByDue(q, e))
  {
    if q == [] || e.due < q[0].due {
      SortedCons(e, q);
    } else {
      var r := InsertByDue(q[1..], e);
      InsertSorted(q[1..], e);
      InsertContents(q[1..], e);
      forall x | x in r ensures q[0].due <= x.due {
        assert x in multiset(r);
      }
      SortedCons(q[0], r);
    }
  }

  lemma {:induction false} ServedSorted(w: Arrivals)
    ensures SortedByDue(Served(w)) && multiset(Served(w)) == multiset(w) && |Served(w)| == |w|
  {
    if w != [] {
      ServedSorted(w[..|w| - 1]);
      InsertSorted(Served(w[..|w| - 1]), w[|w| - 1]);
      InsertContents(Served(w[..|w| - 1]), w[|w| - 1]);
      assert w == w[..|w| - 1] + [w[|w| - 1]];
      assert |multiset(Served(w))| == |multiset(w)|;
    }
  }

  /** A position between the not-later and the later entries is where InsertByDue inserts. */
  lemma {:induction false} InsertAt(q: seq<Entry>, e: Entry, k: nat)
    requires SortedByDue(q) && k <= |q|
    requires 0 < k ==> q[k - 1].due <= e.due
    requires k < |q| ==> e.due < q[k].due
    ensures InsertByDue(q, e) == q[..k] + [e] + q[k..]
  {
    if 0 < k {
      assert q[0].due <= q[k - 1].due;
      assert InsertByDue(q, e) == [q[0]] + InsertByDue(q[1..], e);
      SortedTail(q);
      hide *;
      InsertAt(q[1..], e, k - 1);
      Peel(q, e, k);
    } else if q != [] {
      assert q[..0] + [e] + q[0..] == [e] + q;
    }
  }

  lemma SortedTail(q: seq<Entry>)
    requires SortedByDue(q) && q != []
    ensures SortedByDue(q[1..])
  {
  }

  lemma Peel(q: seq<Entry>, e: Entry, k: nat)
    requires 0 < k <= |q|
    ensures [q[0]] + (q[1..][..k - 1] + [e] + q[1..][k - 1..]) == q[..k] + [e] + q[k..]
  {
    assert q[1..][..k - 1] == q[1..k] && q[1..][k - 1..] == q[k..] && q[..k] == [q[0]] + q[1..k];
  }

  lemma {:induction false} DropInsert(q: seq<Entry>, e: Entry, task: nat)
    requires SortedByDue(q)
    ensures Drop(InsertByDue(q, e), task) == if e.task == task then Drop(q, task) else InsertByDue(Drop(q, task), e)
  {
    if q == [] {
    } else if e.due < q[0].due {
      var r := [e] + q;
      assert r[1..] == q;
      DropHead(q, e, task);
    } else {
      var r := [q[0]] + InsertByDue(q[1..], e);
      assert r[1..] == InsertByDue(q[1..], e);
      DropInsert(q[1..], e, task);
      if q[0].task != task && e.task != task {
        var d := [q[0]] + Drop(q[1..], task);
        assert d[1..] == Drop(q[1..], task);
      }
    }
  }

  /** An entry earlier than a sorted queue is inserted in front, whatever is dropped. */
  lemma {:induction false} DropHead(q: seq<Entry>, e: Entry, task: nat)
    requires SortedByDue(q) && (q != [] ==> e.due < q[0].due)
    ensures InsertByDue(Drop(q, task), e) == [e] + Drop(q, task)
  {
    if q != [] && q[0].task == task {
      if |q| > 1 {
        assert q[0].due <= q[1].due;
      }
      DropHead(q[1..], e, task);
    }
  }

  lemma {:induction false} DropLast(w: Arrivals, e: Entry, task: nat)
    ensures Drop(w + [e], task) == if e.task == task then Drop(w, task) else Drop(w, task) + [e]
  {
    if w == [] {
      assert w + [e] == [e];
    } else {
      assert (w + [e])[1..] == w[1..] + [e];
      DropLast(w[1..], e, task);
    }
  }

  /** Taking a task away commutes with the service order. */
  lemma {:induction false} ServedDrop(w: Arrivals, task: nat)
    ensures Served(Drop(w, task)) == Drop(Served(w), task)
  {
    if w != [] {
      var v, e := w[..|w| - 1], w[|w| - 1];
      assert w == v + [e];
      ServedDrop(v, task);
      ServedSorted(v);
      DropInsert(Served(v), e, task);
      DropLast(v, e, task);
      if e.task != task {
        var d := Drop(v, task) + [e];
        assert d[..|d| - 1] == Drop(v, task);
      }
    }
  }

  /** The first entry of the service order is the one to be served next. */
  lemma {:induction false} FirstIsNext(w: Arrivals) returns (i: nat)
    requires w != []
    ensures Next(w, i) && Served(w) != [] && Served(w)[0] == w[i]
  {
    var v, e := w[..|w| - 1], w[|w| - 1];
    if v == [] {
      i := 0;
    } else {
      i := FirstIsNext(v);
      if e.due < v[i].due {
        i := |v|;
      }
    }
  }

  // ------------------------------------------------------------- wrap-around

  /** Within one half-window above the current time, 32-bit comparison decides the order of
      unbounded deadlines, and an odd timestamp compares like its masked value. */
  lemma CompareInWindow(now: nat, at: nat, due: nat)
    requires now <= at < now + HALF && now <= due < now + HALF && due % 2 == 0
    ensures TimeBefore(at % WRAP, due % WRAP) <==> at < due
    ensures at < due <==> Masked(at) < due
  {
    Wrapped(now, at);
    Wrapped(now, due);
    BelowEven(at, due);
    hide Masked;
  }

  /** Less than a turn ahead of the current time, the 32-bit value has wrapped at most once. */
  lemma Wrapped(now: nat, t: nat)
    requires now <= t < now + WRAP
    ensures t % WRAP == if now % WRAP + (t - now) < WRAP then now % WRAP + (t - now) else now % WRAP + (t - now) - WRAP
  {
  }

  lemma BelowEven(at: nat, due: nat)
    requires due % 2 == 0
    ensures at < due <==> Masked(at) < due
  {
  }

  /** Outside any window: odd timestamps still compare like their masked values. */
  lemma OddComparesLikeMasked(ts: nat, key: nat)
    requires ts < WRAP && key < WRAP && key % 2 == 0
    ensures TimeBefore(ts, key) <==> TimeBefore(Masked(ts), key)
  {
  }

  /** The bound on the distance is exact: up to one full turn ahead of the current time, a
      deadline looks past exactly when it is half the range or more away. */
  lemma LooksPast(now: nat, due: nat)
    requires now <= due < now + WRAP
    ensures TimeBefore(due % WRAP, now % WRAP) <==> now + HALF <= due
  {
    Wrapped(now, due);
  }
}
