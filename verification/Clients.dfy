/**
 The component map of a core: each entry holds either a component's address or, while its id is
 free, the next free id.
 */
module Clients {
  // Number of client ids; as a link it ends the list of free ids.  Component addresses lie above.
  const CLIENTS: nat := 64

  /** The word after the i-th free id. */
  function LinkAfter(chain: seq<nat>, i: nat): nat { if i + 1 < |chain| then chain[i + 1] else CLIENTS }

  /** The ids of the chain are different and linked in this order. */
  ghost predicate Chained(words: seq<nat>, chain: seq<nat>) {
    && |words| == CLIENTS
    && (forall i :: 0 <= i < |chain| ==> chain[i] < CLIENTS && words[chain[i]] == LinkAfter(chain, i))
    && (forall i, j :: 0 <= i < j < |chain| ==> chain[i] != chain[j])
  }

  /** The ids of live components, with the components' addresses. */
  ghost function Live(words: seq<nat>): map<nat, nat>
    requires |words| == CLIENTS
  {
    map c: nat | c < CLIENTS && words[c] > CLIENTS :: words[c]
  }

  /** The map's words, the head of the free list, the free ids in order, and the ids given out
      whose component is not registered yet. */
  ghost predicate Fits(words: seq<nat>, free: nat, chain: seq<nat>, pending: set<nat>) {
    && Chained(words, chain) && free == Head(chain)
    && (forall c :: c in pending ==> c < CLIENTS && c !in chain && words[c] <= CLIENTS)
    && (forall c: nat :: c < CLIENTS ==> c in chain || c in pending || words[c] > CLIENTS)
  }

  lemma ChainTail(words: seq<nat>, chain: seq<nat>)
    requires Chained(words, chain) && chain != []
    ensures chain[0] < CLIENTS && chain[0] !in chain[1..] && words[chain[0]] == Head(chain[1..])
    ensures Chained(words, chain[1..])
  {
  }

  lemma ChainCons(words: seq<nat>, chain: seq<nat>, c: nat)
    requires Chained(words, chain) && c < CLIENTS && c !in chain
    ensures Chained(words[c := Head(chain)], [c] + chain)
  {
  }

  lemma ChainElsewhere(words: seq<nat>, chain: seq<nat>, c: nat, w: nat)
    requires Chained(words, chain) && c < CLIENTS && c !in chain
    ensures Chained(words[c := w], chain)
  {
  }

  /** No free or pending id is live. */
  lemma NotLive(words: seq<nat>, free: nat, chain: seq<nat>, pending: set<nat>)
    requires Fits(words, free, chain, pending)
    ensures forall c: nat :: c < CLIENTS ==> (words[c] > CLIENTS <==> c !in chain && c !in pending)
    ensures forall c :: c in chain ==> c < CLIENTS
  {
    forall c: nat | c < CLIENTS && c in chain ensures words[c] <= CLIENTS {
      var i: nat :| i < |chain| && chain[i] == c;
      assert words[c] == LinkAfter(chain, i);
    }
  }

  lemma AllTaken(words: seq<nat>, free: nat, chain: seq<nat>, pending: set<nat>)
    requires Fits(words, free, chain, pending)
    ensures free <= CLIENTS
    ensures free == CLIENTS <==> (forall c: nat :: c < CLIENTS ==> c in Live(words) || c in pending)
    ensures free < CLIENTS ==> free !in Live(words)
  {
    NotLive(words, free, chain, pending);
    hide Chained;
    assert chain != [] ==> chain[0] in chain;
  }

  lemma AllocFits(words: seq<nat>, free: nat, chain: seq<nat>, pending: set<nat>)
    requires Fits(words, free, chain, pending) && free < CLIENTS
    ensures chain != [] && free == chain[0] && free !in pending && words[free] <= CLIENTS
    ensures Fits(words, words[free], chain[1..], pending + {free})
  {
    hide Chained;
    NotLive(words, free, chain, pending);
    ChainIsFull(words, chain);
    ChainTail(words, chain);
    assert forall x :: x in chain <==> x == chain[0] || x in chain[1..];
  }

  lemma FreeFits(words: seq<nat>, free: nat, chain: seq<nat>, pending: set<nat>, c: nat)
    requires Fits(words, free, chain, pending) && c < CLIENTS && (words[c] > CLIENTS || c in pending)
    ensures Fits(words[c := free], c, [c] + chain, pending - {c})
    ensures Live(words[c := free]) == Live(words) - {c}
  {
    NotLive(words, free, chain, pending);
    ChainCons(words, chain, c);
    LiveWithout(words, c, free);
    hide Chained, Live;
    assert forall x :: x in [c] + chain <==> x == c || x in chain;
  }

  lemma LiveWithout(words: seq<nat>, c: nat, w: nat)
    requires |words| == CLIENTS && c < CLIENTS && w <= CLIENTS
    ensures Live(words[c := w]) == Live(words) - {c}
  {
  }

  lemma EnterFits(words: seq<nat>, free: nat, chain: seq<nat>, pending: set<nat>, c: nat, component: nat)
    requires Fits(words, free, chain, pending) && c in pending && component > CLIENTS
    ensures c < CLIENTS && Fits(words[c := component], free, chain, pending - {c})
    ensures Live(words[c := component]) == Live(words)[c := component]
  {
    ChainElsewhere(words, chain, c, component);
    hide Chained;
  }

  /** The free ids met by following the links. */
  function Walk(words: seq<nat>, at: nat, steps: nat): seq<nat>
    requires |words| == CLIENTS
    decreases steps
  {
    if at >= CLIENTS || steps == 0 then [] else [at] + Walk(words, words[at], steps - 1)
  }

  /** The first of a chain of free ids. */
  function Head(chain: seq<nat>): nat { if chain == [] then CLIENTS else chain[0] }

  lemma WalkStep(words: seq<nat>, at: nat, steps: nat)
    requires |words| == CLIENTS && at < CLIENTS && steps > 0
    ensures Walk(words, at, steps) == [at] + Walk(words, words[at], steps - 1)
  {
  }

  lemma WalkStops(words: seq<nat>, steps: nat)
    requires |words| == CLIENTS
    ensures Walk(words, Head([]), steps) == []
  {
  }

  lemma ChainIsFull(words: seq<nat>, chain: seq<nat>)
    requires Chained(words, chain)
    ensures |words| == CLIENTS && (chain != [] ==> Head(chain) == chain[0] && chain == [chain[0]] + chain[1..])
  {
  }

  /** The links run through the free ids once and end. */
  lemma {:induction false} WalkEnds(words: seq<nat>, chain: seq<nat>, steps: nat)
    requires Chained(words, chain) && |chain| <= steps
    ensures Walk(words, Head(chain), steps) == chain
    decreases steps
  {
    ChainIsFull(words, chain);
    hide *;
    if chain == [] {
      WalkStops(words, steps);
    } else {
      ChainTail(words, chain);
      WalkStep(words, chain[0], steps);
      WalkEnds(words, chain[1..], steps - 1);
    }
  }

  lemma {:induction false} DistinctIds(chain: seq<nat>, n: nat)
    requires forall i :: 0 <= i < |chain| ==> chain[i] < n
    requires forall i, j :: 0 <= i < j < |chain| ==> chain[i] != chain[j]
    ensures |chain| <= n
  {
    assert chain == [] || 0 <= chain[0] < n;
    if n == 0 {
    } else if n - 1 in chain {
      var k: nat :| k < |chain| && chain[k] == n - 1;
      var rest := chain[..k] + chain[k + 1..];
      forall i | 0 <= i < |rest| ensures rest[i] < n - 1 {
        assert rest[i] == chain[if i < k then i else i + 1];
      }
      DistinctIds(rest, n - 1);
    } else {
      DistinctIds(chain, n - 1);
    }
  }

  datatype Registration = Registered(client: nat) | Busy | NoMemory

  lemma Initially(words: seq<nat>, chain: seq<nat>)
    requires |words| == CLIENTS && forall k :: 0 <= k < CLIENTS ==> words[k] == k + 1
    requires chain == seq(CLIENTS, i => i)
    ensures Fits(words, 0, chain, {}) && Live(words) == map[]
  {
    forall c: nat | c < CLIENTS ensures c in chain {
      assert chain[c] == c;
    }
  }

  class ClientMap {
    const cmap: array<nat>
    var free: nat
    ghost var chain: seq<nat>     // the free ids, first to be given out first
    ghost var pending: set<nat>   // ids given out whose component is not registered yet

    ghost predicate Valid()
      reads this, cmap
    {
      cmap.Length == CLIENTS && Fits(cmap[..], free, chain, pending)
    }

    ghost function Clients(): map<nat, nat>
      reads this, cmap
      requires Valid()
    {
      Live(cmap[..])
    }

    constructor ()
      ensures Valid() && pending == {} && chain == seq(CLIENTS, i => i) && Clients() == map[]
      ensures fresh(cmap)
    {
      cmap := new nat[CLIENTS];
      free := 0;
      chain := seq(CLIENTS, i => i);
      pending := {};
      new;
      var i := 0;
      while i < CLIENTS
        invariant i <= CLIENTS && cmap.Length == CLIENTS && fresh(cmap)
        invariant free == 0 && chain == seq(CLIENTS, i => i) && pending == {}
        invariant forall k :: 0 <= k < i ==> cmap[k] == k + 1
      {
        cmap[i] := i + 1;
        i := i + 1;
      }
      Initially(cmap[..], chain);
    }

    /** The component of an id, 0 if there is none. */
    method Lookup(client: nat) returns (component: nat)
      requires Valid() && client < CLIENTS
      ensures component != 0 <==> client in Clients()
      ensures component != 0 ==> component == Clients()[client]
    {
      var word := cmap[client];
      component := if word > CLIENTS then word else 0;
    }

    /** Gives out a free id; fails exactly when every id is live or pending. */
    method Alloc() returns (client: nat)
      requires Valid()
      modifies this
      ensures Valid() && Clients() == old(Clients())
      ensures client == CLIENTS <==> (forall c: nat :: c < CLIENTS ==> c in Clients() || c in old(pending))
      ensures client == CLIENTS ==> chain == old(chain) && pending == old(pending)
      ensures client != CLIENTS ==> old(chain) == [client] + chain && pending == old(pending) + {client}
      ensures client != CLIENTS ==> client < CLIENTS && client !in Clients() && client !in old(pending)
    {
      client := free;
      hide Fits, Live, Chained, Head, LinkAfter, Walk;
      AllTaken(cmap[..], free, chain, pending);
      if client < CLIENTS {
        AllocFits(cmap[..], free, chain, pending);
        assert chain == [client] + chain[1..];
        free := cmap[client];
        chain, pending := chain[1..], pending + {client};
      }
    }

    /** Takes an id back, live or pending. */
    method Free(client: nat)
      requires Valid() && (client in Clients() || client in pending)
      modifies this, cmap
      ensures Valid() && Clients() == old(Clients()) - {client}
      ensures chain == [client] + old(chain) && pending == old(pending) - {client}
    {
      ghost var words := cmap[..];
      assert client < CLIENTS;
      FreeFits(words, free, chain, pending, client);
      hide Fits;
      cmap[client] := free;
      assert cmap[..] == words[client := free];
      free := client;
      chain, pending := [client] + chain, pending - {client};
    }

    /** Makes a component known under a pending id. */
    method Enter(client: nat, component: nat)
      requires Valid() && client in pending && component > CLIENTS
      modifies this, cmap
      ensures Valid() && Clients() == old(Clients())[client := component]
      ensures chain == old(chain) && pending == old(pending) - {client} && free == old(free)
    {
      ghost var words := cmap[..];
      EnterFits(words, free, chain, pending, client, component);
      hide Fits;
      cmap[client] := component;
      assert cmap[..] == words[client := component];
      pending := pending - {client};
    }

    /** Registers a component; 0 stands for a failing factory, which gives the id back. */
    method Register(component: nat) returns (r: Registration)
      requires Valid() && pending == {} && (component == 0 || component > CLIENTS)
      modifies this, cmap
      ensures Valid() && pending == {}
      ensures r == Busy <==> (forall c: nat :: c < CLIENTS ==> c in old(Clients()))
      ensures r == NoMemory <==> !r.Busy? && component == 0
      ensures !r.Registered? ==> Clients() == old(Clients()) && chain == old(chain)
      ensures r.Registered? ==> r.client < CLIENTS && r.client !in old(Clients())
      ensures r.Registered? ==> Clients() == old(Clients())[r.client := component]
    {
      var client := Alloc();
      if client == CLIENTS {
        return Busy;
      }
      if component == 0 {
        Free(client);
        return NoMemory;
      }
      Enter(client, component);
      return Registered(client);
    }
  }

  /** Between calls the ids are partitioned into the free list and the live ids, and the links run
      through the free list once. */
  lemma FreeXorLive(m: ClientMap)
    requires m.Valid() && m.pending == {}
    ensures forall c: nat :: c < CLIENTS ==> (c in m.chain <==> c !in m.Clients())
    ensures Walk(m.cmap[..], m.free, CLIENTS) == m.chain
  {
    DistinctIds(m.chain, CLIENTS);
    WalkEnds(m.cmap[..], m.chain, CLIENTS);
    NotLive(m.cmap[..], m.free, m.chain, m.pending);
  }
}
