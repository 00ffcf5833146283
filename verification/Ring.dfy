/**
 The ring buffers of the shared memory: packed index and counter words, and the interleaving of
 one producer with one consumer.
 */
module Ring {
  // Number of slots.
  const LENGTH: nat := 256

  // A 32-bit word wraps around here; its upper half is the counter.
  const WORD: nat := 0x1_0000_0000
  const HALF: nat := 0x1_0000

  // ------------------------------------------------------------ packed words

  function Slot(w: nat): (r: nat)
    ensures r < LENGTH
  {
    w % LENGTH
  }

  /** Adds one to the index and to the counter, and clears what carried out of the index. */
  function Advance(w: nat): nat {
    var t := (w + HALF + 1) % WORD;
    t / HALF * HALF + t % LENGTH
  }

  predicate Empty(read: nat, write: nat) { read == write }

  predicate Full(read: nat, write: nat) { write == (read + LENGTH * HALF) % WORD }

  /** The word of an unbounded counter. */
  function Encode(c: nat): nat { c % LENGTH + c % HALF * HALF }

  /** The upper and lower halves of a word. */
  lemma Halves(hi: nat, lo: nat)
    requires hi < HALF && lo < HALF
    ensures (hi * HALF + lo) / HALF == hi && (hi * HALF + lo) % LENGTH == lo % LENGTH && hi * HALF + lo < WORD
  {
    UpperHalf(hi, lo);
    LowBits(hi, lo);
  }

  lemma UpperHalf(hi: nat, lo: nat)
    requires lo < HALF
    ensures (hi * HALF + lo) / HALF == hi
  {
    var x := hi * HALF + lo;
    assert x == x / HALF * HALF + x % HALF;
  }

  lemma LowBits(hi: nat, lo: nat)
    ensures (hi * HALF + lo) % LENGTH == lo % LENGTH
  {
    var x, q := hi * HALF + lo, hi * 256 + lo / LENGTH;
    assert lo == lo / LENGTH * LENGTH + lo % LENGTH;
    assert x == q * LENGTH + lo % LENGTH;
    assert x == x / LENGTH * LENGTH + x % LENGTH;
  }

  lemma Successor(c: nat)
    ensures (c + 1) % LENGTH == (c % LENGTH + 1) % LENGTH
    ensures (c + 1) % HALF == if c % HALF == HALF - 1 then 0 else c % HALF + 1
  {
    SlotAfter(c);
    HalfAfter(c);
  }

  lemma SlotAfter(c: nat)
    ensures (c + 1) % LENGTH == (c % LENGTH + 1) % LENGTH
  {
    assert c == c / LENGTH * LENGTH + c % LENGTH;
  }

  lemma HalfAfter(c: nat)
    ensures (c + 1) % HALF == if c % HALF == HALF - 1 then 0 else c % HALF + 1
  {
    assert c == c / HALF * HALF + c % HALF;
  }

  lemma AdvanceEncodes(c: nat)
    ensures Advance(Encode(c)) == Encode(c + 1)
  {
    var hi, lo := c % HALF, c % LENGTH;
    Successor(c);
    if hi + 1 < HALF {
      Halves(hi + 1, lo + 1);
      assert (Encode(c) + HALF + 1) % WORD == (hi + 1) * HALF + (lo + 1);
    } else {
      Halves(0, lo + 1);
      assert (Encode(c) + HALF + 1) == WORD + (lo + 1);
    }
  }

  lemma SlotEncodes(c: nat)
    ensures Slot(Encode(c)) == c % LENGTH
  {
    Halves(c % HALF, c % LENGTH);
  }

  /** Equal words have equal halves. */
  lemma SameHalves(lo: nat, hi: nat, lo': nat, hi': nat)
    requires lo < HALF && lo' < HALF
    ensures lo + hi * HALF == lo' + hi' * HALF <==> lo == lo' && hi == hi'
  {
  }

  /** Of the counters within one ring's length, the words tell which are equal ... */
  lemma EmptyExactly(r: nat, w: nat)
    requires r <= w <= r + LENGTH
    ensures Empty(Encode(r), Encode(w)) <==> w == r
  {
    SameHalves(r % LENGTH, r % HALF, w % LENGTH, w % HALF);
    if r % HALF == w % HALF {
      Close(r, w);
    }
  }

  /** Counters less than a half-word apart differ in their lower halves. */
  lemma Close(r: nat, w: nat)
    requires r <= w < r + HALF && r % HALF == w % HALF
    ensures r == w
  {
    assert r == r / HALF * HALF + r % HALF;
    assert w == w / HALF * HALF + w % HALF;
  }

  lemma Lap(r: nat)
    ensures (r + LENGTH) % LENGTH == r % LENGTH
    ensures (r + LENGTH) % HALF == if r % HALF + LENGTH < HALF then r % HALF + LENGTH else r % HALF + LENGTH - HALF
  {
  }

  /** ... and which are a whole ring apart. */
  lemma FullExactly(r: nat, w: nat)
    requires r <= w <= r + LENGTH
    ensures Full(Encode(r), Encode(w)) <==> w == r + LENGTH
  {
    var hi, lo := r % HALF, r % LENGTH;
    Lap(r);
    var h' := if hi + LENGTH < HALF then hi + LENGTH else hi + LENGTH - HALF;
    assert (Encode(r) + LENGTH * HALF) % WORD == lo + h' * HALF by {
      if hi + LENGTH < HALF {
        Halves(h', lo);
      } else {
        Halves(h', lo);
        assert Encode(r) + LENGTH * HALF == WORD + (lo + h' * HALF);
      }
    }
    SameHalves(w % LENGTH, w % HALF, lo, h');
  }
}
