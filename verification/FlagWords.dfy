/** Words of flag bits, as the set of the bits that are set. */
module FlagWords {
  /** Exclusive or: the bits that are set in exactly one of the words. */
  function Xor<F>(a: set<F>, b: set<F>): set<F> { (a - b) + (b - a) }
}
