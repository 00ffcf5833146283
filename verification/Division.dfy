/**
 Polynomials over the integers modulo 2, as bits with the highest power first, and the meaning of
 the checksum: the remainder of the message times x^16 by the generator.
 */
module Division {
  import opened Crc
  import opened CrcTable

  type Bits = seq<bool>

  function Nought(n: nat): Bits { seq(n, i => false) }

  /** Sum, which is also the difference. */
  function Plus(a: Bits, b: Bits): (c: Bits)
    requires |a| == |b|
    ensures |c| == |a|
  {
    seq(|a|, i requires 0 <= i < |a| => a[i] != b[i])
  }

  // x^16 + x^12 + x^5 + 1
  const DIVISOR: Bits := [true, false, false, false, true, false, false, false, false, false, false, true, false,
                          false, false, false, true]

  /** The product with the generator. */
  function Times(q: Bits): (p: Bits)
    ensures |p| == |q| + 16
  {
    if q == [] then Nought(16)
    else
      var n := |q| - 1;
      var shifted := Times(q[..n]) + [false];
      if q[n] then Plus(shifted, Nought(n) + DIVISOR) else shifted
  }

  // --------------------------------------------------------- words and bits

  /** The power of x whose coefficient comes k-th in a word. */
  function Power(k: nat): (p: bv16)
    requires k < 16
    ensures p < 16
  {
    match k
    case 0 => 15
    case 1 => 14
    case 2 => 13
    case 3 => 12
    case 4 => 11
    case 5 => 10
    case 6 => 9
    case 7 => 8
    case 8 => 7
    case 9 => 6
    case 10 => 5
    case 11 => 4
    case 12 => 3
    case 13 => 2
    case 14 => 1
    case _ => 0
  }

  lemma NextPower(k: nat)
    requires k < 15
    ensures Power(k) == Power(k + 1) + 1
  {
  }

  predicate Coefficient(w: bv16, p: bv16)
    requires p < 16
  {
    (w >> p) & 1 == 1
  }

  function WordBits(w: bv16): (s: Bits)
    ensures |s| == 16
  {
    seq(16, k requires 0 <= k < 16 => Coefficient(w, Power(k)))
  }

  function BitWord(b: bool): bv16 { if b then 1 else 0 }

  lemma XorCoefficient(a: bv16, b: bv16, p: bv16)
    requires p < 16
    ensures Coefficient(a, p) && Coefficient(b, p) ==> !Coefficient(Xor(a, b), p)
    ensures !Coefficient(a, p) && !Coefficient(b, p) ==> !Coefficient(Xor(a, b), p)
    ensures !Coefficient(a, p) && Coefficient(b, p) ==> Coefficient(Xor(a, b), p)
    ensures Coefficient(a, p) && !Coefficient(b, p) ==> Coefficient(Xor(a, b), p)
  {
  }

  lemma PushCoefficient(w: bv16, b: bool, p: bv16)
    requires p < 16
    ensures Coefficient(Push(w, BitWord(b)), p) == if p == 0 then b else Coefficient(w, p - 1)
  {
  }

  /** Words are added like polynomials. */
  lemma XorBits(a: bv16, b: bv16)
    ensures WordBits(Xor(a, b)) == Plus(WordBits(a), WordBits(b))
  {
    hide Coefficient, Xor, Power;
    forall k: nat | k < 16
      ensures Coefficient(Xor(a, b), Power(k)) == (Coefficient(a, Power(k)) != Coefficient(b, Power(k)))
    {
      XorCoefficient(a, b, Power(k));
    }
  }

  lemma PushBits(w: bv16, b: bool)
    ensures WordBits(Push(w, BitWord(b))) == WordBits(w)[1..] + [b]
  {
    assert Power(15) == 0;
    hide Coefficient, Push, BitWord, Power;
    forall k: nat | k < 16
      ensures Coefficient(Push(w, BitWord(b)), Power(k)) == if k < 15 then Coefficient(w, Power(k + 1)) else b
    {
      PushCoefficient(w, b, Power(k));
      if k < 15 {
        NextPower(k);
      }
    }
  }

  lemma GeneratorBits()
    ensures WordBits(GENERATOR) == DIVISOR[1..] && WordBits(0) == Nought(16)
  {
  }

  // --------------------------------------------------------------- one step

  /** The bits of the message, extended by 16 zeros in front, are the product of the quotient and the
      generator plus the register. */
  ghost predicate Divides(bits: Bits, q: Bits, reg: bv16) {
    |q| == |bits| && Nought(16) + bits == Plus(Times(q), Nought(|bits|) + WordBits(reg))
  }

  lemma DividesNone()
    ensures Divides([], [], 0)
  {
    GeneratorBits();
  }

  /** The register after a step: it is shifted, and the generator is subtracted if the bit that falls
      out is set. */
  lemma StepBits(reg: bv16, b: bool)
    ensures var top := WordBits(reg)[0];
            WordBits(Step(reg, BitWord(b)))
            == Plus(WordBits(reg)[1..] + [b], if top then DIVISOR[1..] else Nought(16))
  {
    TopBit(reg);
    var g := if WordBits(reg)[0] then GENERATOR else 0;
    StepIs(reg, BitWord(b), g);
    XorBits(Push(reg, BitWord(b)), g);
    PushBits(reg, b);
    GeneratorBits();
    hide Xor, Push, Step, WordBits, BitWord;
  }

  lemma TopBit(reg: bv16)
    ensures WordBits(reg)[0] <==> reg & 0x8000 != 0
  {
  }

  /** Adding up, position by position. */
  lemma PlusAt(a: Bits, b: Bits, c: Bits)
    requires |a| == |b| == |c|
    ensures a == Plus(b, c) <==> forall i :: 0 <= i < |a| ==> a[i] == (b[i] != c[i])
  {
    if a == Plus(b, c) {
      forall i | 0 <= i < |a| ensures a[i] == (b[i] != c[i]) {
        assert a[i] == Plus(b, c)[i];
      }
    }
  }

  /** Behind the zeros, the register's next value. */
  lemma NextRegister(n: nat, reg: bv16, b: bool, i: nat)
    requires i < n + 17
    ensures var top, w, w' := WordBits(reg)[0], WordBits(reg), WordBits(Step(reg, BitWord(b)));
            var kept := if i < n + 16 then (Nought(n) + w)[i] else b;
            (Nought(n + 1) + w')[i] == (kept != (top && (Nought(n) + DIVISOR)[i]))
  {
    var top, w, w' := WordBits(reg)[0], WordBits(reg), WordBits(Step(reg, BitWord(b)));
    StepBits(reg, b);
    hide Step, BitWord, WordBits;
    var s, g := w[1..] + [b], if top then DIVISOR[1..] else Nought(16);
    PlusAt(w', s, g);
    if i > n {
      var k := i - n - 1;
      assert w'[k] == (s[k] != g[k]);
      assert (Nought(n) + DIVISOR)[i] == DIVISOR[k + 1] && (Nought(n + 1) + w')[i] == w'[k];
      if i < n + 16 {
        assert s[k] == w[k + 1] == (Nought(n) + w)[i];
      }
    }
  }

  /** Long division, one bit: the quotient gets the bit that falls out of the register. */
  lemma DividesMore(bits: Bits, q: Bits, reg: bv16, b: bool)
    requires Divides(bits, q, reg)
    ensures Divides(bits + [b], q + [WordBits(reg)[0]], Step(reg, BitWord(b)))
  {
    var n := |bits|;
    var top := WordBits(reg)[0];
    var w, w' := WordBits(reg), WordBits(Step(reg, BitWord(b)));
    var t, t' := Times(q), Times(q + [top]);
    TimesMore(q, top);
    hide Step, BitWord, WordBits, Times, Plus;
    var left, left' := Nought(16) + bits, Nought(16) + (bits + [b]);
    PlusAt(left, t, Nought(n) + w);
    if top {
      PlusAt(t', t + [false], Nought(n) + DIVISOR);
    }
    forall i: nat | i < n + 17 ensures left'[i] == (t'[i] != (Nought(n + 1) + w')[i]) {
      NextRegister(n, reg, b, i);
      assert left'[i] == if i < n + 16 then left[i] else b;
    }
    PlusAt(left', t', Nought(n + 1) + w');
  }

  lemma TimesMore(q: Bits, b: bool)
    ensures var shifted := Times(q) + [false];
            Times(q + [b]) == if b then Plus(shifted, Nought(|q|) + DIVISOR) else shifted
  {
    assert (q + [b])[..|q|] == q;
  }

  // --------------------------------------------------------------- messages

  predicate BitSet(b: bv8, k: nat)
    requires k < 8
  {
    (b >> k) & 1 == 1
  }

  /** The bits of a byte, most significant first. */
  function ByteBits(b: bv8): (s: Bits)
    ensures |s| == 8
  {
    [BitSet(b, 7), BitSet(b, 6), BitSet(b, 5), BitSet(b, 4), BitSet(b, 3), BitSet(b, 2), BitSet(b, 1), BitSet(b, 0)]
  }

  function MessageBits(data: seq<bv8>): (s: Bits)
    ensures |s| == 8 * |data|
  {
    if data == [] then [] else MessageBits(data[..|data| - 1]) + ByteBits(data[|data| - 1])
  }

  lemma MessageBitsMore(data: seq<bv8>, b: bv8)
    ensures MessageBits(data + [b]) == MessageBits(data) + ByteBits(b)
  {
    assert (data + [b])[..|data|] == data;
    hide ByteBits;
  }

  lemma BitsAreWords(b: bv8)
    ensures Bit(b, 7) == BitWord(BitSet(b, 7)) && Bit(b, 6) == BitWord(BitSet(b, 6))
    ensures Bit(b, 5) == BitWord(BitSet(b, 5)) && Bit(b, 4) == BitWord(BitSet(b, 4))
    ensures Bit(b, 3) == BitWord(BitSet(b, 3)) && Bit(b, 2) == BitWord(BitSet(b, 2))
    ensures Bit(b, 1) == BitWord(BitSet(b, 1)) && Bit(b, 0) == BitWord(BitSet(b, 0))
  {
  }

  lemma FourMore(bits: Bits, b0: bool, b1: bool, b2: bool, b3: bool)
    ensures bits + [b0] + [b1] + [b2] + [b3] == bits + [b0, b1, b2, b3]
  {
  }

  lemma FourIs(reg: bv16, b0: bv16, b1: bv16, b2: bv16, b3: bv16)
    ensures Four(reg, b0, b1, b2, b3) == Step(Step(Step(Step(reg, b0), b1), b2), b3)
  {
    hide Step;
  }

  /** Four steps. */
  lemma FourDivide(bits: Bits, q: Bits, reg: bv16, b0: bool, b1: bool, b2: bool, b3: bool) returns (q': Bits)
    requires Divides(bits, q, reg)
    ensures Divides(bits + [b0, b1, b2, b3], q', Four(reg, BitWord(b0), BitWord(b1), BitWord(b2), BitWord(b3)))
  {
    var r1 := Step(reg, BitWord(b0));
    var r2 := Step(r1, BitWord(b1));
    var r3 := Step(r2, BitWord(b2));
    hide *;
    var q1, q2, q3 := q + [WordBits(reg)[0]], [], [];
    q2 := q1 + [WordBits(r1)[0]];
    q3 := q2 + [WordBits(r2)[0]];
    DividesMore(bits, q, reg, b0);
    DividesMore(bits + [b0], q1, r1, b1);
    DividesMore(bits + [b0] + [b1], q2, r2, b2);
    DividesMore(bits + [b0] + [b1] + [b2], q3, r3, b3);
    q' := q3 + [WordBits(r3)[0]];
    FourMore(bits, b0, b1, b2, b3);
    FourIs(reg, BitWord(b0), BitWord(b1), BitWord(b2), BitWord(b3));
  }

  lemma ByteIs(bits: Bits, b: bv8)
    ensures bits + ByteBits(b)
         == bits + [BitSet(b, 7), BitSet(b, 6), BitSet(b, 5), BitSet(b, 4)]
                 + [BitSet(b, 3), BitSet(b, 2), BitSet(b, 1), BitSet(b, 0)]
  {
    hide BitSet;
  }

  lemma StepByteIs(reg: bv16, b: bv8)
    ensures StepByte(reg, b)
         == Four(Four(reg, BitWord(BitSet(b, 7)), BitWord(BitSet(b, 6)), BitWord(BitSet(b, 5)), BitWord(BitSet(b, 4))),
                 BitWord(BitSet(b, 3)), BitWord(BitSet(b, 2)), BitWord(BitSet(b, 1)), BitWord(BitSet(b, 0)))
  {
    BitsAreWords(b);
    hide Four, Bit, BitWord, BitSet;
  }

  lemma ByteDivides(bits: Bits, q: Bits, reg: bv16, b: bv8) returns (q': Bits)
    requires Divides(bits, q, reg)
    ensures Divides(bits + ByteBits(b), q', StepByte(reg, b))
  {
    hide *;
    ByteIs(bits, b);
    StepByteIs(reg, b);
    q' := FourDivide(bits, q, reg, BitSet(b, 7), BitSet(b, 6), BitSet(b, 5), BitSet(b, 4));
    q' := FourDivide(bits + [BitSet(b, 7), BitSet(b, 6), BitSet(b, 5), BitSet(b, 4)], q',
                     Four(reg, BitWord(BitSet(b, 7)), BitWord(BitSet(b, 6)), BitWord(BitSet(b, 5)),
                          BitWord(BitSet(b, 4))),
                     BitSet(b, 3), BitSet(b, 2), BitSet(b, 1), BitSet(b, 0));
  }

  lemma {:induction false} RegisterDivides(data: seq<bv8>) returns (q: Bits)
    ensures Divides(MessageBits(data), q, Register(data))
  {
    if data == [] {
      q := [];
      DividesNone();
    } else {
      var n := |data| - 1;
      assert data == data[..n] + [data[n]];
      MessageBitsMore(data[..n], data[n]);
      RegisterMore(data[..n], data[n]);
      hide Divides, StepByte, ByteBits;
      q := RegisterDivides(data[..n]);
      q := ByteDivides(MessageBits(data[..n]), q, Register(data[..n]), data[n]);
    }
  }

  lemma ZeroByte(n: nat)
    ensures ByteBits(0) == Nought(8)
  {
  }

  lemma PaddedBits(data: seq<bv8>)
    ensures MessageBits(data + Zeroes(2)) == MessageBits(data) + Nought(16)
  {
    ZeroByte(0);
    MessageBitsMore(data, 0);
    MessageBitsMore(data + [0], 0);
    assert data + Zeroes(2) == data + [0] + [0];
    assert MessageBits(data) + Nought(8) + Nought(8) == MessageBits(data) + Nought(16);
    hide ByteBits, MessageBits;
  }

  /** The message times x^16 (its bits followed by 16 zeros; the zeros in front change nothing) is a
      multiple of the generator plus the checksum. */
  lemma ChecksumIsRemainder(data: seq<bv8>) returns (q: Bits)
    ensures |q| == 8 * |data| + 16
    ensures Nought(16) + (MessageBits(data) + Nought(16)) == Plus(Times(q), Nought(|q|) + WordBits(Checksum(data)))
  {
    q := RegisterDivides(data + Zeroes(2));
    PaddedBits(data);
    hide MessageBits, Times, WordBits;
  }

  // -------------------------------------------------------------- uniqueness

  /** Two multiples of the generator that agree in all but the last 16 bits are the same multiple. */
  lemma {:induction false} QuotientUnique(q1: Bits, q2: Bits)
    requires |q1| == |q2|
    requires forall i :: 0 <= i < |q1| ==> Times(q1)[i] == Times(q2)[i]
    ensures q1 == q2
  {
    if q1 != [] {
      var n := |q1| - 1;
      var a, b := q1[..n], q2[..n];
      assert q1 == a + [q1[n]] && q2 == b + [q2[n]];
      TimesMore(a, q1[n]);
      TimesMore(b, q2[n]);
      forall i | 0 <= i < n ensures Times(a)[i] == Times(b)[i] {
        assert Times(q1)[i] == Times(q2)[i];
      }
      QuotientUnique(a, b);
      assert Times(q1)[n] == Times(q2)[n];
    }
  }

  lemma BehindNought(n: nat, r: Bits)
    ensures |Nought(n)| == n && forall i :: 0 <= i < n ==> !(Nought(n) + r)[i]
    ensures forall i :: 0 <= i < |r| ==> (Nought(n) + r)[n + i] == r[i]
  {
  }

  /** A remainder of 16 bits is unique. */
  lemma RemainderUnique(p: Bits, q1: Bits, r1: Bits, q2: Bits, r2: Bits)
    requires |q1| == |q2| && |r1| == |r2| == 16
    requires p == Plus(Times(q1), Nought(|q1|) + r1) == Plus(Times(q2), Nought(|q2|) + r2)
    ensures q1 == q2 && r1 == r2
  {
    var n := |q1|;
    var z1, z2 := Nought(n) + r1, Nought(n) + r2;
    hide Times, Plus, Nought;
    PlusAt(p, Times(q1), z1);
    PlusAt(p, Times(q2), z2);
    BehindNought(n, r1);
    BehindNought(n, r2);
    forall i | 0 <= i < n ensures Times(q1)[i] == Times(q2)[i] {
      assert !z1[i] && !z2[i];
    }
    QuotientUnique(q1, q2);
    forall i | 0 <= i < 16 ensures r1[i] == r2[i] {
      assert p[n + i] == (Times(q1)[n + i] != z1[n + i]) == (Times(q2)[n + i] != z2[n + i]);
    }
  }
}
