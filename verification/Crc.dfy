/**
 The checksum of the boot downloader: table-driven, over an integer that is never masked, and
 equal to the remainder of polynomial division.
 */
module Crc {
  import opened CrcTable

  /** A non-negative integer of any size: its low 16 bits, and the bytes above them (`Value`). */
  datatype Integer = Integer(high: seq<bv8>, low: bv16)

  /** (n << 8) | b */
  function ShiftIn(n: Integer, b: bv8): Integer {
    Integer(n.high + [Top(n.low)], Behind(n.low, b))
  }

  /** n ^ w, for a 16-bit word. */
  function XorWord(n: Integer, w: bv16): Integer { n.(low := Xor(n.low, w)) }

  /** (n >> 8) & 0xff */
  function SecondByte(n: Integer): bv8 { Top(n.low) }

  lemma XorRegroups(a: bv16, b: bv16, c: bv16)
    ensures Xor(Xor(a, b), c) == Xor(Xor(a, c), b)
  {
  }

  lemma XorCommutes(a: bv16, b: bv16)
    ensures Xor(a, b) == Xor(b, a)
  {
  }

  lemma PushDistributes(h: bv16, l: bv16, b: bv16)
    requires b <= 1
    ensures Push(Xor(h, l), b) == Xor(Push(h, 0), Push(l, b))
  {
  }

  /** Bits that do not reach the top are just shifted. */
  lemma StepSplit(h: bv16, l: bv16, b: bv16)
    requires l < 0x8000 && b <= 1
    ensures Step(Xor(h, l), b) == Xor(Step(h, 0), Push(l, b))
  {
    var g := if h & 0x8000 == 0 then 0 else GENERATOR;
    SameTop(h, l);
    StepIs(h, 0, g);
    StepIs(Xor(h, l), b, g);
    hide *;
    PushDistributes(h, l, b);
    XorRegroups(Push(h, 0), Push(l, b), g);
  }

  lemma StepIs(reg: bv16, b: bv16, g: bv16)
    requires g == if reg & 0x8000 == 0 then 0 else GENERATOR
    ensures Step(reg, b) == Xor(Push(reg, b), g)
  {
    hide Xor, Push;
  }

  lemma SameTop(h: bv16, l: bv16)
    requires l < 0x8000
    ensures Xor(h, l) & 0x8000 == h & 0x8000
  {
  }

  function PushFour(l: bv16, b0: bv16, b1: bv16, b2: bv16, b3: bv16): bv16 {
    Push(Push(Push(Push(l, b0), b1), b2), b3)
  }

  /** Four bits pushed behind a small number never reach the top. */
  lemma PushBounds(l: bv16, b0: bv16, b1: bv16, b2: bv16, b3: bv16)
    requires l < 0x1000 && b0 <= 1 && b1 <= 1 && b2 <= 1 && b3 <= 1
    ensures l < 0x8000 && Push(l, b0) < 0x8000 && Push(Push(l, b0), b1) < 0x8000
    ensures Push(Push(Push(l, b0), b1), b2) < 0x8000
    ensures l < 0x100 ==> PushFour(l, b0, b1, b2, b3) < 0x1000
  {
  }

  lemma FourSplit(h: bv16, l: bv16, b0: bv16, b1: bv16, b2: bv16, b3: bv16)
    requires l < 0x1000 && b0 <= 1 && b1 <= 1 && b2 <= 1 && b3 <= 1
    ensures Four(Xor(h, l), b0, b1, b2, b3) == Xor(Four(h, 0, 0, 0, 0), PushFour(l, b0, b1, b2, b3))
  {
    var l1 := Push(l, b0);
    var l2 := Push(l1, b1);
    var l3 := Push(l2, b2);
    PushBounds(l, b0, b1, b2, b3);
    StepSplit(h, l, b0);
    StepSplit(Step(h, 0), l1, b1);
    StepSplit(Step(Step(h, 0), 0), l2, b2);
    StepSplit(Step(Step(Step(h, 0), 0), 0), l3, b3);
    hide Step, Push, Xor;
  }

  lemma BitBound(b: bv8)
    ensures Bit(b, 7) <= 1 && Bit(b, 6) <= 1 && Bit(b, 5) <= 1 && Bit(b, 4) <= 1
    ensures Bit(b, 3) <= 1 && Bit(b, 2) <= 1 && Bit(b, 1) <= 1 && Bit(b, 0) <= 1
  {
  }

  lemma NoBits()
    ensures Bit(0, 7) == 0 && Bit(0, 6) == 0 && Bit(0, 5) == 0 && Bit(0, 4) == 0
    ensures Bit(0, 3) == 0 && Bit(0, 2) == 0 && Bit(0, 1) == 0 && Bit(0, 0) == 0
  {
  }

  /** A byte pushed in bit by bit. */
  function PushByte(l: bv16, b: bv8): bv16 {
    PushFour(PushFour(l, Bit(b, 7), Bit(b, 6), Bit(b, 5), Bit(b, 4)), Bit(b, 3), Bit(b, 2), Bit(b, 1), Bit(b, 0))
  }

  lemma PushByteIs(l: bv16, b: bv8)
    ensures PushByte(l, b) == (l << 8) | (b as bv16)
  {
  }

  /** The lower byte of the register and the byte coming in are just shifted. */
  lemma ByteSplit(h: bv16, l: bv16, b: bv8)
    requires l < 0x100
    ensures StepByte(Xor(h, l), b) == Xor(StepByte(h, 0), PushByte(l, b))
  {
    BitBound(b);
    NoBits();
    PushBounds(l, Bit(b, 7), Bit(b, 6), Bit(b, 5), Bit(b, 4));
    FourSplit(h, l, Bit(b, 7), Bit(b, 6), Bit(b, 5), Bit(b, 4));
    var l4 := PushFour(l, Bit(b, 7), Bit(b, 6), Bit(b, 5), Bit(b, 4));
    FourSplit(Four(h, 0, 0, 0, 0), l4, Bit(b, 3), Bit(b, 2), Bit(b, 1), Bit(b, 0));
    hide Four, PushFour, Bit, Xor;
  }

  /** The upper byte of the register, also in its place, and the lower byte. */
  function Top(reg: bv16): bv8 { (reg >> 8) as bv8 }

  function TopInPlace(reg: bv16): bv16 { (Top(reg) as bv16) << 8 }

  function Rest(reg: bv16): bv16 { reg & 0xff }

  /** (reg << 8) | b */
  function Behind(reg: bv16, b: bv8): bv16 { (reg << 8) | (b as bv16) }

  lemma Parts(reg: bv16)
    ensures Xor(TopInPlace(reg), Rest(reg)) == reg && Rest(reg) < 0x100
  {
  }

  lemma PushRest(reg: bv16, b: bv8)
    ensures PushByte(Rest(reg), b) == Behind(reg, b)
  {
    PushByteIs(Rest(reg), b);
    hide PushByte;
  }

  lemma TopRemains(reg: bv16)
    ensures StepByte(TopInPlace(reg), 0) == Table(Top(reg))
  {
    TableIsDivision(Top(reg));
    hide Table, StepByte;
  }

  /** Eight steps of the division by table lookup. */
  lemma StepByteByTable(reg: bv16, b: bv8)
    ensures StepByte(reg, b) == Xor(Behind(reg, b), Table(Top(reg)))
  {
    hide *;
    Parts(reg);
    TopRemains(reg);
    ByteSplit(TopInPlace(reg), Rest(reg), b);
    PushRest(reg, b);
    XorCommutes(Behind(reg, b), Table(Top(reg)));
  }

  // ------------------------------------------------------------- the checksum

  /** The register after some bytes. */
  function Register(data: seq<bv8>): bv16 {
    if data == [] then 0 else StepByte(Register(data[..|data| - 1]), data[|data| - 1])
  }

  lemma RegisterNone()
    ensures Register([]) == 0
  {
  }

  lemma RegisterMore(data: seq<bv8>, b: bv8)
    ensures Register(data + [b]) == StepByte(Register(data), b)
  {
    assert (data + [b])[..|data|] == data;
    hide StepByte;
  }

  function Zeroes(n: nat): seq<bv8> { seq(n, i => 0) }

  lemma ZeroesMore(n: nat)
    ensures Zeroes(0) == [] && Zeroes(n + 1) == Zeroes(n) + [0]
  {
  }

  /** The checksum: two more zero bytes go through the register. */
  function Checksum(data: seq<bv8>): bv16 { Register(data + Zeroes(2)) }

  /** One turn of the loops below. */
  function Feed(n: Integer, b: bv8): Integer { XorWord(ShiftIn(n, b), Table(SecondByte(n))) }

  lemma FeedSteps(n: Integer, b: bv8, data: seq<bv8>)
    requires n.low == Register(data)
    ensures Feed(n, b).low == Register(data + [b])
  {
    StepByteByTable(n.low, b);
    RegisterMore(data, b);
    hide StepByte, Table, Register, Xor, Behind, Top;
  }

  // -------------------------------------------------- the integer as a number

  /** Exclusive or of two numbers, binary digit by binary digit. */
  function XorNumber(a: nat, b: nat): nat
    decreases a + b
  {
    if a == 0 && b == 0 then 0 else 2 * XorNumber(a / 2, b / 2) + (if a % 2 == b % 2 then 0 else 1)
  }

  function Number(b: bv8): (n: nat)
    ensures n < 256
  {
    b as nat
  }

  function WordNumber(w: bv16): nat { w as nat }

  function Upper(high: seq<bv8>): nat {
    if high == [] then 0 else 256 * Upper(high[..|high| - 1]) + Number(high[|high| - 1])
  }

  /** The number that an integer is. */
  function Value(n: Integer): nat { 0x1_0000 * Upper(n.high) + WordNumber(n.low) }

  function Digit(b: bv8, mask: bv8): nat { if b & mask == 0 then 0 else 1 }

  /** One more binary digit, the one of b at the mask. */
  function Append(x: nat, b: bv8, mask: bv8): nat { 2 * x + Digit(b, mask) }

  /** The upper and the lower four binary digits of a byte behind those of x. */
  function UpperDigits(x: nat, b: bv8): nat { Append(Append(Append(Append(x, b, 128), b, 64), b, 32), b, 16) }

  function LowerDigits(x: nat, b: bv8): nat { Append(Append(Append(Append(x, b, 8), b, 4), b, 2), b, 1) }

  function Digits(x: nat, b: bv8): nat { LowerDigits(UpperDigits(x, b), b) }

  lemma ByteDigits(b: bv8)
    ensures Number(b) == 128 * Digit(b, 128) + 64 * Digit(b, 64) + 32 * Digit(b, 32) + 16 * Digit(b, 16)
                         + 8 * Digit(b, 8) + 4 * Digit(b, 4) + 2 * Digit(b, 2) + Digit(b, 1)
  {
  }

  lemma DigitsAre(x: nat, b: bv8)
    ensures Digits(x, b) == 256 * x + Number(b)
  {
    ByteDigits(b);
    hide Digit, Number;
  }

  lemma WordDigits(w: bv16)
    ensures w as nat == 256 * (((w >> 8) as bv8) as nat) + ((w & 0xff) as bv8) as nat
  {
  }

  lemma WordBytes(w: bv16)
    ensures WordNumber(w) == 256 * Number(Top(w)) + Number(Low(w))
  {
    WordDigits(w);
    assert Top(w) == (w >> 8) as bv8 && Low(w) == (w & 0xff) as bv8;
    assert Number(Top(w)) == ((w >> 8) as bv8) as nat && Number(Low(w)) == ((w & 0xff) as bv8) as nat;
    assert WordNumber(w) == w as nat;
    hide *;
  }

  lemma XorDigit(x: nat, y: nat, d: nat, e: nat)
    requires d <= 1 && e <= 1
    ensures XorNumber(2 * x + d, 2 * y + e) == 2 * XorNumber(x, y) + (if d == e then 0 else 1)
  {
    assert (2 * x + d) / 2 == x && (2 * y + e) / 2 == y;
  }

  predicate OneBit(m: bv8) {
    m == 128 || m == 64 || m == 32 || m == 16 || m == 8 || m == 4 || m == 2 || m == 1
  }

  lemma DigitXor(a: bv8, b: bv8, m: bv8)
    requires OneBit(m)
    ensures Digit(a ^ b, m) == (if Digit(a, m) == Digit(b, m) then 0 else 1)
  {
  }

  lemma XorAppend(x: nat, y: nat, a: bv8, b: bv8, m: bv8)
    requires OneBit(m)
    ensures XorNumber(Append(x, a, m), Append(y, b, m)) == Append(XorNumber(x, y), a ^ b, m)
  {
    DigitXor(a, b, m);
    XorDigit(x, y, Digit(a, m), Digit(b, m));
    hide XorNumber, OneBit;
  }

  lemma XorUpper(x: nat, y: nat, a: bv8, b: bv8)
    ensures XorNumber(UpperDigits(x, a), UpperDigits(y, b)) == UpperDigits(XorNumber(x, y), a ^ b)
  {
    hide XorNumber, Append;
    XorAppend(x, y, a, b, 128);
    var x1, y1 := Append(x, a, 128), Append(y, b, 128);
    XorAppend(x1, y1, a, b, 64);
    var x2, y2 := Append(x1, a, 64), Append(y1, b, 64);
    XorAppend(x2, y2, a, b, 32);
    XorAppend(Append(x2, a, 32), Append(y2, b, 32), a, b, 16);
  }

  lemma XorLower(x: nat, y: nat, a: bv8, b: bv8)
    ensures XorNumber(LowerDigits(x, a), LowerDigits(y, b)) == LowerDigits(XorNumber(x, y), a ^ b)
  {
    hide XorNumber, Append;
    XorAppend(x, y, a, b, 8);
    var x1, y1 := Append(x, a, 8), Append(y, b, 8);
    XorAppend(x1, y1, a, b, 4);
    var x2, y2 := Append(x1, a, 4), Append(y1, b, 4);
    XorAppend(x2, y2, a, b, 2);
    XorAppend(Append(x2, a, 2), Append(y2, b, 2), a, b, 1);
  }

  /** Bytes are combined one by one. */
  lemma XorBytes(x: nat, y: nat, a: bv8, b: bv8)
    ensures XorNumber(256 * x + Number(a), 256 * y + Number(b)) == 256 * XorNumber(x, y) + Number(a ^ b)
  {
    DigitsAre(x, a);
    DigitsAre(y, b);
    DigitsAre(XorNumber(x, y), a ^ b);
    XorUpper(x, y, a, b);
    XorLower(UpperDigits(x, a), UpperDigits(y, b), a, b);
    hide XorNumber, UpperDigits, LowerDigits, Number;
  }

  lemma {:induction false} XorNothing(a: nat)
    ensures XorNumber(a, 0) == a
  {
    if a > 0 {
      XorNothing(a / 2);
    }
  }

  lemma XorParts(a: bv16, b: bv16)
    ensures Top(Xor(a, b)) == Top(a) ^ Top(b) && Low(Xor(a, b)) == Low(a) ^ Low(b)
  {
  }

  lemma BehindParts(w: bv16, b: bv8)
    ensures Top(Behind(w, b)) == Low(w) && Low(Behind(w, b)) == b
  {
  }

  /** What is done to an integer is the arithmetic of the unbounded number: shifting in a byte. */
  lemma ShiftInIs(n: Integer, b: bv8)
    ensures Value(ShiftIn(n, b)) == 256 * Value(n) + Number(b)
  {
    var m := ShiftIn(n, b);
    assert m.high[..|n.high|] == n.high && m.high[|n.high|] == Top(n.low);
    WordBytes(n.low);
    WordBytes(m.low);
    BehindParts(n.low, b);
    hide Top, Low, Behind, Number, WordNumber;
  }

  lemma XorWords(h: nat, a: bv16, b: bv16)
    ensures XorNumber(0x1_0000 * h + WordNumber(a), WordNumber(b)) == 0x1_0000 * h + WordNumber(Xor(a, b))
  {
    hide *;
    WordBytes(a);
    WordBytes(b);
    WordBytes(Xor(a, b));
    XorParts(a, b);
    XorBytes(h, 0, Top(a), Top(b));
    XorNothing(h);
    XorBytes(256 * h + Number(Top(a)), Number(Top(b)), Low(a), Low(b));
  }

  /** Exclusive or with a word. */
  lemma XorWordIs(n: Integer, w: bv16)
    ensures Value(XorWord(n, w)) == XorNumber(Value(n), WordNumber(w))
  {
    hide Xor, Upper, WordNumber, XorNumber;
    XorWords(Upper(n.high), n.low, w);
  }

  lemma Quotients(h: nat, t: nat, l: nat)
    requires t < 256 && l < 256
    ensures var v := 0x1_0000 * h + (256 * t + l); v / 256 % 256 == t && v % 0x1_0000 == 256 * t + l
  {
    var v := 0x1_0000 * h + (256 * t + l);
    assert v / 256 == 256 * h + t;
  }

  /** The byte that selects the table entry, and the last sixteen bits. */
  lemma PartsAre(n: Integer)
    ensures Number(SecondByte(n)) == Value(n) / 256 % 256 && WordNumber(n.low) == Value(n) % 0x1_0000
  {
    WordBytes(n.low);
    assert SecondByte(n) == Top(n.low) && Value(n) == 0x1_0000 * Upper(n.high) + WordNumber(n.low);
    hide *;
    Quotients(Upper(n.high), Number(Top(n.low)), Number(Low(n.low)));
  }

  /** The table entry i as a number. */
  function Entry(i: nat): nat
    requires i < 256
  {
    WordNumber(Table(i as bv8))
  }

  lemma EntryOf(b: bv8)
    ensures Entry(Number(b)) == WordNumber(Table(b))
  {
    hide Table, WordNumber;
    assert (b as nat) as bv8 == b;
  }

  /** One turn of the loops, on the number. */
  function Turn(crc: nat, next: nat): nat { XorNumber(256 * crc + next, Entry(crc / 256 % 256)) }

  lemma TurnFeeds(n: Integer, b: bv8)
    ensures Turn(Value(n), Number(b)) == Value(Feed(n, b))
  {
    hide Value, Table, SecondByte, ShiftIn, XorWord, XorNumber, Number, WordNumber, Entry;
    ShiftInIs(n, b);
    PartsAre(n);
    EntryOf(SecondByte(n));
    XorWordIs(ShiftIn(n, b), Table(SecondByte(n)));
  }

  lemma LastWord(n: Integer)
    ensures (Value(n) % 0x1_0000) as bv16 == n.low
  {
    PartsAre(n);
    WordBack(n.low);
    hide Value, WordNumber;
  }

  lemma WordBack(w: bv16)
    ensures WordNumber(w) < 0x1_0000 && WordNumber(w) as bv16 == w
  {
  }

  /** The checksum, over a number that is never masked but at the end. */
  method CalcCrc(data: seq<bv8>) returns (crc: bv16)
    ensures crc == Checksum(data)
  {
    hide Register, Feed, Zeroes, Checksum, Turn, Value;
    var n: nat := 0;
    ghost var g := Integer([], 0);
    ValueNone();
    RegisterNone();
    assert data[..0] == [];
    for i := 0 to |data|
      invariant n == Value(g) && g.low == Register(data[..i])
    {
      FeedSteps(g, data[i], data[..i]);
      TurnFeeds(g, data[i]);
      assert data[..i + 1] == data[..i] + [data[i]];
      n, g := Turn(n, Number(data[i])), Feed(g, data[i]);
    }
    assert data[..|data|] == data;
    ZeroesMore(0);
    assert data + [] == data;
    for i := 0 to 2
      invariant n == Value(g) && g.low == Register(data + Zeroes(i))
    {
      FeedSteps(g, 0, data + Zeroes(i));
      TurnFeeds(g, 0);
      ZeroesMore(i);
      assert data + Zeroes(i) + [0] == data + (Zeroes(i) + [0]);
      n, g := Turn(n, Number(0)), Feed(g, 0);
    }
    LastWord(g);
    crc := (n % 0x1_0000) as bv16;
    IsChecksum(data);
  }

  lemma ValueNone()
    ensures Value(Integer([], 0)) == 0
  {
  }

  lemma IsChecksum(data: seq<bv8>)
    ensures Checksum(data) == Register(data + Zeroes(2))
  {
  }

  // ------------------------------------------------------------ self-checking

  /** The bytes of a word: the upper byte is Top. */
  function Low(w: bv16): bv8 { (w & 0xff) as bv8 }

  function Word(b: bv8): bv16 { b as bv16 }

  lemma XorZero(r: bv16)
    ensures Xor(r, 0) == r && Xor(r, r) == 0
  {
  }

  lemma PushZero(x: bv8)
    ensures PushByte(0, x) == Word(x)
  {
    PushByteIs(0, x);
    hide PushByte;
  }

  lemma XorByte(r: bv16, x: bv8)
    ensures StepByte(r, x) == Xor(StepByte(r, 0), Word(x))
  {
    hide *;
    ByteSplit(r, 0, x);
    PushZero(x);
    XorZero(r);
  }

  lemma PushBoth(w: bv16)
    ensures Word(Top(w)) < 0x100 && PushByte(Word(Top(w)), Low(w)) == w
  {
    PushByteIs(Word(Top(w)), Low(w));
    hide PushByte;
  }

  /** Two bytes shifted in behind the register. */
  lemma TwoBytes(reg: bv16, w: bv16)
    ensures StepByte(StepByte(reg, Top(w)), Low(w)) == Xor(StepByte(StepByte(reg, 0), 0), w)
  {
    hide *;
    XorByte(reg, Top(w));
    PushBoth(w);
    ByteSplit(StepByte(reg, 0), Word(Top(w)), Low(w));
  }

  lemma ChecksumMore(data: seq<bv8>)
    ensures Checksum(data) == StepByte(StepByte(Register(data), 0), 0)
  {
    ZeroesMore(0);
    ZeroesMore(1);
    assert data + Zeroes(2) == data + [0] + [0];
    RegisterMore(data, 0);
    RegisterMore(data + [0], 0);
    hide StepByte, Register;
  }

  lemma ZeroStays()
    ensures StepByte(0, 0) == 0
  {
  }

  /** Data with its checksum appended, more significant byte first. */
  function Sealed(data: seq<bv8>): seq<bv8> { data + [Top(Checksum(data))] + [Low(Checksum(data))] }

  /** Data followed by its own checksum has checksum zero. */
  lemma SelfChecking(data: seq<bv8>)
    ensures Checksum(Sealed(data)) == 0
  {
    var c := Checksum(data);
    ChecksumMore(data);
    RegisterMore(data, Top(c));
    RegisterMore(data + [Top(c)], Low(c));
    TwoBytes(Register(data), c);
    XorZero(c);
    ZeroStays();
    ChecksumMore(Sealed(data));
    hide StepByte, Register, Checksum, Top, Low, Xor;
  }
}
