/**
 The frames of the serial boot downloader: a head frame with length and address, data frames of at
 most 1024 bytes with a running number, and a tail frame; each ends with its checksum.
 */
module Frames {
  import opened Crc

  type Frame = seq<bv8>

  // Most data bytes in one frame.
  const CHUNK: nat := 0x400

  /** n & 0xff */
  function Byte(n: nat): bv8 { (n % 256) as bv8 }

  /** (~n) & 0xff */
  function Inverse(n: nat): bv8 { (255 - n % 256) as bv8 }

  /** A 32-bit number, most significant byte first. */
  function Word32(n: nat): (s: seq<bv8>)
    ensures |s| == 4
  {
    [Byte(n / 0x100_0000), Byte(n / 0x1_0000), Byte(n / 0x100), Byte(n)]
  }

  /** The number that four bytes stand for, most significant byte first. */
  function Decoded(s: seq<bv8>): nat
    requires |s| == 4
  {
    0x100_0000 * Number(s[0]) + 0x1_0000 * Number(s[1]) + 0x100 * Number(s[2]) + Number(s[3])
  }

  lemma ByteNumber(n: nat)
    ensures Number(Byte(n)) == n % 256
  {
    SmallBack(n % 256);
    hide Number;
    assert Number(Byte(n)) == ((n % 256) as bv8) as nat by {
      NumberIs(Byte(n));
    }
  }

  lemma Successor(b: bv8)
    requires b < 255
    ensures (b + 1) as nat == b as nat + 1
  {
  }

  lemma Below(b: bv8, y: nat)
    requires b as nat == y < 255
    ensures b < 255
  {
  }

  /** Every number below 256 is that of a byte. */
  lemma {:induction false} ByteOf(x: nat) returns (b: bv8)
    requires x < 256
    ensures b as nat == x
  {
    if x == 0 {
      b := 0;
    } else {
      b := ByteOf(x - 1);
      Below(b, x - 1);
      Successor(b);
      b := b + 1;
    }
  }

  lemma SmallBack(x: nat)
    requires x < 256
    ensures (x as bv8) as nat == x
  {
    var b := ByteOf(x);
    assert (b as nat) as bv8 == b;
  }

  lemma NumberIs(b: bv8)
    ensures Number(b) == b as nat
  {
  }

  /** Decoding the four bytes gives the number modulo 2^32. */
  lemma Word32Decodes(n: nat)
    ensures Decoded(Word32(n)) == n % 0x1_0000_0000
  {
    ByteNumber(n);
    ByteNumber(n / 0x100);
    ByteNumber(n / 0x1_0000);
    ByteNumber(n / 0x100_0000);
    Digits(n);
    hide Byte, Number;
  }

  /** The head frame carries length and address, modulo 2^32, behind its four leading bytes. */
  lemma HeadCarries(length: nat, address: nat)
    ensures var f := HeadFrame(length, address);
            && |f| == 14 && Decoded(f[4..8]) == length % 0x1_0000_0000 && Decoded(f[8..12]) == address % 0x1_0000_0000
  {
    Word32Decodes(length);
    Word32Decodes(address);
    hide Word32, Decoded;
    var f := HeadFrame(length, address);
    assert f[4..8] == Word32(length) && f[8..12] == Word32(address);
  }

  /** The digits that Word32 turns into bytes. */
  lemma Digits(n: nat)
    ensures n % 0x1_0000_0000
         == 0x100_0000 * (n / 0x100_0000 % 0x100) + 0x1_0000 * (n / 0x1_0000 % 0x100)
            + 0x100 * (n / 0x100 % 0x100) + n % 0x100
  {
    var q, r, s := n / 0x100, n / 0x1_0000, n / 0x100_0000;
    Digit(n);
    Digit(q);
    Digit(r);
    Digit(s);
    assert q / 0x100 == r && r / 0x100 == s;
    Modulo(n, s / 0x100, (s % 0x100) * 0x100_0000 + (r % 0x100) * 0x1_0000 + (q % 0x100) * 0x100 + n % 0x100);
  }

  lemma Digit(n: nat)
    ensures n == n / 0x100 * 0x100 + n % 0x100 && n % 0x100 < 0x100
  {
  }

  lemma Modulo(n: nat, turns: nat, rest: nat)
    requires n == turns * 0x1_0000_0000 + rest && rest < 0x1_0000_0000
    ensures n % 0x1_0000_0000 == rest
  {
  }

  function HeadFrame(length: nat, address: nat): Frame {
    Sealed([0xFE, 0x00, 0xFF, 0x01] + Word32(length) + Word32(address))
  }

  function DataFrame(number: nat, data: seq<bv8>): Frame {
    Sealed([0xDA, Byte(number), Inverse(number)] + data)
  }

  function TailFrame(number: nat): Frame {
    Sealed([0xED, Byte(number), Inverse(number)])
  }

  /** The data frames from a number on. */
  function DataFrames(data: seq<bv8>, number: nat): seq<Frame> {
    if |data| <= CHUNK then [DataFrame(number, data)]
    else [DataFrame(number, data[..CHUNK])] + DataFrames(data[CHUNK..], number + 1)
  }

  // -------------------------------------------------------------- the receiver

  /** What a data frame carries. */
  function Payload(f: Frame): seq<bv8>
    requires |f| >= 5
  {
    f[3..|f| - 2]
  }

  function Joined(frames: seq<Frame>): seq<bv8>
    requires forall f :: f in frames ==> |f| >= 5
  {
    if frames == [] then [] else Payload(frames[0]) + Joined(frames[1..])
  }

  /** A data frame with a number, as a receiver checks it. */
  predicate GoodFrame(f: Frame, number: nat) {
    && |f| >= 5 && Checksum(f) == 0
    && f[0] == 0xDA && f[1] == Byte(number) && f[2] == Inverse(number)
    && |Payload(f)| <= CHUNK
  }

  lemma DataFrameGood(number: nat, data: seq<bv8>)
    requires |data| <= CHUNK
    ensures GoodFrame(DataFrame(number, data), number) && Payload(DataFrame(number, data)) == data
    ensures |DataFrame(number, data)| == |data| + 5
  {
    SelfChecking([0xDA, Byte(number), Inverse(number)] + data);
    hide Checksum, Top, Low, Byte, Inverse;
  }

  lemma JoinedMore(f: Frame, rest: seq<Frame>)
    requires |f| >= 5 && forall g :: g in rest ==> |g| >= 5
    ensures forall g :: g in [f] + rest ==> |g| >= 5
    ensures Joined([f] + rest) == Payload(f) + Joined(rest)
  {
    assert ([f] + rest)[1..] == rest;
    hide Payload;
  }

  lemma OneChunk(n: nat)
    requires n > CHUNK
    ensures (n + CHUNK - 1) / CHUNK == 1 + (n - CHUNK + CHUNK - 1) / CHUNK
  {
  }

  /** The frames are numbered in order and each is checked by its own checksum. */
  ghost predicate AllGood(frames: seq<Frame>, number: nat) {
    forall i: nat {:trigger frames[i]} :: i < |frames| ==> |frames[i]| >= 5 && GoodFrame(frames[i], number + i)
  }

  lemma AllGoodMore(f: Frame, rest: seq<Frame>, number: nat)
    requires |f| >= 5 && GoodFrame(f, number) && AllGood(rest, number + 1)
    ensures AllGood([f] + rest, number)
  {
    hide GoodFrame;
    var frames := [f] + rest;
    forall i: nat | i < |frames| ensures |frames[i]| >= 5 && GoodFrame(frames[i], number + i) {
      if i > 0 {
        assert frames[i] == rest[i - 1];
        assert number + i == number + 1 + (i - 1);
      }
    }
  }

  lemma {:induction false} FramesCheck(data: seq<bv8>, number: nat)
    ensures AllGood(DataFrames(data, number), number)
  {
    hide GoodFrame, DataFrame, AllGood;
    if |data| <= CHUNK {
      DataFrameGood(number, data);
      NoneGood(number + 1);
      AllGoodMore(DataFrame(number, data), [], number);
      assert [DataFrame(number, data)] + [] == [DataFrame(number, data)];
    } else {
      DataFrameGood(number, data[..CHUNK]);
      FramesCheck(data[CHUNK..], number + 1);
      AllGoodMore(DataFrame(number, data[..CHUNK]), DataFrames(data[CHUNK..], number + 1), number);
    }
  }

  lemma NoneGood(number: nat)
    ensures AllGood([], number)
  {
  }

  /** Together the data frames carry the data. */
  lemma {:induction false} FramesCarryData(data: seq<bv8>, number: nat)
    ensures forall f :: f in DataFrames(data, number) ==> |f| >= 5
    ensures Joined(DataFrames(data, number)) == data
  {
    hide GoodFrame, DataFrame, Payload;
    if |data| <= CHUNK {
      DataFrameGood(number, data);
      JoinedMore(DataFrame(number, data), []);
      assert [DataFrame(number, data)] + [] == [DataFrame(number, data)];
    } else {
      var first, rest := DataFrame(number, data[..CHUNK]), DataFrames(data[CHUNK..], number + 1);
      DataFrameGood(number, data[..CHUNK]);
      FramesCarryData(data[CHUNK..], number + 1);
      JoinedMore(first, rest);
      assert data == data[..CHUNK] + data[CHUNK..];
    }
  }

  /** All frames but the last are full, and there is always one. */
  lemma {:induction false} FramesFull(data: seq<bv8>, number: nat)
    ensures var frames := DataFrames(data, number);
            && (forall i :: 0 <= i < |frames| - 1 ==> |frames[i]| == CHUNK + 5)
            && |frames| == if |data| == 0 then 1 else (|data| + CHUNK - 1) / CHUNK
  {
    hide GoodFrame, DataFrame, Payload;
    if |data| > CHUNK {
      DataFrameGood(number, data[..CHUNK]);
      FramesFull(data[CHUNK..], number + 1);
      OneChunk(|data|);
    }
  }

  /** The head and tail frames check themselves too. */
  lemma EndsCheck(length: nat, address: nat, number: nat)
    ensures Checksum(HeadFrame(length, address)) == 0 && Checksum(TailFrame(number)) == 0
  {
    SelfChecking([0xFE, 0x00, 0xFF, 0x01] + Word32(length) + Word32(address));
    SelfChecking([0xED, Byte(number), Inverse(number)]);
    hide Checksum;
  }

  // ---------------------------------------------------------------- the sender

  lemma HeadIs(h: seq<bv8>, length: nat, address: nat)
    requires |h| == 12 && h[0] == 0xFE && h[1] == 0x00 && h[2] == 0xFF && h[3] == 0x01
    requires h[4] == Byte(length / 0x100_0000) && h[5] == Byte(length / 0x1_0000) && h[6] == Byte(length / 0x100)
    requires h[7] == Byte(length)
    requires h[8] == Byte(address / 0x100_0000) && h[9] == Byte(address / 0x1_0000)
    requires h[10] == Byte(address / 0x100) && h[11] == Byte(address)
    ensures h == [0xFE, 0x00, 0xFF, 0x01] + Word32(length) + Word32(address)
  {
    hide Byte;
    assert h[..4] == [0xFE, 0x00, 0xFF, 0x01];
    assert h[4..8] == Word32(length) && h[8..] == Word32(address);
    assert h == h[..4] + h[4..8] + h[8..];
  }

  class Downloader {
    const head: array<bv8>    // the frame header, edited in place for every file
    var sent: seq<Frame>      // what went out on the line

    ghost predicate Valid()
      reads this, head
    {
      head.Length == 12 && head[0] == 0xFE && head[1] == 0x00 && head[2] == 0xFF && head[3] == 0x01
    }

    constructor ()
      ensures Valid() && sent == [] && fresh(head)
    {
      head := new bv8[12](i => if i == 0 then 0xFE else if i == 2 then 0xFF
                               else if i == 3 then 0x01 else if i == 7 then 0x04
                               else if i == 10 then 0x02 else if i == 11 then 0x01 else 0x00);
      sent := [];
    }

    /** Appends the checksum and sends. */
    method SendSealed(data: seq<bv8>)
      modifies this
      ensures sent == old(sent) + [Sealed(data)]
    {
      hide Checksum, Top, Low;
      var crc := CalcCrc(data);
      sent := sent + [data + [Top(crc)] + [Low(crc)]];
    }

    method SendHeadFrame(length: nat, address: nat)
      requires Valid()
      modifies this, head
      ensures Valid() && sent == old(sent) + [HeadFrame(length, address)]
    {
      hide Byte, Sealed;
      head[4], head[5] := Byte(length / 0x100_0000), Byte(length / 0x1_0000);
      head[6], head[7] := Byte(length / 0x100), Byte(length);
      head[8], head[9] := Byte(address / 0x100_0000), Byte(address / 0x1_0000);
      head[10], head[11] := Byte(address / 0x100), Byte(address);
      var data := head[..];
      HeadIs(data, length, address);
      SendSealed(data);
    }

    method SendDataFrame(number: nat, data: seq<bv8>)
      modifies this
      ensures sent == old(sent) + [DataFrame(number, data)]
    {
      SendSealed([0xDA, Byte(number), Inverse(number)] + data);
    }

    method SendTailFrame(number: nat)
      modifies this
      ensures sent == old(sent) + [TailFrame(number)]
    {
      SendSealed([0xED, Byte(number), Inverse(number)]);
    }

    /** Sends a file: its head frame, its data in order, and the tail frame with the next number. */
    method SendData(data: seq<bv8>, address: nat)
      requires Valid()
      modifies this, head
      ensures Valid()
      ensures var frames := DataFrames(data, 1);
              sent == old(sent) + [HeadFrame(|data|, address)] + frames + [TailFrame(|frames| + 1)]
    {
      hide DataFrame, HeadFrame, TailFrame;
      var length: nat := |data|;
      SendHeadFrame(length, address);
      ghost var before := sent;
      ghost var out: seq<Frame> := [];
      var number: nat := 1;
      assert data[0..] == data;
      while length > CHUNK
        invariant number >= 1 && |data| == (number - 1) * CHUNK + length && Valid()
        invariant sent == before + out && |out| == number - 1
        invariant out + DataFrames(data[(number - 1) * CHUNK..], number) == DataFrames(data, 1)
      {
        var chunk := data[(number - 1) * CHUNK..number * CHUNK];
        ghost var rest := data[(number - 1) * CHUNK..];
        assert chunk == rest[..CHUNK] && rest[CHUNK..] == data[number * CHUNK..];
        SendDataFrame(number, chunk);
        ghost var more := DataFrames(data[number * CHUNK..], number + 1);
        assert out + ([DataFrame(number, chunk)] + more) == (out + [DataFrame(number, chunk)]) + more;
        out := out + [DataFrame(number, chunk)];
        number := number + 1;
        length := length - CHUNK;
      }
      SendDataFrame(number, data[(number - 1) * CHUNK..]);
      SendTailFrame(number + 1);
    }
  }
}
