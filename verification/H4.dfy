/**
 The H4 transport of Bluetooth Core Specification Volume 4 Part A, section 2: taking packets out of
 a byte stream that arrives in pieces, and writing packets in pieces.
 */
module H4 {
  type byte = b: nat | b < 256

  // Packet types (Volume 4, Part A, 2); 0 is the parser's own "unknown".
  const UNKNOWN: nat := 0
  const COMMAND: nat := 1
  const ACL: nat := 2
  const SCO: nat := 3
  const EVENT: nat := 4

  // Numbers of bytes are 64 bits wide.
  const SIZE: nat := 0x1_0000_0000_0000_0000

  datatype Packet = Packet(kind: nat, bytes: seq<byte>)

  /** Sizes of the preambles (Volume 2, Part E, 5.4.1 to 5.4.4). */
  function Preamble(kind: nat): (n: nat)
    requires kind <= EVENT
    ensures n <= 4 && (kind != UNKNOWN ==> n >= 2)
  {
    match kind
    case 0 => 0
    case 1 => 3
    case 2 => 4
    case 3 => 3
    case _ => 2
  }

  function LengthOffset(kind: nat): (n: nat)
    requires kind <= EVENT
    ensures kind != UNKNOWN ==> n < Preamble(kind) && (kind == ACL ==> n + 1 < Preamble(kind))
  {
    match kind
    case 0 => 0
    case 1 => 2
    case 2 => 2
    case 3 => 2
    case _ => 1
  }

  /** The payload length that a preamble tells. */
  function LengthIn(kind: nat, preamble: seq<byte>): nat
    requires UNKNOWN < kind <= EVENT && |preamble| == Preamble(kind)
  {
    var o := LengthOffset(kind);
    var low: nat := preamble[o];
    if kind != ACL then low
    else
      var high: nat := preamble[o + 1];
      256 * high + low
  }

  // -------------------------------------------------------- packets in a stream

  /** The length of the payload behind the preamble of a packet; `at` is where its type byte is. */
  function PayloadLength(s: seq<byte>, at: nat): nat
    requires at < |s| && UNKNOWN < s[at] <= EVENT && at + 1 + Preamble(s[at]) <= |s|
  {
    LengthIn(s[at], s[at + 1..at + 1 + Preamble(s[at])])
  }

  /** Where a packet ends whose preamble is there. */
  function End(s: seq<byte>, at: nat): (e: nat)
    requires at < |s| && UNKNOWN < s[at] <= EVENT && at + 1 + Preamble(s[at]) <= |s|
    ensures e >= at + 1 + Preamble(s[at])
  {
    at + 1 + Preamble(s[at]) + PayloadLength(s, at)
  }

  /** The first `pos` bytes hold the whole packet at `at`.  A packet without payload never is whole:
      the parser waits for one more byte. */
  predicate Whole(s: seq<byte>, at: nat, pos: nat)
    requires at < pos <= |s| && UNKNOWN < s[at] <= EVENT
  {
    at + 1 + Preamble(s[at]) <= pos && PayloadLength(s, at) > 0 && End(s, at) <= pos
  }

  /** All type bytes met are valid ones. */
  predicate Kinds(s: seq<byte>, at: nat)
    requires at <= |s|
    decreases |s| - at
  {
    at < |s| ==>
      && s[at] <= EVENT
      && (if s[at] == UNKNOWN then Kinds(s, at + 1)
          else Whole(s, at, |s|) ==> Kinds(s, End(s, at)))
  }

  /** The packets that are whole within the first `pos` bytes; zero bytes between them are skipped. */
  function Packets(s: seq<byte>, at: nat, pos: nat): seq<Packet>
    requires at <= pos <= |s| && Kinds(s, at)
    decreases pos - at
  {
    if at == pos then []
    else if s[at] == UNKNOWN then Packets(s, at + 1, pos)
    else if Whole(s, at, pos) then
      Later(s, at, pos);
      [Packet(s[at], s[at + 1..End(s, at)])] + Packets(s, End(s, at), pos)
    else []
  }

  /** Where the packet starts that is not whole within the first `pos` bytes. */
  function Current(s: seq<byte>, at: nat, pos: nat): (c: nat)
    requires at <= pos <= |s| && Kinds(s, at)
    ensures at <= c <= pos && Kinds(s, c)
    ensures c < pos ==> UNKNOWN < s[c] <= EVENT && !Whole(s, c, pos)
    decreases pos - at
  {
    if at == pos then at
    else if s[at] == UNKNOWN then Current(s, at + 1, pos)
    else if Whole(s, at, pos) then
      Later(s, at, pos);
      Current(s, End(s, at), pos)
    else at
  }

  lemma Later(s: seq<byte>, at: nat, pos: nat)
    requires at < pos <= |s| && Kinds(s, at) && s[at] != UNKNOWN && Whole(s, at, pos)
    ensures Kinds(s, End(s, at))
  {
  }

  /** More bytes only add packets behind the ones found, from the current packet on. */
  lemma {:induction false} MoreBytes(s: seq<byte>, at: nat, pos: nat, pos': nat)
    requires at <= pos <= pos' <= |s| && Kinds(s, at)
    ensures var c := Current(s, at, pos);
            && Packets(s, at, pos') == Packets(s, at, pos) + Packets(s, c, pos')
            && Current(s, at, pos') == Current(s, c, pos')
    decreases pos - at
  {
    if at < pos {
      if s[at] == UNKNOWN {
        MoreBytes(s, at + 1, pos, pos');
      } else if Whole(s, at, pos) {
        Later(s, at, pos);
        MoreBytes(s, End(s, at), pos, pos');
      }
    }
  }

  // --------------------------------------------------------- reading one piece

  /** A type byte alone is no packet yet; a zero byte is skipped. */
  lemma TypeByte(s: seq<byte>, pos: nat)
    requires pos < |s| && Kinds(s, pos)
    ensures s[pos] <= EVENT && Packets(s, pos, pos + 1) == []
    ensures Current(s, pos, pos + 1) == if s[pos] == UNKNOWN then pos + 1 else pos
  {
  }

  lemma NotYet(s: seq<byte>, c: nat, pos: nat)
    requires c < pos <= |s| && Kinds(s, c) && s[c] != UNKNOWN && !Whole(s, c, pos)
    ensures Packets(s, c, pos) == [] && Current(s, c, pos) == c
  {
  }

  lemma Completed(s: seq<byte>, c: nat, pos: nat)
    requires c < pos <= |s| && Kinds(s, c) && s[c] != UNKNOWN && Whole(s, c, pos) && End(s, c) == pos
    ensures Packets(s, c, pos) == [Packet(s[c], s[c + 1..pos])] && Current(s, c, pos) == pos
  {
  }

  /** The bytes read so far of the packet at c. */
  ghost predicate Copied(p: seq<byte>, s: seq<byte>, c: nat, n: nat) {
    n <= |p| && c + 1 + n <= |s| && forall i :: 0 <= i < n ==> p[i] == s[c + 1 + i]
  }

  /** Replaces the bytes from `at` on. */
  function Splice(p: seq<byte>, at: nat, chunk: seq<byte>): (q: seq<byte>)
    requires at + |chunk| <= |p|
    ensures |q| == |p|
  {
    p[..at] + chunk + p[at + |chunk|..]
  }

  lemma SpliceCopies(p: seq<byte>, s: seq<byte>, c: nat, at: nat, n: nat)
    requires Copied(p, s, c, at) && at + n <= |p| && c + 1 + at + n <= |s|
    ensures Copied(Splice(p, at, s[c + 1 + at..c + 1 + at + n]), s, c, at + n)
  {
  }

  lemma CopiedWhole(p: seq<byte>, s: seq<byte>, c: nat)
    requires Copied(p, s, c, |p|)
    ensures p == s[c + 1..c + 1 + |p|]
  {
  }

  /** The preamble read tells the packet's length. */
  lemma LengthAgrees(p: seq<byte>, s: seq<byte>, c: nat)
    requires c < |s| && UNKNOWN < s[c] <= EVENT && |p| == Preamble(s[c]) && Copied(p, s, c, |p|)
    ensures LengthIn(s[c], p) == PayloadLength(s, c)
  {
    CopiedWhole(p, s, c);
    hide LengthIn, Preamble, LengthOffset;
  }

  lemma Extended(p: seq<byte>, q: seq<byte>, s: seq<byte>, c: nat, n: nat)
    requires Copied(p, s, c, n) && |p| == n
    ensures Copied(p + q, s, c, n)
  {
  }

  class H4Protocol {
    const input: seq<byte>       // what the line delivers
    var pos: nat                 // how much of it has been read
    var packetType: nat
    // the packetizer
    var payload: bool            // reading the payload, not the preamble
    const preamble: array<byte>
    var packet: seq<byte>
    var bytesRemaining: nat
    var bytesRead: nat
    var delivered: seq<Packet>   // what went to the callbacks
    ghost var current: nat       // where the current packet starts

    ghost predicate Parsed()
      reads this
    {
      && pos <= |input| && Kinds(input, 0)
      && delivered == Packets(input, 0, pos) && current == Current(input, 0, pos)
    }

    /** The state of the packetizer fits the bytes of the current packet read so far. */
    ghost predicate Fits()
      reads this, preamble
      requires pos <= |input|
    {
      && preamble.Length == 4 && packetType <= EVENT
      && (packetType == UNKNOWN ==> current == pos && !payload && bytesRead == 0)
      && (packetType != UNKNOWN ==> current < pos && input[current] == packetType && !Whole(input, current, pos))
      && (packetType != UNKNOWN && !payload ==>
            && pos == current + 1 + bytesRead && bytesRead < Preamble(packetType)
            && Copied(preamble[..], input, current, bytesRead))
      && (packetType != UNKNOWN && payload ==>
            && pos == current + 1 + Preamble(packetType) + bytesRead
            && bytesRead + bytesRemaining == PayloadLength(input, current)
            && |packet| == Preamble(packetType) + PayloadLength(input, current)
            && Copied(packet, input, current, Preamble(packetType) + bytesRead))
    }

    ghost predicate Valid()
      reads this, preamble
    {
      Parsed() && Fits()
    }

    constructor (stream: seq<byte>)
      requires Kinds(stream, 0)
      ensures Valid() && input == stream && pos == 0 && delivered == []
    {
      input := stream;
      preamble := new byte[4](i => 0);
      pos, packetType, payload, packet := 0, UNKNOWN, false, [];
      bytesRemaining, bytesRead, delivered, current := 0, 0, [], 0;
    }

    /** How many bytes the next read asks for. */
    function Request(): nat
      reads this
      requires packetType <= EVENT && (packetType != UNKNOWN && !payload ==> bytesRead <= Preamble(packetType))
    {
      if packetType == UNKNOWN then 1
      else if !payload then Preamble(packetType) - bytesRead
      else bytesRemaining
    }

    /** What n more bytes do to the packets is decided at the current packet. */
    lemma Account(n: nat)
      requires Parsed() && pos + n <= |input|
      ensures Kinds(input, current) && current <= pos
      ensures Packets(input, 0, pos + n) == delivered + Packets(input, current, pos + n)
      ensures Current(input, 0, pos + n) == Current(input, current, pos + n)
    {
      hide Packets, Current, Kinds, Whole;
      MoreBytes(input, 0, pos, pos + n);
    }

    /** Reads one type byte. */
    method ReadType()
      requires Valid() && packetType == UNKNOWN && pos < |input|
      modifies this
      ensures Valid() && pos == old(pos) + 1
    {
      hide Packets, Current, Kinds;
      Account(1);
      TypeByte(input, pos);
      packetType := input[pos];
      current := if input[pos] == UNKNOWN then pos + 1 else pos;
      payload, bytesRead := false, 0;
      pos := pos + 1;
      assert delivered + [] == delivered;
    }

    /** Reads n bytes of the preamble; with its last byte the packet's length is known. */
    method ReadPreamble(n: nat)
      requires Valid() && packetType != UNKNOWN && !payload && 0 < n <= Request() && pos + n <= |input|
      modifies this, preamble
      ensures Valid() && pos == old(pos) + n
    {
      hide Packets, Current, Kinds, Whole, PayloadLength, LengthIn;
      Account(n);
      NoPayloadYet(input, current, pos + n);
      NotYet(input, current, pos + n);
      assert delivered + [] == delivered;
      ReadIn(n);
      if bytesRead == Preamble(packetType) {
        var k := bytesRead;
        LengthAgrees(preamble[..k], input, current);
        var length := LengthIn(packetType, preamble[..k]);
        packet := preamble[..k] + seq(length, i => 0);
        Extended(preamble[..k], seq(length, i => 0), input, current, k);
        bytesRemaining := length;
        payload := true;
        bytesRead := 0;
      }
    }

    /** Copies n bytes into the preamble. */
    method ReadIn(n: nat)
      requires preamble.Length == 4 && bytesRead + n <= 4 && pos + n <= |input| && pos == current + 1 + bytesRead
      requires Copied(preamble[..], input, current, bytesRead)
      modifies this`pos, this`bytesRead, preamble
      ensures pos == old(pos) + n && bytesRead == old(bytesRead) + n
      ensures Copied(preamble[..], input, current, bytesRead)
      ensures Copied(preamble[..bytesRead], input, current, bytesRead)
    {
      forall i | 0 <= i < n {
        preamble[bytesRead + i] := input[pos + i];
      }
      pos, bytesRead := pos + n, bytesRead + n;
    }

    /** Reads n bytes of the payload; with the last one the packet is delivered, unless it is a
        command: the host never receives commands. */
    method ReadPayload(n: nat) returns (ok: bool)
      requires Valid() && packetType != UNKNOWN && payload && 0 < n <= Request() && pos + n <= |input|
      modifies this
      ensures pos == old(pos) + n
      ensures ok <==> !(old(packetType) == COMMAND && n == old(bytesRemaining))
      ensures ok ==> Valid()
    {
      hide Packets, Current, Kinds, Whole, Preamble, PayloadLength, LengthIn, Copied;
      Account(n);
      PayloadDone(n);
      ReadOn(n);
      if bytesRemaining == 0 {
        if packetType == COMMAND {
          return false;
        }
        CopiedWhole(packet, input, current);
        delivered := delivered + [Packet(packetType, packet)];
        current := pos;
        packetType := UNKNOWN;
        payload := false;
        bytesRead := 0;
      } else {
        assert delivered + [] == delivered;
      }
      return true;
    }

    /** Copies n bytes into the payload. */
    method ReadOn(n: nat)
      requires packetType <= EVENT && n <= bytesRemaining && pos + n <= |input|
      requires pos == current + 1 + Preamble(packetType) + bytesRead
      requires |packet| == Preamble(packetType) + bytesRead + bytesRemaining
      requires Copied(packet, input, current, Preamble(packetType) + bytesRead)
      modifies this`packet, this`pos, this`bytesRead, this`bytesRemaining
      ensures pos == old(pos) + n && bytesRead == old(bytesRead) + n && bytesRemaining == old(bytesRemaining) - n
      ensures |packet| == |old(packet)| && Copied(packet, input, current, Preamble(packetType) + bytesRead)
    {
      hide Preamble;
      var at := Preamble(packetType) + bytesRead;
      SpliceCopies(packet, input, current, at, n);
      hide Copied, Splice;
      packet := Splice(packet, at, input[pos..pos + n]);
      pos, bytesRemaining, bytesRead := pos + n, bytesRemaining - n, bytesRead + n;
    }

    lemma PayloadDone(n: nat)
      requires Valid() && packetType != UNKNOWN && payload && 0 < n <= bytesRemaining && pos + n <= |input|
      ensures Kinds(input, current)
      ensures Whole(input, current, pos + n) <==> n == bytesRemaining
      ensures n == bytesRemaining ==>
        Packets(input, current, pos + n) == [Packet(packetType, input[current + 1..pos + n])]
      ensures n == bytesRemaining ==> Current(input, current, pos + n) == pos + n
      ensures n < bytesRemaining ==>
        Packets(input, current, pos + n) == [] && Current(input, current, pos + n) == current
    {
      assert current == Current(input, 0, pos);
      assert Whole(input, current, pos + n) <==> n == bytesRemaining;
      hide Packets, Current;
      if n == bytesRemaining {
        Completed(input, current, pos + n);
      } else {
        NotYet(input, current, pos + n);
      }
    }

    /** Data is ready: one read, which returns n bytes of those asked for, or -1.  Fails when nothing
        comes (always, if nothing is asked for) and when a command packet is complete.  A read that
        fails is noticed exactly while a type byte is awaited; in a packet it counts as minus one
        byte, and the state no longer fits the stream. */
    method OnDataReady(n: int) returns (ok: bool)
      requires Valid() && -1 <= n <= Request() && pos + n <= |input|
      modifies this, preamble
      ensures n >= 0 ==> pos == old(pos) + n
      ensures n >= 0 ==> (ok <==> n > 0 && !(old(packetType) == COMMAND && old(payload) && n == old(bytesRemaining)))
      ensures n >= 0 && ok ==> Valid()
      ensures n < 0 ==> pos == old(pos) && delivered == old(delivered) && (ok <==> old(packetType) != UNKNOWN)
      ensures n < 0 ==> (Valid() <==> old(packetType) == UNKNOWN)
    {
      if n == 0 {
        return false;
      }
      if n < 0 {
        if packetType == UNKNOWN {
          return false;
        }
        LoseByte();
        return true;
      }
      hide Parsed, Fits;
      if packetType == UNKNOWN {
        ReadType();
        ok := true;
      } else if !payload {
        ReadPreamble(n);
        ok := true;
      } else {
        ok := ReadPayload(n);
      }
    }

    /** A failed read within a packet, its answer -1 taken as a number of bytes. */
    method LoseByte()
      requires Valid() && packetType != UNKNOWN
      modifies this`bytesRead, this`bytesRemaining
      ensures bytesRead == if old(bytesRead) == 0 then SIZE - 1 else old(bytesRead) - 1
      ensures payload ==> bytesRemaining == (old(bytesRemaining) + 1) % SIZE
      ensures !Valid()
    {
      if payload {
        bytesRemaining := (bytesRemaining + 1) % SIZE;
      }
      bytesRead := (bytesRead + SIZE - 1) % SIZE;
    }

    /** The next read asks for nothing exactly at a packet without payload: there the parser fails,
        whatever arrives. */
    lemma AsksForNothing()
      requires Valid()
      ensures Request() == 0 <==> packetType != UNKNOWN && payload && PayloadLength(input, current) == 0
    {
    }

    /** Whether the parser takes a piece of n bytes. */
    predicate Takes(n: nat)
      reads this
      requires packetType <= EVENT && (packetType != UNKNOWN && !payload ==> bytesRead <= Preamble(packetType))
    {
      0 < n <= Request() && pos + n <= |input| && !(packetType == COMMAND && payload && n == bytesRemaining)
    }

    /** Reads pieces of the given sizes as long as the parser takes them. */
    method ReadPieces(sizes: seq<nat>) returns (done: nat)
      requires Valid()
      modifies this, preamble
      ensures Valid() && delivered == Packets(input, 0, pos)
      ensures done <= |sizes| && pos == old(pos) + Total(sizes, done)
      ensures done < |sizes| ==> !Takes(sizes[done])
    {
      hide Packets, Current, Kinds, Whole, Fits;
      done := 0;
      KnownKind();
      while done < |sizes| && Takes(sizes[done])
        invariant Valid() && done <= |sizes| && pos == old(pos) + Total(sizes, done)
        invariant packetType <= EVENT && (packetType != UNKNOWN && !payload ==> bytesRead <= Preamble(packetType))
      {
        hide Parsed;
        var fine := OnDataReady(sizes[done]);
        done := done + 1;
        KnownKind();
      }
    }

    lemma KnownKind()
      requires Valid()
      ensures packetType <= EVENT && (packetType != UNKNOWN && !payload ==> bytesRead <= Preamble(packetType))
      ensures pos <= |input|
    {
    }
  }

  /** The number of bytes in the first k pieces. */
  function Total(sizes: seq<nat>, k: nat): nat
    requires k <= |sizes|
  {
    if k == 0 then 0 else Total(sizes, k - 1) + sizes[k - 1]
  }

  /** With the preamble alone a packet is not whole. */
  lemma NoPayloadYet(s: seq<byte>, c: nat, pos: nat)
    requires c < pos <= |s| && UNKNOWN < s[c] <= EVENT && pos <= c + 1 + Preamble(s[c])
    ensures !Whole(s, c, pos)
  {
  }

  /** Whatever the pieces: two readers of the same stream that have read as far have delivered the
      same packets. */
  lemma ChunkingIrrelevant(a: H4Protocol, b: H4Protocol)
    requires a.Valid() && b.Valid() && a.input == b.input && a.pos == b.pos
    ensures a.delivered == b.delivered && a.packetType == b.packetType && a.current == b.current
  {
  }

  // ------------------------------------------------------------------- writing

  // What a call of write does: fails for now, fails, or takes some bytes.
  datatype Write = Again | Error | Took(n: nat)

  class Line {
    var written: seq<byte>
    var script: seq<Write>    // what the next calls do; then everything is taken

    constructor (s: seq<Write>)
      ensures written == [] && script == s
    {
      written, script := [], s;
    }

    /** One call of write. */
    method Attempt(data: seq<byte>) returns (w: Write)
      requires data != []
      modifies this
      ensures w.Took? ==> w.n <= |data| && written == old(written) + data[..w.n]
      ensures !w.Took? ==> written == old(written)
      ensures |script| < |old(script)| || (old(script) == script == [] && w == Took(|data|))
    {
      if script == [] {
        written := written + data;
        assert data[..|data|] == data;
        return Took(|data|);
      }
      w := script[0];
      script := script[1..];
      if w.Took? {
        w := Took(if w.n <= |data| then w.n else |data|);
        written := written + data[..w.n];
      }
    }

    /** Writes until everything is taken, a call fails for good, or nothing is taken. */
    method WriteSafely(data: seq<byte>) returns (transmitted: nat)
      modifies this
      ensures transmitted <= |data| && written == old(written) + data[..transmitted]
      ensures old(script) == [] ==> transmitted == |data| && script == []
    {
      transmitted := 0;
      var length: nat := |data|;
      assert data[..0] == [] && old(written) + [] == old(written);
      while length > 0
        invariant transmitted + length == |data| && written == old(written) + data[..transmitted]
        invariant old(script) == [] ==> script == []
        decreases |script| + length
      {
        ghost var done := data[..transmitted];
        var ret := Attempt(data[transmitted..]);
        match ret
        case Again =>
        case Error =>
          break;
        case Took(n) =>
          if n == 0 {
            break;
          }
          assert data[..transmitted + n] == done + data[transmitted..][..n];
          transmitted, length := transmitted + n, length - n;
      }
    }

    /** Sends a packet: its type byte, then its bytes.  The result counts the latter. */
    method Send(kind: byte, data: seq<byte>) returns (r: nat)
      modifies this
      ensures r <= |data|
      ensures written == old(written) + [kind] + data[..r] || (r == 0 && written == old(written))
      ensures old(script) == [] ==> r == |data| && written == old(written) + [kind] + data
    {
      r := WriteSafely([kind]);
      if r == 1 {
        assert [kind][..1] == [kind];
        r := WriteSafely(data);
        assert data[..|data|] == data;
      }
    }
  }

  // -------------------------------------------------------------- round trip

  /** A packet that the host receives: known type, and a preamble that tells its real, positive
      payload length. */
  predicate WellFormed(p: Packet) {
    && (p.kind == ACL || p.kind == SCO || p.kind == EVENT)
    && Preamble(p.kind) < |p.bytes|
    && |p.bytes| == Preamble(p.kind) + LengthIn(p.kind, p.bytes[..Preamble(p.kind)])
  }

  /** What a complete Send puts on the line. */
  function Encode(p: Packet): seq<byte>
    requires WellFormed(p)
  {
    [p.kind] + p.bytes
  }

  function EncodeAll(packets: seq<Packet>): seq<byte>
    requires forall p :: p in packets ==> WellFormed(p)
  {
    if packets == [] then [] else Encode(packets[0]) + EncodeAll(packets[1..])
  }

  /** A packet at the front of the bytes from `at` on. */
  lemma EncodedIsWhole(s: seq<byte>, at: nat, p: Packet)
    requires WellFormed(p) && at + 1 + |p.bytes| <= |s| && s[at..at + 1 + |p.bytes|] == Encode(p)
    ensures s[at] == p.kind && Whole(s, at, |s|) && End(s, at) == at + 1 + |p.bytes|
    ensures s[at + 1..End(s, at)] == p.bytes
  {
    var e := s[at..at + 1 + |p.bytes|];
    var k := Preamble(p.kind);
    assert s[at] == e[0] && s[at + 1..at + 1 + |p.bytes|] == e[1..] == p.bytes;
    assert s[at + 1..at + 1 + k] == p.bytes[..k];
  }

  lemma Front(s: seq<byte>, at: nat, a: seq<byte>, b: seq<byte>)
    requires at <= |s| && s[at..] == a + b
    ensures at + |a| <= |s| && s[at..at + |a|] == a && s[at + |a|..] == b
  {
    assert s[at..at + |a|] == s[at..][..|a|] && s[at + |a|..] == s[at..][|a|..];
  }

  /** The first packet of a stream of encodings, and the stream behind it. */
  lemma FirstPacket(s: seq<byte>, at: nat, packets: seq<Packet>)
    requires at <= |s| && (forall p :: p in packets ==> WellFormed(p)) && s[at..] == EncodeAll(packets) && packets != []
    ensures var p := packets[0];
            var end := at + 1 + |p.bytes|;
            && end <= |s| && s[at] == p.kind && UNKNOWN < p.kind <= EVENT && p.kind != COMMAND
            && Whole(s, at, |s|) && End(s, at) == end && s[at + 1..end] == p.bytes
            && s[end..] == EncodeAll(packets[1..])
  {
    var p, rest := packets[0], packets[1..];
    assert |Encode(p)| == 1 + |p.bytes| && EncodeAll(packets) == Encode(p) + EncodeAll(rest);
    assert UNKNOWN < p.kind <= EVENT && p.kind != COMMAND;
    hide *;
    Front(s, at, Encode(p), EncodeAll(rest));
    EncodedIsWhole(s, at, p);
  }

  lemma PacketsStep(s: seq<byte>, at: nat)
    requires at < |s| && UNKNOWN < s[at] <= EVENT && Whole(s, at, |s|) && Kinds(s, End(s, at))
    ensures Kinds(s, at)
    ensures Packets(s, at, |s|) == [Packet(s[at], s[at + 1..End(s, at)])] + Packets(s, End(s, at), |s|)
    ensures Current(s, at, |s|) == Current(s, End(s, at), |s|)
  {
  }

  lemma NothingEncoded(s: seq<byte>, at: nat, packets: seq<Packet>)
    requires at <= |s| && (forall p :: p in packets ==> WellFormed(p)) && s[at..] == EncodeAll(packets) && packets == []
    ensures Kinds(s, at) && Packets(s, at, |s|) == [] && Current(s, at, |s|) == |s|
  {
  }

  /** The packets in a stream of encodings are the packets that were encoded, with nothing left. */
  lemma {:induction false} ParseEncoded(s: seq<byte>, at: nat, packets: seq<Packet>)
    requires at <= |s| && (forall p :: p in packets ==> WellFormed(p)) && s[at..] == EncodeAll(packets)
    ensures Kinds(s, at) && Packets(s, at, |s|) == packets && Current(s, at, |s|) == |s|
    decreases |packets|
  {
    hide *;
    if packets == [] {
      NothingEncoded(s, at, packets);
    } else {
      FirstPacket(s, at, packets);
      ParseEncoded(s, End(s, at), packets[1..]);
      PacketsStep(s, at);
      assert packets == [packets[0]] + packets[1..];
    }
  }

  /** A stream of complete sends arrives as the packets sent, whatever the pieces in which it is read. */
  lemma RoundTrip(h: H4Protocol, packets: seq<Packet>)
    requires h.Valid() && (forall p :: p in packets ==> WellFormed(p))
    requires h.input == EncodeAll(packets) && h.pos == |h.input|
    ensures h.delivered == packets && h.packetType == UNKNOWN
  {
    assert h.input[0..] == h.input;
    ParseEncoded(h.input, 0, packets);
  }

  /** Until the end nothing stops the parser: it always asks for at least one byte. */
  lemma {:induction false} NeverStuck(s: seq<byte>, at: nat, packets: seq<Packet>, pos: nat)
    requires at <= pos <= |s| && (forall p :: p in packets ==> WellFormed(p)) && s[at..] == EncodeAll(packets)
    requires Kinds(s, at)
    ensures var c := Current(s, at, pos);
            c < pos && c + 1 + Preamble(s[c]) <= |s| ==> s[c] != COMMAND && PayloadLength(s, c) > 0
    decreases |packets|
  {
    if packets != [] {
      FirstPacket(s, at, packets);
      hide EncodeAll, WellFormed, PayloadLength, LengthIn, Preamble;
      var end := End(s, at);
      if end <= pos {
        Later(s, at, |s|);
        NeverStuck(s, end, packets[1..], pos);
      } else if at < pos {
        assert Current(s, at, pos) == at;
      }
    }
  }
}
