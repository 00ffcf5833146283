/**
 Extended parameters: descriptors with embedded data, laid out by the host and taken apart by the
 codec class, which zeroes the padding in place.
 */
module ExtParam {
  type byte = b: nat | b < 256

  const HEADER: nat := 4
  const WORD: nat := 0x1_0000

  // Longest data whose rounded length fits 16 bits.
  const LONGEST: nat := 0xFFFC

  datatype Param = Param(id: nat, data: seq<byte>)

  // `Overrun`: bytes beyond the message are written, and nothing is said of what follows.
  // `Rejected`: the plugin does not accept a parameter.
  datatype Outcome = Ok | InvalidLength | Overrun | Rejected

  /** Rounding up to a multiple of four. */
  function Padded(n: nat): (r: nat)
    ensures n <= r < n + 4
  {
    (n + 3) / 4 * 4
  }

  /** The same in 16 bits. */
  function Round(n: nat): nat { (n + 3) / 4 * 4 % WORD }

  /** The 16-bit rounding is right exactly up to the longest length. */
  lemma RoundExact(n: nat)
    requires n < WORD
    ensures Round(n) == Padded(n) <==> n <= LONGEST
  {
  }

  lemma PadLength(n: nat)
    ensures Padded(n) == if n % 4 == 0 then n else n + (4 - n % 4)
  {
  }

  /** A 16-bit word, least significant byte first. */
  function Word(lo: byte, hi: byte): nat { lo + 256 * hi }

  function Low(w: nat): byte { w % 256 }

  function High(w: nat): byte { w / 256 % 256 }

  lemma WordBytes(w: nat)
    requires w < WORD
    ensures Word(Low(w), High(w)) == w
  {
  }

  // -------------------------------------------------- parameters in a message

  function IdAt(s: seq<byte>, at: nat): nat
    requires at + HEADER <= |s|
  {
    Word(s[at], s[at + 1])
  }

  function LengthAt(s: seq<byte>, at: nat): nat
    requires at + HEADER <= |s|
  {
    Word(s[at + 2], s[at + 3])
  }

  /** Where the parameter at the cursor ends. */
  function End(s: seq<byte>, at: nat): (end: nat)
    requires at + HEADER <= |s|
    ensures at + HEADER + LengthAt(s, at) <= end
  {
    at + HEADER + Padded(LengthAt(s, at))
  }

  /** Whether a whole parameter is at the cursor. */
  predicate Whole(s: seq<byte>, at: nat) {
    at + HEADER <= |s| && LengthAt(s, at) <= LONGEST && End(s, at) <= |s|
  }

  /** Whether the length of the descriptor at the cursor becomes zero when it is rounded up in 16
      bits; it passes as short enough, and the padding is zeroed behind the message. */
  predicate TooLong(s: seq<byte>, at: nat) { at + HEADER <= |s| && LengthAt(s, at) > LONGEST }

  lemma TooLongIsBeyond(s: seq<byte>, at: nat)
    requires TooLong(s, at) && |s| <= LONGEST
    ensures Round(LengthAt(s, at)) == 0 && LengthAt(s, at) % 4 != 0 && at + HEADER + LengthAt(s, at) > |s|
  {
    RoundExact(LengthAt(s, at));
  }

  function ParamAt(s: seq<byte>, at: nat): Param
    requires Whole(s, at)
  {
    Param(IdAt(s, at), s[at + HEADER..at + HEADER + LengthAt(s, at)])
  }

  /** How a parse ends when no whole parameter is at the cursor. */
  function Rest(s: seq<byte>, at: nat): Outcome {
    if at == |s| then Ok else if TooLong(s, at) then Overrun else InvalidLength
  }

  /** The parameters from the cursor on, and whether nothing else is there. */
  function Parse(s: seq<byte>, at: nat): (seq<Param>, Outcome)
    requires at <= |s|
    decreases |s| - at
  {
    if Whole(s, at) then
      var (rest, r) := Parse(s, End(s, at));
      ([ParamAt(s, at)] + rest, r)
    else ([], Rest(s, at))
  }

  /** Whether a byte is padding of one of these parameters. */
  predicate IsPadding(s: seq<byte>, at: nat, j: nat)
    requires at <= |s|
    decreases |s| - at
  {
    Whole(s, at) && (at + HEADER + LengthAt(s, at) <= j < End(s, at) || IsPadding(s, End(s, at), j))
  }

  /** The lengths of all descriptors met can be rounded up in 16 bits. */
  predicate LengthsFit(s: seq<byte>, at: nat)
    requires at <= |s|
    decreases |s| - at
  {
    !TooLong(s, at) && (Whole(s, at) ==> LengthsFit(s, End(s, at)))
  }

  /** Something is written beyond the message exactly when the length of a descriptor that is
      reached cannot be rounded up. */
  lemma {:induction false} OverrunExactly(s: seq<byte>, at: nat)
    requires at <= |s|
    ensures Parse(s, at).1 == Overrun <==> !LengthsFit(s, at)
    decreases |s| - at
  {
    hide TooLong;
    if Whole(s, at) {
      WholeFits(s, at);
      hide Whole, End, ParamAt;
      OverrunExactly(s, End(s, at));
    } else {
      AtEndFits(s, at);
    }
  }

  lemma WholeFits(s: seq<byte>, at: nat)
    requires Whole(s, at)
    ensures !TooLong(s, at)
  {
  }

  lemma AtEndFits(s: seq<byte>, at: nat)
    ensures at == |s| ==> !TooLong(s, at)
  {
  }

  // ------------------------------------------------------------------ layout

  /** The parameters from the k-th on fit the format. */
  ghost predicate Fit(params: seq<Param>) {
    forall k :: 0 <= k < |params| ==> params[k].id < WORD && |params[k].data| <= LONGEST
  }

  /** The length of the layout of the parameters from the k-th on. */
  function Size(params: seq<Param>, k: nat): nat
    requires k <= |params|
    decreases |params| - k
  {
    if k == |params| then 0 else HEADER + Padded(|params[k].data|) + Size(params, k + 1)
  }

  /** One parameter is at the cursor; its padding may be anything. */
  ghost predicate LaidOne(s: seq<byte>, at: nat, p: Param) {
    && at + HEADER + Padded(|p.data|) <= |s|
    && IdAt(s, at) == p.id && LengthAt(s, at) == |p.data|
    && (forall i :: 0 <= i < |p.data| ==> s[at + HEADER + i] == p.data[i])
  }

  /** The bytes up to `to` are the layout of the parameters from the k-th on. */
  ghost predicate LaidOut(s: seq<byte>, at: nat, to: nat, params: seq<Param>, k: nat)
    requires k <= |params|
    decreases |params| - k
  {
    if k == |params| then at == to
    else LaidOne(s, at, params[k]) && LaidOut(s, at + HEADER + Padded(|params[k].data|), to, params, k + 1)
  }

  // ------------------------------------------------------------- round trip

  lemma LaidWhole(s: seq<byte>, at: nat, p: Param)
    requires LaidOne(s, at, p) && |p.data| <= LONGEST
    ensures Whole(s, at) && ParamAt(s, at) == p && End(s, at) == at + HEADER + Padded(|p.data|)
    ensures LengthAt(s, at) == |p.data|
  {
    hide Padded, Word;
  }

  /** What the host lays out, with any padding, is parsed into the same parameters, and nothing
      remains. */
  lemma {:induction false} RoundTrip(s: seq<byte>, at: nat, params: seq<Param>, k: nat)
    requires k <= |params| && at <= |s| && Fit(params) && LaidOut(s, at, |s|, params, k)
    ensures LengthsFit(s, at) && Parse(s, at) == (params[k..], Ok) && |s| == at + Size(params, k)
    decreases |params| - k
  {
    if k < |params| {
      var p := params[k];
      assert |p.data| <= LONGEST;
      LaidWhole(s, at, p);
      hide LaidOne, Padded, Fit, Whole, End, ParamAt;
      RoundTrip(s, at + HEADER + Padded(|p.data|), params, k + 1);
      assert params[k..] == [p] + params[k + 1..];
    } else {
      assert params[k..] == [];
    }
  }

  /** A complete parse means that the bytes are a layout of what was found. */
  lemma {:induction false} ParsedIsLaid(s: seq<byte>, at: nat, params: seq<Param>, k: nat)
    requires k <= |params| && at <= |s| && Parse(s, at) == (params[k..], Ok)
    ensures LaidOut(s, at, |s|, params, k)
    decreases |params| - k
  {
    if Whole(s, at) {
      var p, rest := ParamAt(s, at), Parse(s, End(s, at)).0;
      assert params[k..] == [p] + rest;
      assert params[k] == params[k..][0] == p && params[k + 1..] == params[k..][1..] == rest;
      WholeIsLaid(s, at);
      hide LaidOne, Padded, Whole, End, ParamAt;
      ParsedIsLaid(s, End(s, at), params, k + 1);
    }
  }

  lemma WholeIsLaid(s: seq<byte>, at: nat)
    requires Whole(s, at)
    ensures LaidOne(s, at, ParamAt(s, at)) && |ParamAt(s, at).data| == LengthAt(s, at)
    ensures End(s, at) == at + HEADER + Padded(|ParamAt(s, at).data|)
  {
    hide Word, Padded;
  }

  /** The message with its padding zeroed. */
  ghost predicate Cleared(s: seq<byte>, t: seq<byte>) {
    |t| == |s| && forall j :: 0 <= j < |s| ==> t[j] == if IsPadding(s, 0, j) then 0 else s[j]
  }

  /** The first padding of the parameters at the cursor is behind the first header and data. */
  lemma {:induction false} PaddingIsBehind(s: seq<byte>, at: nat, j: nat)
    requires at <= |s| && IsPadding(s, at, j)
    ensures Whole(s, at) && at + HEADER + LengthAt(s, at) <= j < |s|
    decreases |s| - at
  {
    if !(at + HEADER + LengthAt(s, at) <= j < End(s, at)) {
      PaddingIsBehind(s, End(s, at), j);
    }
  }

  /** The same bytes but for padding from the cursor on. */
  ghost predicate SameButPadding(s: seq<byte>, t: seq<byte>, at: nat)
    requires at <= |s|
  {
    |t| == |s| && forall j :: at <= j < |s| && !IsPadding(s, at, j) ==> t[j] == s[j]
  }

  lemma SameHead(s: seq<byte>, t: seq<byte>, at: nat)
    requires at <= |s| && SameButPadding(s, t, at)
    ensures Whole(s, at) <==> Whole(t, at)
    ensures at + HEADER <= |s| ==> IdAt(t, at) == IdAt(s, at) && LengthAt(t, at) == LengthAt(s, at)
    ensures Whole(s, at) ==>
      ParamAt(t, at) == ParamAt(s, at) && End(t, at) == End(s, at) && SameButPadding(s, t, End(s, at))
  {
    forall j: nat | at <= j < |s| && (j < at + HEADER || (Whole(s, at) && j < at + HEADER + LengthAt(s, at)))
      ensures t[j] == s[j]
    {
      if IsPadding(s, at, j) {
        PaddingIsBehind(s, at, j);
      }
    }
    hide Word, Padded;
    if Whole(s, at) {
      forall j: nat | End(s, at) <= j < |s| && !IsPadding(s, End(s, at), j) ensures t[j] == s[j] {
        assert !IsPadding(s, at, j);
      }
    }
  }

  /** Zeroing the padding does not change what is parsed: a second pass finds the same. */
  lemma {:induction false} PaddingIrrelevant(s: seq<byte>, t: seq<byte>, at: nat)
    requires at <= |s| && SameButPadding(s, t, at)
    ensures Parse(t, at) == Parse(s, at)
    decreases |s| - at
  {
    SameHead(s, t, at);
    hide SameButPadding, Whole, End, ParamAt;
    if Whole(s, at) {
      PaddingIrrelevant(s, t, End(s, at));
    }
  }

  lemma ClearedParses(s: seq<byte>, t: seq<byte>)
    requires Cleared(s, t)
    ensures Parse(t, 0) == Parse(s, 0)
  {
    PaddingIrrelevant(s, t, 0);
  }

  // ---------------------------------------------------------- the host's side

  /** Writes a descriptor's header. */
  method Setup(buffer: array<byte>, at: nat, id: nat, length: nat)
    requires at + HEADER <= buffer.Length
    modifies buffer
    ensures buffer[at] == Low(id) && buffer[at + 1] == High(id) && buffer[at + 2] == Low(length)
    ensures buffer[at + 3] == High(length)
    ensures forall j :: 0 <= j < at || at + HEADER <= j < buffer.Length ==> buffer[j] == old(buffer[j])
  {
    buffer[at], buffer[at + 1] := Low(id), High(id);
    buffer[at + 2], buffer[at + 3] := Low(length), High(length);
  }

  /** Writes one parameter: its header and its data; the padding keeps what it was. */
  method WriteOne(buffer: array<byte>, at: nat, p: Param)
    requires at + HEADER + Padded(|p.data|) <= buffer.Length && p.id < WORD && |p.data| < WORD
    modifies buffer
    ensures LaidOne(buffer[..], at, p)
    ensures forall j :: 0 <= j < at || at + HEADER + |p.data| <= j < buffer.Length ==> buffer[j] == old(buffer[j])
  {
    hide Low, High, Padded, Word;
    WordBytes(p.id);
    WordBytes(|p.data|);
    Setup(buffer, at, p.id, |p.data|);
    var k := 0;
    while k < |p.data|
      invariant k <= |p.data|
      invariant buffer[at] == Low(p.id) && buffer[at + 1] == High(p.id)
      invariant buffer[at + 2] == Low(|p.data|) && buffer[at + 3] == High(|p.data|)
      invariant forall j :: 0 <= j < k ==> buffer[at + HEADER + j] == p.data[j]
      invariant forall j :: 0 <= j < at || at + HEADER + |p.data| <= j < buffer.Length ==> buffer[j] == old(buffer[j])
    {
      buffer[at + HEADER + k] := p.data[k];
      k := k + 1;
    }
  }

  /** Where the k-th parameter starts. */
  function Offset(params: seq<Param>, k: nat): nat
    requires k <= |params|
  {
    if k == 0 then 0 else Offset(params, k - 1) + HEADER + Padded(|params[k - 1].data|)
  }

  /** The first k parameters are in their places. */
  ghost predicate Written(s: seq<byte>, params: seq<Param>, k: nat)
    requires k <= |params|
  {
    forall i: nat :: i < k ==> LaidOne(s, Offset(params, i), params[i])
  }

  lemma {:induction false} OffsetSize(params: seq<Param>, k: nat)
    requires k <= |params|
    ensures Offset(params, k) + Size(params, k) == Size(params, 0)
  {
    if k > 0 {
      OffsetSize(params, k - 1);
    }
  }

  lemma {:induction false} OffsetGrows(params: seq<Param>, i: nat, k: nat)
    requires i < k <= |params|
    ensures Offset(params, i) + HEADER + Padded(|params[i].data|) <= Offset(params, k)
  {
    if i + 1 < k {
      OffsetGrows(params, i, k - 1);
    }
  }

  lemma LaidKept(s: seq<byte>, t: seq<byte>, at: nat, p: Param, limit: nat)
    requires LaidOne(s, at, p) && |t| == |s| && at + HEADER + Padded(|p.data|) <= limit
    requires forall j :: 0 <= j < limit && j < |s| ==> t[j] == s[j]
    ensures LaidOne(t, at, p)
  {
    hide Padded, Word;
  }

  lemma WrittenMore(s: seq<byte>, t: seq<byte>, params: seq<Param>, k: nat)
    requires k < |params| && Written(s, params, k) && |t| == |s| && LaidOne(t, Offset(params, k), params[k])
    requires forall j :: 0 <= j < Offset(params, k) && j < |s| ==> t[j] == s[j]
    ensures Written(t, params, k + 1)
    ensures Offset(params, k + 1) == Offset(params, k) + HEADER + Padded(|params[k].data|)
  {
    hide LaidOne, Padded;
    forall i: nat | i < k ensures LaidOne(t, Offset(params, i), params[i]) {
      assert LaidOne(s, Offset(params, i), params[i]);
      hide Offset;
      OffsetGrows(params, i, k);
      LaidKept(s, t, Offset(params, i), params[i], Offset(params, k));
    }
  }

  lemma LaidStep(s: seq<byte>, at: nat, to: nat, params: seq<Param>, k: nat)
    requires k < |params| && LaidOne(s, at, params[k])
    requires LaidOut(s, at + HEADER + Padded(|params[k].data|), to, params, k + 1)
    ensures LaidOut(s, at, to, params, k)
  {
    hide LaidOne, Padded;
  }

  lemma LaidEnd(s: seq<byte>, at: nat, params: seq<Param>)
    ensures LaidOut(s, at, at, params, |params|)
  {
  }

  lemma WrittenAt(s: seq<byte>, params: seq<Param>, k: nat)
    requires k < |params| && Written(s, params, |params|)
    ensures LaidOne(s, Offset(params, k), params[k])
    ensures Offset(params, k + 1) == Offset(params, k) + HEADER + Padded(|params[k].data|)
  {
    hide LaidOne, Padded;
  }

  lemma {:induction false} WrittenIsLaid(s: seq<byte>, params: seq<Param>, k: nat)
    requires k <= |params| && Written(s, params, |params|)
    ensures LaidOut(s, Offset(params, k), Offset(params, |params|), params, k)
    decreases |params| - k
  {
    hide *;
    if k < |params| {
      WrittenAt(s, params, k);
      WrittenIsLaid(s, params, k + 1);
      LaidStep(s, Offset(params, k), Offset(params, |params|), params, k);
    } else {
      LaidEnd(s, Offset(params, k), params);
    }
  }

  lemma NothingWritten(s: seq<byte>, params: seq<Param>)
    ensures Offset(params, 0) == 0 && Written(s, params, 0)
    ensures Offset(params, |params|) == Size(params, 0)
  {
    OffsetSize(params, |params|);
  }

  /** The k-th parameter has room. */
  lemma Room(params: seq<Param>, k: nat)
    requires k < |params| && Fit(params)
    ensures Offset(params, k) + HEADER + Padded(|params[k].data|) <= Size(params, 0)
    ensures params[k].id < WORD && |params[k].data| < WORD
  {
    hide Padded;
    OffsetSize(params, k + 1);
  }

  /** The host's side: lays out the parameters one after the other; returns the total length. */
  method Write(buffer: array<byte>, params: seq<Param>) returns (at: nat)
    requires Fit(params) && Size(params, 0) <= buffer.Length
    modifies buffer
    ensures at == Size(params, 0) && LaidOut(buffer[..], 0, at, params, 0)
    ensures forall j :: at <= j < buffer.Length ==> buffer[j] == old(buffer[j])
  {
    hide *;
    at := 0;
    var k := 0;
    NothingWritten(buffer[..], params);
    while k < |params|
      invariant k <= |params| && at == Offset(params, k)
      invariant Written(buffer[..], params, k)
      invariant forall j :: at <= j < buffer.Length ==> buffer[j] == old(buffer[j])
    {
      var p := params[k];
      ghost var before := buffer[..];
      Room(params, k);
      WriteOne(buffer, at, p);
      WrittenMore(before, buffer[..], params, k);
      at := at + HEADER + Padded(|p.data|);
      k := k + 1;
    }
    WrittenIsLaid(buffer[..], params, 0);
  }

  // --------------------------------------------------------- the codec's side

  /** Zeroes n bytes. */
  method Memset(buffer: array<byte>, at: nat, n: nat)
    requires at + n <= buffer.Length
    modifies buffer
    ensures forall j :: 0 <= j < buffer.Length ==> buffer[j] == if at <= j < at + n then 0 else old(buffer[j])
  {
    var k := 0;
    while k < n
      invariant k <= n
      invariant forall j :: 0 <= j < buffer.Length ==> buffer[j] == if at <= j < at + k then 0 else old(buffer[j])
    {
      buffer[at + k] := 0;
      k := k + 1;
    }
  }

  /** Pads the data at the cursor up to a multiple of four. */
  method Pad(buffer: array<byte>, at: nat, dlen: nat)
    requires at + Padded(dlen) <= buffer.Length
    modifies buffer
    ensures forall j :: 0 <= j < buffer.Length ==>
      buffer[j] == if at + dlen <= j < at + Padded(dlen) then 0 else old(buffer[j])
  {
    PadLength(dlen);
    hide Padded;
    var pad := dlen % 4;
    if pad != 0 {
      Memset(buffer, at + dlen, 4 - pad);
    }
  }

  /** How far the parser has come in the message `s`: its buffer is cleared up to the cursor, and
      the parameters found so far and those behind the cursor are all. */
  ghost predicate Progress(s: seq<byte>, t: seq<byte>, at: nat, params: seq<Param>) {
    && at <= |s| && Parse(s, 0) == (params + Parse(s, at).0, Parse(s, at).1)
    && ClearedTo(s, t, at) && SamePadding(s, at)
  }

  lemma Begin(s: seq<byte>, t: seq<byte>)
    requires |s| <= |t| && t[..|s|] == s
    ensures Progress(s, t, 0, [])
  {
    assert [] + Parse(s, 0).0 == Parse(s, 0).0;
    forall j: nat | j < |s| ensures t[j] == s[j] {
      assert t[..|s|][j] == t[j];
    }
    hide Parse, IsPadding;
  }

  /** The descriptor at the cursor is the original one. */
  lemma Look(s: seq<byte>, t: seq<byte>, at: nat, params: seq<Param>)
    requires Progress(s, t, at, params) && at + HEADER <= |s|
    ensures IdAt(t, at) == IdAt(s, at) && LengthAt(t, at) == LengthAt(s, at)
  {
    hide Word, Parse, IsPadding;
  }

  /** The padding from the cursor on is that of the parameter there, and that behind it. */
  lemma PaddingHere(s: seq<byte>, at: nat, j: nat)
    requires at <= |s| && Whole(s, at)
    ensures IsPadding(s, at, j) <==> (at + HEADER + LengthAt(s, at) <= j < End(s, at) || IsPadding(s, End(s, at), j))
    ensures IsPadding(s, End(s, at), j) ==> End(s, at) <= j
  {
    if IsPadding(s, End(s, at), j) {
      PaddingIsBehind(s, End(s, at), j);
    }
    hide Padded, Word;
  }

  /** The buffer is cleared up to the cursor, and the original behind it. */
  ghost predicate ClearedTo(s: seq<byte>, t: seq<byte>, at: nat) {
    && at <= |s| <= |t|
    && (forall j: nat :: j < at ==> t[j] == if IsPadding(s, 0, j) then 0 else s[j])
    && (forall j: nat :: at <= j < |s| ==> t[j] == s[j])
  }

  /** Behind the cursor the padding is that of the parameters behind it. */
  ghost predicate SamePadding(s: seq<byte>, at: nat) {
    at <= |s| && forall j: nat :: at <= j < |s| ==> (IsPadding(s, 0, j) <==> IsPadding(s, at, j))
  }

  lemma StillSame(s: seq<byte>, at: nat)
    requires SamePadding(s, at) && Whole(s, at)
    ensures SamePadding(s, End(s, at))
  {
    var end := End(s, at);
    forall j: nat | end <= j < |s| ensures IsPadding(s, 0, j) <==> IsPadding(s, end, j) {
      PaddingHere(s, at, j);
    }
  }

  lemma ClearedMore(s: seq<byte>, t: seq<byte>, u: seq<byte>, at: nat)
    requires ClearedTo(s, t, at) && SamePadding(s, at) && Whole(s, at) && |u| == |t|
    requires forall j: nat :: j < |t| ==> u[j] == if at + HEADER + LengthAt(s, at) <= j < End(s, at) then 0 else t[j]
    ensures ClearedTo(s, u, End(s, at))
  {
    var end := End(s, at);
    forall j: nat | j < end ensures u[j] == if IsPadding(s, 0, j) then 0 else s[j] {
      if at <= j {
        PaddingHere(s, at, j);
      }
    }
    hide IsPadding, Word, Padded, LengthAt;
  }

  lemma ParsedMore(s: seq<byte>, at: nat, params: seq<Param>, p: Param)
    requires at <= |s| && Parse(s, 0) == (params + Parse(s, at).0, Parse(s, at).1)
    requires Whole(s, at) && p == ParamAt(s, at)
    ensures var end := End(s, at); Parse(s, 0) == (params + [p] + Parse(s, end).0, Parse(s, end).1)
  {
    var end := End(s, at);
    assert params + ([p] + Parse(s, end).0) == params + [p] + Parse(s, end).0;
  }

  lemma Advance(s: seq<byte>, t: seq<byte>, u: seq<byte>, at: nat, params: seq<Param>, p: Param)
    requires Progress(s, t, at, params) && Whole(s, at) && p == ParamAt(s, at) && |u| == |t|
    requires forall j: nat :: j < |t| ==> u[j] == if at + HEADER + LengthAt(s, at) <= j < End(s, at) then 0 else t[j]
    ensures Progress(s, u, End(s, at), params + [p])
  {
    hide ClearedTo, SamePadding, Parse, Whole, End, LengthAt, ParamAt;
    StillSame(s, at);
    ClearedMore(s, t, u, at);
    ParsedMore(s, at, params, p);
  }

  lemma Finish(s: seq<byte>, t: seq<byte>, at: nat, params: seq<Param>)
    requires Progress(s, t, at, params) && !Whole(s, at)
    ensures Parse(s, 0) == (params, Rest(s, at))
    ensures Cleared(s, t[..|s|])
  {
    assert params + [] == params;
    hide Parse, Rest, Word, Padded;
  }

  lemma EndsShort(s: seq<byte>, at: nat)
    ensures at + HEADER > |s| ==> !Whole(s, at) && Rest(s, at) == if at == |s| then Ok else InvalidLength
    ensures TooLong(s, at) ==> !Whole(s, at) && Rest(s, at) == Overrun
    ensures at + HEADER <= |s| && !TooLong(s, at) ==> LengthAt(s, at) <= LONGEST
    ensures at + HEADER <= |s| && !TooLong(s, at) && End(s, at) > |s| ==> !Whole(s, at) && Rest(s, at) == InvalidLength
  {
  }

  /** A parameter is left over when the plugin has accepted the first ones. */
  lemma Stopped(s: seq<byte>, t: seq<byte>, at: nat, params: seq<Param>, p: Param)
    requires Progress(s, t, at, params + [p])
    ensures |Parse(s, 0).0| > |params| && Parse(s, 0).0[..|params|] == params
    ensures SameButPadding(s, t[..|s|], 0)
  {
    var rest := Parse(s, at).0;
    assert Parse(s, 0).0 == params + [p] + rest;
    assert (params + [p] + rest)[..|params|] == params;
    hide Parse, IsPadding;
  }

  /** What is returned and written when the plugin accepts that many parameters. */
  ghost predicate Taken(s: seq<byte>, t: seq<byte>, accepts: nat, params: seq<Param>, r: Outcome) {
    var all := Parse(s, 0).0;
    if |all| <= accepts then (params, r) == Parse(s, 0) && Cleared(s, t)
    else params == all[..accepts] && r == Rejected && SameButPadding(s, t, 0)
  }

  /** Takes the parameters out of the first `total` bytes and zeroes their padding, up to the first
      one that the plugin does not accept, or the first write beyond the message. */
  method TakeAll(buffer: array<byte>, total: nat, accepts: nat) returns (params: seq<Param>, r: Outcome)
    requires total <= buffer.Length
    modifies buffer
    ensures Taken(old(buffer[..total]), buffer[..total], accepts, params, r)
    ensures r == Overrun <==> |Parse(old(buffer[..total]), 0).0| <= accepts && !LengthsFit(old(buffer[..total]), 0)
    ensures buffer[total..] == old(buffer[total..])
  {
    hide Parse, Cleared, SameButPadding, LengthsFit, IsPadding, Word, Round, Rest, Whole;
    ghost var s := buffer[..total];
    var at: nat, remaining := 0, total;
    params := [];
    assert buffer[..][..total] == s;
    Begin(s, buffer[..]);
    OverrunExactly(s, 0);
    hide Progress;
    while remaining >= HEADER
      invariant at + remaining == |s| && Progress(s, buffer[..], at, params) && |params| <= accepts
      invariant forall j :: total <= j < buffer.Length ==> buffer[j] == old(buffer[j])
    {
      Look(s, buffer[..], at, params);
      EndsShort(s, at);
      var id, dlen := IdAt(buffer[..], at), LengthAt(buffer[..], at);
      var dsize := Round(dlen);
      if dlen > LONGEST {
        Finish(s, buffer[..], at, params);
        return params, Overrun;
      }
      RoundExact(dlen);
      remaining := remaining - HEADER;
      if remaining < dsize {
        Finish(s, buffer[..], at, params);
        return params, InvalidLength;
      }
      ghost var before := buffer[..];
      Pad(buffer, at + HEADER, dlen);
      var p := Param(id, buffer[at + HEADER..at + HEADER + dlen]);
      WholeAt(s, at);
      Apply(s, before, buffer[..], at, params, p);
      if |params| == accepts {
        Stopped(s, buffer[..], End(s, at), params, p);
        return params, Rejected;
      }
      params := params + [p];
      at, remaining := at + HEADER + dsize, remaining - dsize;
    }
    EndsShort(s, at);
    Finish(s, buffer[..], at, params);
    r := if remaining == 0 then Ok else InvalidLength;
  }

  /** The parameter at the cursor is the original one; its padding has been zeroed. */
  lemma Apply(s: seq<byte>, t: seq<byte>, u: seq<byte>, at: nat, params: seq<Param>, p: Param)
    requires Progress(s, t, at, params) && Whole(s, at) && |u| == |t|
    requires p.id == IdAt(s, at) && at + HEADER + LengthAt(s, at) <= |u|
    requires p.data == u[at + HEADER..at + HEADER + LengthAt(s, at)]
    requires forall j: nat :: j < |t| ==> u[j] == if at + HEADER + LengthAt(s, at) <= j < End(s, at) then 0 else t[j]
    ensures Progress(s, u, End(s, at), params + [p])
  {
    hide Parse, IsPadding, Word, Padded;
    assert p.data == s[at + HEADER..at + HEADER + LengthAt(s, at)];
    hide *;
    SameParam(s, at, p);
    Advance(s, t, u, at, params, p);
  }

  lemma SameParam(s: seq<byte>, at: nat, p: Param)
    requires Whole(s, at) && p.id == IdAt(s, at) && p.data == s[at + HEADER..at + HEADER + LengthAt(s, at)]
    ensures p == ParamAt(s, at)
  {
  }

  lemma WholeAt(s: seq<byte>, at: nat)
    requires at + HEADER <= |s| && LengthAt(s, at) <= LONGEST && End(s, at) <= |s|
    ensures Whole(s, at)
  {
  }

  /** The codec's side: the parameters of a message, whose length is taken as a 16-bit number, for a
      plugin that accepts that many of them. */
  method SetParamExt(buffer: array<byte>, messageLength: nat, accepts: nat) returns (params: seq<Param>, r: Outcome)
    requires Round(messageLength % WORD) <= buffer.Length
    modifies buffer
    ensures var total := Round(messageLength % WORD);
      && Taken(old(buffer[..total]), buffer[..total], accepts, params, r)
      && (r == Overrun <==> |Parse(old(buffer[..total]), 0).0| <= accepts && !LengthsFit(old(buffer[..total]), 0))
      && buffer[total..] == old(buffer[total..])
  {
    var length := messageLength % WORD;
    hide Round, Parse, Taken, LengthsFit;
    params, r := TakeAll(buffer, Round(length), accepts);
  }

  /** Zeroing none, some or all of the padding does not change what is parsed. */
  lemma TakenParses(s: seq<byte>, t: seq<byte>, accepts: nat, params: seq<Param>, r: Outcome)
    requires Taken(s, t, accepts, params, r)
    ensures Parse(t, 0) == Parse(s, 0)
  {
    hide Parse, IsPadding;
    if |Parse(s, 0).0| <= accepts {
      ClearedParses(s, t);
    } else {
      PaddingIrrelevant(s, t, 0);
    }
  }

  /** Host and codec together: the codec finds the parameters the host has laid out, up to the first
      one that the plugin rejects, whatever was in the padding, and leaves a message that parses the
      same way. */
  method SendParams(buffer: array<byte>, params: seq<Param>, accepts: nat) returns (found: seq<Param>, r: Outcome)
    requires Fit(params) && Size(params, 0) == buffer.Length <= LONGEST
    modifies buffer
    ensures if |params| <= accepts then found == params && r == Ok else found == params[..accepts] && r == Rejected
    ensures Parse(buffer[..], 0) == (params, Ok)
  {
    var at := Write(buffer, params);
    ghost var s := buffer[..];
    RoundTrip(s, 0, params, 0);
    assert params[0..] == params;
    TotalRounds(params, 0);
    assert buffer[..at] == s;
    hide Round, Parse, Cleared, SameButPadding, LengthsFit, Size, Fit, LaidOut;
    found, r := SetParamExt(buffer, at, accepts);
    assert buffer[..at] == buffer[..];
    TakenParses(s, buffer[..], accepts, found, r);
  }

  lemma {:induction false} TotalRounds(params: seq<Param>, k: nat)
    requires k <= |params|
    ensures Size(params, k) % 4 == 0
    ensures Size(params, k) <= LONGEST ==> Round(Size(params, k) % WORD) == Size(params, k)
    decreases |params| - k
  {
    if k < |params| {
      TotalRounds(params, k + 1);
      Multiple(|params[k].data|, Size(params, k + 1));
    }
    RoundsToItself(Size(params, k));
  }

  lemma Multiple(n: nat, size: nat)
    requires size % 4 == 0
    ensures (HEADER + Padded(n) + size) % 4 == 0
  {
    var q := (n + 3) / 4 + size / 4 + 1;
    assert HEADER + Padded(n) + size == 4 * q;
  }

  lemma RoundsToItself(size: nat)
    ensures size % 4 == 0 && size <= LONGEST ==> Round(size % WORD) == size
  {
  }
}
