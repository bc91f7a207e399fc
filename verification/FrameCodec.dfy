/**
 The frames of ZMTP 2.0: what the encoder writes for a message and what the decoder
 makes of it, in chunks of any size.
 */
module FrameCodec {
  import opened Wire
  import opened Wrappers
  import opened Codec

  /** Subscriptions and cancellations get one more byte on the wire. */
  datatype Kind = Ordinary | Subscribe | Cancel

  datatype Message = Message(more: bool, command: bool, kind: Kind, data: seq<Byte>)

  type Msg = m: Message | |m.data| < 0xFFFF_FFFF_FFFF_FFFF witness Message(false, false, Ordinary, [])

  const MORE := 1
  const LARGE := 2
  const COMMAND := 4

  function Prefix(m: Msg): seq<Byte> {
    match m.kind
    case Ordinary => []
    case Subscribe => [1]
    case Cancel => [0]
  }

  /** The large flag is set by the size of the message, the form of the size field by the
      size on the wire. */
  function Header(m: Msg): seq<Byte> {
    var size := |m.data| + |Prefix(m)|;
    var flags := (if m.more then MORE else 0) + (if |m.data| > 255 then LARGE else 0)
        + (if m.command then COMMAND else 0);
    [flags] + (if size > 255 then PutU64(size) else [size]) + Prefix(m)
  }

  datatype EncState = HeaderReady | BodyReady

  function EncNext(e: EncState, m: Msg): (EncState, seq<Byte>, bool) {
    match e
    case HeaderReady => (BodyReady, Header(m), false)
    case BodyReady => (HeaderReady, m.data, true)
  }

  function EncRank(e: EncState): nat {
    if e == HeaderReady then 1 else 0
  }

  lemma EncoderLawful()
    ensures EncLawful(EncNext, EncRank, HeaderReady)
  {
  }

  /** A message as it is received. */
  datatype Received = Received(more: bool, command: bool, body: seq<Byte>)

  datatype DecState = FlagsReady | OneByteSize(more: bool, command: bool) | EightByteSize(more: bool, command: bool)
      | MessageReady(more: bool, command: bool)

  function SizeReady(maxSize: int, more: bool, command: bool, size: nat): (DecState, nat, Rc<Received>) {
    if maxSize >= 0 && size > maxSize then (FlagsReady, 0, Fail) else (MessageReady(more, command), size, More)
  }

  /** The actions of the decoder; `maxSize` is the limit for messages, if it is not negative. */
  function DecNext(maxSize: int): Action<DecState, Received> {
    (s: DecState, got: seq<Byte>) =>
      match s
      case FlagsReady =>
        if got == [] then (s, 1, More)
        else
          var b := got[0];
          var more, command := b % 2 == 1, b / 4 % 2 == 1;
          if b / 2 % 2 == 1 then (EightByteSize(more, command), 8, More) else (OneByteSize(more, command), 1, More)
      case OneByteSize(more, command) => if got == [] then (s, 1, More) else SizeReady(maxSize, more, command, got[0])
      case EightByteSize(more, command) => if |got| < 8 then (s, 8, More)
          else SizeReady(maxSize, more, command, GetU64(got))
      case MessageReady(more, command) => (FlagsReady, 1, Done(Received(more, command, got)))
  }

  function DecRank(s: DecState): nat {
    if s.OneByteSize? || s.EightByteSize? then 1 else 0
  }

  lemma DecoderLawful(maxSize: int)
    ensures Lawful(DecNext(maxSize), DecRank)
  {
  }

  /** Between two messages. */
  function Between(out: seq<Received>): Dec<DecState, Received> {
    Dec(FlagsReady, [], 1, out, false)
  }

  function Body(m: Msg): seq<Byte> {
    Prefix(m) + m.data
  }

  function Expected(m: Msg): Received {
    Received(m.more, m.command, Body(m))
  }

  /** The topics for which the header is wrong: the size field has eight bytes and the
      large flag is not set. */
  predicate Misframed(m: Msg) {
    m.kind != Ordinary && |m.data| == 255
  }

  ghost function Framed(m: Msg): seq<Byte>
    ensures EncLawful(EncNext, EncRank, HeaderReady)
        && Framed(m) == Frames(EncNext, EncRank, HeaderReady, HeaderReady, m)
  {
    EncoderLawful();
    Frames(EncNext, EncRank, HeaderReady, HeaderReady, m)
  }

  lemma FrameParts(m: Msg)
    ensures Framed(m) == [Header(m)[0]] + SizeField(m) + Body(m)
  {
    EncoderLawful();
    assert Frames(EncNext, EncRank, HeaderReady, BodyReady, m) == m.data + [];
    assert Header(m) == [Header(m)[0]] + SizeField(m) + Prefix(m);
  }

  function SizeField(m: Msg): seq<Byte> {
    var size := |Body(m)|;
    if size > 255 then PutU64(size) else [size]
  }

  /** Waiting for the size field of a message. */
  function AtSize(m: Msg, out: seq<Received>): Dec<DecState, Received> {
    if |m.data| > 255 then Dec(EightByteSize(m.more, m.command), [], 8, out, false)
    else Dec(OneByteSize(m.more, m.command), [], 1, out, false)
  }

  lemma FlagsDecode(maxSize: int, m: Msg, out: seq<Received>)
    ensures Lawful(DecNext(maxSize), DecRank)
    ensures FeedAll(DecNext(maxSize), DecRank, Between(out), [Header(m)[0]]) == AtSize(m, out)
  {
    DecoderLawful(maxSize);
    var next, x := DecNext(maxSize), [Header(m)[0]];
    FeedCollects(next, DecRank, Between(out), x);
    assert [] + x == x;
  }

  /** The message is longer than the decoder allows. */
  predicate TooLong(maxSize: int, m: Msg) {
    maxSize >= 0 && |Body(m)| > maxSize
  }

  /** What the decoder makes of the size field: it fails exactly if the message is too long. */
  lemma SizeDecodes(maxSize: int, m: Msg, out: seq<Received>)
    requires !Misframed(m)
    ensures Lawful(DecNext(maxSize), DecRank)
    ensures var d := FeedAll(DecNext(maxSize), DecRank, AtSize(m, out), SizeField(m));
        && (TooLong(maxSize, m) ==> d.dead && d.out == out)
        && (!TooLong(maxSize, m) ==> d == if Body(m) == [] then Between(out + [Expected(m)])
                                          else Dec(MessageReady(m.more, m.command), [], |Body(m)|, out, false))
  {
    DecoderLawful(maxSize);
    var d := AtSize(m, out);
    FeedCollects(DecNext(maxSize), DecRank, d, SizeField(m));
    var d1 := Collected(d, SizeField(m));
    assert d1.got == SizeField(m);
    if TooLong(maxSize, m) { SizeFails(maxSize, m, d1); } else { SizeActs(maxSize, m, out, d1); }
  }

  lemma SizeRead(m: Msg)
    ensures var got := SizeField(m); (if |Body(m)| > 255 then GetU64(got) else got[0]) == |Body(m)|
  {
    if |Body(m)| > 255 { GetPut64(|Body(m)|); }
  }

  lemma SizeFails(maxSize: int, m: Msg, d: Dec<DecState, Received>)
    requires TooLong(maxSize, m) && (|m.data| > 255 <==> |Body(m)| > 255)
    requires d.s == (if |m.data| > 255 then EightByteSize(m.more, m.command) else OneByteSize(m.more, m.command))
    requires d.got == SizeField(m) && d.toRead == 0 && !d.dead
    ensures Lawful(DecNext(maxSize), DecRank)
    ensures Advance(DecNext(maxSize), DecRank, d) == d.(dead := true)
  {
    DecoderLawful(maxSize);
    SizeRead(m);
    assert DecNext(maxSize)(d.s, d.got).2 == Fail;
  }

  lemma SizeActs(maxSize: int, m: Msg, out: seq<Received>, d: Dec<DecState, Received>)
    requires !TooLong(maxSize, m) && (|m.data| > 255 <==> |Body(m)| > 255)
    requires d.s == (if |m.data| > 255 then EightByteSize(m.more, m.command) else OneByteSize(m.more, m.command))
    requires d.got == SizeField(m) && d.toRead == 0 && !d.dead && d.out == out
    ensures Lawful(DecNext(maxSize), DecRank)
    ensures Advance(DecNext(maxSize), DecRank, d) == if Body(m) == [] then Between(out + [Expected(m)])
        else Dec(MessageReady(m.more, m.command), [], |Body(m)|, out, false)
  {
    DecoderLawful(maxSize);
    var next, size := DecNext(maxSize), |Body(m)|;
    SizeRead(m);
    var d1 := Act(next, d);
    assert d1 == Dec(MessageReady(m.more, m.command), [], size, out, false);
    assert Advance(next, DecRank, d) == Advance(next, DecRank, d1);
    if size == 0 { assert Act(next, d1) == Between(out + [Received(m.more, m.command, [])]); }
  }

  lemma BodyDecodes(maxSize: int, m: Msg, out: seq<Received>)
    requires Body(m) != []
    ensures Lawful(DecNext(maxSize), DecRank)
    ensures FeedAll(DecNext(maxSize), DecRank, Dec(MessageReady(m.more, m.command), [], |Body(m)|, out, false), Body(m))
        == Between(out + [Expected(m)])
  {
    DecoderLawful(maxSize);
    FeedCollects(DecNext(maxSize), DecRank, Dec(MessageReady(m.more, m.command), [], |Body(m)|, out, false), Body(m));
    assert [] + Body(m) == Body(m);
  }

  /** A frame is decoded to its message, and the decoder is ready for the next, if and only
      if the message is not too long; otherwise the decoder fails and nothing comes out. */
  lemma FrameDecodes(maxSize: int, m: Msg, out: seq<Received>)
    requires !Misframed(m)
    ensures Lawful(DecNext(maxSize), DecRank)
    ensures var d := FeedAll(DecNext(maxSize), DecRank, Between(out), Framed(m));
        && (TooLong(maxSize, m) <==> d.dead) && (d.dead ==> d.out == out)
        && (!d.dead ==> d == Between(out + [Expected(m)]))
  {
    DecoderLawful(maxSize);
    var next, flags := DecNext(maxSize), [Header(m)[0]];
    FrameParts(m);
    FlagsDecode(maxSize, m, out);
    SizeDecodes(maxSize, m, out);
    FeedAppend(next, DecRank, Between(out), flags, SizeField(m));
    FeedAppend(next, DecRank, Between(out), flags + SizeField(m), Body(m));
    var d := FeedAll(next, DecRank, AtSize(m, out), SizeField(m));
    if TooLong(maxSize, m) {
      FeedDead(next, DecRank, d, Body(m));
    } else if Body(m) != [] {
      BodyDecodes(maxSize, m, out);
    }
  }

  /** A frame byte by byte: bit 0 of the first byte is set if more is to follow, bit 1 if the
      size has eight bytes and not one, and bit 2 for a command; then comes the size in network
      byte order, and then the body. */
  lemma Layout(m: Msg)
    requires !Misframed(m)
    ensures var f, b := Framed(m), Body(m); var n := if |b| > 255 then 9 else 2;
        && |f| == n + |b| && f[n..] == b && f[0] < 8 && BigEndian(f[1..n]) == |b|
        && (f[0] % 2 == 1 <==> m.more) && (f[0] / 2 % 2 == 1 <==> n == 9) && (f[0] / 4 % 2 == 1 <==> m.command)
  {
    FrameParts(m);
    FlagBits(m);
    SizeBytes(m);
    var f, b := Framed(m), Body(m);
    var n := if |b| > 255 then 9 else 2;
    assert f[1..n] == SizeField(m) && f[n..] == b;
  }

  lemma FlagBits(m: Msg)
    ensures var x := Header(m)[0];
        && x < 8 && (x % 2 == 1 <==> m.more) && (x / 2 % 2 == 1 <==> |m.data| > 255) && (x / 4 % 2 == 1 <==> m.command)
  {
  }

  lemma SizeBytes(m: Msg)
    ensures BigEndian(SizeField(m)) == |Body(m)| && |SizeField(m)| == if |Body(m)| > 255 then 8 else 1
  {
    if |Body(m)| > 255 { Put64IsBigEndian(|Body(m)|); } else { OneMore([], |Body(m)|); }
  }

  lemma SmallFrame(m: Msg, flags: Byte, body: seq<Byte>)
    requires flags == Header(m)[0] && body == Body(m) && |body| <= 255
    ensures Framed(m) == [flags, |body|] + body
  {
    FrameParts(m);
  }

  /** The frames of a message with one byte, of a subscription and of a cancellation. */
  lemma SomeFrames(more: bool, x: Byte)
    ensures Framed(Message(more, false, Ordinary, [x])) == [if more then 1 else 0, 1, x]
    ensures Framed(Message(false, false, Subscribe, [x])) == [0, 2, 1, x]
    ensures Framed(Message(false, false, Cancel, [x])) == [0, 2, 0, x]
  {
    SmallFrame(Message(more, false, Ordinary, [x]), if more then 1 else 0, [x]);
    SmallFrame(Message(false, false, Subscribe, [x]), 0, [1, x]);
    SmallFrame(Message(false, false, Cancel, [x]), 0, [0, x]);
  }

  /** The beginning of the frame of a command with 256 bytes. */
  lemma LargeFrame(m: Msg)
    requires m == Message(false, true, Ordinary, m.data) && |m.data| == 256
    ensures Framed(m) == [6, 0, 0, 0, 0, 0, 0, 1, 0] + m.data
  {
    FrameParts(m);
    assert PutU64(256) == [0, 0, 0, 0] + [0, 0, 1, 0];
    assert Body(m) == m.data;
  }

  function ExpectedAll(msgs: seq<Msg>): seq<Received> {
    if msgs == [] then [] else ExpectedAll(msgs[..|msgs| - 1]) + [Expected(msgs[|msgs| - 1])]
  }

  ghost function Sent(msgs: seq<Msg>): seq<Byte> {
    EncoderLawful();
    Stream(EncNext, EncRank, HeaderReady, msgs)
  }

  predicate AllFramed(msgs: seq<Msg>) {
    forall i :: 0 <= i < |msgs| ==> !Misframed(msgs[i])
  }

  /** The messages before the first one that is too long. */
  function Fitting(maxSize: int, msgs: seq<Msg>): (n: nat)
    ensures n <= |msgs|
    ensures forall i :: 0 <= i < n ==> !TooLong(maxSize, msgs[i])
    ensures n < |msgs| ==> TooLong(maxSize, msgs[n])
  {
    if msgs == [] then 0
    else
      var k := |msgs| - 1;
      var n := Fitting(maxSize, msgs[..k]);
      if n < k then n else if TooLong(maxSize, msgs[k]) then k else k + 1
  }

  lemma {:induction false} FittingPrefix(maxSize: int, msgs: seq<Msg>, n: nat)
    requires n <= |msgs|
    ensures Fitting(maxSize, msgs[..n]) == if n < Fitting(maxSize, msgs) then n else Fitting(maxSize, msgs)
  {
    var k, l := Fitting(maxSize, msgs[..n]), Fitting(maxSize, msgs);
    if k < n { assert TooLong(maxSize, msgs[k]); }
    if l < n { assert TooLong(maxSize, msgs[..n][l]); }
  }

  /** The frames of any messages are decoded to the ones before the first that is too long;
      there the decoder fails, and nothing behind it comes out. */
  lemma {:induction false} StreamDecodes(maxSize: int, msgs: seq<Msg>)
    requires AllFramed(msgs)
    ensures Lawful(DecNext(maxSize), DecRank)
    ensures var d, n := FeedAll(DecNext(maxSize), DecRank, Between([]), Sent(msgs)), Fitting(maxSize, msgs);
        && d.out == ExpectedAll(msgs[..n]) && (d.dead <==> n < |msgs|)
        && (!d.dead ==> d == Between(ExpectedAll(msgs)))
    decreases |msgs|
  {
    DecoderLawful(maxSize);
    EncoderLawful();
    if msgs != [] {
      var k := |msgs| - 1;
      var next, d := DecNext(maxSize), FeedAll(DecNext(maxSize), DecRank, Between([]), Sent(msgs[..k]));
      StreamDecodes(maxSize, msgs[..k]);
      FeedAppend(next, DecRank, Between([]), Sent(msgs[..k]), Framed(msgs[k]));
      if d.dead {
        FeedDead(next, DecRank, d, Framed(msgs[k]));
        assert msgs[..k][..Fitting(maxSize, msgs)] == msgs[..Fitting(maxSize, msgs)];
      } else {
        FrameDecodes(maxSize, msgs[k], ExpectedAll(msgs[..k]));
        assert msgs[..|msgs|] == msgs;
      }
    }
  }

  /** Whatever the sizes of the encoder's buffers and of the chunks that arrive, the peer
      receives the messages that were sent, in order. */
  lemma {:induction false} EndToEnd(maxSize: int, msgs: seq<Msg>, chunks: seq<seq<Byte>>)
    requires AllFramed(msgs) && Concat(chunks) == Sent(msgs) && Fitting(maxSize, msgs) == |msgs|
    ensures Lawful(DecNext(maxSize), DecRank)
    ensures FeedChunks(DecNext(maxSize), DecRank, Between([]), chunks) == Between(ExpectedAll(msgs))
  {
    StreamDecodes(maxSize, msgs);
    ChunkIndependence(DecNext(maxSize), DecRank, Between([]), chunks);
  }

  /** Messages that were decoded are never taken back. */
  lemma {:induction false} FeedKeeps<S(!new), M(!new)>(next: Action<S, M>, rank: S -> nat, d: Dec<S, M>, x: seq<Byte>)
    requires Lawful(next, rank)
    ensures d.out <= FeedAll(next, rank, d, x).out
    decreases |x|
  {
    if x != [] {
      var d0 := Settle(next, rank, d);
      SettleKeeps(next, rank, d);
      if !d0.dead { AdvanceKeeps(next, rank, d0.(got := d0.got + [x[0]], toRead := d0.toRead - 1)); }
      FeedKeeps(next, rank, Feed(next, rank, d, x[0]), x[1..]);
    }
  }

  lemma {:induction false} SettleKeeps<S(!new), M(!new)>(next: Action<S, M>, rank: S -> nat, d: Dec<S, M>)
    requires Lawful(next, rank)
    ensures d.out <= Settle(next, rank, d).out
    decreases Due(rank, d)
  {
    if !d.dead && d.toRead == 0 && !Act(next, d).dead { SettleKeeps(next, rank, Act(next, d)); }
  }

  lemma {:induction false} AdvanceKeeps<S(!new), M(!new)>(next: Action<S, M>, rank: S -> nat, d: Dec<S, M>)
    requires Lawful(next, rank)
    ensures d.out <= Advance(next, rank, d).out
    decreases Due(rank, d)
  {
    if !d.dead && d.toRead == 0 && next(d.s, d.got).2.More? { AdvanceKeeps(next, rank, Act(next, d)); }
  }

  // ---- both ends of a connection ----

  /** The sender encodes into its own buffer or into `size` bytes, or `size` more bytes arrive. */
  datatype Turn = Encode(own: bool, size: nat) | Arrive(size: nat)

  /** The beginning of a stream is decoded to some of the messages before the first that is
      too long.  It fails only at that one. */
  lemma {:induction false} PartDecodes(maxSize: int, msgs: seq<Msg>, n: nat, part: seq<Byte>, rest: seq<Byte>)
    requires AllFramed(msgs) && n <= |msgs| && part + rest == Sent(msgs[..n])
    ensures Lawful(DecNext(maxSize), DecRank)
    ensures var d := FeedAll(DecNext(maxSize), DecRank, Between([]), part);
        && d.out <= ExpectedAll(msgs[..Fitting(maxSize, msgs)])
        && (d.dead ==> Fitting(maxSize, msgs) < n && d.out == ExpectedAll(msgs[..Fitting(maxSize, msgs)]))
        && (rest == [] && Fitting(maxSize, msgs) < n ==> d.dead)
        && (rest == [] && Fitting(maxSize, msgs) >= n ==> d == Between(ExpectedAll(msgs[..n])))
  {
    DecoderLawful(maxSize);
    var next, k := DecNext(maxSize), Fitting(maxSize, msgs);
    var d := FeedAll(next, DecRank, Between([]), part);
    StreamDecodes(maxSize, msgs[..n]);
    FittingPrefix(maxSize, msgs, n);
    FeedAppend(next, DecRank, Between([]), part, rest);
    FeedKeeps(next, DecRank, d, rest);
    if d.dead { FeedDead(next, DecRank, d, rest); }
    if rest == [] { assert part + rest == part; }
    if k < n {
      assert msgs[..n][..k] == msgs[..k];
    } else {
      assert msgs[..n][..n] == msgs[..n] == msgs[..k][..n];
      ExpectedPrefix(msgs[..k], n);
    }
  }

  lemma {:induction false} ExpectedPrefix(msgs: seq<Msg>, n: nat)
    requires n <= |msgs|
    ensures ExpectedAll(msgs[..n]) <= ExpectedAll(msgs)
  {
    if n < |msgs| {
      ExpectedPrefix(msgs[..|msgs| - 1], n);
      assert msgs[..|msgs| - 1][..n] == msgs[..n];
    } else {
      assert msgs[..n] == msgs;
    }
  }

  /** The first `taken` messages were loaded and the bytes `sent` have left. */
  ghost predicate Sending(enc: Encoder<EncState, Msg>, msgs: seq<Msg>, taken: nat, sent: seq<Byte>)
    reads enc
  {
    && enc.Valid() && enc.next == EncNext && enc.rank == EncRank && enc.start == HeaderReady
    && taken <= |msgs| && enc.loaded == msgs[..taken] && enc.emitted == sent
  }

  /** The bytes `arrived` were decoded. */
  ghost predicate Receiving(dec: Decoder<DecState, Received>, maxSize: int, arrived: seq<Byte>)
    reads dec
  {
    && Lawful(DecNext(maxSize), DecRank) && dec.next == DecNext(maxSize) && dec.rank == DecRank && dec.bufSize > 0
    && dec.View() == FeedAll(DecNext(maxSize), DecRank, Between([]), arrived)
  }

  /** What has been decoded when `taken` messages were sent, and all of it has arrived if the
      connection is idle: the messages before the first that is too long, or the first of them. */
  predicate Carried(maxSize: int, msgs: seq<Msg>, d: Dec<DecState, Received>, taken: nat, idle: bool)
    requires taken <= |msgs|
  {
    var n := Fitting(maxSize, msgs);
    && d.out <= ExpectedAll(msgs[..n])
    && (d.dead ==> n < taken && d.out == ExpectedAll(msgs[..n]))
    && (idle ==> if n < taken then d.dead else d == Between(ExpectedAll(msgs[..taken])))
  }

  lemma ConnectedDecodes(enc: Encoder<EncState, Msg>, dec: Decoder<DecState, Received>, maxSize: int, msgs: seq<Msg>,
          taken: nat, wire: seq<Byte>, arrived: seq<Byte>)
    requires AllFramed(msgs) && Sending(enc, msgs, taken, arrived + wire) && Receiving(dec, maxSize, arrived)
    ensures Carried(maxSize, msgs, dec.View(), taken, wire == [] && enc.inProgress.None?)
  {
    Associative(arrived, wire, enc.Rest());
    PartDecodes(maxSize, msgs, taken, arrived, wire + enc.Rest());
  }

  lemma Arrives(arrived: seq<Byte>, wire: seq<Byte>, n: nat)
    requires n <= |wire|
    ensures (arrived + wire[..n]) + wire[n..] == arrived + wire
  {
  }

  /** The sender's turn: the next message, if none is in progress, and some bytes. */
  method SendTurn(enc: Encoder<EncState, Msg>, msgs: seq<Msg>, taken: nat, ghost sent: seq<Byte>, own: bool, size: nat)
    returns (taken': nat, data: seq<Byte>)
    requires Sending(enc, msgs, taken, sent)
    modifies enc
    ensures Sending(enc, msgs, taken', sent + data)
  {
    taken' := taken;
    if enc.inProgress.None? && taken < |msgs| {
      enc.LoadMsg(msgs[taken]);
      taken' := taken + 1;
    }
    data := enc.Encode(own, size);
  }

  /** The receiver's turn: some bytes arrive. */
  method ReceiveTurn(dec: Decoder<DecState, Received>, ghost maxSize: int, ghost arrived: seq<Byte>, data: seq<Byte>)
    returns (ok: bool)
    requires Receiving(dec, maxSize, arrived) && !dec.dead
    modifies dec
    ensures Receiving(dec, maxSize, arrived + data) && ok == !dec.dead
  {
    FeedAppend(DecNext(maxSize), DecRank, Between([]), arrived, data);
    ok := dec.ReceiveArrived(data);
  }

  /** Messages go through an encoder with a buffer of `outBuf` bytes into a decoder with one
      of `inBuf`, which takes messages of up to `maxSize` bytes.  Whatever the sizes and the
      order of the turns, what has been decoded is the first of the messages, in order, and all
      that were taken once nothing is left on the way, but none from the first too long one on. */
  method Carry(maxSize: int, msgs: seq<Msg>, outBuf: nat, inBuf: nat, turns: seq<Turn>)
    returns (dec: Decoder<DecState, Received>, taken: nat, idle: bool)
    requires AllFramed(msgs) && inBuf > 0
    ensures taken <= |msgs| && Carried(maxSize, msgs, dec.View(), taken, idle)
  {
    EncoderLawful();
    DecoderLawful(maxSize);
    var enc := new Encoder<EncState, Msg>(EncNext, EncRank, HeaderReady, outBuf);
    dec := new Decoder<DecState, Received>(DecNext(maxSize), DecRank, FlagsReady, 1, inBuf);
    var wire: seq<Byte> := [];
    ghost var arrived: seq<Byte> := [];
    var failed := false;
    taken := 0;
    for i := 0 to |turns|
      invariant Sending(enc, msgs, taken, arrived + wire) && Receiving(dec, maxSize, arrived) && fresh(enc)
          && fresh(dec)
          && failed == dec.dead
    {
      match turns[i]
      case Encode(own, size) =>
        var data;
        taken, data := SendTurn(enc, msgs, taken, arrived + wire, own, size);
        Associative(arrived, wire, data);
        wire := wire + data;
      case Arrive(size) =>
        if !failed {
          var n := if size < |wire| then size else |wire|;
          Arrives(arrived, wire, n);
          var ok := ReceiveTurn(dec, maxSize, arrived, wire[..n]);
          failed, arrived, wire := !ok, arrived + wire[..n], wire[n..];
        }
    }
    ConnectedDecodes(enc, dec, maxSize, msgs, taken, wire, arrived);
    idle := wire == [] && enc.inProgress.None?;
  }

  /** The flags and the first byte of the size field of a misframed message. */
  lemma FirstTwo(m: Msg)
    requires Misframed(m)
    ensures Lawful(DecNext(-1), DecRank)
    ensures FeedAll(DecNext(-1), DecRank, Between([]), [Header(m)[0], 0]) == Between([Received(m.more, m.command, [])])
  {
    DecoderLawful(-1);
    var next, flags := DecNext(-1), [Header(m)[0]];
    FlagsDecode(-1, m, []);
    var d1 := FeedAll(next, DecRank, Between([]), flags);
    FeedAppend(next, DecRank, Between([]), flags, [0]);
    FeedCollects(next, DecRank, d1, [0]);
    var empty := Message(m.more, m.command, Ordinary, []);
    SizeActs(-1, empty, [], Collected(d1, [0]));
    assert flags + [0 as Byte] == [Header(m)[0], 0];
  }

  lemma Rejoined(flags: Byte, size: seq<Byte>, body: seq<Byte>)
    requires size != [] && size[0] == 0
    ensures [flags] + size + body == [flags, 0] + (size[1..] + body)
  {
  }

  /** They are taken for an empty message. */
  lemma MisframedDecodes(m: Msg)
    requires Misframed(m)
    ensures Lawful(DecNext(-1), DecRank)
    ensures var out := FeedAll(DecNext(-1), DecRank, Between([]), Framed(m)).out;
            |out| > 0 && out[0] == Received(m.more, m.command, [])
  {
    DecoderLawful(-1);
    var first, rest := [Header(m)[0], 0], PutU64(256)[1..] + Body(m);
    FrameParts(m);
    assert SizeField(m) == PutU64(256);
    Rejoined(Header(m)[0], PutU64(256), Body(m));
    FirstTwo(m);
    FeedAppend(DecNext(-1), DecRank, Between([]), first, rest);
    FeedKeeps(DecNext(-1), DecRank, Between([Received(m.more, m.command, [])]), rest);
  }

  /** Without a limit for their size, exactly the messages that are not misframed come out
      of a decoder as they went into the encoder. */
  lemma RoundTripExact(m: Msg)
    ensures Lawful(DecNext(-1), DecRank)
    ensures FeedAll(DecNext(-1), DecRank, Between([]), Framed(m)).out == [Expected(m)] <==> !Misframed(m)
  {
    if Misframed(m) { MisframedDecodes(m); } else { FrameDecodes(-1, m, []); }
  }
}
