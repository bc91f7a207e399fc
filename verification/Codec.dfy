/**
 The drivers that encoders and decoders share: they move bytes in chunks of any size
 and let the state machine of a protocol act in between.
 */
module Codec {
  import opened Wire
  import opened Wrappers

  /** What an action of a decoder's state machine returns: 0, 1 or -1. */
  datatype Rc<M> = More | Done(msg: M) | Fail

  /** A state machine's action: from its state and the bytes it has asked for to the next
      state, the number of bytes to read before the next action, and a result. */
  type Action<!S, M> = (S, seq<Byte>) -> (S, nat, Rc<M>)

  /** A machine that asks for no bytes gets nearer to asking for some. */
  ghost predicate Lawful<S(!new), M(!new)>(next: Action<S, M>, rank: S -> nat) {
    forall s, got {:trigger next(s, got)} :: next(s, got).1 == 0 && !next(s, got).2.Fail? ==>
        rank(next(s, got).0) < rank(s)
  }

  // ---- one byte at a time: what a decoder is to do ----

  /** A decoder: its machine, the bytes read since the last action and how many are missing,
      and the messages it has decoded. */
  datatype Dec<S, M> = Dec(s: S, got: seq<Byte>, toRead: nat, out: seq<M>, dead: bool)

  function Act<S, M>(next: Action<S, M>, d: Dec<S, M>): Dec<S, M> {
    var (s, n, rc) := next(d.s, d.got);
    match rc
    case More => Dec(s, [], n, d.out, false)
    case Done(msg) => Dec(s, [], n, d.out + [msg], false)
    case Fail => d.(dead := true)
  }

  /** The actions that can still follow without reading. */
  ghost function Due<S, M>(rank: S -> nat, d: Dec<S, M>): nat {
    if d.dead || d.toRead > 0 then 0 else 1 + rank(d.s)
  }

  /** Actions until bytes are needed. */
  ghost function Settle<S(!new), M(!new)>(next: Action<S, M>, rank: S -> nat, d: Dec<S, M>): (d': Dec<S, M>)
    requires Lawful(next, rank)
    ensures d'.dead || d'.toRead > 0
    decreases Due(rank, d)
  {
    if d.dead || d.toRead > 0 then d
    else if Act(next, d).dead then Act(next, d)
    else Settle(next, rank, Act(next, d))
  }

  /** Actions until bytes are needed or a message is complete. */
  ghost function Advance<S(!new), M(!new)>(next: Action<S, M>, rank: S -> nat, d: Dec<S, M>): Dec<S, M>
    requires Lawful(next, rank)
    decreases Due(rank, d)
  {
    if d.dead || d.toRead > 0 then d
    else if next(d.s, d.got).2.More? then Advance(next, rank, Act(next, d))
    else Act(next, d)
  }

  /** The next byte: first what is left to do from before. */
  ghost function Feed<S(!new), M(!new)>(next: Action<S, M>, rank: S -> nat, d: Dec<S, M>, b: Byte): Dec<S, M>
    requires Lawful(next, rank)
  {
    var d := Settle(next, rank, d);
    if d.dead then d else Advance(next, rank, d.(got := d.got + [b], toRead := d.toRead - 1))
  }

  ghost function FeedAll<S(!new), M(!new)>(next: Action<S, M>, rank: S -> nat, d: Dec<S, M>,
          bytes: seq<Byte>): Dec<S, M>
    requires Lawful(next, rank)
    decreases |bytes|
  {
    if bytes == [] then d else FeedAll(next, rank, Feed(next, rank, d, bytes[0]), bytes[1..])
  }

  lemma {:induction false} FeedAppend<S(!new), M(!new)>(next: Action<S, M>, rank: S -> nat, d: Dec<S, M>, x: seq<Byte>,
          y: seq<Byte>)
    requires Lawful(next, rank)
    ensures FeedAll(next, rank, d, x + y) == FeedAll(next, rank, FeedAll(next, rank, d, x), y)
    decreases |x|
  {
    if x == [] {
      assert x + y == y;
    } else {
      assert (x + y)[0] == x[0] && (x + y)[1..] == x[1..] + y;
      FeedAppend(next, rank, Feed(next, rank, d, x[0]), x[1..], y);
    }
  }

  /** Bytes that are missing are only collected. */
  function Collected<S, M>(d: Dec<S, M>, x: seq<Byte>): Dec<S, M>
    requires |x| <= d.toRead
  {
    d.(got := d.got + x, toRead := d.toRead - |x|)
  }

  lemma {:induction false} FeedCollects<S(!new), M(!new)>(next: Action<S, M>, rank: S -> nat, d: Dec<S, M>,
          x: seq<Byte>)
    requires Lawful(next, rank) && !d.dead && 0 < |x| <= d.toRead
    ensures FeedAll(next, rank, d, x) == Advance(next, rank, Collected(d, x))
    decreases |x|
  {
    var d1 := Collected(d, x[..1]);
    assert x[..1] == [x[0]];
    assert Feed(next, rank, d, x[0]) == Advance(next, rank, d1);
    if |x| == 1 {
      assert x[1..] == [] && x == x[..1];
    } else {
      FeedCollects(next, rank, d1, x[1..]);
      assert d.got + x[..1] + x[1..] == d.got + x by { assert x[..1] + x[1..] == x; }
    }
  }

  /** What is left to do is done before the next byte, in any number of calls. */
  lemma {:induction false} SettleAdvance<S(!new), M(!new)>(next: Action<S, M>, rank: S -> nat, d: Dec<S, M>)
    requires Lawful(next, rank)
    ensures Settle(next, rank, Advance(next, rank, d)) == Settle(next, rank, d)
    decreases Due(rank, d)
  {
    if !d.dead && d.toRead == 0 && next(d.s, d.got).2.More? { SettleAdvance(next, rank, Act(next, d)); }
  }

  lemma FeedPending<S(!new), M(!new)>(next: Action<S, M>, rank: S -> nat, d: Dec<S, M>, x: seq<Byte>)
    requires Lawful(next, rank) && x != []
    ensures FeedAll(next, rank, Advance(next, rank, d), x) == FeedAll(next, rank, d, x)
  {
    SettleAdvance(next, rank, d);
  }

  lemma {:induction false} FeedDead<S(!new), M(!new)>(next: Action<S, M>, rank: S -> nat, d: Dec<S, M>, x: seq<Byte>)
    requires Lawful(next, rank) && d.dead
    ensures FeedAll(next, rank, d, x) == d
    decreases |x|
  {
    if x != [] { FeedDead(next, rank, d, x[1..]); }
  }

  function Concat<T>(parts: seq<seq<T>>): seq<T> {
    if parts == [] then [] else parts[0] + Concat(parts[1..])
  }

  ghost function FeedChunks<S(!new), M(!new)>(next: Action<S, M>, rank: S -> nat, d: Dec<S, M>,
          chunks: seq<seq<Byte>>): Dec<S, M>
    requires Lawful(next, rank)
    decreases |chunks|
  {
    if chunks == [] then d else FeedChunks(next, rank, FeedAll(next, rank, d, chunks[0]), chunks[1..])
  }

  /** It does not matter how a stream of bytes is cut into chunks: the messages and the
      final state are the same. */
  lemma {:induction false} ChunkIndependence<S(!new), M(!new)>(next: Action<S, M>, rank: S -> nat, d: Dec<S, M>,
          chunks: seq<seq<Byte>>)
    requires Lawful(next, rank)
    ensures FeedChunks(next, rank, d, chunks) == FeedAll(next, rank, d, Concat(chunks))
    decreases |chunks|
  {
    if chunks != [] {
      ChunkIndependence(next, rank, FeedAll(next, rank, d, chunks[0]), chunks[1..]);
      FeedAppend(next, rank, d, chunks[0], Concat(chunks[1..]));
    }
  }

  // ---- the decoder ----

  class Decoder<S(!new), M(!new)> {
    const next: Action<S, M>
    const bufSize: nat
    ghost const rank: S -> nat

    var s: S
    var got: seq<Byte>
    var toRead: nat

    /** The message of an action that returned 1, and all of them. */
    var msg: Option<M>
    ghost var out: seq<M>
    ghost var dead: bool

    ghost function View(): Dec<S, M>
      reads `s, `got, `toRead, `out, `dead
    {
      Dec(s, got, toRead, out, dead)
    }

    constructor (next: Action<S, M>, ghost rank: S -> nat, s: S, toRead: nat, bufSize: nat)
      ensures this.next == next && this.rank == rank && this.bufSize == bufSize
          && View() == Dec(s, [], toRead, [], false)
    {
      this.next, this.rank, this.bufSize := next, rank, bufSize;
      this.s, this.toRead, got, msg := s, toRead, [], None;
      out, dead := [], false;
    }

    /** Where the next bytes are to be put: right into the message if it misses at least a
        buffer's worth. */
    method GetBuffer() returns (zeroCopy: bool, size: nat)
      ensures size == (if zeroCopy then toRead else bufSize) && zeroCopy == (toRead >= bufSize)
    {
      if toRead >= bufSize {
        return true, toRead;
      }
      return false, bufSize;
    }

    /** One action of the machine. */
    method DoAct() returns (rc: int)
      modifies `s, `got, `toRead, `msg, `out, `dead
      ensures View() == Act(next, old(View()).(dead := false)) || (rc == -1 && View() == old(View()).(dead := true))
      ensures var r := next(old(s), old(got)).2;
              if r.More? then rc == 0 else if r.Done? then rc == 1 && msg == Some(r.msg) else rc == -1
      ensures rc != -1 ==> View() == Act(next, old(View()))
    {
      var (s', n, r) := next(s, got);
      match r
      case Fail =>
        dead := true;
        return -1;
      case More =>
        s, got, toRead, dead := s', [], n, false;
        return 0;
      case Done(m) =>
        s, got, toRead, dead := s', [], n, false;
        msg, out := Some(m), out + [m];
        return 1;
    }

    /** Actions until bytes are needed (0), a message is complete (1), or one fails (-1). */
    method Actions() returns (rc: int)
      requires Lawful(next, rank) && !dead
      modifies `s, `got, `toRead, `msg, `out, `dead
      ensures View() == Advance(next, rank, old(View())) && dead == (rc == -1)
      ensures rc == 0 ==> toRead > 0 && out == old(out)
      ensures rc == 1 ==> msg.Some? && out == old(out) + [msg.value]
      ensures rc == -1 ==> out == old(out)
      ensures rc == 0 || rc == 1 || rc == -1
      ensures old(toRead) == 0 && rc == 1 && toRead == 0 ==> rank(s) < rank(old(s))
      ensures old(toRead) > 0 ==> rc == 0 && View() == old(View())
    {
      while toRead == 0
        invariant Lawful(next, rank) && !dead && out == old(out) && (toRead == 0 ==> rank(s) <= rank(old(s)))
        invariant Advance(next, rank, View()) == Advance(next, rank, old(View()))
        invariant old(toRead) > 0 ==> View() == old(View())
        decreases Due(rank, View())
      {
        rc := DoAct();
        if rc != 0 {
          return;
        }
      }
      rc := 0;
    }

    /** Processes the beginning of the data.  In case of zero-copy it is already in its place. */
    method Decode(data: seq<Byte>, zeroCopy: bool) returns (rc: int, bytesUsed: nat)
      requires Lawful(next, rank) && !dead && data != [] && (zeroCopy ==> |data| <= toRead)
      modifies `s, `got, `toRead, `msg, `out, `dead
      ensures bytesUsed <= |data| && (rc == 0 || rc == 1 || rc == -1) && dead == (rc == -1)
      ensures FeedAll(next, rank, View(), data[bytesUsed..]) == FeedAll(next, rank, old(View()), data)
      ensures rc == 0 ==> bytesUsed == |data| && out == old(out)
      ensures rc == 1 ==> msg.Some? && out == old(out) + [msg.value]
      ensures rc == -1 ==> View() == FeedAll(next, rank, old(View()), data) && out == old(out)
      ensures zeroCopy ==> bytesUsed == |data|
      ensures bytesUsed == 0 && rc == 1 ==> old(toRead) == 0 && (toRead > 0 || rank(s) < rank(old(s)))
    {
      bytesUsed := 0;
      if zeroCopy {
        rc, bytesUsed := ReadOn(data, 0, |data|);
        return;
      }
      while bytesUsed < |data|
        invariant bytesUsed <= |data| && !dead && out == old(out)
        invariant FeedAll(next, rank, View(), data[bytesUsed..]) == FeedAll(next, rank, old(View()), data)
        invariant bytesUsed == 0 ==> View() == old(View()) || toRead > 0
        invariant bytesUsed > 0 ==> toRead > 0
        decreases |data| - bytesUsed, toRead == 0
      {
        var toCopy := if toRead < |data| - bytesUsed then toRead else |data| - bytesUsed;
        rc, bytesUsed := ReadOn(data, bytesUsed, toCopy);
        if rc != 0 {
          return;
        }
      }
      rc := 0;
    }

    /** Takes `n` bytes and acts. */
    method ReadOn(data: seq<Byte>, from: nat, n: nat) returns (rc: int, end: nat)
      requires Lawful(next, rank) && !dead && from < |data| && from + n <= |data| && n <= toRead
          && (n == 0 ==> toRead == 0)
      modifies `s, `got, `toRead, `msg, `out, `dead
      ensures end == from + n && (rc == 0 || rc == 1 || rc == -1) && dead == (rc == -1)
      ensures FeedAll(next, rank, View(), data[end..]) == FeedAll(next, rank, old(View()), data[from..])
      ensures rc == 0 ==> toRead > 0 && out == old(out)
      ensures rc == 1 ==> msg.Some? && out == old(out) + [msg.value]
      ensures rc == -1 ==> View() == FeedAll(next, rank, old(View()), data[from..]) && out == old(out)
      ensures n == 0 && rc == 1 && toRead == 0 ==> rank(s) < rank(old(s))
    {
      ghost var d, x, y := View(), data[from..from + n], data[from + n..];
      assert data[from..] == x + y;
      FeedAppend(next, rank, d, x, y);
      got := got + data[from..from + n];
      toRead := toRead - n;
      end := from + n;
      assert View() == Collected(d, x);
      rc := Actions();
      if n > 0 {
        FeedCollects(next, rank, d, x);
      } else {
        assert x == [] && Collected(d, x) == d;
        FeedPending(next, rank, d, y);
      }
      if rc == -1 { FeedDead(next, rank, View(), y); }
    }

    /** The engine's loop: a chunk is decoded message by message.  Whatever the chunks, the
        result is that of feeding the bytes one at a time (see `ReceiveAll`). */
    method Receive(data: seq<Byte>, zeroCopy: bool) returns (ok: bool)
      requires Lawful(next, rank) && !dead && (zeroCopy ==> |data| <= toRead)
      modifies `s, `got, `toRead, `msg, `out, `dead
      ensures View() == FeedAll(next, rank, old(View()), data) && ok == !dead
    {
      var inPos := 0;
      assert data[0..] == data;
      while inPos < |data|
        invariant inPos <= |data| && !dead && (zeroCopy ==> inPos == 0 || inPos == |data|)
            && (zeroCopy && inPos == 0 ==> |data| <= toRead)
        invariant FeedAll(next, rank, View(), data[inPos..]) == FeedAll(next, rank, old(View()), data)
        decreases |data| - inPos, toRead == 0, rank(s)
      {
        var rest := data[inPos..];
        var rc, processed := Decode(rest, zeroCopy);
        assert rest[processed..] == data[inPos + processed..];
        inPos := inPos + processed;
        if rc == -1 {
          return false;
        }
        if rc == 0 {
          break;
        }
      }
      ok := true;
    }

    /** What has arrived is read into the decoder's buffer or right into the message, as the
        decoder asks, and decoded, until it is used up or an action fails. */
    method ReceiveArrived(data: seq<Byte>) returns (ok: bool)
      requires Lawful(next, rank) && !dead && bufSize > 0
      modifies `s, `got, `toRead, `msg, `out, `dead
      ensures View() == FeedAll(next, rank, old(View()), data) && ok == !dead
    {
      var pos := 0;
      ok := true;
      assert data[0..] == data;
      while pos < |data|
        invariant pos <= |data| && ok && !dead
        invariant FeedAll(next, rank, View(), data[pos..]) == FeedAll(next, rank, old(View()), data)
      {
        var zeroCopy, size := GetBuffer();
        var n := if size < |data| - pos then size else |data| - pos;
        FeedAppend(next, rank, View(), data[pos..pos + n], data[pos + n..]);
        assert data[pos..] == data[pos..pos + n] + data[pos + n..];
        ok := Receive(data[pos..pos + n], zeroCopy);
        pos := pos + n;
        if !ok {
          FeedDead(next, rank, View(), data[pos..]);
          return;
        }
      }
    }

    /** However a stream is cut into chunks and whichever of its parts are zero-copy, the
        messages and the final state are those of its bytes one at a time. */
    method ReceiveAll(chunks: seq<seq<Byte>>) returns (ok: bool)
      requires Lawful(next, rank) && !dead && bufSize > 0
      modifies `s, `got, `toRead, `msg, `out, `dead
      ensures View() == FeedAll(next, rank, old(View()), Concat(chunks)) && ok == !dead
    {
      ok := true;
      ghost var d := View();
      assert chunks[0..] == chunks;
      for i := 0 to |chunks|
        invariant ok && !dead
            && FeedAll(next, rank, View(), Concat(chunks[i..])) == FeedAll(next, rank, d, Concat(chunks))
      {
        assert chunks[i..][1..] == chunks[i + 1..];
        FeedAppend(next, rank, View(), chunks[i], Concat(chunks[i + 1..]));
        ok := ReceiveArrived(chunks[i]);
        if !ok {
          FeedDead(next, rank, View(), Concat(chunks[i + 1..]));
          return;
        }
      }
    }
  }

  // ---- the encoder ----

  /** An action of an encoder's machine for the message in progress: the next state, the
      bytes to write before the next action, and whether they are the last of the message. */
  type EncAction<!E, -M> = (E, M) -> (E, seq<Byte>, bool)

  /** A message ends after finitely many actions and leaves the machine where it began. */
  ghost predicate EncLawful<E(!new), M(!new)>(next: EncAction<E, M>, rank: E -> nat, start: E) {
    forall e, m {:trigger next(e, m)} :: if next(e, m).2 then next(e, m).0 == start else rank(next(e, m).0) < rank(e)
  }

  /** What is written of a message from state `e` on. */
  ghost function Frames<E(!new), M(!new)>(next: EncAction<E, M>, rank: E -> nat, start: E, e: E, m: M): seq<Byte>
    requires EncLawful(next, rank, start)
    decreases rank(e)
  {
    var (e', b, last) := next(e, m);
    b + if last then [] else Frames(next, rank, start, e', m)
  }

  /** All that is written of some messages. */
  ghost function Stream<E(!new), M(!new)>(next: EncAction<E, M>, rank: E -> nat, start: E, msgs: seq<M>): seq<Byte>
    requires EncLawful(next, rank, start)
  {
    if msgs == [] then []
    else Stream(next, rank, start, msgs[..|msgs| - 1]) + Frames(next, rank, start, start, msgs[|msgs| - 1])
  }

  class Encoder<E(!new), M(!new)> {
    const next: EncAction<E, M>
    const bufSize: nat
    ghost const rank: E -> nat
    ghost const start: E

    var e: E
    var toWrite: seq<Byte>
    var newMsg: bool
    var inProgress: Option<M>

    /** The messages loaded and the bytes returned so far. */
    ghost var loaded: seq<M>
    ghost var emitted: seq<Byte>

    /** What is still to be written of the message in progress. */
    ghost function Rest(): seq<Byte>
      requires EncLawful(next, rank, start)
      reads `e, `toWrite, `newMsg, `inProgress
    {
      if inProgress.None? then []
      else toWrite + if newMsg then [] else Frames(next, rank, start, e, inProgress.value)
    }

    ghost predicate Valid()
      reads this
    {
      && EncLawful(next, rank, start)
      && (newMsg || inProgress.None? ==> e == start)
      && (inProgress.None? ==> toWrite == [])
      && emitted + Rest() == Stream(next, rank, start, loaded)
    }

    constructor (next: EncAction<E, M>, ghost rank: E -> nat, start: E, bufSize: nat)
      requires EncLawful(next, rank, start)
      ensures Valid() && this.next == next && this.rank == rank && this.start == start && this.bufSize == bufSize
      ensures inProgress.None? && loaded == [] && emitted == []
    {
      this.next, this.rank, this.start, this.bufSize := next, rank, start, bufSize;
      e, toWrite, newMsg, inProgress := start, [], true, None;
      loaded, emitted := [], [];
    }

    /** The next message; there must be none in progress. */
    method LoadMsg(m: M)
      requires Valid() && inProgress.None?
      modifies `e, `toWrite, `newMsg, `inProgress, `loaded
      ensures Valid() && inProgress == Some(m) && loaded == old(loaded) + [m]
          && Rest() == Frames(next, rank, start, start, m)
    {
      inProgress := Some(m);
      loaded := loaded + [m];
      assert loaded[..|loaded| - 1] == old(loaded);
      DoAct();
      assert emitted + [] == emitted;
    }

    method DoAct()
      requires EncLawful(next, rank, start) && inProgress.Some?
      modifies `e, `toWrite, `newMsg
      ensures Rest() == Frames(next, rank, start, old(e), inProgress.value) && (newMsg ==> e == start)
      ensures !newMsg ==> rank(e) < rank(old(e))
    {
      e, toWrite, newMsg := next(e, inProgress.value).0, next(e, inProgress.value).1, next(e, inProgress.value).2;
      if newMsg { assert toWrite + [] == toWrite; }
    }

    /** Some of the next bytes: into the given space, or into the encoder's own buffer, or in
        one piece out of the message if there is at least a buffer's worth. */
    method Encode(own: bool, size: nat) returns (data: seq<Byte>)
      requires Valid()
      modifies `e, `toWrite, `newMsg, `inProgress, `emitted
      ensures Valid() && data + Rest() == old(Rest()) && emitted == old(emitted) + data
      ensures var bufferSize := if own then bufSize else size;
          && (|data| > bufferSize ==> own)
          && (|data| < bufferSize ==> inProgress.None?)
          && (bufferSize > 0 && old(Rest()) != [] ==> data != [])
      ensures inProgress.None? || inProgress == old(inProgress)
    {
      ghost var rest, before := Rest(), emitted;
      data := Produce(own, if own then bufSize else size);
      emitted := emitted + data;
      assert before + (data + Rest()) == before + data + Rest();
    }

    /** The engine's batch: as many of the messages as fit.  A message is loaded only when
        none is in progress, and every one of them gives some bytes. */
    method OutEvent(msgs: seq<M>) returns (out: seq<Byte>, taken: nat)
      requires Valid() && bufSize > 0 && forall m :: m in msgs ==> Frames(next, rank, start, start, m) != []
      modifies `e, `toWrite, `newMsg, `inProgress, `loaded, `emitted
      ensures Valid() && taken <= |msgs| && loaded == old(loaded) + msgs[..taken] && emitted == old(emitted) + out
      ensures |out| < bufSize ==> taken == |msgs| && inProgress.None? && emitted == Stream(next, rank, start, loaded)
    {
      var own := inProgress.None?;
      out := Encode(true, 0);
      taken := 0;
      ghost var before, sent := old(loaded), old(emitted);
      assert loaded == before + msgs[..0];
      while |out| < bufSize && taken < |msgs|
        invariant Valid() && taken <= |msgs| && loaded == before + msgs[..taken] && emitted == sent + out
        invariant (|out| < bufSize ==> inProgress.None?) && (own ==> out == [])
      {
        TakeOne(before, msgs, taken);
        var data := LoadAndEncode(msgs[taken], own, bufSize - |out|);
        Associative(sent, out, data);
        own := false;
        out := out + data;
        taken := taken + 1;
      }
      if |out| < bufSize { assert emitted + [] == emitted; }
    }

    method LoadAndEncode(m: M, own: bool, size: nat) returns (data: seq<Byte>)
      requires Valid() && inProgress.None? && 0 < size <= bufSize && (own ==> size == bufSize)
          && Frames(next, rank, start, start, m) != []
      modifies `e, `toWrite, `newMsg, `inProgress, `loaded, `emitted
      ensures Valid() && loaded == old(loaded) + [m] && emitted == old(emitted) + data && data != []
      ensures |data| < size ==> inProgress.None?
    {
      LoadMsg(m);
      data := Encode(own, size);
    }

    /** The bytes of one call. */
    method Produce(own: bool, bufferSize: nat) returns (data: seq<Byte>)
      requires Valid()
      modifies `e, `toWrite, `newMsg, `inProgress
      ensures data + Rest() == old(Rest()) && (newMsg || inProgress.None? ==> e == start)
          && (inProgress.None? ==> toWrite == [])
      ensures (|data| > bufferSize ==> own) && (|data| < bufferSize ==> inProgress.None?)
      ensures inProgress.None? || inProgress == old(inProgress)
    {
      data := [];
      ghost var rest := Rest();
      assert data + rest == rest;
      if inProgress.None? {
        return;
      }
      while |data| < bufferSize
        invariant EncLawful(next, rank, start) && inProgress == old(inProgress) && inProgress.Some?
            && |data| <= bufferSize && (newMsg ==> e == start)
        invariant data + Rest() == rest
        decreases bufferSize - |data|, if newMsg then 0 else 1 + rank(e)
      {
        if toWrite == [] {
          if newMsg {
            assert Rest() == [];
            inProgress := None;
            break;
          }
          NextAct();
        }
        if data == [] && own && |toWrite| >= bufferSize {
          data := HandOver();
          break;
        }
        data := Copy(data, bufferSize);
      }
    }

    /** The next part of the message, when all of the last one has been written. */
    method NextAct()
      requires EncLawful(next, rank, start) && inProgress.Some? && toWrite == [] && !newMsg
      modifies `e, `toWrite, `newMsg
      ensures Rest() == old(Rest()) && (newMsg ==> e == start) && (!newMsg ==> rank(e) < rank(old(e)))
    {
      assert Rest() == Frames(next, rank, start, e, inProgress.value);
      DoAct();
    }

    /** Zero-copy: what is left to write is returned as it is. */
    method HandOver() returns (data: seq<Byte>)
      requires EncLawful(next, rank, start) && inProgress.Some?
      modifies `toWrite
      ensures data == old(toWrite) && toWrite == [] && data + Rest() == old(Rest())
    {
      Split([], toWrite, |toWrite|, if newMsg then [] else Frames(next, rank, start, e, inProgress.value));
      data := toWrite;
      toWrite := [];
      assert [] + data == data && old(toWrite)[|data|..] == [] && [] + old(Rest()) == old(Rest());
    }

    /** Copies as much as there is room for. */
    method Copy(data: seq<Byte>, bufferSize: nat) returns (data': seq<Byte>)
      requires EncLawful(next, rank, start) && inProgress.Some? && |data| <= bufferSize
      modifies `toWrite
      ensures data' + Rest() == data + old(Rest()) && |data'| <= bufferSize
      ensures |data'| == |data| ==> toWrite == [] || |data| == bufferSize
      ensures |data'| >= |data| && (|data'| > |data| || toWrite == old(toWrite))
    {
      var toCopy := if |toWrite| < bufferSize - |data| then |toWrite| else bufferSize - |data|;
      Split(data, toWrite, toCopy, if newMsg then [] else Frames(next, rank, start, e, inProgress.value));
      data' := data + toWrite[..toCopy];
      toWrite := toWrite[toCopy..];
    }
  }

  lemma TakeOne<T>(before: seq<T>, msgs: seq<T>, n: nat)
    requires n < |msgs|
    ensures (before + msgs[..n]) + [msgs[n]] == before + msgs[..n + 1]
  {
  }

  lemma Split(data: seq<Byte>, left: seq<Byte>, n: nat, more: seq<Byte>)
    requires n <= |left|
    ensures (data + left[..n]) + (left[n..] + more) == data + (left + more)
  {
    assert left == left[..n] + left[n..];
  }

  // ---- the raw encoder ----

  /** Its machine has one state and writes the body of a message as it is. */
  datatype RawState = RawMessageReady

  function RawNext(e: RawState, body: seq<Byte>): (RawState, seq<Byte>, bool) {
    (RawMessageReady, body, true)
  }

  /** So the bytes of a raw stream are the bodies one after the other. */
  lemma {:induction false} RawStream(bodies: seq<seq<Byte>>)
    ensures EncLawful(RawNext, (e: RawState) => 0, RawMessageReady)
    ensures Stream(RawNext, (e: RawState) => 0, RawMessageReady, bodies) == Concat(bodies)
    decreases |bodies|
  {
    var n := |bodies| - 1;
    if n >= 0 {
      RawStream(bodies[..n]);
      ConcatLast(bodies[..n], bodies[n]);
      assert bodies[..n] + [bodies[n]] == bodies;
      assert bodies[n] + [] == bodies[n];
    }
  }

  lemma {:induction false} ConcatLast<T>(parts: seq<seq<T>>, last: seq<T>)
    ensures Concat(parts + [last]) == Concat(parts) + last
    decreases |parts|
  {
    if parts == [] {
      assert [last][1..] == [] && last + [] == last;
    } else {
      ConcatLast(parts[1..], last);
      assert (parts + [last])[1..] == parts[1..] + [last];
      Associative(parts[0], Concat(parts[1..]), last);
    }
  }
}
