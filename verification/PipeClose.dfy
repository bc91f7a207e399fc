/**
 Closing a pipe pair: the delayed reader reads everything that was written, and
 both ends are deallocated, exactly unless a hiccup of an end that delays has crossed
 the other's termination request and the end has not given up waiting since.
 */
module PipeClose {
  import opened Wrappers
  import opened YPipe
  import opened PipeEnd
  import opened PipePair

  // ---- delimiters ----

  predicate IsDelimiter(frames: seq<Frame>, k: nat) {
    k < |frames| && frames[k].kind == Delimiter
  }

  ghost predicate HasDelimiter(frames: seq<Frame>, n: nat) {
    exists k: nat :: k < n && IsDelimiter(frames, k)
  }

  /** A delimiter ends the stream: it stands behind a whole message, only delimiters
      follow it, and its writer is no longer active. */
  ghost predicate Ending(state: State, frames: seq<Frame>) {
    forall k: nat :: IsDelimiter(frames, k) ==>
        state != Active && !frames[k].more && (k > 0 ==> !frames[k - 1].more)
            && (forall j :: k <= j < |frames| ==> frames[j].kind == Delimiter)
  }

  /** What a reader gets from the first `n` frames. */
  function Payload(frames: seq<Frame>, n: nat): seq<Frame>
    requires n <= |frames|
  {
    if n == 0 then []
    else Payload(frames, n - 1) + if frames[n - 1].kind == Delimiter || frames[n - 1].kind == Credential then []
        else [frames[n - 1]]
  }

  lemma {:induction false} PayloadPrefix(x: seq<Frame>, y: seq<Frame>, n: nat)
    requires n <= |x| && n <= |y| && x[..n] == y[..n]
    ensures Payload(x, n) == Payload(y, n)
  {
    if n > 0 {
      assert x[..n - 1] == x[..n][..n - 1] && y[..n - 1] == y[..n][..n - 1];
      assert x[n - 1] == x[..n][n - 1] == y[n - 1];
      PayloadPrefix(x, y, n - 1);
    }
  }

  /** Credentials are passed over. */
  lemma {:induction false} PayloadSkip(frames: seq<Frame>, m: nat, n: nat)
    requires m <= n <= |frames| && forall k :: m <= k < n ==> frames[k].kind == Credential
    ensures Payload(frames, n) == Payload(frames, m)
  {
    if m < n { PayloadSkip(frames, m, n - 1); }
  }

  /** Nothing to read follows a delimiter. */
  lemma {:induction false} PayloadEnd(state: State, frames: seq<Frame>, k: nat, n: nat)
    requires Ending(state, frames) && IsDelimiter(frames, k) && k <= n <= |frames|
    ensures Payload(frames, n) == Payload(frames, k)
  {
    if k < n { PayloadEnd(state, frames, k, n - 1); }
  }

  /** Complete frames end a message just before `fin`, and published ones just before `pub`. */
  predicate Closed(o: FrameQueue) {
    && o.Ok()
    && (o.fin > 0 ==> !o.frames[o.fin - 1].more)
    && (o.pub > 0 ==> !o.frames[o.pub - 1].more)
  }

  /** The frame read last announced another one. */
  predicate Amid(i: FrameQueue) {
    0 < i.rd <= |i.frames| && i.frames[i.rd - 1].more
  }

  // ---- the stream from writer to reader ----

  /** What the reader has made of its inbound queue; `base` is what it had read before. */
  ghost predicate Heard(e: End, i: FrameQueue, base: seq<Frame>) {
    && i.Ok()
    && (!e.delay ==> e.hasty)
    && (e.Reading() && !e.inActive ==> !Amid(i))
    && (e.Reading() ==> !HasDelimiter(i.frames, i.rd) && e.delivered == base + Payload(i.frames, i.rd))
    && (e.state == DelimiterReceived || (e.state == TermAckSent && !e.hasty) ==>
          HasDelimiter(i.frames, |i.frames|) && e.delivered == base + Payload(i.frames, |i.frames|))
  }

  /** A sleeping reader has nothing to read or is about to be woken. */
  predicate Watched(e: End, i: FrameQueue, box: seq<Cmd>) {
    e.alive && e.Reading() && !e.inActive ==> i.asleep || ActivateRead in box
  }

  /** An end that will not acknowledge a request before it has read a delimiter. */
  predicate Delayed(e: End) {
    e.state == WaitingForDelimiter || (e.state == Active && e.delay)
  }

  /** An end that asked for termination has put the delimiter where the other will read it. */
  ghost predicate Announced(s: Side, r: Side, q: FrameQueue) {
    s.e.SentTerm() && Delayed(r.e) ==> HasDelimiter(q.frames, q.pub) && NoHiccup(s.box)
  }

  ghost predicate Stream(s: Side, r: Side, q: FrameQueue) {
    Heard(r.e, q, r.earlier) && Watched(r.e, q, r.box) && Ending(s.e.state, q.frames) && Closed(q)
  }

  /** The queue a writer holds may not be the one its reader reads any more. */
  ghost predicate Source(e: End, o: FrameQueue) {
    e.hasOut ==> Ending(e.state, o.frames) && Closed(o)
  }

  ghost predicate Streams(w: World) {
    && Formed(w) && Stream(w.a, w.b, w.qs[w.b.inId]) && Stream(w.b, w.a, w.qs[w.a.inId])
    && Source(w.a.e, w.qs[w.a.outId]) && Source(w.b.e, w.qs[w.b.outId])
  }

  /** No end waits for a delimiter that will not come. */
  ghost predicate Sound(w: World) {
    Formed(w) && Announced(w.a, w.b, w.qs[w.b.inId]) && Announced(w.b, w.a, w.qs[w.a.inId])
  }

  /** A request for termination and a hiccup pass each other, and the end of the hiccup delays. */
  predicate Crossing(w: World, act: Act) {
    || (act.Terminate? && w.a.e.state == Active && w.b.e.state == Active && w.b.e.delay && !NoHiccup(w.a.box))
    || (act.Hiccup? && w.a.e.state == Active && w.a.e.delay && w.b.e.SentTerm())
  }

  // ---- steps of the writer ----

  /** How a step of the writer changes its outbound queue. */
  ghost predicate Pours(v: Env, v': Env) {
    && v.o.Ok() && v'.o.Ok() && v'.o.rd == v.o.rd && v.o.pub <= v'.o.pub
    && v.o.fin <= |v'.o.frames| && v'.o.frames[..v.o.fin] == v.o.frames[..v.o.fin]
    && (v.o.asleep && !v'.o.asleep ==> ActivateRead in v'.out)
    && (v'.o.asleep ==> v.o.asleep)
    && Ending(v'.e.state, v'.o.frames) && Closed(v'.o)
    && (v'.e.SentTerm() && !v.e.SentTerm() ==> HasDelimiter(v'.o.frames, v'.o.pub))
    && (v'.e.state == Active ==> v.e.state == Active)
  }

  lemma EndingPut(state: State, o: FrameQueue, m: Frame)
    requires o.Ok() && Ending(state, o.frames) && state == Active && m.kind != Delimiter
    ensures Ending(state, o.Put(m, m.more).frames)
  {
    assert forall k: nat :: IsDelimiter(o.Put(m, m.more).frames, k) ==> k < |o.frames| && IsDelimiter(o.frames, k);
  }

  lemma EndingRollback(state: State, o: FrameQueue)
    requires o.Ok() && Ending(state, o.frames)
    ensures Ending(state, o.RolledBack().frames)
  {
    assert forall k: nat :: IsDelimiter(o.RolledBack().frames, k) ==> IsDelimiter(o.frames, k);
  }

  lemma StopPours(v: Env)
    requires v.Ok() && v.e.hasOut && v.e.state != Active && v.e.state != TermAckSent && Ending(v.e.state, v.o.frames)
        && Closed(v.o)
    ensures var v' := StopOutbound(v);
            && v'.e == v.e.(outActive := false) && Closed(v'.o) && v'.o.rd == v.o.rd && v.o.pub <= v'.o.pub
            && v'.o.frames == v.o.frames[..v.o.fin] + [DELIMITER] && v'.o.fin == v'.o.pub == v.o.fin + 1
            && (v.o.asleep ==> ActivateRead in v'.out) && !v'.o.asleep
            && Ending(v.e.state, v'.o.frames) && HasDelimiter(v'.o.frames, v'.o.pub)
            && (forall c :: c in v.out ==> c in v'.out)
  {
    var v' := StopOutbound(v);
    assert IsDelimiter(v'.o.frames, v.o.fin);
    EndingRollback(v.e.state, v.o);
    forall k: nat | IsDelimiter(v'.o.frames, k)
      ensures !v'.o.frames[k].more && (k > 0 ==> !v'.o.frames[k - 1].more) && forall j :: k <= j < |v'.o.frames| ==>
          v'.o.frames[j].kind == Delimiter
    {
      if k < v.o.fin { assert IsDelimiter(v.o.RolledBack().frames, k); }
    }
  }

  lemma AcksPour(v: Env)
    requires v.Ok() && v.e.hasOut && Ending(v.e.state, v.o.frames) && Closed(v.o) && v.e.state == WaitingForDelimiter
    ensures Pours(v, GiveUp(v))
  {
    EndingRollback(v.e.state, v.o);
  }

  lemma AskPours(v: Env, delay: bool)
    requires Ready(v) && Ending(v.e.state, v.o.frames) && Closed(v.o)
        && (v.e.state == Active || v.e.state == DelimiterReceived)
    ensures Pours(v, PipeEnd.Terminate(v, delay))
  {
    StopPours(AskPeer(v.(e := v.e.(delay := delay, hasty := v.e.hasty || !delay))));
  }

  lemma WaitPours(v: Env, delay: bool)
    requires Ready(v) && Ending(v.e.state, v.o.frames) && Closed(v.o) && v.e.state == WaitingForDelimiter
    ensures Pours(v, PipeEnd.Terminate(v, delay))
  {
    var v1 := v.(e := v.e.(delay := delay, hasty := v.e.hasty || !delay));
    if delay { StopPours(v1); } else { AcksPour(v1); }
  }

  lemma TerminatePours(v: Env, delay: bool)
    requires Ready(v) && Ending(v.e.state, v.o.frames) && Closed(v.o)
    ensures Pours(v, PipeEnd.Terminate(v, delay))
  {
    match v.e.state
    case Active => AskPours(v, delay);
    case DelimiterReceived => AskPours(v, delay);
    case WaitingForDelimiter => WaitPours(v, delay);
    case _ =>
  }

  /** A step that leaves the outbound queue alone and does not ask for termination. */
  lemma QuietPours(v: Env, v': Env)
    requires v.Ok() && Ending(v.e.state, v.o.frames) && Closed(v.o) && v'.o == v.o
    requires (v'.e.state == Active ==> v.e.state == Active) && (v'.e.SentTerm() ==> v.e.SentTerm())
    ensures Pours(v, v')
  {
  }

  /** The message begun is dropped. */
  lemma DropPours(v: Env, v': Env)
    requires v.Ok() && Ending(v.e.state, v.o.frames) && Closed(v.o) && v'.o == v.o.RolledBack()
    requires v'.e.state != Active && (v'.e.SentTerm() ==> v.e.SentTerm())
    ensures Pours(v, v')
  {
    EndingRollback(v.e.state, v.o);
  }

  lemma ReadPours(v: Env)
    requires Ready(v) && Ending(v.e.state, v.o.frames) && Closed(v.o)
    ensures Pours(v, PipeEnd.Read(v).0)
  {
    var v' := PipeEnd.Read(v).0;
    if v'.o == v.o { QuietPours(v, v'); } else { DropPours(v, v'); }
  }

  lemma CheckReadPours(v: Env)
    requires Ready(v) && Ending(v.e.state, v.o.frames) && Closed(v.o)
    ensures Pours(v, PipeEnd.CheckRead(v).0)
  {
    var v' := PipeEnd.CheckRead(v).0;
    if v'.o == v.o { QuietPours(v, v'); } else { DropPours(v, v'); }
  }

  lemma FlushPours(v: Env)
    requires Ready(v) && Ending(v.e.state, v.o.frames) && Closed(v.o)
    ensures Pours(v, PipeEnd.Flush(v))
  {
  }

  lemma PutPours(v: Env, v': Env, m: Frame)
    requires v.Ok() && Ending(v.e.state, v.o.frames) && Closed(v.o) && m.kind != Delimiter
        && v.e.state == v'.e.state == Active
    requires v'.o == v.o.Put(m, m.more)
    ensures Pours(v, v')
  {
    EndingPut(v.e.state, v.o, m);
    assert v'.o.frames[..v.o.fin] == v.o.frames[..v.o.fin];
  }

  lemma WritePours(v: Env, m: Frame)
    requires Ready(v) && Ending(v.e.state, v.o.frames) && Closed(v.o) && m.kind != Delimiter
    ensures Pours(v, PipeEnd.Write(v, m).0)
  {
    var v' := PipeEnd.Write(v, m).0;
    if PipeEnd.CheckWrite(v).1 { PutPours(v, v', m); } else { QuietPours(v, v'); }
  }

  lemma CallPours(v: Env, act: Act)
    requires Ready(v) && Ending(v.e.state, v.o.frames) && Closed(v.o) && (act.Write? ==> act.m.kind != Delimiter)
    ensures Pours(v, Call(v, act))
  {
    match act
    case Read => ReadPours(v);
    case CheckRead => CheckReadPours(v);
    case Write(m) => WritePours(v, m);
    case Rollback => EndingRollback(v.e.state, v.o);
    case Flush => FlushPours(v);
    case Terminate(delay) => TerminatePours(v, delay);
    case _ => QuietPours(v, Call(v, act));
  }

  lemma HandlePours(v: Env, c: Cmd)
    requires Ready(v) && Ending(v.e.state, v.o.frames) && Closed(v.o) && !c.Hiccup?
    ensures Pours(v, Handle(v, c)) && Handle(v, c).o == v.o
  {
    HandleQuiet(v, c);
    QuietPours(v, Handle(v, c));
  }

  lemma HandleQuiet(v: Env, c: Cmd)
    requires Ready(v)
    ensures var v' := Handle(v, c);
            v'.o == v.o && (v'.e.state == Active ==> v.e.state == Active) && (v'.e.SentTerm() ==> v.e.SentTerm())
  {
  }

  // ---- steps of the reader ----

  /** How a step of the reader that takes `got` changes what it has heard. */
  ghost predicate Hears(v: Env, v': Env, got: seq<Cmd>, base: seq<Frame>) {
    && Heard(v'.e, v'.i, base)
    && v'.i.frames == v.i.frames && v'.i.pub == v.i.pub && v'.i.fin == v.i.fin
    && (v'.e.Reading() ==> v.e.Reading())
    && (Delayed(v'.e) ==> Delayed(v.e))
    && (v.i.asleep ==> v'.i.asleep)
    && (v'.e.Reading() && !v'.e.inActive ==> v'.i.asleep || (!v.e.inActive && ActivateRead !in got))
  }

  /** Reading the delimiter: everything before it has been delivered. */
  lemma DelimiterHeard(v: Env, base: seq<Frame>, writer: State)
    requires Heard(v.e, v.i, base) && v.Ok() && v.e.Reading() && v.e.alive && v.i.rd < v.i.pub
    requires IsDelimiter(v.i.frames, v.i.rd) && Ending(writer, v.i.frames)
    ensures Heard(ProcessDelimiter(v.(i := v.i.Taken())).e, v.i.Taken(), base)
  {
    PayloadEnd(writer, v.i.frames, v.i.rd, |v.i.frames|);
    assert HasDelimiter(v.i.frames, |v.i.frames|);
  }

  /** Whatever the reader does with its inbound queue: credentials are skipped. */
  lemma SkipHeard(e: End, i: FrameQueue, base: seq<Frame>)
    requires Heard(e, i, base) && e.Reading() && e.inActive
    ensures Heard(e, Skip(i), base)
  {
    PayloadSkip(i.frames, i.rd, Skip(i).rd);
    forall k: nat | k < Skip(i).rd ensures !IsDelimiter(i.frames, k) {
      if k < i.rd { assert !HasDelimiter(i.frames, i.rd); }
    }
  }

  lemma ReadHears(v: Env, base: seq<Frame>, writer: State)
    requires Ready(v) && Heard(v.e, v.i, base) && Ending(writer, v.i.frames) && Closed(v.i)
    ensures Hears(v, PipeEnd.Read(v).0, [], base)
  {
    if v.e.inActive && v.e.Reading() {
      SkipHeard(v.e, v.i, base);
      SkippedHears(v, v.(i := Skip(v.i)), base, writer);
    }
  }

  /** Reading from `v1`, which is `v` after its credentials. */
  lemma SkippedHears(v: Env, v1: Env, base: seq<Frame>, writer: State)
    requires Ready(v) && v1 == v.(i := Skip(v.i)) && Heard(v.e, v1.i, base) && Ending(writer, v.i.frames) && Closed(v.i)
    requires v.e.inActive && v.e.Reading()
    ensures Hears(v, PipeEnd.Read(v).0, [], base)
  {
    var q := v1.i;
    if q.rd < q.pub {
      if q.frames[q.rd].kind == Delimiter { DelimiterHeard(v1, base, writer); } else { DeliverHeard(v1, base); }
    }
  }

  lemma DeliverHeard(v: Env, base: seq<Frame>)
    requires Heard(v.e, v.i, base) && v.e.Reading() && v.e.inActive && v.i.rd < v.i.pub
    requires v.i.frames[v.i.rd].kind != Delimiter && v.i.frames[v.i.rd].kind != Credential
    ensures Heard(PipeEnd.Deliver(v, v.i.frames[v.i.rd]).e, v.i.Taken(), base)
  {
    forall k: nat | k < v.i.rd + 1 ensures !IsDelimiter(v.i.frames, k) {
      if k < v.i.rd { assert !HasDelimiter(v.i.frames, v.i.rd); }
    }
  }

  lemma WaitHears(v: Env, delay: bool, base: seq<Frame>)
    requires Ready(v) && Heard(v.e, v.i, base) && v.e.state == WaitingForDelimiter
    ensures Hears(v, PipeEnd.Terminate(v, delay), [], base)
  {
  }

  lemma TerminateHears(v: Env, delay: bool, base: seq<Frame>)
    requires Ready(v) && Heard(v.e, v.i, base)
    ensures Hears(v, PipeEnd.Terminate(v, delay), [], base)
  {
    if v.e.state == WaitingForDelimiter { WaitHears(v, delay, base); }
  }

  lemma CheckReadHears(v: Env, base: seq<Frame>, writer: State)
    requires Ready(v) && Heard(v.e, v.i, base) && Ending(writer, v.i.frames) && Closed(v.i)
    ensures Hears(v, PipeEnd.CheckRead(v).0, [], base)
  {
    if v.e.inActive && v.e.Reading() && v.i.rd < v.i.pub && v.i.frames[v.i.rd].kind == Delimiter {
      DelimiterHeard(v, base, writer);
    }
  }

  lemma CallHears(v: Env, act: Act, base: seq<Frame>, writer: State)
    requires Ready(v) && Heard(v.e, v.i, base) && Ending(writer, v.i.frames) && Closed(v.i)
    ensures Hears(v, Call(v, act), [], base)
  {
    match act
    case Read => ReadHears(v, base, writer);
    case Terminate(delay) => TerminateHears(v, delay, base);
    case CheckRead => CheckReadHears(v, base, writer);
    case _ =>
  }

  lemma HandleHears(v: Env, c: Cmd, base: seq<Frame>)
    requires Ready(v) && Heard(v.e, v.i, base) && !c.Hiccup? && MayTake(v, [c])
    ensures Hears(v, Handle(v, c), [c], base)
  {
  }

  // ---- steps of the pair ----

  lemma Joined(w: World)
    requires Inv(w) && w.a.e.hasOut
    ensures NoHiccup(w.a.box) ==> w.a.outId == w.b.inId
    ensures w.a.outId != w.b.inId ==> w.a.outId in Live(w.a, w.b) && w.b.inId in Hiccups(w.a.box)
  {
    if NoHiccup(w.a.box) { HiccupsNone(w.a.box); }
    assert Live(w.a, w.b)[|Live(w.a, w.b)| - 1] == w.b.inId;
  }

  /** More frames in the queue do not change what its reader has made of it. */
  lemma PourHeard(e: End, v: Env, v': Env, base: seq<Frame>, writer: State)
    requires Heard(e, v.o, base) && Pours(v, v') && Ending(writer, v.o.frames) && Closed(v.o) && Unfinished(v.o)
    ensures Heard(e, v'.o, base)
  {
    var x, y, rd := v.o.frames, v'.o.frames, v.o.rd;
    assert forall k: nat :: k < v.o.fin ==> x[k] == x[..v.o.fin][k] == y[..v.o.fin][k] == y[k];
    assert x[..rd] == x[..v.o.fin][..rd] == y[..v.o.fin][..rd] == y[..rd];
    PayloadPrefix(x, y, rd);
    if HasDelimiter(y, rd) {
      var k: nat :| k < rd && IsDelimiter(y, k);
      assert IsDelimiter(x, k);
    }
    if HasDelimiter(x, |x|) {
      var k: nat :| k < |x| && IsDelimiter(x, k);
      assert k < v.o.fin;
      assert IsDelimiter(y, k);
      PayloadEnd(writer, x, k, |x|);
      PayloadEnd(v'.e.state, y, k, |y|);
      assert x[..k] == x[..v.o.fin][..k] == y[..v.o.fin][..k] == y[..k];
      PayloadPrefix(x, y, k);
    }
  }

  lemma PourStream(s: Side, r: Side, v: Env, v': Env, got: seq<Cmd>, rest: seq<Cmd>)
    requires Stream(s, r, v.o) && s.e == v.e && Unfinished(v.o) && Pours(v, v') && s.box == got + rest
    ensures Stream(s.(e := v'.e, log := s.log + v'.out, box := rest), r.(box := r.box + v'.out), v'.o)
  {
    PourHeard(r.e, v, v', r.earlier, s.e.state);
  }

  lemma PourAnnounced(s: Side, r: Side, v: Env, v': Env, got: seq<Cmd>, rest: seq<Cmd>)
    requires Announced(s, r, v.o) && s.e == v.e && Pours(v, v') && s.box == got + rest
    requires v'.e.SentTerm() && !s.e.SentTerm() && Delayed(r.e) ==> NoHiccup(s.box)
    ensures Announced(s.(e := v'.e, log := s.log + v'.out, box := rest), r.(box := r.box + v'.out), v'.o)
  {
    NoHiccupRest(got, rest);
    if HasDelimiter(v.o.frames, v.o.pub) {
      var k: nat :| k < v.o.pub && IsDelimiter(v.o.frames, k);
      assert v.o.frames[k] == v.o.frames[..v.o.fin][k] == v'.o.frames[..v.o.fin][k];
      assert IsDelimiter(v'.o.frames, k);
    }
  }

  /** The stream from `a` goes on after a step of `a`. */
  lemma WriterKeeps(w: World, v': Env, got: seq<Cmd>, rest: seq<Cmd>)
    requires Inv(w) && Streams(w) && w.a.box == got + rest && BoxFormed(rest, |w.qs|) && Ready(Enter(w))
    requires Moves(Enter(w), v', got) && KeepsQueues(Enter(w), v') && (w.a.e.hasOut ==> Pours(Enter(w), v'))
    requires (v'.e.state == Active ==> w.a.e.state == Active) && v'.i.pub == w.qs[w.a.inId].pub
    ensures var w' := Leave(w.(a := w.a.(box := rest)), v');
        Stream(w'.a, w'.b, w'.qs[w.b.inId]) && Source(w'.a.e, w'.qs[w.a.outId])
  {
    InUse(w);
    var w' := Leave(w.(a := w.a.(box := rest)), v');
    if w.a.e.hasOut { Joined(w); }
    if w.a.e.hasOut && w.a.outId == w.b.inId {
      PourStream(w.a, w.b, Enter(w), v', got, rest);
    } else {
      OtherQueue(w, v', rest);
      SameStream(w.a, w.b, v', rest, w.qs[w.b.inId], w'.qs[w.b.inId]);
    }
  }

  /** A step of `a` leaves the frames of `b`'s queue alone, unless `a` writes to it. */
  lemma OtherQueue(w: World, v': Env, rest: seq<Cmd>)
    requires Inv(w) && w.a.e.alive && (w.a.e.hasOut ==> w.a.outId != w.b.inId) && BoxFormed(rest, |w.qs|)
    requires KeepsQueues(Enter(w), v') && v'.i.pub == w.qs[w.a.inId].pub
    requires Formed(w.(a := w.a.(box := rest)))
    ensures var q, q' := w.qs[w.b.inId], Leave(w.(a := w.a.(box := rest)), v').qs[w.b.inId];
            && q'.Ok() && q'.frames == q.frames && q'.pub == q.pub && q'.fin == q.fin
            && (w.b.e.alive ==> q' == q) && (!w.b.e.alive ==> !w.b.e.Reading())
  {
    if w.b.e.alive {
      MirrorInv(w);
      InUse(w);
      InUse(Mirror(w));
    }
  }

  lemma SameStream(s: Side, r: Side, v': Env, rest: seq<Cmd>, q: FrameQueue, q': FrameQueue)
    requires Stream(s, r, q) && (v'.e.state == Active ==> s.e.state == Active)
    requires q'.Ok() && q'.frames == q.frames && q'.pub == q.pub && q'.fin == q.fin
    requires (r.e.alive ==> q' == q) && (!r.e.alive ==> !r.e.Reading())
    ensures Stream(s.(e := v'.e, log := s.log + v'.out, box := rest), r.(box := r.box + v'.out), q')
  {
  }

  lemma WriterAnnounces(w: World, v': Env, got: seq<Cmd>, rest: seq<Cmd>)
    requires Inv(w) && Sound(w) && w.a.box == got + rest && BoxFormed(rest, |w.qs|) && Ready(Enter(w))
    requires Moves(Enter(w), v', got) && KeepsQueues(Enter(w), v') && (w.a.e.hasOut ==> Pours(Enter(w), v'))
    requires v'.e.SentTerm() && !w.a.e.SentTerm() && Delayed(w.b.e) ==> NoHiccup(w.a.box)
    ensures var w' := Leave(w.(a := w.a.(box := rest)), v'); Announced(w'.a, w'.b, w'.qs[w.b.inId])
  {
    InUse(w);
    NoHiccupRest(got, rest);
    if w.a.e.hasOut {
      Joined(w);
      if w.a.outId == w.b.inId { PourAnnounced(w.a, w.b, Enter(w), v', got, rest); }
    }
  }

  /** The stream to `a` goes on after a step of `a`. */
  lemma ReaderKeeps(w: World, v': Env, got: seq<Cmd>, rest: seq<Cmd>)
    requires Inv(w) && Streams(w) && w.a.box == got + rest && BoxFormed(rest, |w.qs|) && Ready(Enter(w))
    requires Moves(Enter(w), v', got) && KeepsQueues(Enter(w), v') && Hears(Enter(w), v', got, w.a.earlier)
    ensures var w' := Leave(w.(a := w.a.(box := rest)), v');
        Stream(w'.b, w'.a, w'.qs[w.a.inId]) && Source(w'.b.e, w'.qs[w.b.outId])
  {
    var w' := Leave(w.(a := w.a.(box := rest)), v');
    InUse(w);
    assert w'.qs[w.a.inId] == v'.i;
    assert Stream(w'.b, w'.a, v'.i) by { HeardStream(w.b, w.a, Enter(w), v', got, rest); }
    if w.b.e.hasOut {
      assert w.b.outId in Live(w.b, w.a) by { assert Live(w.b, w.a)[0] == w.b.outId; }
      if w.b.outId != w.a.inId { assert w'.qs[w.b.outId] == w.qs[w.b.outId]; }
    }
  }

  lemma HeardStream(s: Side, r: Side, v: Env, v': Env, got: seq<Cmd>, rest: seq<Cmd>)
    requires Stream(s, r, v.i) && r.e == v.e && r.box == got + rest && Hears(v, v', got, r.earlier)
        && (r.e.alive || !v'.e.alive)
    ensures Stream(s.(box := s.box + v'.out), r.(e := v'.e, log := r.log + v'.out, box := rest), v'.i)
  {
  }

  lemma ReaderAnnounced(w: World, v': Env, got: seq<Cmd>, rest: seq<Cmd>)
    requires Inv(w) && Sound(w) && w.a.box == got + rest && BoxFormed(rest, |w.qs|) && Ready(Enter(w))
    requires Moves(Enter(w), v', got) && KeepsQueues(Enter(w), v') && Hears(Enter(w), v', got, w.a.earlier)
    ensures var w' := Leave(w.(a := w.a.(box := rest)), v'); Announced(w'.b, w'.a, w'.qs[w.a.inId])
  {
    var w' := Leave(w.(a := w.a.(box := rest)), v');
    InUse(w);
    assert w'.qs[w.a.inId] == v'.i;
    assert forall i :: 0 <= i < |w'.b.box| ==> w'.b.box[i] in w.b.box || w'.b.box[i] in v'.out;
  }

  lemma OrdinaryStreams(w: World, act: Act)
    requires Inv(w) && Streams(w) && Enabled(w, act) && !IsHiccup(w, act)
    ensures Streams(StepA(w, act))
    ensures Sound(w) && !Crossing(w, act) ==> Sound(StepA(w, act))
  {
    var v', got, rest := Outcome(w, act), Got(w, act), Rest(w, act);
    Ordinary(w, act);
    StepIsLeave(w, act);
    StepKeeps(w, act);
    OutcomePours(w, act);
    OutcomeHears(w, act);
    WriterKeeps(w, v', got, rest);
    ReaderKeeps(w, v', got, rest);
    if Sound(w) && !Crossing(w, act) {
      WriterAnnounces(w, v', got, rest);
      ReaderAnnounced(w, v', got, rest);
    }
  }

  lemma OutcomePours(w: World, act: Act)
    requires Inv(w) && Streams(w) && Enabled(w, act) && !IsHiccup(w, act)
    ensures var v, v' := Enter(w), Outcome(w, act);
            && (w.a.e.hasOut ==> Pours(v, v'))
            && (v'.e.SentTerm() && !w.a.e.SentTerm() && Delayed(w.b.e) && !Crossing(w, act) ==> NoHiccup(w.a.box))
            && (v'.e.state == Active ==> w.a.e.state == Active)
  {
    Ordinary(w, act);
    if act.Deliver? {
      if w.a.e.hasOut { HandlePours(Enter(w), w.a.box[0]); }
    } else {
      if w.a.e.hasOut { CallPours(Enter(w), act); }
      OnlyTerminateAsks(Enter(w), act);
    }
  }

  /** Only `terminate` asks for termination, in two of its states. */
  lemma OnlyTerminateAsks(v: Env, act: Act)
    requires Ready(v)
    ensures Call(v, act).e.SentTerm() && !v.e.SentTerm() ==>
        act.Terminate? && (v.e.state == Active || v.e.state == DelimiterReceived)
    ensures Call(v, act).e.state == Active ==> v.e.state == Active
  {
  }

  lemma OutcomeHears(w: World, act: Act)
    requires Inv(w) && Streams(w) && Enabled(w, act) && !IsHiccup(w, act)
    ensures Hears(Enter(w), Outcome(w, act), Got(w, act), w.a.earlier)
  {
    Ordinary(w, act);
    if act.Deliver? {
      HandleHears(Enter(w), w.a.box[0], w.a.earlier);
    } else {
      CallHears(Enter(w), act, w.a.earlier, w.b.e.state);
    }
  }

  lemma NewInboundStreams(w: World)
    requires Inv(w) && Streams(w) && w.a.e.alive && w.a.e.state == Active
    ensures Streams(NewInbound(w))
    ensures Sound(w) && !(w.a.e.delay && w.b.e.SentTerm()) ==> Sound(NewInbound(w))
  {
    var w' := NewInbound(w);
    NewInboundKeeps(w);
    assert StartHiccup(Enter(w), |w.qs|).out == [Cmd.Hiccup(|w.qs|)];
    assert w'.qs[|w.qs|].frames == [];
    assert Stream(w'.b, w'.a, w'.qs[|w.qs|]);
    assert Stream(w'.a, w'.b, w.qs[w.b.inId]);
  }

  /** End `a` takes up the new queue: the streams are not touched, and if `a` had
      announced its end there would be no hiccup. */
  lemma NewOutboundStreams(w: World)
    requires Inv(w) && Streams(w) && w.a.box != [] && w.a.box[0].Hiccup?
    ensures Streams(NewOutbound(Taken(w), w.a.box[0].pipe))
    ensures Sound(w) ==> Sound(NewOutbound(Taken(w), w.a.box[0].pipe))
  {
    var id := w.a.box[0].pipe;
    var w' := NewOutbound(Taken(w), id);
    NewOutboundKeeps(w);
    assert Hiccups(w.a.box)[0] == id && id in Hiccups(w.a.box);
    assert !NoHiccup(w.a.box);
    assert w'.qs == w.qs && w'.b == w.b && w'.a.inId == w.a.inId && w'.a.earlier == w.a.earlier;
    HiccupStream(w.b, w.a, w'.a, w.qs[w.a.inId]);
    assert Stream(w'.a, w'.b, w.qs[w.b.inId]);
  }

  /** The stream to an end that takes a hiccup from its box. */
  lemma HiccupStream(s: Side, r: Side, r': Side, q: FrameQueue)
    requires Stream(s, r, q) && r.box != [] && r.box[0].Hiccup? && r'.box == r.box[1..] && r'.earlier == r.earlier
    requires r'.e == r.e.(msgsWritten := r'.e.msgsWritten, outActive := r'.e.outActive)
    ensures Stream(s, r', q)
  {
    assert forall c :: c in r.box ==> c == r.box[0] || c in r.box[1..];
  }

  /** Every step keeps the streams, and only a crossing leaves an end waiting. */
  lemma StepStreams(w: World, act: Act)
    requires Inv(w) && Streams(w) && Enabled(w, act)
    ensures Streams(StepA(w, act))
    ensures Sound(w) && !Crossing(w, act) ==> Sound(StepA(w, act))
  {
    if act.Hiccup? {
      if w.a.e.state == Active { NewInboundStreams(w); }
    } else if IsHiccup(w, act) {
      NewOutboundStreams(w);
    } else {
      OrdinaryStreams(w, act);
    }
  }

  /** Either end's view of a world. */
  function Face(w: World, first: bool): World {
    if first then w else Mirror(w)
  }

  lemma EventStreams(w: World, ev: Event)
    requires Inv(w) && Streams(w) && Enabled(Face(w, ev.first), ev.act)
    ensures var w' := Step(w, ev.first, ev.act);
            Inv(w') && Streams(w') && (Sound(w) && !Crossing(Face(w, ev.first), ev.act) ==> Sound(w'))
  {
    EventKeeps(w, ev);
    if ev.first {
      StepStreams(w, ev.act);
    } else {
      MirrorInv(w);
      StepStreams(Mirror(w), ev.act);
    }
  }

  lemma {:induction false} RunStreams(w: World, evs: seq<Event>, w': World)
    requires Inv(w) && Streams(w) && Run(w, evs, w')
    ensures Inv(w') && Streams(w')
    decreases |evs|
  {
    if evs != [] {
      EventStreams(w, evs[0]);
      RunStreams(Step(w, evs[0].first, evs[0].act), evs[1..], w');
    }
  }

  lemma InitStreams(hwm0: int, hwm1: int)
    ensures Inv(NewPair(hwm0, hwm1)) && Streams(NewPair(hwm0, hwm1)) && Sound(NewPair(hwm0, hwm1))
  {
    InitInv(hwm0, hwm1);
  }

  /** A reader gets the frames of its queue in order, each exactly once. */
  lemma {:induction false} ReadsInOrder(hwm0: int, hwm1: int, evs: seq<Event>, end: World, first: bool, w: World)
    requires Run(NewPair(hwm0, hwm1), evs, end) && w == Face(end, first)
    requires w.b.e.Reading()
    ensures Formed(w) && w.b.e.delivered == w.b.earlier + Payload(w.qs[w.b.inId].frames, w.qs[w.b.inId].rd)
  {
    InitStreams(hwm0, hwm1);
    RunStreams(NewPair(hwm0, hwm1), evs, end);
  }

  /** An end that kept `delay` and that acknowledges because the other asked it to
      has read, in order, all that the other end wrote into the queue between them,
      up to the delimiter.  That is whole messages only. */
  lemma {:induction false} DelayedReaderReadsAll(hwm0: int, hwm1: int, evs: seq<Event>, end: World, first: bool,
          w: World)
    requires Run(NewPair(hwm0, hwm1), evs, end) && w == Face(end, first)
    requires w.b.e.state == TermAckSent && !w.b.e.hasty
    ensures Formed(w) && var frames := w.qs[w.b.inId].frames;
            && w.b.e.delivered == w.b.earlier + Payload(frames, |frames|)
            && exists k: nat :: IsDelimiter(frames, k) && Payload(frames, |frames|) == Payload(frames, k)
                && (k > 0 ==> !frames[k - 1].more)
  {
    InitStreams(hwm0, hwm1);
    RunStreams(NewPair(hwm0, hwm1), evs, end);
    var frames := w.qs[w.b.inId].frames;
    var k: nat :| k < |frames| && IsDelimiter(frames, k);
    PayloadEnd(w.a.e.state, frames, k, |frames|);
  }

  // ---- progress ----

  function Weight(box: seq<Cmd>): nat {
    if box == [] then 0 else (if box[0] == ActivateRead then 2 else 1) + Weight(box[1..])
  }

  lemma {:induction false} WeightAppend(x: seq<Cmd>, y: seq<Cmd>)
    ensures Weight(x + y) == Weight(x) + Weight(y)
  {
    if x == [] {
      assert x + y == y;
    } else {
      assert (x + y)[1..] == x[1..] + y;
      WeightAppend(x[1..], y);
    }
  }

  function Left(e: End, i: FrameQueue): int {
    if e.alive then i.pub - i.rd else 0
  }

  /** What one end still has to do: its commands, its unread frames, and its acknowledgement. */
  function Burden(e: End, i: FrameQueue, box: seq<Cmd>): int {
    2 * Left(e, i) + Weight(box) + (if e.inActive then 1 else 0) + (if e.SentAck() then 0 else 2)
  }

  function Measure(w: World): int
    requires Formed(w)
  {
    Burden(w.a.e, w.qs[w.a.inId], w.a.box) + Burden(w.b.e, w.qs[w.b.inId], w.b.box)
  }

  /** Delivery of a command, or reading by an end that can read. */
  predicate Progressing(w: World, act: Act) {
    if act.Deliver? then w.a.box != []
    else act.Read? && w.a.e.alive && w.a.e.inActive && w.a.e.Reading()
  }

  lemma ReadLightens(v: Env)
    requires Ready(v) && v.e.inActive && v.e.Reading()
    ensures var v' := PipeEnd.Read(v).0;
            && Burden(v'.e, v'.i, []) + Weight(v'.out) < Burden(v.e, v.i, [])
            && v'.o.pub == v.o.pub && v'.o.rd == v.o.rd
  {
    var v' := PipeEnd.Read(v).0;
    if v'.out != [] { assert v'.out == [v'.out[0]] && v'.out[1..] == []; }
  }

  lemma HandleLightens(v: Env, c: Cmd)
    requires Ready(v) && MayTake(v, [c])
    ensures var v' := Handle(v, c);
            && Burden(v'.e, v'.i, []) + Weight(v'.out) < Burden(v.e, v.i, [c])
            && v'.o == v.o
  {
    var v' := Handle(v, c);
    assert [c][1..] == [];
    if v'.out != [] { assert v'.out == [v'.out[0]] && v'.out[1..] == []; }
  }

  lemma LeaveLightens(w: World, v': Env, got: seq<Cmd>, rest: seq<Cmd>)
    requires Inv(w) && w.a.e.alive && w.a.box == got + rest && BoxFormed(rest, |w.qs|)
    requires Burden(v'.e, v'.i, []) + Weight(v'.out) < Burden(w.a.e, w.qs[w.a.inId], got)
    requires v'.o.pub == w.qs[w.a.outId].pub && v'.o.rd == w.qs[w.a.outId].rd
    requires Formed(Leave(w.(a := w.a.(box := rest)), v'))
    ensures Measure(Leave(w.(a := w.a.(box := rest)), v')) < Measure(w)
  {
    WeightAppend(got, rest);
    WeightAppend(w.b.box, v'.out);
    InUse(w);
    assert w.b.e.alive ==> w.b.inId != w.a.inId by { if w.b.e.alive { InUse(Mirror(w)); } }
  }

  lemma NewOutboundLightens(w: World)
    requires Inv(w) && w.a.box != [] && w.a.box[0].Hiccup?
    requires Formed(NewOutbound(Taken(w), w.a.box[0].pipe))
    ensures Measure(NewOutbound(Taken(w), w.a.box[0].pipe)) < Measure(w)
  {
  }

  /** Every progress step lightens the burden. */
  lemma StepLightens(w: World, act: Act)
    requires Inv(w) && Enabled(w, act) && Progressing(w, act)
    ensures Inv(StepA(w, act)) && Measure(StepA(w, act)) < Measure(w)
  {
    StepKeeps(w, act);
    if IsHiccup(w, act) {
      NewOutboundLightens(w);
    } else {
      Ordinary(w, act);
      StepIsLeave(w, act);
      if act.Deliver? { HandleLightens(Enter(w), w.a.box[0]); } else { ReadLightens(Enter(w)); }
      LeaveLightens(w, Outcome(w, act), Got(w, act), Rest(w, act));
    }
  }

  /** No progress step is possible at either end. */
  predicate Stuck(w: World) {
    && w.a.box == [] && w.b.box == []
    && !Progressing(w, Act.Read) && !Progressing(Mirror(w), Act.Read)
  }

  /** The delimiter of an end that asked for termination is still to be read. */
  lemma DelimiterAhead(w: World)
    requires Inv(w) && Streams(w) && Sound(w) && w.a.e.SentTerm() && Delayed(w.b.e)
    ensures w.qs[w.b.inId].rd < w.qs[w.b.inId].pub && !w.qs[w.b.inId].asleep
  {
    var q := w.qs[w.b.inId];
    var k: nat :| k < q.pub && IsDelimiter(q.frames, k);
    assert !HasDelimiter(q.frames, q.rd);
  }

  lemma NotStuckBelow(w: World)
    requires Inv(w) && Streams(w) && Sound(w) && w.a.e.SentTerm() && Stuck(w)
    ensures !w.a.e.alive && !w.b.e.alive
  {
    if Delayed(w.b.e) { DelimiterAhead(w); }
  }

  /** Once termination was asked for, a pair that can make no more progress is gone. */
  lemma NotStuck(w: World)
    requires Inv(w) && Streams(w) && Sound(w) && (w.a.e.SentTerm() || w.b.e.SentTerm()) && Stuck(w)
    ensures !w.a.e.alive && !w.b.e.alive
  {
    if w.a.e.SentTerm() {
      NotStuckBelow(w);
    } else {
      MirrorInv(w);
      NotStuckBelow(Mirror(w));
    }
  }

  /** A run of progress steps. */
  ghost predicate Drive(w: World, evs: seq<Event>, w': World)
    decreases |evs|
  {
    if evs == [] then w' == w
    else
      var face := Face(w, evs[0].first);
      && Formed(w) && Enabled(face, evs[0].act) && Progressing(face, evs[0].act)
      && Drive(Step(w, evs[0].first, evs[0].act), evs[1..], w')
  }

  lemma EventLightens(w: World, ev: Event)
    requires Inv(w) && var face := Face(w, ev.first); Enabled(face, ev.act) && Progressing(face, ev.act)
    ensures var w' := Step(w, ev.first, ev.act); Inv(w') && Measure(w') < Measure(w)
  {
    MirrorInv(w);
    StepLightens(Face(w, ev.first), ev.act);
    EventKeeps(w, ev);
  }

  lemma AskedStays(w: World, act: Act)
    requires Inv(w) && Enabled(w, act)
    ensures w.a.e.SentTerm() ==> StepA(w, act).a.e.SentTerm()
    ensures StepA(w, act).b.e == w.b.e
  {
    if !IsHiccup(w, act) {
      Ordinary(w, act);
      StepIsLeave(w, act);
    }
  }

  lemma {:induction false} DriveBounded(w: World, evs: seq<Event>, w': World)
    requires Inv(w) && Drive(w, evs, w')
    ensures Inv(w') && Measure(w') + |evs| <= Measure(w)
    ensures w.a.e.SentTerm() || w.b.e.SentTerm() ==> w'.a.e.SentTerm() || w'.b.e.SentTerm()
    decreases |evs|
  {
    if evs != [] {
      EventLightens(w, evs[0]);
      MirrorInv(w);
      AskedStays(Face(w, evs[0].first), evs[0].act);
      DriveBounded(Step(w, evs[0].first, evs[0].act), evs[1..], w');
    }
  }

  // ---- when a request and a hiccup cross ----

  /** End `a` waits for an acknowledgement that end `b` will only send once it has
      read a delimiter, and no delimiter is or will be in the queue `b` reads. */
  ghost predicate Lost(w: World) {
    && Inv(w) && w.a.e.state == TermReqSent1 && w.a.e.alive && w.b.e.alive && Delayed(w.b.e)
    && !HasDelimiter(w.qs[w.b.inId].frames, |w.qs[w.b.inId].frames|)
  }

  ghost predicate IsLost(w: World) {
    Lost(w) || Lost(Mirror(w))
  }

  /** The end whose peer waits in vain gives up waiting for the delimiter. */
  predicate Escape(w: World, act: Act) {
    && Delayed(w.a.e) && w.b.e.state == TermReqSent1
    && if w.a.e.state == Active then act.Terminate? || act.SetNoDelay? else act == Act.Terminate(false)
  }

  /** A request that crosses a hiccup under way is lost. */
  lemma RequestCrossesHiccup(w: World, act: Act)
    requires Inv(w) && Enabled(w, act) && act.Terminate? && Crossing(w, act)
    ensures Lost(StepA(w, act))
  {
    StepKeeps(w, act);
    StepIsLeave(w, act);
    OutcomeAsks(w, act);
    OldQueue(w);
    RequestLeave(w, Outcome(w, act), Rest(w, act));
  }

  lemma OutcomeAsks(w: World, act: Act)
    requires Inv(w) && Enabled(w, act) && act.Terminate? && w.a.e.state == Active
    ensures w.a.e.hasOut && Outcome(w, act).e.state == TermReqSent1 && Outcome(w, act).e.alive
  {
    Ordinary(w, act);
    TerminateAsks(Enter(w), act.delay);
  }

  lemma RequestLeave(w: World, v': Env, rest: seq<Cmd>)
    requires Inv(w) && w.a.e.state == Active && w.b.e.state == Active && w.b.e.delay && w.a.outId != w.b.inId
        && w.qs[w.b.inId].frames == []
    requires v'.e.state == TermReqSent1 && v'.e.alive && BoxFormed(rest, |w.qs|)
    requires Inv(Leave(w.(a := w.a.(box := rest)), v'))
    ensures Lost(Leave(w.(a := w.a.(box := rest)), v'))
  {
    InUse(w);
    InUse(Mirror(w));
  }

  lemma TerminateAsks(v: Env, delay: bool)
    requires Ready(v) && v.e.state == Active
    ensures var v' := PipeEnd.Terminate(v, delay); v'.e.state == TermReqSent1 && v'.e.alive
  {
  }

  /** While a hiccup is on its way to the writer, it holds an older queue, and the new one is unused. */
  lemma OldQueue(w: World)
    requires Inv(w) && w.a.e.hasOut && !NoHiccup(w.a.box)
    ensures w.a.outId != w.b.inId && w.qs[w.b.inId].frames == []
  {
    NoLoneHiccup(w.a.box);
    var ids := Hiccups(w.a.box);
    assert Live(w.a, w.b)[0] == w.a.outId && Live(w.a, w.b)[|Live(w.a, w.b)| - 1] == w.b.inId == ids[|ids| - 1];
  }

  lemma {:induction false} NoLoneHiccup(box: seq<Cmd>)
    requires !NoHiccup(box)
    ensures Hiccups(box) != []
  {
    if !box[0].Hiccup? {
      assert forall i :: 0 < i < |box| ==> box[i] == box[1..][i - 1];
      NoLoneHiccup(box[1..]);
    }
  }

  /** A hiccup of end `a` that crosses a request under way loses it. */
  lemma HiccupCrossesRequest(w: World)
    requires Inv(w) && Enabled(w, Act.Hiccup) && Crossing(w, Act.Hiccup)
    ensures Lost(Mirror(StepA(w, Act.Hiccup)))
  {
    NewInboundKeeps(w);
    MirrorInv(NewInbound(w));
    RequestUnanswered(w);
  }

  /** A request to an active end has not been answered. */
  lemma RequestUnanswered(w: World)
    requires Inv(w) && w.a.e.alive && w.a.e.state == Active && w.b.e.SentTerm()
    ensures w.b.e.state == TermReqSent1 && w.b.e.alive
  {
  }

  /** So every crossing loses the request. */
  lemma CrossingLoses(w: World, act: Act)
    requires Inv(w) && Enabled(w, act) && Crossing(w, act)
    ensures IsLost(StepA(w, act))
  {
    if act.Terminate? { RequestCrossesHiccup(w, act); } else { HiccupCrossesRequest(w); }
  }

  lemma WriterStaysLost(v: Env, act: Act)
    requires Ready(v) && v.e.state == TermReqSent1
    ensures var v' := Call(v, act); v'.e.state == TermReqSent1 && v'.e.alive
    ensures forall k: nat :: IsDelimiter(Call(v, act).o.frames, k) ==> IsDelimiter(v.o.frames, k)
  {
  }

  lemma ReaderStaysLost(v: Env, act: Act)
    requires Ready(v) && Delayed(v.e) && !HasDelimiter(v.i.frames, |v.i.frames|)
    requires if v.e.state == Active then !act.Terminate? && !act.SetNoDelay? else act != Act.Terminate(false)
    ensures var v' := Call(v, act); Delayed(v'.e) && v'.e.alive
  {
    assert forall k: nat :: k < v.i.pub && v.i.frames[k].kind == Delimiter ==> IsDelimiter(v.i.frames, k);
  }

  /** No step other than a hiccup lets the lost writer leave its state or write a delimiter. */
  lemma WriterOutcomeLost(w: World, act: Act)
    requires Lost(w) && Enabled(w, act) && !IsHiccup(w, act)
    ensures var v' := Outcome(w, act);
            && v'.e.state == TermReqSent1 && v'.e.alive
            && forall k: nat :: IsDelimiter(v'.o.frames, k) ==> IsDelimiter(w.qs[w.a.outId].frames, k)
  {
    Ordinary(w, act);
    if act.Deliver? {
      assert w.a.box[0] in w.a.box;
    } else {
      WriterStaysLost(Enter(w), act);
    }
  }

  lemma ReaderOutcomeLost(w: World, act: Act)
    requires Lost(Mirror(w)) && Inv(w) && Enabled(w, act) && !IsHiccup(w, act) && !Escape(w, act)
    ensures var v' := Outcome(w, act); Delayed(v'.e) && v'.e.alive
  {
    Ordinary(w, act);
    if act.Deliver? {
      ReaderDeliverLost(w);
    } else {
      ReaderStaysLost(Enter(w), act);
    }
  }

  /** A writer that waits for its acknowledgement has sent no second request. */
  lemma ReaderDeliverLost(w: World)
    requires Lost(Mirror(w)) && Inv(w) && Enabled(w, Deliver) && !IsHiccup(w, Deliver)
    ensures var v' := Outcome(w, Deliver); Delayed(v'.e) && v'.e.alive
  {
    assert w.a.box[0] in w.a.box;
  }

  lemma LostHiccup(w: World, act: Act)
    requires Inv(w) && Enabled(w, act) && IsHiccup(w, act)
    ensures Lost(w) ==> Lost(StepA(w, act))
    ensures Lost(Mirror(w)) ==> Lost(Mirror(StepA(w, act)))
  {
    HiccupKeeps(w, act);
    MirrorInv(StepA(w, act));
  }

  lemma LostWriterLeave(w: World, v': Env, rest: seq<Cmd>)
    requires Lost(w) && BoxFormed(rest, |w.qs|)
    requires v'.e.state == TermReqSent1 && v'.e.alive
    requires forall k: nat :: IsDelimiter(v'.o.frames, k) ==> IsDelimiter(w.qs[w.a.outId].frames, k)
    requires Inv(Leave(w.(a := w.a.(box := rest)), v'))
    ensures Lost(Leave(w.(a := w.a.(box := rest)), v'))
  {
    InUse(w);
    InUse(Mirror(w));
    var q := Leave(w.(a := w.a.(box := rest)), v').qs[w.b.inId];
    assert forall k: nat :: !IsDelimiter(w.qs[w.b.inId].frames, k);
    assert forall k: nat :: !IsDelimiter(q.frames, k);
  }

  lemma LostReaderLeave(w: World, v': Env, rest: seq<Cmd>)
    requires Lost(Mirror(w)) && BoxFormed(rest, |w.qs|)
    requires Delayed(v'.e) && v'.e.alive && v'.i.frames == w.qs[w.a.inId].frames
    requires Inv(Mirror(Leave(w.(a := w.a.(box := rest)), v')))
    ensures Lost(Mirror(Leave(w.(a := w.a.(box := rest)), v')))
  {
  }

  lemma LostWriterStep(w: World, act: Act)
    requires Lost(w) && Enabled(w, act)
    ensures Lost(StepA(w, act))
  {
    StepKeeps(w, act);
    if IsHiccup(w, act) {
      LostHiccup(w, act);
    } else {
      Ordinary(w, act);
      StepIsLeave(w, act);
      WriterOutcomeLost(w, act);
      LostWriterLeave(w, Outcome(w, act), Rest(w, act));
    }
  }

  lemma LostReaderStep(w: World, act: Act)
    requires Lost(Mirror(w)) && Enabled(w, act) && !Escape(w, act)
    ensures Lost(Mirror(StepA(w, act)))
  {
    MirrorInv(Mirror(w));
    StepKeeps(w, act);
    MirrorInv(StepA(w, act));
    if IsHiccup(w, act) {
      LostHiccup(w, act);
    } else {
      Ordinary(w, act);
      StepIsLeave(w, act);
      ReaderOutcomeLost(w, act);
      LostReaderLeave(w, Outcome(w, act), Rest(w, act));
    }
  }

  /** After an escape neither end waits for a delimiter. */
  lemma EscapeFrees(w: World, act: Act)
    requires Lost(Mirror(w)) && Enabled(w, act) && Escape(w, act)
    ensures Sound(StepA(w, act))
  {
    MirrorInv(Mirror(w));
    StepKeeps(w, act);
    StepIsLeave(w, act);
    EscapeGivesUp(Enter(w), act);
  }

  lemma EscapeGivesUp(v: Env, act: Act)
    requires v.Ok() && Delayed(v.e)
    requires if v.e.state == Active then act.Terminate? || act.SetNoDelay? else act == Act.Terminate(false)
    ensures !Delayed(Call(v, act).e)
  {
  }

  /** A lost pair stays lost until the escape. */
  lemma LostEvent(w: World, ev: Event)
    requires Inv(w) && IsLost(w) && Enabled(Face(w, ev.first), ev.act)
    ensures var w' := Step(w, ev.first, ev.act); if Escape(Face(w, ev.first), ev.act) then Sound(w') else IsLost(w')
  {
    var face := Face(w, ev.first);
    MirrorInv(w);
    if Lost(face) {
      LostWriterStep(face, ev.act);
    } else if Escape(face, ev.act) {
      EscapeFrees(face, ev.act);
    } else {
      LostReaderStep(face, ev.act);
    }
  }

  /** Delivering commands and reading on neither crosses nor escapes. */
  lemma ProgressIsPlain(w: World, act: Act)
    requires Progressing(w, act)
    ensures !Crossing(w, act) && !Escape(w, act)
  {
  }

  lemma {:induction false} DriveSound(w: World, evs: seq<Event>, w': World)
    requires Inv(w) && Streams(w) && Sound(w) && Drive(w, evs, w')
    ensures Inv(w') && Streams(w') && Sound(w')
    decreases |evs|
  {
    if evs != [] {
      ProgressIsPlain(Face(w, evs[0].first), evs[0].act);
      EventStreams(w, evs[0]);
      DriveSound(Step(w, evs[0].first, evs[0].act), evs[1..], w');
    }
  }

  lemma {:induction false} DriveLost(w: World, evs: seq<Event>, w': World)
    requires Inv(w) && IsLost(w) && Drive(w, evs, w')
    ensures Inv(w') && IsLost(w')
    decreases |evs|
  {
    if evs != [] {
      ProgressIsPlain(Face(w, evs[0].first), evs[0].act);
      EventKeeps(w, evs[0]);
      LostEvent(w, evs[0]);
      DriveLost(Step(w, evs[0].first, evs[0].act), evs[1..], w');
    }
  }

  /** Whether the last crossing of a run, if any, was followed by an escape. */
  ghost predicate EndsLost(w: World, evs: seq<Event>, lost: bool)
    decreases |evs|
  {
    if evs == [] then lost
    else
      var face := Face(w, evs[0].first);
      && Formed(w) && Enabled(face, evs[0].act)
      && EndsLost(Step(w, evs[0].first, evs[0].act), evs[1..],
          if lost then !Escape(face, evs[0].act) else Crossing(face, evs[0].act))
  }

  lemma {:induction false} RunSettled(w: World, evs: seq<Event>, w': World, lost: bool)
    requires Inv(w) && Streams(w) && Run(w, evs, w') && (if lost then IsLost(w) else Sound(w))
    ensures Inv(w') && Streams(w') && if EndsLost(w, evs, lost) then IsLost(w') else Sound(w')
    decreases |evs|
  {
    if evs != [] {
      var face := Face(w, evs[0].first);
      EventStreams(w, evs[0]);
      if lost {
        LostEvent(w, evs[0]);
      } else if Crossing(face, evs[0].act) {
        MirrorInv(w);
        CrossingLoses(face, evs[0].act);
      }
      RunSettled(Step(w, evs[0].first, evs[0].act), evs[1..], w',
          if lost then !Escape(face, evs[0].act) else Crossing(face, evs[0].act));
    }
  }

  /** After any run in which some end asked for termination, delivering commands and
      reading on ends after a bounded number of steps.  When no such step is left, both
      ends and all queues have been deallocated, exactly if the run did not end with a
      crossing without an escape; otherwise neither end has. */
  lemma {:induction false} ClosesDown(hwm0: int, hwm1: int, before: seq<Event>, w: World, evs: seq<Event>, end: World)
    requires Run(NewPair(hwm0, hwm1), before, w) && (w.a.e.SentTerm() || w.b.e.SentTerm())
    requires Drive(w, evs, end)
    ensures Formed(w) && |evs| <= Measure(w)
    ensures Stuck(end) && EndsLost(NewPair(hwm0, hwm1), before, false) ==> end.a.e.alive && end.b.e.alive
    ensures Stuck(end) && !EndsLost(NewPair(hwm0, hwm1), before, false) ==>
        !end.a.e.alive && !end.b.e.alive && forall id :: 0 <= id < |end.qs| <==> id in end.freed
  {
    InitStreams(hwm0, hwm1);
    RunSettled(NewPair(hwm0, hwm1), before, w, false);
    DriveBounded(w, evs, end);
    if EndsLost(NewPair(hwm0, hwm1), before, false) {
      DriveLost(w, evs, end);
    } else {
      DriveSound(w, evs, end);
      if Stuck(end) { NotStuckFreed(end); }
    }
  }

  lemma NotStuckFreed(w: World)
    requires Inv(w) && Streams(w) && Sound(w) && (w.a.e.SentTerm() || w.b.e.SentTerm()) && Stuck(w)
    ensures !w.a.e.alive && !w.b.e.alive && forall id :: 0 <= id < |w.qs| <==> id in w.freed
  {
    NotStuck(w);
  }

  /** From a crossing on neither end is ever deallocated, whatever happens, unless the
      end that delays escapes. */
  lemma {:induction false} LostForever(hwm0: int, hwm1: int, evs: seq<Event>, w: World)
    requires Run(NewPair(hwm0, hwm1), evs, w) && EndsLost(NewPair(hwm0, hwm1), evs, false)
    ensures w.a.e.alive && w.b.e.alive
  {
    InitStreams(hwm0, hwm1);
    RunSettled(NewPair(hwm0, hwm1), evs, w, false);
  }

  lemma {:induction false} LastEvent(w: World, ev: Event, w': World)
    requires Run(w, [ev], w')
    ensures Formed(w) && Enabled(Face(w, ev.first), ev.act) && w' == Step(w, ev.first, ev.act)
  {
    assert [ev][1..] == [];
    assert Run(Step(w, ev.first, ev.act), [], w');
  }

  /** Two calls are enough: one end hiccups, and before the hiccup arrives the other
      asks for termination. */
  lemma {:induction false} TwoCallsLose(hwm0: int, hwm1: int, delay: bool, w: World)
    requires Run(NewPair(hwm0, hwm1), [Event(false, Act.Hiccup), Event(true, Act.Terminate(delay))], w)
    ensures Lost(w)
  {
    var w0, hiccup, ask := NewPair(hwm0, hwm1), Event(false, Act.Hiccup), Event(true, Act.Terminate(delay));
    InitInv(hwm0, hwm1);
    EventKeeps(w0, hiccup);
    var w1 := Step(w0, false, Act.Hiccup);
    assert [hiccup, ask][1..] == [ask];
    assert Run(w1, [ask], w);
    LastEvent(w1, ask, w);
    assert w1.a.box == [Cmd.Hiccup(2)];
    RequestCrossesHiccup(w1, ask.act);
  }
}
