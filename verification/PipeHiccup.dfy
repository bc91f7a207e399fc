/**
 Flow control in runs with hiccups: what draining the old queue does to the writer's
 counter, and when a writer whose peer has read everything may write again.  The
 lemmas are about the messages from end `a` to end `b`.
 */
module PipeHiccup {
  import opened Wrappers
  import opened YPipe
  import opened PipeEnd
  import opened PipePair
  import opened PipeFlow
  import PipeClose

  // ---- what is drained ----

  /** The frames of a stream that goes on. */
  predicate Ongoing(frames: seq<Frame>) {
    forall k :: 0 <= k < |frames| ==> frames[k].kind == Data || frames[k].kind == RoutingId
  }

  /** The routing ids from `m` to `n`: complete frames that no counter has counted. */
  function RoutingIds(frames: seq<Frame>, m: nat, n: nat): nat
    requires m <= n <= |frames|
    decreases n - m
  {
    if m == n then 0
    else RoutingIds(frames, m, n - 1) + if frames[n - 1].kind == RoutingId && !frames[n - 1].more then 1 else 0
  }

  /** The drain takes from the writer's counter one for every message and one for every
      routing id. */
  lemma {:induction false} LastCounts(frames: seq<Frame>, m: nat, n: nat)
    requires m <= n <= |frames| && Ongoing(frames)
    ensures Last(frames[m..n]) == Msgs(frames, n) - Msgs(frames, m) + RoutingIds(frames, m, n)
    decreases n - m
  {
    if m < n {
      assert frames[m..n][..n - m - 1] == frames[m..n - 1];
      LastCounts(frames, m, n - 1);
    }
  }

  /** Complete messages that were not read. */
  function Pending(q: FrameQueue): int
    requires q.Ok()
  {
    Msgs(q.frames, q.fin) - Msgs(q.frames, q.rd)
  }

  // ---- the invariant ----

  /** The counter of a writer is what its reader has read and what it still can read, less
      the `d` routing ids that were drained; and a stalled writer has a closed window. */
  predicate Paced(e: End, o: FrameQueue, read: nat, d: nat) {
    && o.Ok() && IsHwm(e.hwm) && Ongoing(o.frames)
    && e.msgsWritten == read + Pending(o) - d
    && e.msgsWritten <= e.peersMsgsRead + e.hwm
    && (!e.outActive ==> !e.CheckHwm())
  }

  /** As long as the writer is active. */
  predicate Flowing(w: World, d: nat) {
    && Formed(w)
    && (w.a.e.state == Active ==>
          && Paced(w.a.e, w.qs[w.a.outId], w.b.e.msgsRead, d)
          && Ongoing(w.qs[w.b.inId].frames) && Reported(w.a, w.b))
  }

  predicate Carries(act: Act) {
    act.Write? ==> act.m.kind == Data || act.m.kind == RoutingId
  }

  /** The routing ids that a step of `a` drains. */
  function Drops(w: World, act: Act): nat
    requires Formed(w)
  {
    var o := w.qs[w.a.outId];
    if act.Deliver? && w.a.box != [] && w.a.box[0].Hiccup? then RoutingIds(o.frames, o.rd, o.fin) else 0
  }

  // ---- steps of the writer ----

  lemma PutPaced(e: End, o: FrameQueue, m: Frame, read: nat, d: nat)
    requires Paced(e, o, read, d) && Unfinished(o) && e.outActive && e.CheckHwm()
        && (m.kind == Data || m.kind == RoutingId)
    ensures Paced(e.(msgsWritten := e.msgsWritten + if Ends(m) then 1 else 0), o.Put(m, m.more), read, d)
  {
    var o' := o.Put(m, m.more);
    assert o'.frames[..|o.frames|] == o.frames;
    assert o.frames[..|o.frames|] == o.frames;
    MsgsPrefix(o.frames, o'.frames, |o.frames|);
    assert o'.frames[..o.fin] == o.frames[..o.fin] && o'.frames[..o.rd] == o.frames[..o.rd];
    MsgsPrefix(o.frames, o'.frames, o.fin);
    MsgsPrefix(o.frames, o'.frames, o.rd);
    MsgsUnfinished(o.frames, o.fin, |o.frames|);
    RoomNow(e);
  }

  /** An open window has room for one more. */
  lemma RoomNow(e: End)
    requires IsHwm(e.hwm) && e.CheckHwm() && e.msgsWritten <= e.peersMsgsRead + e.hwm
    ensures e.msgsWritten < e.peersMsgsRead + e.hwm
  {
  }

  lemma RollbackPaced(e: End, o: FrameQueue, read: nat, d: nat)
    requires Paced(e, o, read, d)
    ensures Paced(e, o.RolledBack(), read, d)
  {
    MsgsPrefix(o.frames, o.RolledBack().frames, o.fin);
    assert o.RolledBack().frames[..o.rd] == o.frames[..o.rd];
    MsgsPrefix(o.frames, o.RolledBack().frames, o.rd);
  }

  lemma WritePaced(v: Env, m: Frame, read: nat, d: nat)
    requires Ready(v) && Paced(v.e, v.o, read, d) && (m.kind == Data || m.kind == RoutingId)
    ensures var v' := PipeEnd.Write(v, m).0;
            Paced(v'.e, v'.o, read, d) && v'.e.peersMsgsRead == v.e.peersMsgsRead && v'.e.hwm == v.e.hwm
  {
    if PipeEnd.CheckWrite(v).1 { PutPaced(v.e, v.o, m, read, d); }
  }

  /** Other calls that leave the end active. */
  lemma OtherPaced(v: Env, act: Act)
    requires Ready(v) && v.e.state == Active && Call(v, act).e.state == Active && !act.Write? && !act.Rollback?
    ensures var v' := Call(v, act);
            && v'.o == (if act.Flush? then v.o.Flushed() else v.o)
            && v'.e.msgsWritten == v.e.msgsWritten && v'.e.peersMsgsRead == v.e.peersMsgsRead && v'.e.hwm == v.e.hwm
            && (v'.e.outActive == v.e.outActive || (!v'.e.outActive && !v.e.CheckHwm()))
  {
    if act.Terminate? { PipeClose.TerminateAsks(v, act.delay); }
  }

  lemma CallPaced(v: Env, act: Act, read: nat, d: nat)
    requires Ready(v) && v.e.state == Active && Call(v, act).e.state == Active && Carries(act)
    requires Paced(v.e, v.o, read, d)
    ensures var v' := Call(v, act);
            Paced(v'.e, v'.o, read, d) && v'.e.peersMsgsRead == v.e.peersMsgsRead && v'.e.hwm == v.e.hwm
  {
    match act
    case Write(m) => WritePaced(v, m, read, d);
    case Rollback => RollbackPaced(v.e, v.o, read, d);
    case _ => OtherPaced(v, act);
  }

  lemma HandlePaced(v: Env, c: Cmd, read: nat, d: nat)
    requires Ready(v) && v.e.state == Active && Handle(v, c).e.state == Active && !c.Hiccup? && c != PipeTermAck
    requires Paced(v.e, v.o, read, d) && (c.ActivateWrite? ==> v.e.peersMsgsRead <= c.msgsRead)
    ensures var v' := Handle(v, c);
        && Paced(v'.e, v'.o, read, d) && v'.e.hwm == v.e.hwm
        && v'.e.peersMsgsRead == if c.ActivateWrite? then c.msgsRead else v.e.peersMsgsRead
  {
  }

  /** The old queue is drained and the window opened. */
  lemma HiccupPaced(v: Env, q: FrameQueue, read: nat, d: nat)
    requires v.Ok() && Paced(v.e, v.o, read, d) && q.Ok() && q.frames == []
    ensures var v' := PipeEnd.ProcessHiccup(v, q);
        && v'.o == q && v'.e.outActive && Paced(v'.e, q, read, d + RoutingIds(v.o.frames, v.o.rd, v.o.fin))
        && v'.e.msgsWritten == v.e.msgsWritten - Pending(v.o) - RoutingIds(v.o.frames, v.o.rd, v.o.fin)
  {
    LastCounts(v.o.frames, v.o.rd, v.o.fin);
    MsgsMonotone(v.o.frames, v.o.rd, v.o.fin);
  }

  // ---- steps of the reader ----

  /** How a step of the reader changes its count and what it reports. */
  predicate ReadsOn(v: Env, v': Env) {
    && v.i.Ok() && v'.i.Ok() && v'.i.frames == v.i.frames && v'.i.fin == v.i.fin && v'.e.lwm == v.e.lwm
    && v'.e.msgsRead - v.e.msgsRead == Msgs(v'.i.frames, v'.i.rd) - Msgs(v.i.frames, v.i.rd)
    && ReportsOn(v.e.msgsRead, v'.e.msgsRead, v.e.lwm, v'.out)
  }

  lemma SameReads(v: Env, v': Env)
    requires v.i.Ok() && v'.i.Ok() && v'.i.frames == v.i.frames && v'.i.fin == v.i.fin && v'.i.rd == v.i.rd
    requires v'.e.lwm == v.e.lwm && v'.e.msgsRead == v.e.msgsRead && NoReport(v'.out)
    ensures ReadsOn(v, v')
  {
    ToldNothing(LastReport(v.e.msgsRead, v.e.lwm), v'.out);
  }

  lemma DelimiterQuiet(v: Env)
    requires v.Ok() && v.out == []
    ensures var v' := PipeEnd.ProcessDelimiter(v);
            v'.i == v.i && v'.e.lwm == v.e.lwm && v'.e.msgsRead == v.e.msgsRead && NoReport(v'.out)
  {
  }

  lemma ReadReadsOn(v: Env)
    requires Ready(v) && Ongoing(v.i.frames)
    ensures ReadsOn(v, PipeEnd.Read(v).0)
  {
    var v' := PipeEnd.Read(v).0;
    if v.e.inActive && v.e.Reading() && v.i.rd < v.i.pub {
      var v1 := v.(i := v.i.Taken());
      assert v.i.frames[v.i.rd].kind == Data || v.i.frames[v.i.rd].kind == RoutingId;
      assert v' == PipeEnd.Deliver(v1, v.i.frames[v.i.rd]);
      DeliverReports(v1, v.i.frames[v.i.rd]);
    } else {
      SameReads(v, v');
    }
  }

  lemma CheckReadReadsOn(v: Env)
    requires Ready(v) && Ongoing(v.i.frames)
    ensures ReadsOn(v, PipeEnd.CheckRead(v).0)
  {
    assert v.i.rd < v.i.pub ==> v.i.frames[v.i.rd].kind == Data || v.i.frames[v.i.rd].kind == RoutingId;
    SameReads(v, PipeEnd.CheckRead(v).0);
  }

  lemma CallReadsOn(v: Env, act: Act)
    requires Ready(v) && Ongoing(v.i.frames)
    ensures ReadsOn(v, Call(v, act))
  {
    match act
    case Read => ReadReadsOn(v);
    case CheckRead => CheckReadReadsOn(v);
    case Terminate(delay) =>
      TerminateQuiet(v, delay);
      SameReads(v, Call(v, act));
    case _ => SameReads(v, Call(v, act));
  }

  lemma HandleReadsOn(v: Env, c: Cmd)
    requires Ready(v) && c != PipeTermAck && !c.Hiccup?
    ensures ReadsOn(v, Handle(v, c))
  {
    SameReads(v, Handle(v, c));
  }

  // ---- steps of the pair ----

  /** An active end has its outbound queue and a living peer that has got no acknowledgement. */
  lemma ActiveEnd(w: World)
    requires Inv(w) && w.a.e.state == Active
    ensures w.a.e.alive && w.a.e.hasOut && w.b.e.alive && PipeTermAck !in w.b.box
    ensures NoHiccup(w.a.box) ==> w.a.outId == w.b.inId
    ensures !NoHiccup(w.a.box) ==> w.a.outId != w.b.inId && w.qs[w.b.inId].frames == []
  {
    PipeClose.Joined(w);
    if !NoHiccup(w.a.box) { PipeClose.OldQueue(w); }
  }

  /** What an ordinary step of the writer does, if it stays active. */
  lemma WriterOutcome(w: World, act: Act, d: nat)
    requires Inv(w) && Flowing(w, d) && Enabled(w, act) && !IsHiccup(w, act) && Carries(act)
    requires w.a.e.state == Active && Outcome(w, act).e.state == Active
    ensures var v' := Outcome(w, act);
        && Paced(v'.e, v'.o, w.b.e.msgsRead, d) && v'.e.hwm == w.a.e.hwm
        && Reported(w.a.(e := v'.e, box := Rest(w, act)), w.b)
  {
    Ordinary(w, act);
    if act.Deliver? {
      assert w.a.box[0] in w.a.box;
      HandlePaced(Enter(w), w.a.box[0], w.b.e.msgsRead, d);
    } else {
      CallPaced(Enter(w), act, w.b.e.msgsRead, d);
    }
  }

  lemma WriterLeaves(w: World, v': Env, rest: seq<Cmd>, d: nat)
    requires Inv(w) && Flowing(w, d) && w.a.e.state == Active == v'.e.state && BoxFormed(rest, |w.qs|)
    requires Paced(v'.e, v'.o, w.b.e.msgsRead, d) && KeepsQueues(Enter(w), v')
        && Reported(w.a.(e := v'.e, box := rest), w.b)
    requires Formed(Leave(w.(a := w.a.(box := rest)), v'))
    ensures Flowing(Leave(w.(a := w.a.(box := rest)), v'), d)
  {
    ActiveEnd(w);
    MirrorInv(w);
    InUse(w);
    InUse(Mirror(w));
  }

  lemma ActiveBefore(w: World, act: Act)
    requires Inv(w) && Enabled(w, act) && !IsHiccup(w, act) && Outcome(w, act).e.state == Active
    ensures w.a.e.state == Active
  {
    Ordinary(w, act);
    if act.Deliver? {
      PipeClose.HandleQuiet(Enter(w), w.a.box[0]);
    } else {
      PipeClose.OnlyTerminateAsks(Enter(w), act);
    }
  }

  lemma WriterFlows(w: World, act: Act, d: nat)
    requires Inv(w) && Flowing(w, d) && Enabled(w, act) && !IsHiccup(w, act) && Carries(act)
    ensures Flowing(StepA(w, act), d)
  {
    var v' := Outcome(w, act);
    OrdinaryLeaves(w, act, v');
    if v'.e.state == Active {
      ActiveBefore(w, act);
      WriterOutcome(w, act, d);
      WriterLeaves(w, v', Rest(w, act), d);
    }
  }

  lemma OrdinaryLeaves(w: World, act: Act, v': Env)
    requires Inv(w) && Enabled(w, act) && !IsHiccup(w, act) && v' == Outcome(w, act)
    ensures w.a.e.alive && BoxFormed(Rest(w, act), |w.qs|) && KeepsQueues(Enter(w), v') && Formed(StepA(w, act))
    ensures StepA(w, act) == Leave(w.(a := w.a.(box := Rest(w, act))), v')
  {
    Ordinary(w, act);
    StepIsLeave(w, act);
    FormedKept(w, v', Got(w, act), Rest(w, act));
  }

  /** The writer asks for a new inbound queue: that is the other direction. */
  lemma AskFlows(w: World, d: nat)
    requires Inv(w) && Flowing(w, d) && w.a.e.alive
    ensures Flowing(NewInbound(w), d)
  {
    if w.a.e.state == Active {
      var w' := NewInbound(w);
      NewInboundKeeps(w);
      assert w'.a.e == w.a.e.(inActive := true) && w'.b.e == w.b.e;
      assert w'.qs[w'.a.outId] == w.qs[w.a.outId] && w'.qs[w'.b.inId] == w.qs[w.b.inId];
      OtherDirection(w, w', d);
    }
  }

  /** What concerns the other direction only. */
  lemma OtherDirection(w: World, w': World, d: nat)
    requires Flowing(w, d) && Formed(w') && w'.a.box == w.a.box && w'.b.e == w.b.e
    requires w'.a.e == w.a.e.(inActive := w'.a.e.inActive)
    requires w'.qs[w'.a.outId] == w.qs[w.a.outId] && w'.qs[w'.b.inId] == w.qs[w.b.inId]
    ensures Flowing(w', d)
  {
  }

  lemma ReportedRest(s: Side, r: Side, s': Side)
    requires Reported(s, r) && s.box != [] && s.box[0].Hiccup? && s'.box == s.box[1..]
    requires s'.e.hwm == s.e.hwm && s'.e.peersMsgsRead == s.e.peersMsgsRead
    ensures Reported(s', r)
  {
  }

  lemma TakenUp(w: World, w': World, q: FrameQueue, d: nat)
    requires Flowing(w, d) && w.a.e.state == Active && w.a.box != [] && w.a.box[0].Hiccup?
    requires Formed(w') && w'.b == w.b && w'.qs == w.qs && w'.a.box == w.a.box[1..]
    requires w'.qs[w'.a.outId] == q && q.frames == [] && w'.a.e == PipeEnd.ProcessHiccup(Enter(w), q).e
    ensures Flowing(w', d + Drops(w, Act.Deliver))
  {
    HiccupPaced(Enter(w), q, w.b.e.msgsRead, d);
    ReportedRest(w.a, w.b, w'.a);
  }

  /** The writer takes up the reader's new queue. */
  lemma TakeUpFlows(w: World, d: nat)
    requires Inv(w) && Flowing(w, d) && w.a.box != [] && w.a.box[0].Hiccup?
    ensures Flowing(NewOutbound(Taken(w), w.a.box[0].pipe), d + Drops(w, Act.Deliver))
  {
    NewOutboundKeeps(w);
    if w.a.e.state == Active {
      var id := w.a.box[0].pipe;
      assert Hiccups(w.a.box)[0] == id && id in Hiccups(w.a.box);
      assert Enter(Taken(w)) == Enter(w);
      TakenUp(w, NewOutbound(Taken(w), id), w.qs[id], d);
    }
  }

  /** A step of the writer. */
  lemma WriterStep(w: World, act: Act, d: nat)
    requires Inv(w) && Flowing(w, d) && Enabled(w, act) && Carries(act)
    ensures Flowing(StepA(w, act), d + Drops(w, act)) && StepA(w, act).a.e.hwm == w.a.e.hwm
  {
    if act.Hiccup? {
      AskFlows(w, d);
    } else if IsHiccup(w, act) {
      TakeUpFlows(w, d);
    } else {
      WriterFlows(w, act, d);
      HwmFixed(w, act);
    }
  }

  lemma HwmFixed(w: World, act: Act)
    requires Inv(w) && Enabled(w, act) && !IsHiccup(w, act)
    ensures StepA(w, act).a.e.hwm == w.a.e.hwm && StepA(w, act).b.e == w.b.e
  {
    Ordinary(w, act);
    StepIsLeave(w, act);
    if act.Deliver? { HandleHwm(Enter(w), w.a.box[0]); } else { CallHwm(Enter(w), act); }
  }

  lemma HandleHwm(v: Env, c: Cmd)
    ensures Handle(v, c).e.hwm == v.e.hwm
  {
    match c
    case PipeTerm => TermHwm(v);
    case PipeTermAck => AckHwm(v);
    case _ =>
  }

  lemma TermHwm(v: Env)
    ensures ProcessPipeTerm(v).e.hwm == v.e.hwm
  {
  }

  lemma AckHwm(v: Env)
    ensures ProcessPipeTermAck(v).e.hwm == v.e.hwm
  {
  }

  lemma CallHwm(v: Env, act: Act)
    requires Ready(v)
    ensures Call(v, act).e.hwm == v.e.hwm
  {
    if act.Terminate? && v.e.state == WaitingForDelimiter { WaitHwm(v, act.delay); }
  }

  lemma WaitHwm(v: Env, delay: bool)
    requires Ready(v) && v.e.state == WaitingForDelimiter
    ensures PipeEnd.Terminate(v, delay).e.hwm == v.e.hwm
  {
  }

  /** An ordinary step of the reader; here `b` is the writer. */
  lemma ReaderOutcome(w: World, act: Act, d: nat)
    requires Inv(w) && Flowing(Mirror(w), d) && Enabled(w, act) && !IsHiccup(w, act) && w.b.e.state == Active
    ensures ReadsOn(Enter(w), Outcome(w, act))
  {
    Ordinary(w, act);
    MirrorInv(w);
    ActiveEnd(Mirror(w));
    if act.Deliver? {
      assert w.a.box[0] in w.a.box;
      HandleReadsOn(Enter(w), w.a.box[0]);
    } else {
      CallReadsOn(Enter(w), act);
    }
  }

  lemma ReaderLeaves(w: World, v': Env, rest: seq<Cmd>, d: nat)
    requires Inv(w) && Flowing(Mirror(w), d) && w.b.e.state == Active && w.a.e.alive && BoxFormed(rest, |w.qs|)
    requires ReadsOn(Enter(w), v') && KeepsQueues(Enter(w), v')
    requires Formed(Leave(w.(a := w.a.(box := rest)), v'))
    ensures Flowing(Mirror(Leave(w.(a := w.a.(box := rest)), v')), d)
  {
    MirrorInv(w);
    ActiveEnd(Mirror(w));
    InUse(w);
    InUse(Mirror(w));
    ToldAppend(w.b.e.peersMsgsRead, w.b.box, v'.out);
  }

  lemma ReaderFlows(w: World, act: Act, d: nat)
    requires Inv(w) && Flowing(Mirror(w), d) && Enabled(w, act) && !IsHiccup(w, act)
    ensures Flowing(Mirror(StepA(w, act)), d)
  {
    OrdinaryLeaves(w, act, Outcome(w, act));
    if w.b.e.state == Active {
      ReaderOutcome(w, act, d);
      ReaderLeaves(w, Outcome(w, act), Rest(w, act), d);
    }
  }

  /** The reader asks for a new queue. */
  lemma ReaderAsks(w: World, d: nat)
    requires Inv(w) && Flowing(Mirror(w), d) && w.a.e.alive
    ensures Flowing(Mirror(NewInbound(w)), d)
  {
    if w.a.e.state == Active {
      var w' := NewInbound(w);
      NewInboundKeeps(w);
      assert w'.b == w.b.(box := w.b.box + [Cmd.Hiccup(|w.qs|)]);
      assert w'.a.e == w.a.e.(inActive := true) && w'.qs[w'.a.inId].frames == []
          && w'.qs[w'.b.outId] == w.qs[w.b.outId];
      Renews(Mirror(w), Mirror(w'), |w.qs|, d);
    }
  }

  lemma Renews(w: World, w': World, id: nat, d: nat)
    requires Flowing(w, d) && Formed(w') && w'.a == w.a.(box := w.a.box + [Cmd.Hiccup(id)])
    requires w'.b.e == w.b.e.(inActive := true) && w'.qs[w'.b.inId].frames == [] && w'.qs[w'.a.outId] == w.qs[w.a.outId]
    ensures Flowing(w', d)
  {
    var out := [Cmd.Hiccup(id)];
    ToldNothing(Told(w.a.e.peersMsgsRead, w.a.box), out);
    ToldAppend(w.a.e.peersMsgsRead, w.a.box, out);
  }

  /** The reader takes up a new queue for the other direction. */
  lemma ReaderTakesUp(w: World, d: nat)
    requires Inv(w) && Flowing(Mirror(w), d) && w.a.box != [] && w.a.box[0].Hiccup?
    ensures Flowing(Mirror(NewOutbound(Taken(w), w.a.box[0].pipe)), d)
  {
    NewOutboundKeeps(w);
  }

  /** A step of the reader; here `b` is the writer. */
  lemma ReaderStep(w: World, act: Act, d: nat)
    requires Inv(w) && Flowing(Mirror(w), d) && Enabled(w, act)
    ensures Flowing(Mirror(StepA(w, act)), d) && StepA(w, act).b.e == w.b.e
  {
    if act.Hiccup? {
      ReaderAsks(w, d);
    } else if IsHiccup(w, act) {
      ReaderTakesUp(w, d);
    } else {
      ReaderFlows(w, act, d);
      HwmFixed(w, act);
    }
  }

  // ---- runs ----

  predicate AllCarry(evs: seq<Event>) {
    forall i :: 0 <= i < |evs| ==> Carries(evs[i].act)
  }

  function DropsIn(w: World, ev: Event): nat
    requires Formed(w)
  {
    if ev.first then Drops(w, ev.act) else 0
  }

  /** The routing ids that end `a` drains in a run that goes on from `w` with `evs`. */
  ghost function Drained(w: World, evs: seq<Event>): nat
    decreases |evs|
  {
    if evs == [] || !Formed(w) || !Enabled(PipeClose.Face(w, evs[0].first), evs[0].act) then 0
    else DropsIn(w, evs[0]) + Drained(Step(w, evs[0].first, evs[0].act), evs[1..])
  }

  lemma EventFlows(w: World, ev: Event, d: nat)
    requires Inv(w) && Flowing(w, d) && Carries(ev.act) && Enabled(PipeClose.Face(w, ev.first), ev.act)
    ensures var w' := Step(w, ev.first, ev.act);
        && Inv(w') && w'.a.e.hwm == w.a.e.hwm
        && Flowing(w', d + DropsIn(w, ev))
  {
    EventKeeps(w, ev);
    if ev.first {
      WriterStep(w, ev.act, d);
    } else {
      MirrorInv(w);
      assert Mirror(Mirror(w)) == w;
      ReaderStep(Mirror(w), ev.act, d);
    }
  }

  predicate Allowed(w: World, ev: Event) {
    Formed(w) && Carries(ev.act) && Enabled(PipeClose.Face(w, ev.first), ev.act)
  }

  ghost predicate Preserved(good: (World, nat) -> bool) {
    forall w, ev, d: nat :: good(w, d) && Allowed(w, ev) ==> good(Step(w, ev.first, ev.act), d + DropsIn(w, ev))
  }

  /** What every event keeps holds at the end of a run. */
  lemma {:induction false} RunKeepsFlow(good: (World, nat) -> bool, w: World, evs: seq<Event>, w': World, d: nat)
    requires good(w, d) && Preserved(good) && AllCarry(evs) && Run(w, evs, w')
    ensures good(w', d + Drained(w, evs))
    decreases |evs|
  {
    if evs != [] {
      assert Allowed(w, evs[0]);
      var w1, d1 := Step(w, evs[0].first, evs[0].act), d + DropsIn(w, evs[0]);
      assert good(w1, d1);
      RunKeepsFlow(good, w1, evs[1..], w', d1);
    }
  }

  ghost predicate Good(w: World, hwm: int, d: nat) {
    Inv(w) && Flowing(w, d) && w.a.e.hwm == hwm
  }

  ghost function GoodFor(hwm: int): (World, nat) -> bool {
    (w: World, d: nat) => Good(w, hwm, d)
  }

  lemma GoodPreserved(hwm: int)
    ensures Preserved(GoodFor(hwm))
  {
    forall w, ev, d: nat | GoodFor(hwm)(w, d) && Allowed(w, ev)
      ensures GoodFor(hwm)(Step(w, ev.first, ev.act), d + DropsIn(w, ev))
    {
      EventFlows(w, ev, d);
    }
  }

  lemma StartGood(hwm: int, other: int, swapped: bool)
    requires IsHwm(hwm)
    ensures Good(Start(hwm, other, swapped), hwm, 0)
  {
    InitFlow(hwm, other, swapped);
  }

  lemma RunGood(hwm: int, other: int, swapped: bool, evs: seq<Event>, w: World)
    requires IsHwm(hwm) && AllCarry(evs) && Run(Start(hwm, other, swapped), evs, w)
    ensures Good(w, hwm, Drained(Start(hwm, other, swapped), evs))
  {
    StartGood(hwm, other, swapped);
    GoodPreserved(hwm);
    RunKeepsFlow(GoodFor(hwm), Start(hwm, other, swapped), evs, w, 0);
  }

  // ---- what flow control guarantees ----

  /** With high water mark `hwm` there are never more than `hwm` unread complete messages in
      the queue of an active writer, and one more for every routing id drained. */
  lemma {:induction false} WindowHolds(hwm: int, other: int, swapped: bool, evs: seq<Event>, w: World)
    requires IsHwm(hwm) && AllCarry(evs) && Run(Start(hwm, other, swapped), evs, w) && w.a.e.state == Active
    ensures var d := Drained(Start(hwm, other, swapped), evs);
        && Formed(w) && Pending(w.qs[w.a.outId]) <= hwm + d
        && w.a.e.msgsWritten == w.b.e.msgsRead + Pending(w.qs[w.a.outId]) - d
  {
    RunGood(hwm, other, swapped, evs, w);
    ToldClimbs(w.a.e.peersMsgsRead, w.a.box);
  }

  /** Everything was read, no report is on its way to the writer and no hiccup either. */
  predicate Quiet(w: World) {
    Formed(w) && Pending(w.qs[w.b.inId]) == 0 && NoReport(w.a.box) && NoHiccup(w.a.box)
  }

  /** What a reader that has read `r` messages has not reported, less `d`, is below the high
      water mark in 64 bits. */
  predicate Room(hwm: int, r: nat, d: nat) {
    (r - LastReport(r, ComputeLwm(hwm)) - d) % 0x1_0000_0000_0000_0000 < hwm
  }

  /** Unless the low water mark overflows that is so exactly if no more routing ids were
      drained than messages are unreported. */
  lemma RoomExact(hwm: int, r: nat, d: nat)
    requires IsHwm(hwm) && hwm != 0x7FFF_FFFF && d < 0x8000_0000_0000_0000
    ensures ComputeLwm(hwm) > 0 && (Room(hwm, r, d) <==> d <= r % ComputeLwm(hwm))
  {
    LwmExact(hwm);
    assert 0 <= r % ComputeLwm(hwm) < ComputeLwm(hwm) <= hwm;
  }

  /** In a quiet state of any run an active writer can write on if and only if there is room:
      so it can if no routing id was drained (see `RoomExact`). */
  lemma {:induction false} QuietExact(hwm: int, other: int, swapped: bool, evs: seq<Event>, w: World, m: Frame)
    requires IsHwm(hwm) && AllCarry(evs) && Run(Start(hwm, other, swapped), evs, w)
    requires w.a.e.state == Active && Quiet(w)
    ensures PipeEnd.Write(Enter(w), m).1 <==> Room(hwm, w.b.e.msgsRead, Drained(Start(hwm, other, swapped), evs))
  {
    RunGood(hwm, other, swapped, evs, w);
    QuietWindow(w, hwm, Drained(Start(hwm, other, swapped), evs), m);
  }

  lemma QuietWindow(w: World, hwm: int, d: nat, m: Frame)
    requires Good(w, hwm, d) && w.a.e.state == Active && Quiet(w)
    ensures PipeEnd.Write(Enter(w), m).1 <==> Room(hwm, w.b.e.msgsRead, d)
  {
    ActiveEnd(w);
    QuietCounters(w, d);
    OpenWrites(Enter(w), m);
  }

  /** The counters of a writer in a quiet state. */
  lemma QuietCounters(w: World, d: nat)
    requires Flowing(w, d) && w.a.e.state == Active && Quiet(w) && w.a.outId == w.b.inId
    ensures w.a.e.msgsWritten == w.b.e.msgsRead - d
    ensures w.a.e.peersMsgsRead == LastReport(w.b.e.msgsRead, ComputeLwm(w.a.e.hwm))
  {
    ToldNothing(w.a.e.peersMsgsRead, w.a.box);
  }

  /** An active end whose stalls are due to its window writes exactly if that is open. */
  lemma OpenWrites(v: Env, m: Frame)
    requires v.e.state == Active && v.e.hwm > 0 && (!v.e.outActive ==> !v.e.CheckHwm())
    ensures PipeEnd.Write(v, m).1 <==> (v.e.msgsWritten - v.e.peersMsgsRead) % 0x1_0000_0000_0000_0000 < v.e.hwm
  {
  }

  /** No stall is for good: if no routing id was drained, a stalled writer has a message to
      be read, a report or a hiccup on its way. */
  lemma {:induction false} StalledHasHope(hwm: int, other: int, swapped: bool, evs: seq<Event>, w: World)
    requires IsHwm(hwm) && hwm != 0x7FFF_FFFF && AllCarry(evs) && Run(Start(hwm, other, swapped), evs, w)
    requires w.a.e.state == Active && !w.a.e.outActive && Drained(Start(hwm, other, swapped), evs) == 0
    ensures Formed(w) && (Pending(w.qs[w.b.inId]) > 0 || !NoReport(w.a.box) || !NoHiccup(w.a.box))
  {
    RunGood(hwm, other, swapped, evs, w);
    Hope(w, hwm);
  }

  lemma Hope(w: World, hwm: int)
    requires Good(w, hwm, 0) && IsHwm(hwm) && hwm != 0x7FFF_FFFF && w.a.e.state == Active && !w.a.e.outActive
    ensures Formed(w) && (Pending(w.qs[w.b.inId]) > 0 || !NoReport(w.a.box) || !NoHiccup(w.a.box))
  {
    MsgsMonotone(w.qs[w.b.inId].frames, w.qs[w.b.inId].rd, w.qs[w.b.inId].fin);
    if Quiet(w) {
      QuietWindow(w, hwm, 0, MESSAGE);
      RoomExact(hwm, w.b.e.msgsRead, 0);
    }
  }

  /** A hiccup that is delivered takes from the counter what was not read, and opens the
      window: an active end can write on whenever less than its high water mark lies between
      the counters. */
  lemma HiccupReopens(w: World, m: Frame)
    requires Inv(w) && w.a.box != [] && w.a.box[0].Hiccup? && Ongoing(w.qs[w.a.outId].frames)
    ensures var o, w' := w.qs[w.a.outId], StepA(w, Act.Deliver);
        && Formed(w') && w'.a.e.outActive && w'.a.e.peersMsgsRead == w.a.e.peersMsgsRead
        && w'.a.e.msgsWritten == w.a.e.msgsWritten - Pending(o) - RoutingIds(o.frames, o.rd, o.fin)
        && (w.a.e.state == Active && 0 <= w'.a.e.msgsWritten - w'.a.e.peersMsgsRead < w.a.e.hwm ==>
              PipeEnd.Write(Enter(w'), m).1)
  {
    var o, v := w.qs[w.a.outId], Enter(Taken(w));
    NewOutboundKeeps(w);
    LastCounts(o.frames, o.rd, o.fin);
    var w' := StepA(w, Act.Deliver);
    assert w'.a.e == PipeEnd.ProcessHiccup(v, w.qs[w.a.box[0].pipe]).e;
    WindowWrites(Enter(w'), m);
  }

  lemma WindowWrites(v: Env, m: Frame)
    requires v.e.outActive
    ensures v.e.state == Active && 0 <= v.e.msgsWritten - v.e.peersMsgsRead < v.e.hwm ==> PipeEnd.Write(v, m).1
  {
  }

  // ---- a routing id that is drained ----

  const ROUTING_ID := Frame(RoutingId, false, 0)

  /** The pair after the first end has written a routing id, and after the second has also
      hiccuped, and after that hiccup has arrived. */
  function Marked(hwm: int, other: int): World {
    NewPair(hwm, other).(qs := [NewQueue(), Queue([ROUTING_ID], 0, 0, 1, false)])
  }

  function Renewed(hwm: int, other: int): World {
    var w := Marked(hwm, other);
    w.(a := w.a.(box := [Cmd.Hiccup(2)]), b := w.b.(inId := 2, log := [Cmd.Hiccup(2)]), qs := w.qs + [NewQueue()])
  }

  function Opened(hwm: int, other: int): World {
    var w := Renewed(hwm, other);
    w.(a := w.a.(e := w.a.e.(msgsWritten := -1), outId := 2, box := []), freed := {1})
  }

  lemma MarkedNext(hwm: int, other: int)
    ensures Enabled(NewPair(hwm, other), Act.Write(ROUTING_ID))
    ensures StepA(NewPair(hwm, other), Act.Write(ROUTING_ID)) == Marked(hwm, other)
  {
    var v := Enter(NewPair(hwm, other));
    assert PipeEnd.CheckWrite(v) == (v, true);
    assert v.o.Put(ROUTING_ID, false) == Queue([ROUTING_ID], 0, 0, 1, false);
  }

  lemma RenewedNext(hwm: int, other: int)
    ensures Formed(Marked(hwm, other)) && Enabled(Mirror(Marked(hwm, other)), Act.Hiccup)
    ensures Mirror(StepA(Mirror(Marked(hwm, other)), Act.Hiccup)) == Renewed(hwm, other)
  {
  }

  lemma OpenedNext(hwm: int, other: int)
    ensures Formed(Renewed(hwm, other)) && Enabled(Renewed(hwm, other), Act.Deliver)
    ensures StepA(Renewed(hwm, other), Act.Deliver) == Opened(hwm, other)
  {
    var w := Renewed(hwm, other);
    var v := Enter(Taken(w));
    assert v.o == Queue([ROUTING_ID], 0, 0, 1, false);
    assert v.o.frames[v.o.rd..v.o.fin] == [ROUTING_ID] && [ROUTING_ID][..0] == [];
    assert Last([ROUTING_ID]) == 1;
  }

  lemma OpenedShape(hwm: int, other: int)
    ensures var w := Opened(hwm, other);
        && w.a.e == NewEnd(other, hwm).(msgsWritten := -1) && w.a.box == [] && |w.qs| == 3 && w.qs[2] == NewQueue()
        && w.a.outId == w.b.inId == 2 && w.a.inId == w.b.outId == 0 && w.b.box == [] && w.qs[0] == NewQueue()
        && w.qs[1] == Queue([ROUTING_ID], 0, 0, 1, false)
  {
  }

  lemma MinusOne(v: Env, m: Frame)
    requires IsHwm(v.e.hwm) && v.e.msgsWritten == -1 && v.e.peersMsgsRead == 0
    ensures !PipeEnd.Write(v, m).1
  {
    assert -1 % 0x1_0000_0000_0000_0000 == 0xFFFF_FFFF_FFFF_FFFF;
  }

  lemma OpenedRefuses(hwm: int, other: int, m: Frame)
    requires IsHwm(hwm)
    ensures var w := Opened(hwm, other); w.a.e.state == Active && Quiet(w) && !PipeEnd.Write(Enter(w), m).1
  {
    var w := Opened(hwm, other);
    OpenedShape(hwm, other);
    assert Formed(w);
    MinusOne(Enter(w), m);
  }

  lemma RunNext(w0: World, evs: seq<Event>, w: World, ev: Event, w': World) returns (evs': seq<Event>)
    requires Run(w0, evs, w) && AllCarry(evs) && Carries(ev.act)
    requires Formed(w) && Enabled(PipeClose.Face(w, ev.first), ev.act) && w' == Step(w, ev.first, ev.act)
    ensures Run(w0, evs', w') && AllCarry(evs')
  {
    RunSnoc(w0, evs, w, ev);
    evs' := evs + [ev];
  }

  lemma MarkedRun(hwm: int, other: int) returns (evs: seq<Event>)
    ensures Run(NewPair(hwm, other), evs, Marked(hwm, other)) && AllCarry(evs)
  {
    MarkedNext(hwm, other);
    evs := RunNext(NewPair(hwm, other), [], NewPair(hwm, other), Event(true, Act.Write(ROUTING_ID)),
        Marked(hwm, other));
  }

  lemma RenewedRun(hwm: int, other: int) returns (evs: seq<Event>)
    ensures Run(NewPair(hwm, other), evs, Renewed(hwm, other)) && AllCarry(evs)
  {
    evs := MarkedRun(hwm, other);
    RenewedNext(hwm, other);
    evs := RunNext(NewPair(hwm, other), evs, Marked(hwm, other), Event(false, Act.Hiccup), Renewed(hwm, other));
  }

  lemma OpenedRun(hwm: int, other: int) returns (evs: seq<Event>)
    ensures Run(NewPair(hwm, other), evs, Opened(hwm, other)) && AllCarry(evs)
  {
    evs := RenewedRun(hwm, other);
    OpenedNext(hwm, other);
    evs := RunNext(NewPair(hwm, other), evs, Renewed(hwm, other), Event(true, Act.Deliver), Opened(hwm, other));
  }

  /** One end has written a routing id, the other has hiccuped, and the hiccup has arrived:
      nothing is left to be read or on its way, and every write is refused. */
  lemma RoutingIdStalls(hwm: int, other: int, m: Frame) returns (evs: seq<Event>, w: World)
    requires IsHwm(hwm)
    ensures AllCarry(evs) && Run(Start(hwm, other, false), evs, w)
    ensures w.a.e.state == Active && Quiet(w) && !PipeEnd.Write(Enter(w), m).1
  {
    evs := OpenedRun(hwm, other);
    w := Opened(hwm, other);
    OpenedRefuses(hwm, other, m);
  }
}
