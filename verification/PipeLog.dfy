/**
 What a writer was told it had written against what its reader gets, in runs without
 hiccups: the log is kept from the answers of `write` and knows nothing of the queue.
 */
module PipeLog {
  import opened Wrappers
  import opened YPipe
  import opened PipeEnd
  import opened PipePair
  import opened PipeClose
  import PipeFlow

  /** The accepted frames: those of complete messages, and those of the message begun. */
  datatype Log = Log(done: seq<Frame>, open: seq<Frame>)

  /** An accepted frame is logged; `rollback` takes back the message begun. */
  function Record(w: World, act: Act, log: Log): Log
    requires Formed(w)
  {
    if act.Write? && PipeEnd.Write(Enter(w), act.m).1 then
      if act.m.more then log.(open := log.open + [act.m]) else Log(log.done + log.open + [act.m], [])
    else if act.Rollback? then log.(open := [])
    else log
  }

  function Next(w: World, ev: Event, first: bool, log: Log): Log
    requires Formed(w)
  {
    if ev.first == first then Record(Face(w, first), ev.act, log) else log
  }

  /** The log of the end `first` after a run that goes on from `w` with `evs`. */
  ghost function Written(w: World, evs: seq<Event>, first: bool, log: Log): Log
    decreases |evs|
  {
    if evs == [] || !Formed(w) || !Enabled(Face(w, evs[0].first), evs[0].act) then log
    else
      Written(Step(w, evs[0].first, evs[0].act), evs[1..], first, Next(w, evs[0], first, log))
  }

  /** The complete frames of the queue are those of the log, but for the delimiter; a
      writer that is still active has exactly its log in the queue. */
  predicate Kept(e: End, o: FrameQueue, log: Log) {
    && o.Ok() && Payload(o.frames, o.fin) == Payload(log.done, |log.done|)
    && (e.state == Active ==> o.frames == log.done + log.open && o.fin == |log.done|)
  }

  lemma {:induction false} PayloadMonotone(frames: seq<Frame>, m: nat, n: nat)
    requires m <= n <= |frames|
    ensures Payload(frames, m) <= Payload(frames, n)
  {
    if m < n { PayloadMonotone(frames, m, n - 1); }
  }

  // ---- steps of the writer ----

  lemma WriteKept(e: End, o: FrameQueue, log: Log, m: Frame)
    requires Kept(e, o, log) && e.state == Active
    ensures Kept(e, o.Put(m, m.more),
        if m.more then log.(open := log.open + [m]) else Log(log.done + log.open + [m], []))
  {
    var x := log.done + log.open;
    Associative(log.done, log.open, [m]);
    if m.more {
      PayloadPrefix(o.Put(m, m.more).frames, o.frames, o.fin);
    } else {
      assert x + [m] + [] == x + [m];
    }
  }

  /** The message begun is dropped. */
  lemma DropKept(e: End, o: FrameQueue, log: Log)
    requires Kept(e, o, log)
    ensures Kept(e, o.RolledBack(), log.(open := []))
  {
    PayloadPrefix(o.RolledBack().frames, o.frames, o.fin);
    if e.state == Active { assert o.frames[..o.fin] == log.done == log.done + []; }
  }

  /** How a step that is neither a write nor a rollback changes the outbound queue. */
  predicate Drops(o: FrameQueue, o': FrameQueue) {
    && o.Ok() && o'.Ok()
    && (if o'.fin == o.fin then o'.frames == o.frames[..o.fin]
        else o'.frames == o.frames[..o.fin] + [DELIMITER] && o'.fin == o.fin + 1)
  }

  lemma DropsKept(e: End, e': End, o: FrameQueue, o': FrameQueue, log: Log)
    requires Kept(e, o, log) && e'.state != Active && Drops(o, o')
    ensures Kept(e', o', log)
  {
    assert o.frames[..o.fin] == o'.frames[..o.fin];
    PayloadPrefix(o.frames, o'.frames, o.fin);
  }

  /** A step of a writer: what it does to its queue if it is no write and no rollback. */
  predicate Keeps(v: Env, v': Env) {
    || (v'.o.Ok() && v'.o.frames == v.o.frames && v'.o.fin == v.o.fin && (v'.e.state == Active ==> v.e.state == Active))
    || (v'.e.state != Active && Drops(v.o, v'.o))
  }

  lemma AskKeeps(v: Env, delay: bool)
    requires Ready(v) && (v.e.state == Active || v.e.state == DelimiterReceived) && Ending(v.e.state, v.o.frames)
        && Closed(v.o)
    ensures Keeps(v, PipeEnd.Terminate(v, delay))
  {
    StopPours(AskPeer(v.(e := v.e.(delay := delay, hasty := v.e.hasty || !delay))));
  }

  lemma WaitKeeps(v: Env, delay: bool)
    requires Ready(v) && v.e.state == WaitingForDelimiter && Ending(v.e.state, v.o.frames) && Closed(v.o)
    ensures Keeps(v, PipeEnd.Terminate(v, delay))
  {
    var v1 := v.(e := v.e.(delay := delay, hasty := v.e.hasty || !delay));
    if delay { StopPours(v1); }
  }

  lemma CallKeeps(v: Env, act: Act)
    requires Ready(v) && (v.e.hasOut ==> Ending(v.e.state, v.o.frames) && Closed(v.o))
    requires !act.Write? && !act.Rollback? && v.e.hasOut
    ensures Keeps(v, Call(v, act))
  {
    match act
    case Terminate(delay) =>
      match v.e.state {
        case Active => AskKeeps(v, delay);
        case DelimiterReceived => AskKeeps(v, delay);
        case WaitingForDelimiter => WaitKeeps(v, delay);
        case _ =>
      }
    case _ =>
  }

  lemma HandleKeeps(v: Env, c: Cmd)
    requires Ready(v)
    ensures Keeps(v, Handle(v, c))
  {
  }

  // ---- steps of the pair ----

  /** Without hiccups `b` reads the queue to which `a` writes. */
  ghost predicate Logged(w: World, log: Log) {
    Formed(w) && PipeFlow.Calm(w) && w.b.earlier == [] && Kept(w.a.e, w.qs[w.a.outId], log)
  }

  /** What a step of the writer does to its queue and to its log. */
  lemma WriterOutcome(w: World, act: Act, log: Log)
    requires Inv(w) && Streams(w) && Logged(w, log) && Enabled(w, act) && !IsHiccup(w, act)
    ensures var v' := Outcome(w, act);
            Kept(v'.e, if w.a.e.hasOut then v'.o else w.qs[w.a.outId], Record(w, act, log))
  {
    var v, v' := Enter(w), Outcome(w, act);
    Ordinary(w, act);
    if act.Write? {
      if PipeEnd.Write(v, act.m).1 { WriteKept(v.e, v.o, log, act.m); }
    } else if act.Rollback? {
      DropKept(v.e, v.o, log);
    } else if v.e.hasOut {
      OtherOutcome(w, act);
      KeepsKept(v, v', log);
    } else {
      OnlyTerminateAsks(v, act);
    }
  }

  lemma OtherOutcome(w: World, act: Act)
    requires Inv(w) && Streams(w) && Enabled(w, act) && !IsHiccup(w, act) && w.a.e.hasOut && !act.Write?
        && !act.Rollback?
    ensures Keeps(Enter(w), Outcome(w, act))
  {
    Ordinary(w, act);
    if act.Deliver? { HandleKeeps(Enter(w), w.a.box[0]); } else { CallKeeps(Enter(w), act); }
  }

  lemma KeepsKept(v: Env, v': Env, log: Log)
    requires Keeps(v, v') && Kept(v.e, v.o, log)
    ensures Kept(v'.e, v'.o, log)
  {
    if v'.e.state != Active && Drops(v.o, v'.o) { DropsKept(v.e, v'.e, v.o, v'.o, log); }
  }

  lemma WriterLogs(w: World, act: Act, log: Log)
    requires Inv(w) && Streams(w) && Logged(w, log) && Enabled(w, act) && act != Act.Hiccup
    ensures Logged(StepA(w, act), Record(w, act, log))
  {
    Ordinary(w, act);
    StepIsLeave(w, act);
    StepKeeps(w, act);
    WriterOutcome(w, act, log);
    PipeFlow.CalmKept(w, Outcome(w, act), Got(w, act), Rest(w, act));
  }

  /** A step of the reader, here `a`, leaves the frames in their queue. */
  lemma ReaderLogs(w: World, act: Act, log: Log)
    requires Inv(w) && Logged(Mirror(w), log) && Enabled(w, act) && act != Act.Hiccup
    ensures Logged(Mirror(StepA(w, act)), log)
  {
    Ordinary(w, act);
    StepIsLeave(w, act);
    StepKeeps(w, act);
    ReaderLeaves(w, Outcome(w, act), Got(w, act), Rest(w, act), log);
  }

  lemma ReaderLeaves(w: World, v': Env, got: seq<Cmd>, rest: seq<Cmd>, log: Log)
    requires Logged(Mirror(w), log) && Formed(w) && w.a.box == got + rest && BoxFormed(rest, |w.qs|)
    requires KeepsQueues(Enter(w), v') && NoHiccup(v'.out) && Formed(Leave(w.(a := w.a.(box := rest)), v'))
    ensures Logged(Mirror(Leave(w.(a := w.a.(box := rest)), v')), log)
  {
    PipeFlow.CalmKept(w, v', got, rest);
    PayloadPrefix(w.qs[w.a.inId].frames, v'.i.frames, v'.i.fin);
  }

  predicate NoHiccups(evs: seq<Event>) {
    forall i :: 0 <= i < |evs| ==> evs[i].act != Act.Hiccup
  }

  lemma EventLogs(w: World, ev: Event, first: bool, log: Log)
    requires Inv(w) && Streams(w) && Enabled(Face(w, ev.first), ev.act) && ev.act != Act.Hiccup
        && Logged(Face(w, first), log)
    ensures Logged(Face(Step(w, ev.first, ev.act), first), Next(w, ev, first, log))
  {
    MirrorInv(w);
    if ev.first == first {
      WriterLogs(Face(w, first), ev.act, log);
    } else {
      ReaderLogs(Face(w, ev.first), ev.act, log);
    }
  }

  lemma EventBoth(w: World, ev: Event, first: bool, log: Log)
    requires Inv(w) && Streams(w) && Enabled(Face(w, ev.first), ev.act) && ev.act != Act.Hiccup
        && Logged(Face(w, first), log)
    ensures var w' := Step(w, ev.first, ev.act);
        Inv(w') && Streams(w') && Logged(Face(w', first), Next(w, ev, first, log))
  {
    EventStreams(w, ev);
    EventLogs(w, ev, first, log);
  }

  predicate Allowed(w: World, ev: Event) {
    Formed(w) && Enabled(Face(w, ev.first), ev.act) && ev.act != Act.Hiccup
  }

  ghost predicate Preserved(good: (World, Log) -> bool, first: bool) {
    forall w, ev, log :: good(w, log) && Allowed(w, ev) ==> good(Step(w, ev.first, ev.act), Next(w, ev, first, log))
  }

  /** What every event other than a hiccup keeps holds at the end of a run. */
  lemma {:induction false} RunKeepsLog(good: (World, Log) -> bool, w: World, evs: seq<Event>, w': World, first: bool,
          log: Log)
    requires Run(w, evs, w') && NoHiccups(evs) && good(w, log) && Preserved(good, first)
    ensures good(w', Written(w, evs, first, log))
    decreases |evs|
  {
    if evs != [] {
      assert Allowed(w, evs[0]);
      RunKeepsLog(good, Step(w, evs[0].first, evs[0].act), evs[1..], w', first, Next(w, evs[0], first, log));
    }
  }

  ghost predicate Good(w: World, log: Log, first: bool) {
    Inv(w) && Streams(w) && Logged(Face(w, first), log)
  }

  ghost function GoodFor(first: bool): (World, Log) -> bool {
    (w, log) => Good(w, log, first)
  }

  lemma GoodPreserved(first: bool)
    ensures Preserved(GoodFor(first), first)
  {
    forall w, ev, log | GoodFor(first)(w, log) && Allowed(w, ev)
      ensures GoodFor(first)(Step(w, ev.first, ev.act), Next(w, ev, first, log))
    {
      EventBoth(w, ev, first, log);
    }
  }

  lemma GoodAtFirst(hwm0: int, hwm1: int, first: bool)
    ensures Good(NewPair(hwm0, hwm1), Log([], []), first)
  {
    InitStreams(hwm0, hwm1);
  }

  lemma RunGood(hwm0: int, hwm1: int, evs: seq<Event>, end: World, first: bool)
    requires Run(NewPair(hwm0, hwm1), evs, end) && NoHiccups(evs)
    ensures Good(end, Written(NewPair(hwm0, hwm1), evs, first, Log([], [])), first)
  {
    GoodAtFirst(hwm0, hwm1, first);
    GoodPreserved(first);
    RunKeepsLog(GoodFor(first), NewPair(hwm0, hwm1), evs, end, first, Log([], []));
  }

  /** In every run without hiccups a reader has got, in order and each once, the first of
      the frames of the messages that the writer was told it had written; and all of them
      if it never was in a hurry and has acknowledged because the writer asked it to. */
  lemma {:induction false} AcceptedIsRead(hwm0: int, hwm1: int, evs: seq<Event>, end: World, first: bool, w: World)
    requires Run(NewPair(hwm0, hwm1), evs, end) && NoHiccups(evs) && w == Face(end, first)
    ensures var done := Written(NewPair(hwm0, hwm1), evs, first, Log([], [])).done;
            && (w.b.e.Reading() ==> w.b.e.delivered <= Payload(done, |done|))
            && (w.b.e.state == TermAckSent && !w.b.e.hasty ==> w.b.e.delivered == Payload(done, |done|))
  {
    RunGood(hwm0, hwm1, evs, end, first);
    ReadsLogged(w, Written(NewPair(hwm0, hwm1), evs, first, Log([], [])));
  }

  lemma ReadsLogged(w: World, log: Log)
    requires Formed(w) && Stream(w.a, w.b, w.qs[w.b.inId]) && Logged(w, log)
    ensures w.b.e.Reading() ==> w.b.e.delivered <= Payload(log.done, |log.done|)
    ensures w.b.e.state == TermAckSent && !w.b.e.hasty ==> w.b.e.delivered == Payload(log.done, |log.done|)
  {
    var q := w.qs[w.b.inId];
    if w.b.e.Reading() { PayloadMonotone(q.frames, q.rd, q.fin); }
    if w.b.e.state == TermAckSent && !w.b.e.hasty {
      var k: nat :| k < |q.frames| && IsDelimiter(q.frames, k);
      PayloadEnd(w.a.e.state, q.frames, k, |q.frames|);
      PayloadEnd(w.a.e.state, q.frames, k, q.fin);
    }
  }
}
