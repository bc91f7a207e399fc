/**
 Flow control and progress together: a stalled writer is woken after boundedly many
 deliveries and reads, if all that it has written is flushed.
 */
module PipeWake {
  import opened Wrappers
  import opened YPipe
  import opened PipeEnd
  import opened PipePair
  import opened PipeClose
  import opened PipeFlow

  /** The writer has flushed every complete message. */
  predicate Flushed(w: World) {
    Formed(w) && w.qs[w.a.outId].pub == w.qs[w.a.outId].fin
  }

  /** A pair that delivers and reads on, whose low water mark is positive. */
  ghost predicate Waking(w: World) {
    Inv(w) && Streams(w) && Flow(w) && Flushed(w) && 0 < w.b.e.lwm <= w.a.e.hwm
  }

  lemma MayProgress(w: World, act: Act)
    requires Inv(w) && Calm(w) && Enabled(w, act) && Progressing(w, act)
    ensures PipeFlow.Plain(act) && !IsHiccup(w, act)
  {
  }

  /** Delivering and reading publish nothing and take nothing back that is complete. */
  predicate Passive(v: Env, v': Env) {
    v'.o.pub == v.o.pub && v'.o.fin == v.o.fin && v'.i.pub == v.i.pub && v'.i.fin == v.i.fin && v'.e.lwm == v.e.lwm
  }

  lemma ReadPassive(v: Env)
    requires Ready(v)
    ensures Passive(v, PipeEnd.Read(v).0)
  {
  }

  lemma HandlePassive(v: Env, c: Cmd)
    requires Ready(v)
    ensures Passive(v, Handle(v, c))
  {
  }

  lemma OutcomePassive(w: World, act: Act)
    requires Inv(w) && Enabled(w, act) && Progressing(w, act) && !IsHiccup(w, act)
    ensures Passive(Enter(w), Outcome(w, act))
  {
    Ordinary(w, act);
    if act.Deliver? { HandlePassive(Enter(w), w.a.box[0]); } else { ReadPassive(Enter(w)); }
  }

  lemma PassiveLeave(w: World, v': Env, rest: seq<Cmd>)
    requires Formed(w.(a := w.a.(box := rest))) && Formed(w) && Calm(w) && Passive(Enter(w), v')
    requires Formed(Leave(w.(a := w.a.(box := rest)), v'))
    ensures var w' := Leave(w.(a := w.a.(box := rest)), v');
            (Flushed(w) ==> Flushed(w')) && (Flushed(Mirror(w)) ==> Flushed(Mirror(w')))
  {
  }

  lemma StepPassive(w: World, act: Act)
    requires Inv(w) && Calm(w) && Enabled(w, act) && Progressing(w, act)
    ensures var w' := StepA(w, act);
            && Formed(w') && w'.a.e.lwm == w.a.e.lwm && w'.b.e == w.b.e
            && w'.a.outId == w.a.outId && w'.b.outId == w.b.outId
            && (Flushed(w) ==> Flushed(w')) && (Flushed(Mirror(w)) ==> Flushed(Mirror(w')))
  {
    MayProgress(w, act);
    OutcomePassive(w, act);
    StepKeeps(w, act);
    StepIsLeave(w, act);
    PassiveLeave(w, Outcome(w, act), Rest(w, act));
  }

  lemma EventWaking(w: World, ev: Event)
    requires Waking(w) && var face := Face(w, ev.first); Enabled(face, ev.act) && Progressing(face, ev.act)
    ensures Waking(Step(w, ev.first, ev.act))
  {
    MirrorInv(w);
    MayProgress(Face(w, ev.first), ev.act);
    EventFlow(w, ev);
    EventStreams(w, ev);
    StepPassive(Face(w, ev.first), ev.act);
  }

  lemma {:induction false} DriveWaking(w: World, evs: seq<Event>, w': World)
    requires Waking(w) && Drive(w, evs, w')
    ensures Waking(w')
    decreases |evs|
  {
    if evs != [] {
      EventWaking(w, evs[0]);
      DriveWaking(Step(w, evs[0].first, evs[0].act), evs[1..], w');
    }
  }

  /** If the writer is active and nothing can be delivered or read, all was read. */
  lemma StuckIsRead(w: World)
    requires Inv(w) && Streams(w) && Calm(w) && Stuck(w) && w.a.e.state == Active
    ensures w.qs[w.b.inId].rd == w.qs[w.b.inId].pub
  {
    var q := w.qs[w.b.inId];
    assert w.b.e.state == DelimiterReceived ==> exists k: nat :: IsDelimiter(q.frames, k);
    assert w.b.e.alive && w.b.e.state == Active;
  }

  lemma StuckIsAwake(w: World)
    requires Waking(w) && Stuck(w) && w.a.e.state == Active
    ensures w.a.e.outActive
  {
    StuckIsRead(w);
    if !w.a.e.outActive { StalledWindow(w); }
  }

  lemma StartWaking(hwm: int, other: int, swapped: bool)
    requires IsHwm(hwm)
    ensures Inv(Start(hwm, other, swapped)) && Streams(Start(hwm, other, swapped)) && Flow(Start(hwm, other, swapped))
  {
    InitFlow(hwm, other, swapped);
    InitStreams(hwm, other);
    InitStreams(other, hwm);
  }

  lemma {:induction false} RunWaking(hwm: int, other: int, swapped: bool, evs: seq<Event>, w: World)
    requires IsHwm(hwm) && hwm != 0x7FFF_FFFF && AllPlain(evs) && Run(Start(hwm, other, swapped), evs, w) && Flushed(w)
    ensures Waking(w)
  {
    StartWaking(hwm, other, swapped);
    RunFlow(Start(hwm, other, swapped), evs, w);
    RunStreams(Start(hwm, other, swapped), evs, w);
    LwmExact(hwm);
  }

  /** From any reachable state in which the writer has flushed what it wrote, delivering
      and reading on ends after a bounded number of steps, and then the writer, if it has
      not begun to close, may write again. */
  lemma {:induction false} StalledWriterWakes(hwm: int, other: int, swapped: bool, evs: seq<Event>, w: World,
          drive: seq<Event>, end: World)
    requires IsHwm(hwm) && hwm != 0x7FFF_FFFF && AllPlain(evs) && Run(Start(hwm, other, swapped), evs, w) && Flushed(w)
    requires Drive(w, drive, end)
    ensures |drive| <= Measure(w)
    ensures Stuck(end) && end.a.e.state == Active ==> end.a.e.outActive
  {
    RunWaking(hwm, other, swapped, evs, w);
    DriveBounded(w, drive, end);
    DriveWaking(w, drive, end);
    if Stuck(end) && end.a.e.state == Active { StuckIsAwake(end); }
  }
}
