/**
 Nothing is left behind: when an end of a pipe pair is gone, every frame that was
 published to it has been read or closed, and one that acknowledges because it has
 read a delimiter leaves no part of a message in its outbound queue.
 */
module PipeDrain {
  import opened Wrappers
  import opened YPipe
  import opened PipeEnd
  import opened PipePair
  import PipeClose

  /** End `b` is not gone, or its queue was emptied and freed. */
  predicate Emptied(w: World) {
    && Formed(w)
    && (!w.b.e.alive ==> w.b.inId in w.freed && w.qs[w.b.inId].rd == w.qs[w.b.inId].pub)
  }

  lemma AckEmpties(v: Env, c: Cmd)
    requires Ready(v) && MayTake(v, [c]) && !Handle(v, c).e.alive
    ensures Handle(v, c).i.rd == Handle(v, c).i.pub
  {
    HandleMoves(v, c);
  }

  /** An ordinary step of `a` that makes it go empties its queue. */
  lemma OutcomeEmpties(w: World, act: Act)
    requires Inv(w) && Enabled(w, act) && !IsHiccup(w, act) && !Outcome(w, act).e.alive
    ensures Outcome(w, act).i.rd == Outcome(w, act).i.pub
  {
    Ordinary(w, act);
    assert act.Deliver?;
    Expected(w);
    AckEmpties(Enter(w), w.a.box[0]);
  }

  lemma OtherLeaves(w: World, v': Env, rest: seq<Cmd>)
    requires Emptied(w) && BoxFormed(rest, |w.qs|) && w.a.inId !in w.freed && (w.a.e.hasOut ==> w.a.outId !in w.freed)
    requires Formed(Leave(w.(a := w.a.(box := rest)), v'))
    ensures Emptied(Leave(w.(a := w.a.(box := rest)), v'))
  {
  }

  /** A step of the other end leaves the queue of an end that is gone alone. */
  lemma OtherEmptied(w: World, act: Act)
    requires Inv(w) && Emptied(w) && Enabled(w, act)
    ensures Emptied(StepA(w, act))
  {
    StepKeeps(w, act);
    if !IsHiccup(w, act) {
      OutcomeAlive(w, act);
      InUse(w);
      StepIsLeave(w, act);
      OtherLeaves(w, Outcome(w, act), Rest(w, act));
    }
  }

  lemma OutcomeAlive(w: World, act: Act)
    requires Inv(w) && Enabled(w, act) && !IsHiccup(w, act)
    ensures w.a.e.alive && BoxFormed(Rest(w, act), |w.qs|)
  {
    Ordinary(w, act);
  }

  lemma LeaveEmptied(w: World, v': Env, rest: seq<Cmd>)
    requires Formed(w) && BoxFormed(rest, |w.qs|) && (!v'.e.alive ==> v'.i.rd == v'.i.pub)
    requires Formed(Leave(w.(a := w.a.(box := rest)), v'))
    ensures Emptied(Mirror(Leave(w.(a := w.a.(box := rest)), v')))
  {
  }

  /** A hiccup makes no end go. */
  lemma HiccupLives(w: World, act: Act)
    requires Inv(w) && Enabled(w, act) && IsHiccup(w, act)
    ensures Formed(StepA(w, act)) && StepA(w, act).a.e.alive
  {
    StepKeeps(w, act);
    if act.Deliver? { NewOutboundTalk(w); }
  }

  lemma OwnEmptied(w: World, act: Act)
    requires Inv(w) && Enabled(w, act)
    ensures Emptied(Mirror(StepA(w, act)))
  {
    StepKeeps(w, act);
    if IsHiccup(w, act) {
      HiccupLives(w, act);
    } else {
      var v' := Outcome(w, act);
      StepIsLeave(w, act);
      if !v'.e.alive { OutcomeEmpties(w, act); }
      LeaveEmptied(w, v', Rest(w, act));
    }
  }

  lemma EventEmptied(w: World, ev: Event)
    requires Inv(w) && Emptied(w) && Enabled(PipeClose.Face(w, ev.first), ev.act)
    ensures Emptied(Step(w, ev.first, ev.act))
  {
    MirrorInv(w);
    if ev.first {
      OtherEmptied(w, ev.act);
    } else {
      assert Mirror(Mirror(w)) == w;
      OwnEmptied(Mirror(w), ev.act);
    }
  }

  lemma {:induction false} RunEmptied(w: World, evs: seq<Event>, w': World)
    requires Inv(w) && Emptied(w) && Run(w, evs, w')
    ensures Emptied(w')
    decreases |evs|
  {
    if evs != [] {
      EventKeeps(w, evs[0]);
      EventEmptied(w, evs[0]);
      RunEmptied(Step(w, evs[0].first, evs[0].act), evs[1..], w');
    }
  }

  /** In every run, hiccups included: when an end is gone no published frame is unread in its queue. */
  lemma {:induction false} NothingUnread(hwm0: int, hwm1: int, evs: seq<Event>, w: World)
    requires Run(NewPair(hwm0, hwm1), evs, w) && !w.b.e.alive
    ensures Formed(w) && w.qs[w.b.inId].rd == w.qs[w.b.inId].pub
  {
    InitInv(hwm0, hwm1);
    RunEmptied(NewPair(hwm0, hwm1), evs, w);
  }

  /** An end that waits for the delimiter and reads it leaves whole messages only. */
  lemma LeavesWhole(v: Env)
    requires Ready(v) && v.e.state == WaitingForDelimiter
    ensures var v' := PipeEnd.Read(v).0; v'.e.state == TermAckSent ==> v'.o.fin == |v'.o.frames| && !v'.e.hasOut
    ensures var v' := PipeEnd.CheckRead(v).0; v'.e.state == TermAckSent ==> v'.o.fin == |v'.o.frames| && !v'.e.hasOut
  {
  }

  /** Looking at an empty queue or at a delimiter does what reading would. */
  lemma LookIsRead(v: Env)
    requires v.Ok() && (v.i.rd < v.i.pub ==> v.i.frames[v.i.rd].kind == Delimiter)
    ensures PipeEnd.CheckRead(v).0 == PipeEnd.Read(v).0 && !PipeEnd.CheckRead(v).1 && PipeEnd.Read(v).1.None?
  {
  }
}
