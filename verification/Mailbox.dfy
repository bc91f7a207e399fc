/**
 The mailbox of a thread: any number of senders, one receiver, a queue of commands
 and a signal that wakes the receiver.  A sender publishes its command under a lock
 and signals, if it has to, after it has released it; so other senders and the
 receiver may act in between.
 */
module Mailbox {
  import opened Wrappers
  import opened YPipe

  /** Where the receiver is.  `Idle` is outside `recv`; the others are inside it, before
      the wait, before the signal is taken, and before the read that must succeed. */
  datatype Phase = Idle(active: bool) | Waiting | Woken | Signalled

  /** `pending` senders have found the receiver asleep and not signalled yet.  `ok` says
      that no assertion has failed; `received` is history. */
  datatype Box<T> = Box(q: Queue<T>, pending: nat, signals: nat, phase: Phase, received: seq<T>, ok: bool)

  /** The constructor looks into the empty queue, which puts the receiver to sleep. */
  function NewBox<T>(): Box<T> {
    Box(NewQueue<T>().Looked(), 0, 0, Idle(false), [], true)
  }

  /** What happens next: a sender's locked part or its signal, a part of `recv`, or the
      end of a wait without a signal. */
  datatype Act<T> = Post(cmd: T) | Signal | Enter | Wake | TakeSignal | ReadWoken | Expire

  predicate Enabled<T>(b: Box<T>, act: Act<T>) {
    match act
    case Post(_) => true
    case Signal => b.pending > 0
    case Enter => b.phase.Idle?
    case Wake => b.phase == Waiting && b.signals > 0
    case TakeSignal => b.phase == Woken
    case ReadWoken => b.phase == Signalled
    case Expire => b.phase == Waiting
  }

  function Posted<T>(b: Box<T>, cmd: T): Box<T> {
    var q := b.q.Put(cmd, false);
    b.(q := q.Flushed(), pending := b.pending + if q.Wakes() then 1 else 0)
  }

  function Got<T>(b: Box<T>): Box<T>
    requires b.q.rd < |b.q.frames|
  {
    b.(q := b.q.Taken(), phase := Idle(true), received := b.received + [b.q.frames[b.q.rd]])
  }

  /** The beginning of `recv`, up to the wait. */
  function Entered<T>(b: Box<T>): Box<T>
    requires b.phase.Idle? && b.q.Ok()
  {
    if !b.phase.active then b.(phase := Waiting)
    else if b.q.rd < b.q.pub then Got(b)
    else b.(q := b.q.Looked(), phase := Waiting)
  }

  /** The receiver takes the signal; without one it gives up. */
  function SignalTaken<T>(b: Box<T>): Box<T> {
    if b.signals > 0 then b.(signals := b.signals - 1, phase := Signalled) else b.(phase := Idle(false))
  }

  function WokenRead<T>(b: Box<T>): Box<T>
    requires b.q.Ok()
  {
    if b.q.rd < b.q.pub then Got(b) else b.(q := b.q.Looked(), phase := Idle(true), ok := false)
  }

  function Step<T>(b: Box<T>, act: Act<T>): Box<T>
    requires b.q.Ok() && Enabled(b, act)
  {
    match act
    case Post(cmd) => Posted(b, cmd)
    case Signal => b.(pending := b.pending - 1, signals := b.signals + 1)
    case Enter => Entered(b)
    case Wake => b.(phase := Woken)
    case TakeSignal => SignalTaken(b)
    case ReadWoken => WokenRead(b)
    case Expire => b.(phase := Idle(false))
  }

  /** The wake-ups under way. */
  function Tokens<T>(b: Box<T>): nat {
    b.pending + b.signals + if b.phase == Signalled then 1 else 0
  }

  /** A receiver that went to sleep is owed exactly one wake-up, from the moment a command
      is published for it on. */
  predicate Inv<T(==)>(b: Box<T>) {
    && b.ok && b.q.Ok() && b.q.pub == b.q.fin == |b.q.frames| && b.received == b.q.frames[..b.q.rd]
    && (if b.phase == Idle(true) then Tokens(b) == 0 && !b.q.asleep
        else if b.q.asleep then Tokens(b) == 0
        else Tokens(b) == 1 && b.q.rd < b.q.pub)
    && (b.phase == Woken ==> b.signals == 1)
  }

  lemma StepKeeps<T>(b: Box<T>, act: Act<T>)
    requires Inv(b) && Enabled(b, act)
    ensures Inv(Step(b, act))
  {
    var b' := Step(b, act);
    match act
    case Post(cmd) => assert b'.q.frames[..b.q.rd] == b.q.frames[..b.q.rd];
    case Enter => if b.q.rd < b.q.pub { ReadOn(b); }
    case ReadWoken => ReadOn(b);
    case _ =>
  }

  lemma ReadOn<T>(b: Box<T>)
    requires b.q.rd < |b.q.frames| && b.received == b.q.frames[..b.q.rd]
    ensures Got(b).received == Got(b).q.frames[..Got(b).q.rd]
  {
  }

  lemma StepSends<T>(b: Box<T>, act: Act<T>)
    requires b.q.Ok() && Enabled(b, act)
    ensures Step(b, act).q.frames == b.q.frames + if act.Post? then [act.cmd] else []
  {
  }

  /** The acts `acts` lead from `b` to `b'`. */
  ghost predicate Run<T(!new)>(b: Box<T>, acts: seq<Act<T>>, b': Box<T>)
    decreases |acts|
  {
    if acts == [] then b' == b
    else b.q.Ok() && Enabled(b, acts[0]) && Run(Step(b, acts[0]), acts[1..], b')
  }

  /** The commands sent, in the order in which they were appended under the lock. */
  function Sent<T>(acts: seq<Act<T>>): seq<T> {
    if acts == [] then [] else (if acts[0].Post? then [acts[0].cmd] else []) + Sent(acts[1..])
  }

  lemma {:induction false} RunKeeps<T(!new)>(b: Box<T>, acts: seq<Act<T>>, b': Box<T>)
    requires Inv(b) && Run(b, acts, b')
    ensures Inv(b') && b'.q.frames == b.q.frames + Sent(acts)
    decreases |acts|
  {
    if acts != [] {
      var first := if acts[0].Post? then [acts[0].cmd] else [];
      StepKeeps(b, acts[0]);
      StepSends(b, acts[0]);
      RunKeeps(Step(b, acts[0]), acts[1..], b');
      assert b'.q.frames == (b.q.frames + first) + Sent(acts[1..]) == b.q.frames + (first + Sent(acts[1..]));
    }
  }

  /** In every interleaving: the read after a wake-up finds a command and taking the
      signal after a wait succeeds; at most one signal is sent or about to be sent, and
      then a published command is unread; and what was received are the commands sent, in
      order and each once, up to some point. */
  lemma {:induction false} MailboxSafety<T(!new)>(acts: seq<Act<T>>, b: Box<T>)
    requires Run(NewBox(), acts, b)
    ensures b.ok && b.pending + b.signals <= 1
    ensures b.pending + b.signals == 1 ==> b.q.rd < b.q.pub && b.phase != Idle(true)
    ensures b.phase == Woken ==> b.signals == 1
    ensures b.received <= Sent(acts)
  {
    RunKeeps(NewBox(), acts, b);
    assert b.q.frames == Sent(acts);
  }

  /** No wake-up is lost: while a command is unread, the receiver is active or a wake-up
      is under way. */
  lemma {:induction false} NoLostWakeUp<T(!new)>(acts: seq<Act<T>>, b: Box<T>)
    requires Run(NewBox(), acts, b) && |b.received| < |Sent(acts)|
    ensures b.phase == Idle(true) || b.phase == Signalled || b.pending + b.signals == 1
  {
    RunKeeps(NewBox(), acts, b);
    assert b.q.frames == Sent(acts);
  }

  // ---- progress ----

  function Rank(p: Phase): nat {
    match p
    case Idle(active) => if active then 5 else 4
    case Waiting => 3
    case Woken => 2
    case Signalled => 1
  }

  function Measure<T>(b: Box<T>): int {
    6 * (|b.q.frames| - b.q.rd) + Rank(b.phase) + b.pending
  }

  /** The receiver goes on calling `recv`, and the senders under way signal. */
  predicate Progressing<T>(b: Box<T>, act: Act<T>) {
    Enabled(b, act) && !act.Post? && !act.Expire?
  }

  ghost predicate Drive<T(!new)>(b: Box<T>, acts: seq<Act<T>>, b': Box<T>)
    decreases |acts|
  {
    if acts == [] then b' == b
    else b.q.Ok() && Progressing(b, acts[0]) && Drive(Step(b, acts[0]), acts[1..], b')
  }

  lemma {:induction false} DriveBounded<T(!new)>(b: Box<T>, acts: seq<Act<T>>, b': Box<T>)
    requires Inv(b) && Drive(b, acts, b')
    ensures Inv(b') && b'.q.frames == b.q.frames && Measure(b') + |acts| <= Measure(b)
    decreases |acts|
  {
    if acts != [] {
      StepKeeps(b, acts[0]);
      DriveBounded(Step(b, acts[0]), acts[1..], b');
    }
  }

  predicate Stuck<T>(b: Box<T>) {
    b.pending == 0 && b.phase == Waiting && b.signals == 0
  }

  /** If no more commands are sent and no wait is cut short, a receiver that goes on
      calling `recv` comes to its last wait after a bounded number of steps, and then it
      has received every command. */
  lemma {:induction false} DrainsAll<T(!new)>(before: seq<Act<T>>, b: Box<T>, acts: seq<Act<T>>, end: Box<T>)
    requires Run(NewBox(), before, b) && Drive(b, acts, end)
    ensures |acts| <= Measure(b)
    ensures Stuck(end) <==> forall act :: !Progressing(end, act)
    ensures Stuck(end) ==> end.received == Sent(before)
  {
    RunKeeps(NewBox(), before, b);
    DriveBounded(b, acts, end);
    assert b.q.frames == Sent(before);
    assert !Stuck(end) ==>
        || Progressing(end, Signal) || Progressing(end, Enter) || Progressing(end, Wake)
        || Progressing(end, TakeSignal) || Progressing(end, ReadWoken);
  }

  /** The object itself; every method is one of the steps. */
  class Mailbox<T> {
    const cpipe: YPipe<T>

    /** The count of the signaler's event. */
    var signals: nat
    var active: bool

    ghost var pending: nat
    ghost var phase: Phase
    ghost var received: seq<T>

    ghost predicate Valid()
      reads this, cpipe
    {
      cpipe.Valid() && Inv(View()) && active == (phase == Idle(true))
    }

    ghost function View(): Box<T>
      reads this, cpipe
    {
      Box(cpipe.View(), pending, signals, phase, received, true)
    }

    constructor ()
      ensures Valid() && View() == NewBox() && fresh(cpipe)
    {
      cpipe := new YPipe(0);
      signals, pending, received := 0, 0, [];
      active, phase := false, Idle(false);
      new;
      var ready := cpipe.CheckRead();
      assert !ready;
    }

    /** The locked part of `send`; false iff the receiver has to be signalled. */
    method Post(cmd: T) returns (awake: bool)
      requires Valid()
      modifies cpipe, `pending
      ensures Valid() && View() == Posted(old(View()), cmd) && awake == (pending == old(pending))
    {
      StepKeeps(View(), Act.Post(cmd));
      cpipe.Write(cmd, false);
      awake := cpipe.Flush();
      pending := pending + if awake then 0 else 1;
    }

    method Signal()
      requires Valid() && pending > 0
      modifies `signals, `pending
      ensures Valid() && View() == Step(old(View()), Act.Signal)
    {
      signals := signals + 1;
      pending := pending - 1;
    }

    /** `recv` without interference; `cut` says that the wait is interrupted.  A command
        that was published is received unless the wait is cut or its signal not yet sent. */
    method Recv(cut: bool) returns (cmd: Option<T>)
      requires Valid() && phase.Idle?
      modifies this, cpipe
      ensures Valid() && phase == Idle(cmd.Some?)
      ensures cmd.Some? ==> received == old(received) + [cmd.value] && cpipe.View().rd == old(cpipe.View().rd) + 1
      ensures cmd.None? ==> received == old(received) && (cut || pending == 1 || received == cpipe.View().frames)
      ensures cpipe.View().frames == old(cpipe.View().frames) && pending == old(pending)
    {
      StepKeeps(View(), Act.Enter);
      if active {
        cmd := cpipe.Read();
        if cmd.Some? {
          received := received + [cmd.value];
          return;
        }
        active := false;
      }
      phase := Waiting;
      assert received == cpipe.View().frames[..cpipe.View().rd];
      if signals == 0 || cut {
        phase := Idle(false);
        return None;
      }
      signals := signals - 1;
      active := true;
      ghost var q := cpipe.View();
      cmd := cpipe.Read();
      assert cmd.Some?;
      phase := Idle(true);
      received := received + [cmd.value];
      assert q.frames[..q.rd + 1] == q.frames[..q.rd] + [q.frames[q.rd]];
    }
  }
}
