/**
 Flow control of a pipe pair without hiccups: how the writer's window and the
 reader's reports keep each other going.  The lemmas are about the messages from
 end `a` to end `b`; `Mirror` gives the other direction.
 */
module PipeFlow {
  import opened Wrappers
  import opened YPipe
  import opened PipeEnd
  import opened PipePair

  // ---- counting messages ----

  /** The last part of a message.  A routing id, a credential and a delimiter are none. */
  predicate EndsMessage(f: Frame) {
    f.kind == Data && !f.more
  }

  /** The completed messages among the first `n` frames. */
  function Msgs(frames: seq<Frame>, n: nat): nat
    requires n <= |frames|
  {
    if n == 0 then 0 else Msgs(frames, n - 1) + if EndsMessage(frames[n - 1]) then 1 else 0
  }

  lemma {:induction false} MsgsMonotone(frames: seq<Frame>, m: nat, n: nat)
    requires m <= n <= |frames|
    ensures Msgs(frames, m) <= Msgs(frames, n)
  {
    if m < n { MsgsMonotone(frames, m, n - 1); }
  }

  lemma {:induction false} MsgsPrefix(x: seq<Frame>, y: seq<Frame>, n: nat)
    requires n <= |x| && n <= |y| && x[..n] == y[..n]
    ensures Msgs(x, n) == Msgs(y, n)
  {
    if n > 0 {
      assert x[..n - 1] == x[..n][..n - 1] && y[..n - 1] == y[..n][..n - 1];
      assert x[n - 1] == x[..n][n - 1] == y[n - 1];
      MsgsPrefix(x, y, n - 1);
    }
  }

  /** Frames that are all to be continued complete no message. */
  lemma {:induction false} MsgsUnfinished(frames: seq<Frame>, m: nat, n: nat)
    requires m <= n <= |frames| && forall k :: m <= k < n ==> frames[k].more
    ensures Msgs(frames, n) == Msgs(frames, m)
  {
    if m < n { MsgsUnfinished(frames, m, n - 1); }
  }

  // ---- the reports on their way to the writer ----

  /** What the writer will have been told once its box is empty. */
  function Told(known: nat, box: seq<Cmd>): nat
    decreases |box|
  {
    if box == [] then known
    else Told(if box[0].ActivateWrite? then box[0].msgsRead else known, box[1..])
  }

  /** The reports never go back. */
  predicate Climbs(known: nat, box: seq<Cmd>)
    decreases |box|
  {
    box != [] ==>
      if box[0].ActivateWrite? then known <= box[0].msgsRead && Climbs(box[0].msgsRead, box[1..])
      else Climbs(known, box[1..])
  }

  lemma {:induction false} ToldAppend(known: nat, x: seq<Cmd>, y: seq<Cmd>)
    ensures Told(known, x + y) == Told(Told(known, x), y)
    ensures Climbs(known, x + y) <==> Climbs(known, x) && Climbs(Told(known, x), y)
    decreases |x|
  {
    if x == [] {
      assert x + y == y;
    } else {
      assert (x + y)[1..] == x[1..] + y;
      ToldAppend(if x[0].ActivateWrite? then x[0].msgsRead else known, x[1..], y);
    }
  }

  lemma {:induction false} ToldClimbs(known: nat, box: seq<Cmd>)
    requires Climbs(known, box)
    ensures known <= Told(known, box)
    decreases |box|
  {
    if box != [] { ToldClimbs(if box[0].ActivateWrite? then box[0].msgsRead else known, box[1..]); }
  }

  lemma {:induction false} ToldNothing(known: nat, box: seq<Cmd>)
    requires forall i :: 0 <= i < |box| ==> !box[i].ActivateWrite?
    ensures Told(known, box) == known && Climbs(known, box)
  {
    if box != [] { ToldNothing(known, box[1..]); }
  }

  // ---- the invariant ----

  /** Widths of `int` in the source. */
  predicate IsHwm(hwm: int) {
    0 < hwm < 0x8000_0000
  }

  /** The writer: its window, and that it does not stall in the middle of a message. */
  predicate Window(e: End, o: FrameQueue) {
    && o.Ok() && Unfinished(o) && IsHwm(e.hwm)
    && (forall k :: 0 <= k < |o.frames| ==> o.frames[k].kind != Credential)
    && e.msgsWritten == Msgs(o.frames, o.fin)
    && e.peersMsgsRead <= e.msgsWritten <= e.peersMsgsRead + e.hwm
    && (e.state == Active && !e.outActive ==> e.msgsWritten == e.peersMsgsRead + e.hwm)
    && (e.state == Active && o.fin < |o.frames| ==> e.outActive && e.msgsWritten < e.peersMsgsRead + e.hwm)
  }

  /** The reader counts what it reads. */
  predicate Counts(e: End, i: FrameQueue) {
    i.Ok() && e.msgsRead <= Msgs(i.frames, i.rd) && (e.alive ==> e.msgsRead == Msgs(i.frames, i.rd))
  }

  /** The last count that a reader with low water mark `lwm` has reported. */
  function LastReport(msgsRead: nat, lwm: int): nat {
    if lwm > 0 then msgsRead - msgsRead % lwm else 0
  }

  predicate NoReport(cmds: seq<Cmd>) {
    forall i :: 0 <= i < |cmds| ==> !cmds[i].ActivateWrite?
  }

  /** The writer has been or will be told the reader's last multiple of the low water mark,
      if that is positive; otherwise it is never told anything. */
  predicate Reported(s: Side, r: Side) {
    && r.e.lwm == ComputeLwm(s.e.hwm)
    && Climbs(s.e.peersMsgsRead, s.box)
    && Told(s.e.peersMsgsRead, s.box) == LastReport(r.e.msgsRead, r.e.lwm)
    && (r.e.lwm <= 0 ==> NoReport(s.box) && s.e.peersMsgsRead == 0)
  }

  /** No hiccup has happened: the ends share the queues they were created with. */
  predicate Calm(w: World) {
    && w.a.outId == w.b.inId && w.b.outId == w.a.inId && w.a.inId != w.a.outId
    && NoHiccup(w.a.box) && NoHiccup(w.b.box)
  }

  predicate Flow(w: World) {
    && Formed(w) && Calm(w)
    && Window(w.a.e, w.qs[w.a.outId]) && Counts(w.b.e, w.qs[w.b.inId]) && Reported(w.a, w.b)
  }

  // ---- steps of the writer ----

  predicate Plain(act: Act) {
    act != Act.Hiccup && (act.Write? ==> act.m.kind != Credential && act.m.kind != Delimiter)
  }

  /** How a step of the writer changes its window. */
  predicate Writes(v: Env, v': Env) {
    && Window(v'.e, v'.o) && v'.e.hwm == v.e.hwm
    && v.o.rd == v'.o.rd <= v.o.fin <= v'.o.fin && v.o.fin <= |v.o.frames| && v.o.fin <= |v'.o.frames|
    && v'.o.frames[..v.o.fin] == v.o.frames[..v.o.fin]
  }

  lemma PutWindow(e: End, o: FrameQueue, m: Frame)
    requires Window(e, o) && e.state == Active && e.outActive && e.CheckHwm() && m.kind != Credential
        && m.kind != Delimiter
    ensures Window(e.(msgsWritten := e.msgsWritten + if Ends(m) then 1 else 0), o.Put(m, m.more))
  {
    var o' := o.Put(m, m.more);
    assert o'.frames[..|o.frames|] == o.frames[..|o.frames|];
    MsgsPrefix(o.frames, o'.frames, |o.frames|);
    assert o'.frames[..o.fin] == o.frames[..o.fin];
    MsgsPrefix(o.frames, o'.frames, o.fin);
    MsgsUnfinished(o.frames, o.fin, |o.frames|);
  }

  lemma RollbackWindow(e: End, o: FrameQueue)
    requires Window(e, o)
    ensures Window(e, o.RolledBack())
  {
    MsgsPrefix(o.frames, o.RolledBack().frames, o.fin);
  }

  /** The delimiter behind the last message is not counted. */
  lemma StopWindow(e: End, o: FrameQueue)
    requires Window(e, o) && e.state != Active
    ensures Window(e, o.RolledBack().Put(DELIMITER, false))
  {
    var o' := o.RolledBack().Put(DELIMITER, false);
    assert o'.frames[..o.fin] == o.frames[..o.fin];
    MsgsPrefix(o.frames, o'.frames, o.fin);
  }

  /** A step that leaves the outbound queue alone or drops the message begun. */
  lemma QuietWrites(v: Env, v': Env)
    requires Window(v.e, v.o) && (v'.o == v.o || v'.o == v.o.RolledBack())
    requires v'.e.hwm == v.e.hwm && v'.e.msgsWritten == v.e.msgsWritten && v'.e.peersMsgsRead == v.e.peersMsgsRead
    requires v'.e.state == Active ==> v.e.state == Active && v'.e.outActive == v.e.outActive
    ensures Writes(v, v')
  {
    RollbackWindow(v.e, v.o);
  }

  lemma ReadWrites(v: Env)
    requires Ready(v) && Window(v.e, v.o)
    ensures Writes(v, PipeEnd.Read(v).0) && PipeEnd.Read(v).0.e.peersMsgsRead == v.e.peersMsgsRead
  {
    QuietWrites(v, PipeEnd.Read(v).0);
  }

  lemma CheckReadWrites(v: Env)
    requires Ready(v) && Window(v.e, v.o)
    ensures Writes(v, PipeEnd.CheckRead(v).0) && PipeEnd.CheckRead(v).0.e.peersMsgsRead == v.e.peersMsgsRead
  {
    QuietWrites(v, PipeEnd.CheckRead(v).0);
  }

  lemma StopWrites(v: Env)
    requires v.Ok() && Window(v.e, v.o) && v.e.state != Active
    ensures Writes(v, StopOutbound(v)) && StopOutbound(v).e == v.e.(outActive := false)
  {
    StopWindow(v.e.(outActive := false), v.o);
    assert v.o.RolledBack().Put(DELIMITER, false).frames[..v.o.fin] == v.o.frames[..v.o.fin];
  }

  lemma AskWrites(v: Env, delay: bool)
    requires Ready(v) && Window(v.e, v.o) && (v.e.state == Active || v.e.state == DelimiterReceived)
    ensures var v' := PipeEnd.Terminate(v, delay); Writes(v, v') && v'.e.peersMsgsRead == v.e.peersMsgsRead
  {
    StopWrites(AskPeer(v.(e := v.e.(delay := delay, hasty := v.e.hasty || !delay))));
  }

  lemma WaitWrites(v: Env, delay: bool)
    requires Ready(v) && Window(v.e, v.o) && v.e.state == WaitingForDelimiter
    ensures var v' := PipeEnd.Terminate(v, delay); Writes(v, v') && v'.e.peersMsgsRead == v.e.peersMsgsRead
  {
    RollbackWindow(v.e, v.o);
    var v1 := v.(e := v.e.(delay := delay, hasty := v.e.hasty || !delay));
    StopWrites(if delay then v1 else GiveUp(v1));
  }

  lemma TerminateWrites(v: Env, delay: bool)
    requires Ready(v) && Window(v.e, v.o)
    ensures var v' := PipeEnd.Terminate(v, delay); Writes(v, v') && v'.e.peersMsgsRead == v.e.peersMsgsRead
  {
    match v.e.state
    case Active => AskWrites(v, delay);
    case DelimiterReceived => AskWrites(v, delay);
    case WaitingForDelimiter => WaitWrites(v, delay);
    case _ =>
  }

  lemma CallWrites(v: Env, act: Act)
    requires Ready(v) && Plain(act) && Window(v.e, v.o)
    ensures Writes(v, Call(v, act)) && Call(v, act).e.peersMsgsRead == v.e.peersMsgsRead
  {
    match act
    case Read => ReadWrites(v);
    case CheckRead => CheckReadWrites(v);
    case Write(m) => if v.e.state == Active && v.e.outActive && v.e.CheckHwm() { PutWindow(v.e, v.o, m); }
    case Rollback => RollbackWindow(v.e, v.o);
    case Terminate(delay) => TerminateWrites(v, delay);
    case _ =>
  }

  lemma HandleWrites(v: Env, c: Cmd)
    requires Ready(v) && Window(v.e, v.o) && !c.Hiccup?
    requires c.ActivateWrite? ==> v.e.peersMsgsRead <= c.msgsRead <= v.e.msgsWritten
    ensures var v' := Handle(v, c);
            Writes(v, v') && v'.e.peersMsgsRead == if c.ActivateWrite? then c.msgsRead else v.e.peersMsgsRead
  {
  }

  // ---- steps of the reader ----

  /** How a step of the reader changes its count and what it reports. */
  predicate Reads(v: Env, v': Env) {
    && Counts(v'.e, v'.i) && v'.e.lwm == v.e.lwm && v'.i.frames == v.i.frames && v'.i.fin == v.i.fin
    && ReportsOn(v.e.msgsRead, v'.e.msgsRead, v.e.lwm, v'.out)
  }

  /** The commands `out` report what has become due while a reader read on. */
  predicate ReportsOn(before: nat, after: nat, lwm: int, out: seq<Cmd>) {
    && Climbs(LastReport(before, lwm), out) && Told(LastReport(before, lwm), out) == LastReport(after, lwm)
    && (lwm <= 0 ==> NoReport(out))
  }

  /** Between two multiples of `l` nothing is reported. */
  lemma Multiple(n: nat, l: int)
    requires l > 0
    ensures (n + 1) % l != 0 ==> (n + 1) - (n + 1) % l == n - n % l
    ensures (n + 1) % l == 0 ==> n - n % l <= n + 1
    ensures n % l == 0 ==> n - n % l == n
  {
    var q, r := n / l, n % l;
    assert n == q * l + r;
    if r == l - 1 {
      assert n + 1 == (q + 1) * l;
      ModUnique(n + 1, l, q + 1, 0);
    } else {
      ModUnique(n + 1, l, q, r + 1);
    }
  }

  lemma ModUnique(n: int, l: int, q: int, r: int)
    requires l > 0 && n == q * l + r && 0 <= r < l
    ensures n % l == r
  {
    var d := n / l - q;
    assert d * l == r - n % l;
    MultipleBound(d, l);
  }

  lemma MultipleBound(d: int, l: int)
    requires l > 0
    ensures d >= 1 ==> d * l >= l
    ensures d <= -1 ==> d * l <= -l
  {
  }

  /** Handing over a frame reports a multiple of the low water mark. */
  lemma DeliverReports(v: Env, m: Frame)
    requires v.out == []
    ensures var v' := PipeEnd.Deliver(v, m); ReportsOn(v.e.msgsRead, v'.e.msgsRead, v.e.lwm, v'.out)
  {
    if v.e.lwm > 0 {
      var v' := PipeEnd.Deliver(v, m);
      Multiple(v.e.msgsRead, v.e.lwm);
      if v'.out != [] { assert v'.out == [ActivateWrite(v'.e.msgsRead)] && v'.out[1..] == []; }
    }
  }

  /** A frame that is read repeats the report whenever the count is one that was to be reported. */
  lemma ReadReports(v: Env)
    requires v.Ok() && PipeEnd.Read(v).1.Some?
    ensures var v' := PipeEnd.Read(v).0; var n := v'.e.msgsRead;
            v'.out == v.out + if v.e.lwm > 0 && LastReport(n, v.e.lwm) == n then [ActivateWrite(n)] else []
  {
    var v' := PipeEnd.Read(v).0;
    if v.e.lwm > 0 { assert LastReport(v'.e.msgsRead, v.e.lwm) == v'.e.msgsRead <==> v'.e.msgsRead % v.e.lwm == 0; }
    assert v.out + [] == v.out;
  }

  lemma DeliverReads(v: Env, m: Frame)
    requires v.i.Ok() && v.out == [] && 0 < v.i.rd && v.i.frames[v.i.rd - 1] == m && m.kind != Delimiter
    requires m.kind != Credential
    requires v.e.alive && v.e.msgsRead == Msgs(v.i.frames, v.i.rd - 1)
    ensures Reads(v, PipeEnd.Deliver(v, m))
  {
    DeliverReports(v, m);
  }

  lemma QuietReads(v: Env, v': Env)
    requires Counts(v'.e, v'.i) && v'.e.lwm == v.e.lwm && v'.i.frames == v.i.frames && v'.i.fin == v.i.fin
    requires v'.e.msgsRead == v.e.msgsRead && NoReport(v'.out)
    ensures Reads(v, v')
  {
    ToldNothing(LastReport(v.e.msgsRead, v.e.lwm), v'.out);
  }

  lemma ReadReads(v: Env)
    requires Ready(v) && Counts(v.e, v.i)
    requires forall k :: 0 <= k < |v.i.frames| ==> v.i.frames[k].kind != Credential
    ensures Reads(v, PipeEnd.Read(v).0)
  {
    var v' := PipeEnd.Read(v).0;
    if v.e.inActive && v.e.Reading() && v.i.rd < v.i.pub && v.i.frames[v.i.rd].kind != Delimiter {
      DeliverReads(v.(i := v.i.Taken()), v.i.frames[v.i.rd]);
    } else {
      QuietReads(v, v');
    }
  }

  /** `terminate` reads nothing and reports nothing. */
  lemma TerminateQuiet(v: Env, delay: bool)
    requires v.Ok() && v.out == []
    ensures var v' := PipeEnd.Terminate(v, delay);
            && v'.i == v.i && v'.e.lwm == v.e.lwm && v'.e.msgsRead == v.e.msgsRead && v'.e.delivered == v.e.delivered
            && v'.e.alive == v.e.alive && forall i :: 0 <= i < |v'.out| ==> !v'.out[i].ActivateWrite?
  {
    if v.e.state == WaitingForDelimiter { WaitQuiet(v, delay); }
  }

  lemma WaitQuiet(v: Env, delay: bool)
    requires v.Ok() && v.out == [] && v.e.state == WaitingForDelimiter
    ensures var v' := PipeEnd.Terminate(v, delay);
            && v'.i == v.i && v'.e.lwm == v.e.lwm && v'.e.msgsRead == v.e.msgsRead && v'.e.delivered == v.e.delivered
            && v'.e.alive == v.e.alive && forall i :: 0 <= i < |v'.out| ==> !v'.out[i].ActivateWrite?
  {
  }

  lemma TerminateReads(v: Env, delay: bool)
    requires Ready(v) && Counts(v.e, v.i)
    ensures Reads(v, PipeEnd.Terminate(v, delay))
  {
    TerminateQuiet(v, delay);
    QuietReads(v, PipeEnd.Terminate(v, delay));
  }

  lemma CallReads(v: Env, act: Act)
    requires Ready(v) && Counts(v.e, v.i)
    requires forall k :: 0 <= k < |v.i.frames| ==> v.i.frames[k].kind != Credential
    ensures Reads(v, Call(v, act))
  {
    match act
    case Read => ReadReads(v);
    case Terminate(delay) => TerminateReads(v, delay);
    case _ => QuietReads(v, Call(v, act));
  }

  lemma HandleReads(v: Env, c: Cmd)
    requires Ready(v) && Counts(v.e, v.i)
    ensures Reads(v, Handle(v, c))
  {
    MsgsMonotone(v.i.frames, v.i.rd, v.i.pub);
    QuietReads(v, Handle(v, c));
  }

  // ---- steps of the pair ----

  /** What a step of the writer does to its window and to the reports still to come. */
  lemma WriterEnv(w: World, act: Act)
    requires Inv(w) && Flow(w) && Enabled(w, act) && Plain(act)
    ensures var v, v' := Enter(w), Outcome(w, act);
            && Writes(v, v') && Climbs(v'.e.peersMsgsRead, Rest(w, act))
            && Told(v'.e.peersMsgsRead, Rest(w, act)) == Told(w.a.e.peersMsgsRead, w.a.box)
            && (w.b.e.lwm <= 0 ==> NoReport(Rest(w, act)) && v'.e.peersMsgsRead == 0)
  {
    var q := w.qs[w.b.inId];
    Ordinary(w, act);
    if act.Deliver? {
      var c := w.a.box[0];
      ToldClimbs(w.a.e.peersMsgsRead, w.a.box);
      if c.ActivateWrite? { ToldClimbs(c.msgsRead, w.a.box[1..]); }
      MsgsMonotone(q.frames, q.rd, q.fin);
      HandleWrites(Enter(w), c);
    } else {
      CallWrites(Enter(w), act);
    }
  }

  lemma ReaderEnv(w: World, act: Act)
    requires Inv(w) && Flow(Mirror(w)) && Enabled(w, act) && Plain(act)
    ensures Reads(Enter(w), Outcome(w, act))
  {
    Ordinary(w, act);
    if act.Deliver? { HandleReads(Enter(w), w.a.box[0]); } else { CallReads(Enter(w), act); }
  }

  lemma CalmKept(w: World, v': Env, got: seq<Cmd>, rest: seq<Cmd>)
    requires Formed(w) && Calm(w) && w.a.box == got + rest && NoHiccup(v'.out) && BoxFormed(rest, |w.qs|)
    ensures Calm(Leave(w.(a := w.a.(box := rest)), v'))
  {
    NoHiccupRest(got, rest);
  }

  lemma WriterLeave(w: World, v': Env, got: seq<Cmd>, rest: seq<Cmd>)
    requires Inv(w) && Flow(w) && w.a.box == got + rest && BoxFormed(rest, |w.qs|)
    requires Writes(Enter(w), v') && KeepsQueues(Enter(w), v') && NoHiccup(v'.out)
    requires Climbs(v'.e.peersMsgsRead, rest) && Told(v'.e.peersMsgsRead, rest) == Told(w.a.e.peersMsgsRead, w.a.box)
    requires w.b.e.lwm <= 0 ==> NoReport(rest) && v'.e.peersMsgsRead == 0
    requires Formed(Leave(w.(a := w.a.(box := rest)), v'))
    ensures Flow(Leave(w.(a := w.a.(box := rest)), v'))
  {
    CalmKept(w, v', got, rest);
    var w' := Leave(w.(a := w.a.(box := rest)), v');
    var q, q' := w.qs[w.b.inId], w'.qs[w.b.inId];
    assert q' == v'.o;
    SameRead(q, q');
  }

  /** The frames that were read are still the same. */
  lemma SameRead(q: FrameQueue, q': FrameQueue)
    requires q.Ok() && q.fin <= |q'.frames| && q'.frames[..q.fin] == q.frames[..q.fin]
    ensures q.rd <= |q'.frames| && Msgs(q'.frames, q.rd) == Msgs(q.frames, q.rd)
  {
    assert q.frames[..q.rd] == q.frames[..q.fin][..q.rd] == q'.frames[..q.fin][..q.rd] == q'.frames[..q.rd];
    MsgsPrefix(q.frames, q'.frames, q.rd);
  }

  lemma ReaderLeave(w: World, v': Env, got: seq<Cmd>, rest: seq<Cmd>)
    requires Inv(w) && Flow(Mirror(w)) && w.a.box == got + rest && BoxFormed(rest, |w.qs|)
    requires Reads(Enter(w), v') && KeepsQueues(Enter(w), v') && NoHiccup(v'.out)
    requires Formed(Leave(w.(a := w.a.(box := rest)), v'))
    ensures Flow(Mirror(Leave(w.(a := w.a.(box := rest)), v')))
  {
    CalmKept(w, v', got, rest);
    ToldAppend(w.b.e.peersMsgsRead, w.b.box, v'.out);
  }

  /** A step of the writer. */
  lemma WriterStep(w: World, act: Act)
    requires Inv(w) && Flow(w) && Enabled(w, act) && Plain(act)
    ensures Flow(StepA(w, act)) && StepA(w, act).a.e.hwm == w.a.e.hwm
  {
    Ordinary(w, act);
    StepIsLeave(w, act);
    StepKeeps(w, act);
    WriterEnv(w, act);
    WriterLeave(w, Outcome(w, act), Got(w, act), Rest(w, act));
  }

  /** A step of the reader; here `b` is the writer. */
  lemma ReaderStep(w: World, act: Act)
    requires Inv(w) && Flow(Mirror(w)) && Enabled(w, act) && Plain(act)
    ensures Flow(Mirror(StepA(w, act))) && StepA(w, act).b.e.hwm == w.b.e.hwm
  {
    Ordinary(w, act);
    StepIsLeave(w, act);
    StepKeeps(w, act);
    ReaderEnv(w, act);
    ReaderLeave(w, Outcome(w, act), Got(w, act), Rest(w, act));
  }

  lemma EventFlow(w: World, ev: Event)
    requires Inv(w) && Flow(w) && Plain(ev.act) && Enabled(if ev.first then w else Mirror(w), ev.act)
    ensures var w' := Step(w, ev.first, ev.act); Flow(w') && w'.a.e.hwm == w.a.e.hwm
  {
    if ev.first {
      WriterStep(w, ev.act);
    } else {
      MirrorInv(w);
      assert Mirror(Mirror(w)) == w;
      ReaderStep(Mirror(w), ev.act);
    }
  }

  predicate AllPlain(evs: seq<Event>) {
    forall i :: 0 <= i < |evs| ==> Plain(evs[i].act)
  }

  lemma {:induction false} RunFlow(w: World, evs: seq<Event>, w': World)
    requires Inv(w) && Flow(w) && AllPlain(evs) && Run(w, evs, w')
    ensures Inv(w') && Flow(w') && w'.a.e.hwm == w.a.e.hwm
    decreases |evs|
  {
    if evs != [] {
      EventFlow(w, evs[0]);
      EventKeeps(w, evs[0]);
      RunFlow(Step(w, evs[0].first, evs[0].act), evs[1..], w');
    }
  }

  /** A new pair with high water mark `hwm` from `a` to `b`; either end may be `a`. */
  function Start(hwm: int, other: int, swapped: bool): World {
    if swapped then Mirror(NewPair(other, hwm)) else NewPair(hwm, other)
  }

  lemma InitFlow(hwm: int, other: int, swapped: bool)
    requires IsHwm(hwm)
    ensures Inv(Start(hwm, other, swapped)) && Flow(Start(hwm, other, swapped))
  {
    InitInv(hwm, other);
    InitInv(other, hwm);
    MirrorInv(NewPair(other, hwm));
  }

  /** Messages from `a` that are complete and that `b` has not read. */
  function Unread(w: World): int
    requires Formed(w)
  {
    Msgs(w.qs[w.b.inId].frames, w.qs[w.b.inId].fin) - Msgs(w.qs[w.b.inId].frames, w.qs[w.b.inId].rd)
  }

  /** With a high water mark of `hwm` there are never more than `hwm` unread messages, and
      the writer's unsigned subtraction never wraps.  The counters count exactly the messages. */
  lemma {:induction false} WindowHolds(hwm: int, other: int, swapped: bool, evs: seq<Event>, w: World)
    requires IsHwm(hwm) && AllPlain(evs) && Run(Start(hwm, other, swapped), evs, w)
    ensures Formed(w) && Unread(w) <= hwm
    ensures 0 <= w.a.e.msgsWritten - w.a.e.peersMsgsRead <= hwm
    ensures var q := w.qs[w.b.inId];
            w.a.e.msgsWritten == Msgs(q.frames, q.fin) && (w.b.e.alive ==> w.b.e.msgsRead == Msgs(q.frames, q.rd))
  {
    InitFlow(hwm, other, swapped);
    RunFlow(Start(hwm, other, swapped), evs, w);
    ToldClimbs(w.a.e.peersMsgsRead, w.a.box);
  }

  /** A routing id that is written uses up nothing of the window. */
  lemma RoutingIdWritten(v: Env, m: Frame)
    requires m.kind == RoutingId && PipeEnd.Write(v, m).1
    ensures PipeEnd.Write(v, m).0.e == v.e && PipeEnd.Write(v, m).0.o == v.o.Put(m, m.more)
    ensures forall m' :: PipeEnd.Write(PipeEnd.Write(v, m).0, m').1
  {
  }

  /** One that is read counts as no message. */
  lemma RoutingIdRead(v: Env)
    requires v.Ok() && PipeEnd.Read(v).1.Some? && PipeEnd.Read(v).1.value.kind == RoutingId
    ensures var (v', m) := PipeEnd.Read(v);
            v'.e == v.e.(delivered := v.e.delivered + [m.value]) && v'.o == v.o
  {
  }

  /** Once the first frame of a message was accepted, the next frame is: the high
      water mark is not hit in the middle of a message. */
  lemma {:induction false} NoStallInside(hwm: int, other: int, swapped: bool, evs: seq<Event>, w: World, m: Frame)
    requires IsHwm(hwm) && AllPlain(evs) && Run(Start(hwm, other, swapped), evs, w)
    requires Formed(w) && w.a.e.state == Active && w.qs[w.a.outId].fin < |w.qs[w.a.outId].frames|
    ensures PipeEnd.Write(Enter(w), m).1
  {
    InitFlow(hwm, other, swapped);
    RunFlow(Start(hwm, other, swapped), evs, w);
    InsideWrites(w, m);
  }

  lemma InsideWrites(w: World, m: Frame)
    requires Flow(w) && w.a.e.state == Active && w.qs[w.a.outId].fin < |w.qs[w.a.outId].frames|
    ensures PipeEnd.Write(Enter(w), m).1
  {
  }

  /** The low water mark is positive, and then at most the high water mark, exactly if
      adding one to that does not overflow. */
  lemma LwmExact(hwm: int)
    requires IsHwm(hwm)
    ensures ComputeLwm(hwm) > 0 <==> hwm != 0x7FFF_FFFF
    ensures hwm != 0x7FFF_FFFF ==> ComputeLwm(hwm) == (hwm + 1) / 2 <= hwm
  {
  }

  /** A stalled writer is never stuck: there is a message left to read, or a report
      on its way that lets it write again. */
  lemma {:induction false} StalledIsWoken(hwm: int, other: int, swapped: bool, evs: seq<Event>, w: World)
    requires IsHwm(hwm) && hwm != 0x7FFF_FFFF && AllPlain(evs) && Run(Start(hwm, other, swapped), evs, w)
    requires w.a.e.state == Active && !w.a.e.outActive
    ensures Formed(w) && (Unread(w) > 0 || !NoReport(w.a.box))
  {
    InitFlow(hwm, other, swapped);
    RunFlow(Start(hwm, other, swapped), evs, w);
    LwmExact(hwm);
    StalledWindow(w);
  }

  lemma StalledWindow(w: World)
    requires Inv(w) && Flow(w) && w.b.e.lwm > 0 && w.b.e.lwm <= w.a.e.hwm && w.a.e.state == Active && !w.a.e.outActive
    ensures Unread(w) > 0 || !NoReport(w.a.box)
  {
    if NoReport(w.a.box) {
      ToldNothing(w.a.e.peersMsgsRead, w.a.box);
      assert w.b.e.msgsRead % w.b.e.lwm < w.b.e.lwm;
    }
  }

  /** Any report reactivates a stalled writer. */
  lemma ReportWakes(w: World, n: nat)
    requires w.a.box != [] && w.a.box[0] == ActivateWrite(n) && Formed(w) && w.a.e.state == Active
    ensures StepA(w, Deliver).a.e.outActive
  {
  }

  // ---- the largest high water mark ----

  /** With it no report is ever sent: once that many messages were written, no frame is
      accepted any more. */
  lemma {:induction false} NeverReported(other: int, swapped: bool, evs: seq<Event>, w: World, m: Frame)
    requires AllPlain(evs) && Run(Start(0x7FFF_FFFF, other, swapped), evs, w)
    ensures NoReport(w.a.box) && w.a.e.peersMsgsRead == 0
    ensures Formed(w) && (w.a.e.msgsWritten == 0x7FFF_FFFF ==> !PipeEnd.Write(Enter(w), m).1)
  {
    LwmExact(0x7FFF_FFFF);
    InitFlow(0x7FFF_FFFF, other, swapped);
    RunFlow(Start(0x7FFF_FFFF, other, swapped), evs, w);
    ClosedForGood(w, m);
  }

  lemma ClosedForGood(w: World, m: Frame)
    requires Inv(w) && Flow(w) && w.a.e.hwm == 0x7FFF_FFFF && w.b.e.lwm <= 0
    ensures NoReport(w.a.box) && w.a.e.peersMsgsRead == 0
    ensures w.a.e.msgsWritten == 0x7FFF_FFFF ==> !PipeEnd.Write(Enter(w), m).1
  {
  }

  /** A pair in which the first end has written `written` messages and flushed `flushed`
      of them, of which the second has read `read`. */
  ghost predicate Pumped(w0: World, w: World, written: nat, flushed: nat, read: nat) {
    && Inv(w) && w.b.box == [] && w.b.inId == w0.b.inId
    && w.a == w0.a.(e := w0.a.e.(msgsWritten := written))
    && w.b.e == w0.b.e.(msgsRead := read, delivered := w.b.e.delivered)
    && PumpedQueue(w.qs[w.b.inId], written, flushed, read)
  }

  predicate PumpedQueue(q: FrameQueue, written: nat, flushed: nat, read: nat) {
    && q.fin == |q.frames| == written && q.pub == flushed && q.rd == read <= flushed && !q.asleep
    && forall k :: 0 <= k < |q.frames| ==> q.frames[k] == MESSAGE
  }

  const MESSAGE := Frame(Data, false, 0)

  lemma RoomLeft(e: End)
    requires e.hwm == 0x7FFF_FFFF && e.peersMsgsRead == 0 && 0 <= e.msgsWritten <= 0x7FFF_FFFF
    ensures e.CheckHwm() <==> e.msgsWritten < 0x7FFF_FFFF
  {
  }

  lemma PumpWrite(w0: World, w: World, n: nat)
    requires w0 == NewPair(0x7FFF_FFFF, w0.b.e.hwm) && Pumped(w0, w, n, n, n) && n < 0x7FFF_FFFF
    ensures Enabled(w, Act.Write(MESSAGE)) && Pumped(w0, StepA(w, Act.Write(MESSAGE)), n + 1, n, n)
  {
    var act := Act.Write(MESSAGE);
    InUse(w);
    StepKeeps(w, act);
    RoomLeft(w.a.e);
    assert PipeEnd.CheckWrite(Enter(w)) == (Enter(w), true);
    assert Outcome(w, act) == Enter(w).(o := w.qs[w.b.inId].Put(MESSAGE, false), e := w.a.e.(msgsWritten := n + 1));
  }

  lemma PumpFlush(w0: World, w: World, n: nat)
    requires w0 == NewPair(0x7FFF_FFFF, w0.b.e.hwm) && Pumped(w0, w, n + 1, n, n)
    ensures Enabled(w, Act.Flush) && Pumped(w0, StepA(w, Act.Flush), n + 1, n + 1, n)
  {
    InUse(w);
    StepKeeps(w, Act.Flush);
    assert Outcome(w, Act.Flush) == Enter(w).(o := w.qs[w.b.inId].Flushed());
  }

  lemma PumpRead(w0: World, w: World, n: nat)
    requires w0 == NewPair(0x7FFF_FFFF, w0.b.e.hwm) && Pumped(w0, w, n + 1, n + 1, n)
    ensures Enabled(Mirror(w), Act.Read) && Pumped(w0, Mirror(StepA(Mirror(w), Act.Read)), n + 1, n + 1, n + 1)
  {
    MirrorInv(w);
    InUse(Mirror(w));
    StepKeeps(Mirror(w), Act.Read);
    MirrorInv(StepA(Mirror(w), Act.Read));
    var v := Enter(Mirror(w));
    assert PipeEnd.Skip(v.i) == v.i;
    assert PipeEnd.Read(v) == (PipeEnd.Deliver(v.(i := v.i.Taken()), MESSAGE), Some(MESSAGE));
  }

  lemma {:induction false} RunSnoc(w: World, evs: seq<Event>, w': World, ev: Event)
    requires Run(w, evs, w') && Formed(w') && Enabled(if ev.first then w' else Mirror(w'), ev.act)
    ensures Run(w, evs + [ev], Step(w', ev.first, ev.act))
    decreases |evs|
  {
    if evs == [] {
      assert [ev][1..] == [] && evs + [ev] == [ev];
      assert Run(Step(w, ev.first, ev.act), [], Step(w', ev.first, ev.act));
    } else {
      assert (evs + [ev])[1..] == evs[1..] + [ev];
      RunSnoc(Step(w, evs[0].first, evs[0].act), evs[1..], w', ev);
    }
  }

  lemma RunOn(w0: World, evs: seq<Event>, w: World, ev: Event) returns (evs': seq<Event>, w': World)
    requires Run(w0, evs, w) && AllPlain(evs) && Plain(ev.act)
    requires Formed(w) && Enabled(if ev.first then w else Mirror(w), ev.act)
    ensures w' == Step(w, ev.first, ev.act) && Run(w0, evs', w') && AllPlain(evs')
  {
    RunSnoc(w0, evs, w, ev);
    evs', w' := evs + [ev], Step(w, ev.first, ev.act);
  }

  /** One message more. */
  lemma PumpOne(w0: World, evs: seq<Event>, w: World, n: nat) returns (evs': seq<Event>, w': World)
    requires w0 == NewPair(0x7FFF_FFFF, w0.b.e.hwm) && Pumped(w0, w, n, n, n) && n < 0x7FFF_FFFF
    requires Run(w0, evs, w) && AllPlain(evs)
    ensures Run(w0, evs', w') && AllPlain(evs') && Pumped(w0, w', n + 1, n + 1, n + 1)
  {
    PumpWrite(w0, w, n);
    evs', w' := RunOn(w0, evs, w, Event(true, Act.Write(MESSAGE)));
    PumpFlush(w0, w', n);
    evs', w' := RunOn(w0, evs', w', Event(true, Act.Flush));
    PumpRead(w0, w', n);
    evs', w' := RunOn(w0, evs', w', Event(false, Act.Read));
  }

  lemma {:induction false} PumpAll(w0: World, n: nat) returns (evs: seq<Event>, w: World)
    requires w0 == NewPair(0x7FFF_FFFF, w0.b.e.hwm) && n <= 0x7FFF_FFFF
    ensures Run(w0, evs, w) && AllPlain(evs) && Pumped(w0, w, n, n, n)
    decreases n
  {
    if n == 0 {
      InitInv(0x7FFF_FFFF, w0.b.e.hwm);
      evs, w := [], w0;
    } else {
      evs, w := PumpAll(w0, n - 1);
      evs, w := PumpOne(w0, evs, w, n - 1);
    }
  }

  /** The next look at the window stalls the writer. */
  lemma PumpCheck(w0: World, w: World)
    requires w0 == NewPair(0x7FFF_FFFF, w0.b.e.hwm) && Pumped(w0, w, 0x7FFF_FFFF, 0x7FFF_FFFF, 0x7FFF_FFFF)
    ensures Enabled(w, Act.CheckWrite)
    ensures var w' := StepA(w, Act.CheckWrite);
            Formed(w') && w'.a.e.state == Active && !w'.a.e.outActive && w'.a.box == [] && Unread(w') == 0
  {
    InUse(w);
    RoomLeft(w.a.e);
    assert Outcome(w, Act.CheckWrite) == Enter(w).(e := w.a.e.(outActive := false));
    var w' := StepA(w, Act.CheckWrite);
    assert w'.qs == w.qs && w'.b.inId == w.b.inId;
  }

  /** Such a writer exists: with everything read and nothing on its way it is stalled. */
  lemma StallsForGood(other: int) returns (evs: seq<Event>, w: World)
    ensures AllPlain(evs) && Run(Start(0x7FFF_FFFF, other, false), evs, w)
    ensures w.a.e.state == Active && !w.a.e.outActive && Formed(w) && Unread(w) == 0 && w.a.box == []
  {
    var w0 := NewPair(0x7FFF_FFFF, other);
    evs, w := PumpAll(w0, 0x7FFF_FFFF);
    PumpCheck(w0, w);
    evs, w := RunOn(w0, evs, w, Event(true, Act.CheckWrite));
  }
}
