/**
 The two ends of a pipe pair, each in its own thread, with their queues and the
 commands in flight: a state machine over all interleavings, and the safety of
 closing it.  Every step is stated for end `a`; `Mirror` swaps the ends.
 */
module PipePair {
  import opened Wrappers
  import opened YPipe
  import opened PipeEnd

  /** An end, the queues it uses, the commands on their way to it, all the commands
      it has ever sent, and what it had read before its last hiccup. */
  datatype Side = Side(e: End, inId: nat, outId: nat, box: seq<Cmd>, log: seq<Cmd>, earlier: seq<Frame>)

  /** `qs` are all the queues ever created, `freed` those that were freed; `ok`
      says that nothing has gone wrong so far (see `Leave`). */
  datatype World = World(a: Side, b: Side, qs: seq<FrameQueue>, freed: set<nat>, ok: bool)

  function Mirror(w: World): World {
    World(w.b, w.a, w.qs, w.freed, w.ok)
  }

  /** `hwms[0]` is for the messages from the first end to the second. */
  function NewPair(hwm0: int, hwm1: int): World {
    World(Side(NewEnd(hwm1, hwm0), 0, 1, [], [], []), Side(NewEnd(hwm0, hwm1), 1, 0, [], [], []),
        [NewQueue(), NewQueue()], {}, true)
  }

  /** What can happen at an end: a call of its socket, or the delivery of the next command. */
  datatype Act = Read | CheckRead | Write(m: Frame) | CheckWrite | Rollback | Flush | Terminate(delay: bool)
      | SetNoDelay | Hiccup | Deliver

  predicate Formed(w: World) {
    && w.a.inId < |w.qs| && w.a.outId < |w.qs| && w.b.inId < |w.qs| && w.b.outId < |w.qs|
    && (forall i :: 0 <= i < |w.qs| ==> w.qs[i].Ok() && Unfinished(w.qs[i]))
    && BoxFormed(w.a.box, |w.qs|) && BoxFormed(w.b.box, |w.qs|)
  }

  predicate BoxFormed(box: seq<Cmd>, n: nat) {
    forall i :: 0 <= i < |box| && box[i].Hiccup? ==> box[i].pipe < n
  }

  /** Socket calls are made on existing ends only, and sockets do not write delimiters. */
  predicate Enabled(w: World, act: Act) {
    if act.Deliver? then w.a.box != [] else w.a.e.alive && (act.Write? ==> act.m.kind != Delimiter)
  }

  function Enter(w: World): Env
    requires Formed(w)
  {
    Env(w.a.e, w.qs[w.a.inId], w.qs[w.a.outId], [], true)
  }

  /** Nothing may touch a freed queue, act for an end that is gone, or send to one. */
  predicate Safe(w: World, v: Env) {
    && v.ok && w.a.e.alive && w.a.inId !in w.freed && (w.a.e.hasOut ==> w.a.outId !in w.freed)
    && (v.out != [] ==> w.b.e.alive)
  }

  /** The world after end `a` has become `v`; an end that dies frees its inbound queue. */
  function Leave(w: World, v: Env): World
    requires Formed(w)
  {
    var qs := if w.a.e.hasOut then w.qs[w.a.outId := v.o] else w.qs;
    w.(a := w.a.(e := v.e, log := w.a.log + v.out),
       b := w.b.(box := w.b.box + v.out),
       qs := qs[w.a.inId := v.i],
       freed := if v.e.alive then w.freed else w.freed + {w.a.inId},
       ok := w.ok && Safe(w, v))
  }

  function Call(v: Env, act: Act): Env
    requires v.Ok()
  {
    match act
    case Read => PipeEnd.Read(v).0
    case CheckRead => PipeEnd.CheckRead(v).0
    case Write(m) => PipeEnd.Write(v, m).0
    case CheckWrite => PipeEnd.CheckWrite(v).0
    case Rollback => PipeEnd.Rollback(v)
    case Flush => PipeEnd.Flush(v)
    case Terminate(delay) => PipeEnd.Terminate(v, delay)
    case SetNoDelay => PipeEnd.SetNoDelay(v)
    case _ => v
  }

  function Handle(v: Env, c: Cmd): Env {
    match c
    case ActivateRead => ProcessActivateRead(v)
    case ActivateWrite(n) => ProcessActivateWrite(v, n)
    case PipeTerm => ProcessPipeTerm(v)
    case PipeTermAck => ProcessPipeTermAck(v)
    case _ => v
  }

  /** A new inbound queue for end `a`. */
  function NewInbound(w: World): World
    requires Formed(w)
  {
    if w.a.e.state != State.Active then w
    else
      var id := |w.qs|;
      var v := StartHiccup(Enter(w), id);
      w.(a := w.a.(e := v.e, inId := id, log := w.a.log + v.out, earlier := v.e.delivered),
         b := w.b.(box := w.b.box + v.out),
         qs := w.qs + [v.i],
         ok := w.ok && Safe(w, v))
  }

  /** End `a` frees its outbound queue and uses queue `id` from now on. */
  function NewOutbound(w: World, id: nat): World
    requires Formed(w) && id < |w.qs|
  {
    var v := ProcessHiccup(Enter(w), w.qs[id]);
    w.(a := w.a.(e := v.e, outId := id),
       freed := w.freed + {w.a.outId},
       ok := w.ok && Safe(w, v))
  }

  function Taken(w: World): World
    requires w.a.box != []
  {
    w.(a := w.a.(box := w.a.box[1..]))
  }

  function StepA(w: World, act: Act): World
    requires Formed(w) && Enabled(w, act)
  {
    if act.Hiccup? then NewInbound(w)
    else if act.Deliver? then
      var c := w.a.box[0];
      if c.Hiccup? then NewOutbound(Taken(w), c.pipe) else Leave(Taken(w), Handle(Enter(w), c))
    else Leave(w, Call(Enter(w), act))
  }

  /** A step at either end. */
  function Step(w: World, first: bool, act: Act): World
    requires Formed(w) && Enabled(if first then w else Mirror(w), act)
  {
    if first then StepA(w, act) else Mirror(StepA(Mirror(w), act))
  }

  // ---- what the commands in flight say ----

  /** Nothing follows an acknowledgement; no hiccup and no second request follow a request. */
  predicate Ordered(cmds: seq<Cmd>) {
    forall i, j :: 0 <= i < j < |cmds| ==> InOrder(cmds[i], cmds[j])
  }

  predicate InOrder(c: Cmd, d: Cmd) {
    && c != PipeTermAck
    && (c == PipeTerm ==> d != PipeTerm && !d.Hiccup?)
  }

  predicate NoHiccup(cmds: seq<Cmd>) {
    forall i :: 0 <= i < |cmds| ==> !cmds[i].Hiccup?
  }

  /** What the sender `s` has sent and what the receiver `r` has seen of it. */
  predicate Talk(s: Side, r: Side) {
    && (PipeTerm in r.box <==> s.e.SentTerm() && !r.e.GotTerm())
    && (PipeTermAck in r.box <==> s.e.SentAck() && r.e.alive)
    && Ordered(r.box) && Ordered(s.log)
    && (PipeTerm in s.log <==> s.e.SentTerm())
    && (PipeTermAck in s.log <==> s.e.SentAck())
    && (!r.e.alive ==> s.e.SentAck() && r.box == [])
    && (r.e.GotTerm() ==> s.e.SentTerm() && NoHiccup(r.box))
    && (s.e.hasOut <==> !s.e.SentAck())
    && (s.e.SentAck() ==> s.e.GotTerm() || (!s.e.alive && s.e.state == TermReqSent1 && r.e.GotTerm()))
    && (!s.e.alive ==> s.e.SentTerm() || s.e.state == TermAckSent)
  }

  /** How a step of `v` that takes the commands `got` may change it. */
  predicate Moves(v: Env, v': Env, got: seq<Cmd>) {
    && Ordered(v'.out) && NoHiccup(v'.out)
    && (PipeTerm in v'.out ==> !v.e.SentTerm())
    && (v'.e.SentTerm() <==> v.e.SentTerm() || PipeTerm in v'.out)
    && (v.e.SentAck() ==> v'.e.SentAck() && v'.out == [])
    && (PipeTermAck in v'.out <==> v'.e.SentAck() && !v.e.SentAck())
    && (v'.e.GotTerm() <==> v.e.GotTerm() || PipeTerm in got)
    && (v'.e.alive <==> PipeTermAck !in got)
    && (v'.e.hasOut <==> !v'.e.SentAck())
    && (v'.e.SentAck() && !v.e.SentAck() ==> v'.e.GotTerm() || (PipeTermAck in got && v'.e.state == TermReqSent1))
    && (!v'.e.alive ==> v'.e.SentTerm() || v'.e.state == TermAckSent)
  }

  /** What the commands `got` may rely on. */
  predicate MayTake(v: Env, got: seq<Cmd>) {
    && |got| <= 1 && NoHiccup(got)
    && (PipeTerm in got ==> !v.e.GotTerm())
    && (PipeTermAck in got ==> v.e.SentTerm() || v.e.state == TermAckSent)
  }

  predicate Ready(v: Env) {
    v.Ok() && v.ok && v.e.alive && v.out == [] && (v.e.hasOut <==> !v.e.SentAck())
  }

  /** How a step may change the queues of its end. */
  predicate KeepsQueues(v: Env, v': Env) {
    && v'.i.Ok() && v'.o.Ok() && Unfinished(v'.o)
    && v'.i.frames == v.i.frames && v'.i.fin == v.i.fin
    && (!v.e.hasOut ==> v'.o == v.o)
  }

  lemma TerminateWaitingMoves(v: Env, delay: bool)
    requires Ready(v) && v.e.state == WaitingForDelimiter
    ensures var v' := PipeEnd.Terminate(v, delay); v'.ok && Moves(v, v', []) && KeepsQueues(v, v')
  {
  }

  lemma TerminateMoves(v: Env, delay: bool)
    requires Ready(v)
    ensures var v' := PipeEnd.Terminate(v, delay); v'.ok && Moves(v, v', []) && KeepsQueues(v, v')
  {
    if v.e.state == WaitingForDelimiter {
      TerminateWaitingMoves(v, delay);
    }
  }

  lemma ReadMoves(v: Env)
    requires Ready(v)
    ensures var v' := PipeEnd.Read(v).0; v'.ok && Moves(v, v', []) && KeepsQueues(v, v')
  {
  }

  lemma CallMoves(v: Env, act: Act)
    requires Ready(v)
    ensures var v' := Call(v, act); v'.ok && Moves(v, v', []) && KeepsQueues(v, v')
  {
    match act
    case Terminate(delay) => TerminateMoves(v, delay);
    case Read => ReadMoves(v);
    case _ =>
  }

  lemma HandleMoves(v: Env, c: Cmd)
    requires Ready(v) && MayTake(v, [c])
    ensures var v' := Handle(v, c); v'.ok && Moves(v, v', [c]) && KeepsQueues(v, v')
  {
  }

  lemma OrderedAppend(x: seq<Cmd>, y: seq<Cmd>)
    requires Ordered(x) && Ordered(y)
    requires forall c, d :: c in x && d in y ==> InOrder(c, d)
    ensures Ordered(x + y)
  {
    forall i, j | 0 <= i < j < |x + y| ensures InOrder((x + y)[i], (x + y)[j]) {
      if i < |x| <= j { assert x[i] in x && y[j - |x|] in y; }
    }
  }

  lemma OrderedRest(got: seq<Cmd>, rest: seq<Cmd>)
    requires Ordered(got + rest)
    ensures Ordered(rest)
    ensures forall c, d :: c in got && d in rest ==> InOrder(c, d)
  {
    PairwiseSplit(InOrder, got, rest);
  }

  lemma NoHiccupRest(got: seq<Cmd>, rest: seq<Cmd>)
    ensures NoHiccup(got + rest) ==> NoHiccup(rest)
    ensures PipeTerm in got && (forall c, d :: c in got && d in rest ==> InOrder(c, d)) ==> NoHiccup(rest)
  {
    if NoHiccup(got + rest) {
      forall i | 0 <= i < |rest| ensures !rest[i].Hiccup? { assert rest[i] == (got + rest)[|got| + i]; }
    }
    if PipeTerm in got && forall c, d :: c in got && d in rest ==> InOrder(c, d) {
      forall i | 0 <= i < |rest| ensures !rest[i].Hiccup? { assert rest[i] in rest && InOrder(PipeTerm, rest[i]); }
    }
  }

  /** A step of `s` keeps the talk from `s` to `r`. */
  lemma SendKeepsTalk(s: Side, r: Side, v: Env, v': Env, got: seq<Cmd>, rest: seq<Cmd>)
    requires Talk(s, r) && Talk(r, s) && s.box == got + rest && s.e == v.e && s.e.alive
    requires MayTake(v, got) && Moves(v, v', got)
    ensures v'.out != [] ==> r.e.alive
    ensures Talk(s.(e := v'.e, log := s.log + v'.out, box := rest), r.(box := r.box + v'.out))
  {
    forall c, d | c in r.box && d in v'.out ensures InOrder(c, d) {}
    forall c, d | c in s.log && d in v'.out ensures InOrder(c, d) {}
    OrderedAppend(r.box, v'.out);
    OrderedAppend(s.log, v'.out);
  }

  /** A step of `s` that takes `got` from its box keeps the talk from `r` to `s`. */
  lemma TakeKeepsTalk(s: Side, r: Side, v: Env, v': Env, got: seq<Cmd>, rest: seq<Cmd>)
    requires Talk(s, r) && Talk(r, s) && s.box == got + rest && s.e == v.e && s.e.alive
    requires MayTake(v, got) && Moves(v, v', got)
    ensures Talk(r.(box := r.box + v'.out), s.(e := v'.e, log := s.log + v'.out, box := rest))
  {
    OrderedRest(got, rest);
    NoHiccupRest(got, rest);
    forall c ensures c in s.box <==> c in got || c in rest {}
    forall c | c in got && rest != [] ensures c != PipeTermAck { assert rest[0] in rest; }
  }

  // ---- who uses which queue ----

  /** The queues announced by the hiccups in a box, oldest first. */
  function Hiccups(box: seq<Cmd>): seq<nat> {
    if box == [] then [] else (if box[0].Hiccup? then [box[0].pipe] else []) + Hiccups(box[1..])
  }

  lemma {:induction false} HiccupsAppend(x: seq<Cmd>, y: seq<Cmd>)
    ensures Hiccups(x + y) == Hiccups(x) + Hiccups(y)
  {
    if x == [] {
      assert x + y == y;
    } else {
      assert (x + y)[1..] == x[1..] + y && (x + y)[0] == x[0];
      HiccupsAppend(x[1..], y);
    }
  }

  lemma {:induction false} HiccupsNone(x: seq<Cmd>)
    requires NoHiccup(x)
    ensures Hiccups(x) == []
  {
    if x != [] { HiccupsNone(x[1..]); }
  }

  /** The queues from writer `s` to reader `r` that are not freed: the one `s`
      writes to and the ones that will replace it.  The last is the one `r` reads. */
  function Live(s: Side, r: Side): seq<nat> {
    if s.e.hasOut then [s.outId] + Hiccups(s.box) else if r.e.alive then [r.inId] else []
  }

  predicate Distinct(ids: seq<nat>) {
    forall i, j :: 0 <= i < j < |ids| ==> ids[i] != ids[j]
  }

  predicate Line(s: Side, r: Side) {
    Distinct(Live(s, r)) && (s.e.hasOut ==> Live(s, r)[|Live(s, r)| - 1] == r.inId)
  }

  /** Exactly the queues in use are not freed, and none is used for both directions. */
  ghost predicate Owned(w: World) {
    && (forall id :: id in w.freed ==> id < |w.qs|)
    && (forall id :: !(id in Live(w.a, w.b) && id in Live(w.b, w.a)))
    && (forall id: nat :: id in Live(w.a, w.b) || id in Live(w.b, w.a) <==> id < |w.qs| && id !in w.freed)
  }

  /** The queues still to be plugged in are unused. */
  predicate Unused(box: seq<Cmd>, qs: seq<FrameQueue>) {
    forall id :: id in Hiccups(box) ==> id < |qs| && qs[id].frames == []
  }

  /** What holds in every world that can be reached. */
  ghost predicate Inv(w: World) {
    && Formed(w) && w.ok && Talk(w.a, w.b) && Talk(w.b, w.a) && Line(w.a, w.b) && Line(w.b, w.a) && Owned(w)
    && Unused(w.a.box, w.qs) && Unused(w.b.box, w.qs)
  }

  lemma InitInv(hwm0: int, hwm1: int)
    ensures Inv(NewPair(hwm0, hwm1))
  {
  }

  lemma MirrorInv(w: World)
    ensures Inv(w) ==> Inv(Mirror(w))
  {
  }

  /** No hiccup is on its way to an end that has acknowledged. */
  lemma NoneAfterAck(s: Side, r: Side)
    requires Talk(s, r) && Talk(r, s) && s.e.SentAck()
    ensures NoHiccup(s.box)
  {
  }

  /** Giving up the outbound queue leaves it to its reader. */
  lemma SendKeepsLive(s: Side, r: Side, s': Side, r': Side)
    requires Line(s, r) && s'.outId == s.outId && r'.inId == r.inId && r'.e == r.e
    requires Hiccups(s'.box) == Hiccups(s.box) && (s'.e.hasOut ==> s.e.hasOut)
    requires s.e.hasOut && !s'.e.hasOut ==> Hiccups(s.box) == [] && r.e.alive
    ensures Live(s', r') == Live(s, r) && Line(s', r')
  {
  }

  /** An end that dies gives up its inbound queue. */
  lemma TakeKeepsLive(s: Side, r: Side, s': Side, r': Side)
    requires Line(r, s) && r'.outId == r.outId && s'.inId == s.inId && r'.e == r.e && s.e.alive
    requires Hiccups(r'.box) == Hiccups(r.box) && (!s'.e.alive ==> !r.e.hasOut)
    ensures Live(r', s') == (if s'.e.alive then Live(r, s) else []) && Line(r', s')
    ensures !s'.e.alive ==> Live(r, s) == [s.inId]
  {
  }

  lemma LiveKept(s: Side, r: Side, v: Env, v': Env, got: seq<Cmd>, rest: seq<Cmd>)
    requires Talk(s, r) && Talk(r, s) && s.box == got + rest && s.e == v.e && s.e.alive
    requires MayTake(v, got) && Moves(v, v', got) && Line(s, r) && Line(r, s)
    ensures var s', r' := s.(e := v'.e, log := s.log + v'.out, box := rest), r.(box := r.box + v'.out);
            && Live(s', r') == Live(s, r) && Line(s', r') && Line(r', s')
            && Live(r', s') == (if v'.e.alive then Live(r, s) else [])
            && (!v'.e.alive ==> Live(r, s) == [s.inId])
            && Hiccups(rest) == Hiccups(s.box) && Hiccups(r'.box) == Hiccups(r.box)
  {
    var s', r' := s.(e := v'.e, log := s.log + v'.out, box := rest), r.(box := r.box + v'.out);
    SendKeepsTalk(s, r, v, v', got, rest);
    TakeKeepsTalk(s, r, v, v', got, rest);
    HiccupsAppend(got, rest);
    HiccupsNone(got);
    HiccupsAppend(r.box, v'.out);
    HiccupsNone(v'.out);
    if v'.e.SentAck() {
      NoneAfterAck(s', r');
      HiccupsNone(rest);
    }
    SendKeepsLive(s, r, s', r');
    TakeKeepsLive(s, r, s', r');
  }

  lemma InUse(w: World)
    requires Inv(w) && w.a.e.alive
    ensures w.a.inId in Live(w.b, w.a) && w.a.inId !in w.freed
    ensures w.a.e.hasOut ==> w.a.outId in Live(w.a, w.b) && w.a.outId !in w.freed && w.a.outId != w.a.inId
  {
    assert w.b.e.hasOut ==> w.a.inId == Live(w.b, w.a)[|Live(w.b, w.a)| - 1];
    assert w.a.e.hasOut ==> w.a.outId == Live(w.a, w.b)[0];
  }

  lemma OwnedKept(w: World, w': World)
    requires Owned(w) && Live(w'.a, w'.b) == Live(w.a, w.b) && |w'.qs| == |w.qs|
    requires if w'.a.e.alive then Live(w'.b, w'.a) == Live(w.b, w.a) && w'.freed == w.freed
             else Live(w'.b, w'.a) == [] && Live(w.b, w.a) == [w.a.inId] && w'.freed == w.freed + {w.a.inId}
    requires Live(w.b, w.a) == [w.a.inId] ==> w.a.inId < |w.qs|
    ensures Owned(w')
  {
  }

  /** Neither direction's waiting queues are touched by a step of `a`. */
  lemma UnusedKept(w: World, v': Env, qs: seq<FrameQueue>)
    requires Inv(w) && w.a.e.alive && KeepsQueues(Enter(w), v')
    requires qs == (if w.a.e.hasOut then w.qs[w.a.outId := v'.o] else w.qs)[w.a.inId := v'.i]
    ensures Unused(w.a.box, qs) && Unused(w.b.box, qs)
  {
    InUse(w);
    forall id | id in Hiccups(w.a.box) ensures id < |qs| && qs[id].frames == [] {
      if !w.a.e.hasOut {
        NoneAfterAck(w.a, w.b);
        HiccupsNone(w.a.box);
      }
      var k :| 0 <= k < |Hiccups(w.a.box)| && Hiccups(w.a.box)[k] == id;
      assert Live(w.a, w.b)[k + 1] == id && Live(w.a, w.b)[0] == w.a.outId;
    }
    forall id | id in Hiccups(w.b.box) ensures id < |qs| && qs[id].frames == [] {
      if !w.b.e.hasOut {
        NoneAfterAck(w.b, w.a);
        HiccupsNone(w.b.box);
      }
      var k :| 0 <= k < |Hiccups(w.b.box)| && Hiccups(w.b.box)[k] == id;
      assert Live(w.b, w.a)[k + 1] == id;
    }
  }

  lemma FormedKept(w: World, v': Env, got: seq<Cmd>, rest: seq<Cmd>)
    requires Formed(w) && w.a.box == got + rest && KeepsQueues(Enter(w), v') && NoHiccup(v'.out)
    ensures BoxFormed(rest, |w.qs|) && Formed(Leave(w.(a := w.a.(box := rest)), v'))
  {
    assert forall i :: 0 <= i < |rest| ==> rest[i] == w.a.box[|got| + i];
  }

  lemma LeaveKeeps(w: World, v': Env, got: seq<Cmd>, rest: seq<Cmd>)
    requires Inv(w) && w.a.e.alive && w.a.box == got + rest
    requires MayTake(Enter(w), got) && Moves(Enter(w), v', got) && KeepsQueues(Enter(w), v') && v'.ok
    ensures BoxFormed(rest, |w.qs|) && Inv(Leave(w.(a := w.a.(box := rest)), v'))
  {
    var v := Enter(w);
    FormedKept(w, v', got, rest);
    var w' := Leave(w.(a := w.a.(box := rest)), v');
    SendKeepsTalk(w.a, w.b, v, v', got, rest);
    TakeKeepsTalk(w.a, w.b, v, v', got, rest);
    LiveKept(w.a, w.b, v, v', got, rest);
    InUse(w);
    OwnedKept(w, w');
    UnusedKept(w, v', w'.qs);
  }

  lemma DistinctSnoc(ids: seq<nat>, id: nat)
    requires Distinct(ids) && id !in ids
    ensures Distinct(ids + [id]) && forall x :: x in ids + [id] <==> x in ids || x == id
  {
  }

  lemma DistinctTail(id: nat, ids: seq<nat>)
    requires Distinct([id] + ids)
    ensures Distinct(ids) && id !in ids && forall x :: x in [id] + ids <==> x in ids || x == id
  {
    forall i, j | 0 <= i < j < |ids| ensures ids[i] != ids[j] {
      assert ([id] + ids)[i + 1] != ([id] + ids)[j + 1];
    }
    forall i | 0 <= i < |ids| ensures id != ids[i] {
      assert ([id] + ids)[0] != ([id] + ids)[i + 1];
    }
  }

  lemma NewInboundTalk(w: World)
    requires Inv(w) && w.a.e.alive && w.a.e.state == State.Active
    ensures var w' := NewInbound(w); Talk(w'.a, w'.b) && Talk(w'.b, w'.a)
    ensures w.b.e.hasOut && w.b.e.alive
    ensures NewInbound(w).b.box == w.b.box + [Cmd.Hiccup(|w.qs|)]
  {
    var out := [Cmd.Hiccup(|w.qs|)];
    OrderedAppend(w.b.box, out);
    OrderedAppend(w.a.log, out);
  }

  /** End `a` starts a hiccup. */
  lemma NewInboundKeeps(w: World)
    requires Inv(w) && w.a.e.alive && w.a.e.state == State.Active
    ensures Inv(NewInbound(w))
  {
    var w' := NewInbound(w);
    var out := [Cmd.Hiccup(|w.qs|)];
    NewInboundTalk(w);
    HiccupsAppend(w.b.box, out);
    assert Hiccups(out) == [|w.qs|] by { assert out[1..] == []; }
    InUse(w);
    DistinctSnoc(Live(w.b, w.a), |w.qs|);
    assert Live(w'.b, w'.a) == Live(w.b, w.a) + [|w.qs|];
    NewInboundFormed(w);
  }

  lemma NewInboundFormed(w: World)
    requires Inv(w) && w.a.e.alive && w.a.e.state == State.Active && w.b.e.hasOut
    ensures var w' := NewInbound(w); Formed(w') && Unused(w'.a.box, w'.qs) && Unused(w'.b.box, w'.qs)
  {
    var out := [Cmd.Hiccup(|w.qs|)];
    HiccupsAppend(w.b.box, out);
    assert Hiccups(out) == [|w.qs|] by { assert out[1..] == []; }
    assert NewInbound(w).b.box == w.b.box + out;
  }

  /** End `a` takes up the queue of a hiccup of `b`. */
  lemma NewOutboundKeeps(w: World)
    requires Inv(w) && w.a.box != [] && w.a.box[0].Hiccup?
    ensures Inv(NewOutbound(Taken(w), w.a.box[0].pipe))
  {
    NewOutboundTalk(w);
    NewOutboundLive(w);
    NewOutboundFormed(w);
    InUse(w);
  }

  lemma NewOutboundLive(w: World)
    requires Inv(w) && w.a.box != [] && w.a.box[0].Hiccup? && w.a.e.hasOut
    ensures var w' := NewOutbound(Taken(w), w.a.box[0].pipe);
            && Live(w'.b, w'.a) == Live(w.b, w.a) && Line(w'.a, w'.b) && Line(w'.b, w'.a) && Owned(w')
  {
    var w' := NewOutbound(Taken(w), w.a.box[0].pipe);
    assert w'.a.e.hasOut && w'.b == w.b;
    LineWithout(w.a, w'.a, w.b);
    assert Live(w'.b, w'.a) == Live(w.b, w.a);
    OwnedWithout(w, w');
  }

  lemma LineWithout(s: Side, s': Side, r: Side)
    requires Line(s, r) && s.e.hasOut && s'.e.hasOut && s.box != [] && s.box[0].Hiccup? && s'.outId == s.box[0].pipe
        && s'.box == s.box[1..]
    ensures Live(s, r) == [s.outId] + Live(s', r) && s.outId !in Live(s', r) && Line(s', r)
  {
    var ids, ids' := Live(s, r), Live(s', r);
    assert ids == [s.outId] + ids';
    DistinctTail(s.outId, ids');
    assert ids[|ids| - 1] == ids'[|ids'| - 1];
  }

  /** A queue that goes out of use is freed. */
  lemma OwnedWithout(w: World, w': World)
    requires Owned(w) && Live(w.a, w.b) == [w.a.outId] + Live(w'.a, w'.b) && w.a.outId !in Live(w'.a, w'.b)
    requires Live(w'.b, w'.a) == Live(w.b, w.a) && w'.freed == w.freed + {w.a.outId} && |w'.qs| == |w.qs|
        && w.a.outId < |w.qs|
    ensures Owned(w')
  {
    assert forall id :: id in Live(w.a, w.b) <==> id == w.a.outId || id in Live(w'.a, w'.b);
    assert w.a.outId in Live(w.a, w.b);
  }

  lemma NewOutboundFormed(w: World)
    requires Inv(w) && w.a.box != [] && w.a.box[0].Hiccup?
    ensures var w' := NewOutbound(Taken(w), w.a.box[0].pipe);
            Formed(w') && Unused(w'.a.box, w'.qs) && Unused(w'.b.box, w'.qs)
  {
    var box := w.a.box;
    assert forall i :: 0 <= i < |box[1..]| ==> box[1..][i] == box[i + 1];
    assert Hiccups(box) == [box[0].pipe] + Hiccups(box[1..]);
    assert forall id :: id in Hiccups(box[1..]) ==> id in Hiccups(box);
  }

  lemma NewOutboundTalk(w: World)
    requires Inv(w) && w.a.box != [] && w.a.box[0].Hiccup?
    ensures var w' := NewOutbound(Taken(w), w.a.box[0].pipe); Talk(w'.a, w'.b) && Talk(w'.b, w'.a)
    ensures w.a.e.hasOut && w.a.e.alive
    ensures BoxFormed(w.a.box[1..], |w.qs|)
  {
    assert w.a.box == w.a.box[..1] + w.a.box[1..];
    OrderedRest(w.a.box[..1], w.a.box[1..]);
    NoHiccupRest(w.a.box[..1], w.a.box[1..]);
    assert !NoHiccup(w.a.box);
    assert w.a.e.hasOut by { if w.a.e.SentAck() { NoneAfterAck(w.a, w.b); } }
  }

  /** The next command finds its end in a state that expects it. */
  lemma Expected(w: World)
    requires Inv(w) && w.a.box != [] && !w.a.box[0].Hiccup?
    ensures Ready(Enter(w)) && MayTake(Enter(w), [w.a.box[0]])
  {
    assert w.a.box[0] in w.a.box;
  }

  predicate IsHiccup(w: World, act: Act) {
    act.Hiccup? || (act.Deliver? && w.a.box != [] && w.a.box[0].Hiccup?)
  }

  function Outcome(w: World, act: Act): Env
    requires Formed(w) && Enabled(w, act)
  {
    if act.Deliver? then Handle(Enter(w), w.a.box[0]) else Call(Enter(w), act)
  }

  function Got(w: World, act: Act): seq<Cmd>
    requires Enabled(w, act)
  {
    if act.Deliver? then [w.a.box[0]] else []
  }

  function Rest(w: World, act: Act): seq<Cmd>
    requires Enabled(w, act)
  {
    if act.Deliver? then w.a.box[1..] else w.a.box
  }

  /** A step other than a hiccup concerns the end and its two queues only. */
  lemma Ordinary(w: World, act: Act)
    requires Inv(w) && Enabled(w, act) && !IsHiccup(w, act)
    ensures var v, v' := Enter(w), Outcome(w, act);
            Ready(v) && v'.ok && MayTake(v, Got(w, act)) && Moves(v, v', Got(w, act)) && KeepsQueues(v, v')
    ensures w.a.box == Got(w, act) + Rest(w, act)
  {
    if act.Deliver? {
      Expected(w);
      HandleMoves(Enter(w), w.a.box[0]);
    } else {
      CallMoves(Enter(w), act);
    }
  }

  lemma StepIsLeave(w: World, act: Act)
    requires Inv(w) && Enabled(w, act) && !IsHiccup(w, act)
    ensures Formed(w.(a := w.a.(box := Rest(w, act))))
    ensures StepA(w, act) == Leave(w.(a := w.a.(box := Rest(w, act))), Outcome(w, act))
  {
    assert w.(a := w.a.(box := w.a.box)) == w;
  }

  lemma HiccupKeeps(w: World, act: Act)
    requires Inv(w) && Enabled(w, act) && IsHiccup(w, act)
    ensures Inv(StepA(w, act))
  {
    if act.Hiccup? {
      if w.a.e.state == State.Active { NewInboundKeeps(w); }
    } else {
      NewOutboundKeeps(w);
    }
  }

  /** Every step keeps the invariant: no assertion of the source fails, no freed
      queue is touched and no command goes to or is delivered to an end that is gone. */
  lemma StepKeeps(w: World, act: Act)
    requires Inv(w) && Enabled(w, act)
    ensures Inv(StepA(w, act))
  {
    if IsHiccup(w, act) {
      HiccupKeeps(w, act);
    } else {
      Ordinary(w, act);
      StepIsLeave(w, act);
      LeaveKeeps(w, Outcome(w, act), Got(w, act), Rest(w, act));
    }
  }

  /** A run: which end acts, and what happens there. */
  datatype Event = Event(first: bool, act: Act)

  /** The events `evs` lead from `w` to `w'`. */
  ghost predicate Run(w: World, evs: seq<Event>, w': World)
    decreases |evs|
  {
    if evs == [] then w' == w
    else
      && Formed(w) && Enabled(if evs[0].first then w else Mirror(w), evs[0].act)
      && Run(Step(w, evs[0].first, evs[0].act), evs[1..], w')
  }

  lemma EventKeeps(w: World, ev: Event)
    requires Inv(w) && Enabled(if ev.first then w else Mirror(w), ev.act)
    ensures Inv(Step(w, ev.first, ev.act))
  {
    if ev.first {
      StepKeeps(w, ev.act);
    } else {
      MirrorInv(w);
      StepKeeps(Mirror(w), ev.act);
      MirrorInv(StepA(Mirror(w), ev.act));
    }
  }

  lemma {:induction false} RunKeeps(w: World, evs: seq<Event>, w': World)
    requires Inv(w) && Run(w, evs, w')
    ensures Inv(w')
    decreases |evs|
  {
    if evs != [] {
      EventKeeps(w, evs[0]);
      RunKeeps(Step(w, evs[0].first, evs[0].act), evs[1..], w');
    }
  }

  predicate AtMostOnce(c: Cmd, cmds: seq<Cmd>) {
    forall i, j :: 0 <= i < j < |cmds| ==> !(cmds[i] == c && cmds[j] == c)
  }

  /** The safety of closing a pipe, in every interleaving and with hiccups. */
  lemma {:induction false} CloseSafety(hwm0: int, hwm1: int, evs: seq<Event>, w: World)
    requires Run(NewPair(hwm0, hwm1), evs, w)
    ensures w.ok
    ensures AtMostOnce(PipeTerm, w.a.log) && AtMostOnce(PipeTerm, w.b.log)
    ensures forall i :: 0 <= i < |w.a.log| - 1 ==> w.a.log[i] != PipeTermAck
    ensures forall i :: 0 <= i < |w.b.log| - 1 ==> w.b.log[i] != PipeTermAck
    ensures !w.a.e.alive ==> PipeTermAck in w.a.log && PipeTermAck in w.b.log && w.a.box == []
    ensures !w.b.e.alive ==> PipeTermAck in w.a.log && PipeTermAck in w.b.log && w.b.box == []
    ensures !w.a.e.alive && !w.b.e.alive ==> forall id :: 0 <= id < |w.qs| <==> id in w.freed
  {
    InitInv(hwm0, hwm1);
    RunKeeps(NewPair(hwm0, hwm1), evs, w);
    forall i | 0 <= i < |w.a.log| - 1 ensures w.a.log[i] != PipeTermAck { assert InOrder(w.a.log[i], w.a.log[i + 1]); }
    forall i | 0 <= i < |w.b.log| - 1 ensures w.b.log[i] != PipeTermAck { assert InOrder(w.b.log[i], w.b.log[i + 1]); }
    forall i, j | 0 <= i < j < |w.a.log| ensures InOrder(w.a.log[i], w.a.log[j]) {}
    forall i, j | 0 <= i < j < |w.b.log| ensures InOrder(w.b.log[i], w.b.log[j]) {}
  }

  /** A queue is freed only when its writer no longer has it, and an end that still
      writes to a queue or reads from one has not had it freed. */
  lemma {:induction false} NotFreedInUse(hwm0: int, hwm1: int, evs: seq<Event>, w: World)
    requires Run(NewPair(hwm0, hwm1), evs, w)
    ensures w.a.e.hasOut ==> w.a.outId !in w.freed && w.a.outId != w.a.inId
    ensures w.b.e.hasOut ==> w.b.outId !in w.freed && w.b.outId != w.b.inId
    ensures w.a.e.alive ==> w.a.inId !in w.freed
    ensures w.b.e.alive ==> w.b.inId !in w.freed
    ensures w.a.inId in w.freed ==> !w.b.e.hasOut || w.b.outId != w.a.inId
  {
    InitInv(hwm0, hwm1);
    RunKeeps(NewPair(hwm0, hwm1), evs, w);
    if w.a.e.alive { InUse(w); }
    MirrorInv(w);
    if w.b.e.alive { InUse(Mirror(w)); }
  }
}
