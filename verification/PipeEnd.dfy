/**
 One end of a pipe pair as a value: its fields, its two queues and the commands
 it has sent.  The class in Pipe.dfy is proved against these functions, and the
 protocol between the two ends in PipePair.dfy is a state machine over them.
 */
module PipeEnd {
  import opened Wrappers
  import opened YPipe

  datatype Kind = Data | RoutingId | Credential | Delimiter

  datatype Frame = Frame(kind: Kind, more: bool, body: int)

  const DELIMITER: Frame := Frame(Delimiter, false, 0)

  type FrameQueue = Queue<Frame>

  /** The commands one end sends to the other.  A hiccup carries the address of
      the sender's new inbound queue. */
  datatype Cmd = ActivateRead | ActivateWrite(msgsRead: nat) | Hiccup(pipe: nat) | PipeTerm | PipeTermAck

  datatype State = Active | DelimiterReceived | WaitingForDelimiter | TermAckSent | TermReqSent1 | TermReqSent2

  /** The fields of an end.  The last three are history: whether the object still
      exists, what `read` has returned, and whether `delay` was ever false. */
  datatype End = End(state: State, inActive: bool, outActive: bool, hasOut: bool, hwm: int, lwm: int,
                     msgsRead: nat, msgsWritten: int, peersMsgsRead: nat, delay: bool,
                     alive: bool, delivered: seq<Frame>, hasty: bool) {
    /** The states in which the end reads. */
    predicate Reading() {
      state == Active || state == WaitingForDelimiter
    }

    predicate SentTerm() {
      state == TermReqSent1 || state == TermReqSent2
    }

    predicate GotTerm() {
      state == WaitingForDelimiter || state == TermAckSent || state == TermReqSent2
    }

    predicate SentAck() {
      state == TermAckSent || state == TermReqSent2 || !alive
    }

    /** The counters are 64 bits wide and so is their difference. */
    predicate CheckHwm() {
      !(hwm > 0 && (msgsWritten - peersMsgsRead) % 0x1_0000_0000_0000_0000 >= hwm)
    }
  }

  /** An end with its inbound and outbound queue and its sent commands; `ok` says
      that no assertion of the source has failed. */
  datatype Env = Env(e: End, i: FrameQueue, o: FrameQueue, out: seq<Cmd>, ok: bool) {
    predicate Ok() {
      i.Ok() && o.Ok() && Unfinished(o)
    }
  }

  /** What is written and not complete is to be continued. */
  predicate Unfinished(q: FrameQueue) {
    forall k :: q.fin <= k < |q.frames| ==> q.frames[k].more
  }

  /** An `int` of 32 bits, in which an overflow wraps around. */
  function Int32(n: int): int {
    (n + 0x8000_0000) % 0x1_0000_0000 - 0x8000_0000
  }

  /** Half the high water mark, rounded towards zero as the source's division does. */
  function ComputeLwm(hwm: int): int {
    var n := Int32(hwm + 1);
    if n >= 0 then n / 2 else -(-n / 2)
  }

  function NewEnd(inHwm: int, outHwm: int): End {
    End(Active, true, true, true, outHwm, ComputeLwm(inHwm), 0, 0, 0, true, true, [], false)
  }

  function Send(v: Env, c: Cmd): Env {
    v.(out := v.out + [c])
  }

  /** The outbound queue is given up and the acknowledgement sent. */
  function Acked(v: Env): Env {
    Send(v.(e := v.e.(hasOut := false)), PipeTermAck)
  }

  function Rollback(v: Env): Env
    requires v.Ok()
  {
    if v.e.hasOut then v.(o := v.o.RolledBack()) else v
  }

  /** The unfinished message is dropped and the termination acknowledged. */
  function GiveUp(v: Env): Env
    requires v.Ok()
  {
    var v := Acked(Rollback(v));
    v.(e := v.e.(state := TermAckSent))
  }

  function AskPeer(v: Env): Env {
    Send(v, PipeTerm).(e := v.e.(state := TermReqSent1))
  }

  function Flush(v: Env): Env {
    if v.e.state == TermAckSent || !v.e.hasOut then v
    else
      var v' := v.(o := v.o.Flushed());
      if v.o.Wakes() then Send(v', ActivateRead) else v'
  }

  function ProcessDelimiter(v: Env): Env
    requires v.Ok()
  {
    var v := v.(ok := v.ok && v.e.Reading());
    if v.e.state == Active then v.(e := v.e.(state := DelimiterReceived))
    else GiveUp(v)
  }

  function CheckRead(v: Env): (Env, bool)
    requires v.Ok()
  {
    if !v.e.inActive || !v.e.Reading() then (v, false)
    else if v.i.rd == v.i.pub then (v.(i := v.i.Looked(), e := v.e.(inActive := false)), false)
    else if v.i.frames[v.i.rd].kind == Delimiter then (ProcessDelimiter(v.(i := v.i.Taken())), false)
    else (v, true)
  }

  /** The queue after the credentials at its front were taken. */
  function Skip(q: FrameQueue): (q': FrameQueue)
    requires q.Ok()
    ensures q'.Ok() && q'.frames == q.frames && q'.pub == q.pub && q'.fin == q.fin && q.rd <= q'.rd
    ensures q'.rd < q'.pub ==> q'.frames[q'.rd].kind != Credential && q'.asleep == q.asleep
    ensures forall k :: q.rd <= k < q'.rd ==> q.frames[k].kind == Credential
    decreases q.pub - q.rd
  {
    if q.rd < q.pub && q.frames[q.rd].kind == Credential then Skip(q.Taken()) else q
  }

  /** The frame completes a message that the counters count. */
  predicate Ends(m: Frame) {
    !m.more && m.kind != RoutingId
  }

  /** A frame is handed to the reader and counted. */
  function Deliver(v: Env, m: Frame): Env {
    var n := v.e.msgsRead + if Ends(m) then 1 else 0;
    var v := v.(e := v.e.(msgsRead := n, delivered := v.e.delivered + [m]));
    if v.e.lwm > 0 && n % v.e.lwm == 0 then Send(v, ActivateWrite(n)) else v
  }

  function Read(v: Env): (Env, Option<Frame>)
    requires v.Ok()
  {
    if !v.e.inActive || !v.e.Reading() then (v, None)
    else
      var q := Skip(v.i);
      if q.rd == q.pub then (v.(i := q.Looked(), e := v.e.(inActive := false)), None)
      else
        var m := q.frames[q.rd];
        var v := v.(i := q.Taken());
        if m.kind == Delimiter then (ProcessDelimiter(v), None) else (Deliver(v, m), Some(m))
  }

  function CheckWrite(v: Env): (Env, bool) {
    if !v.e.outActive || v.e.state != Active then (v, false)
    else if !v.e.CheckHwm() then (v.(e := v.e.(outActive := false)), false)
    else (v, true)
  }

  function Write(v: Env, m: Frame): (Env, bool) {
    var (v, yes) := CheckWrite(v);
    if !yes then (v, false)
    else (v.(o := v.o.Put(m, m.more), e := v.e.(msgsWritten := v.e.msgsWritten + if Ends(m) then 1 else 0)), true)
  }

  function SetNoDelay(v: Env): Env {
    v.(e := v.e.(delay := false, hasty := true))
  }

  /** Outbound traffic is stopped; the delimiter is written even if the queue is full. */
  function StopOutbound(v: Env): Env
    requires v.Ok()
  {
    var v := v.(e := v.e.(outActive := false));
    if !v.e.hasOut then v
    else
      var v := Rollback(v);
      Flush(v.(o := v.o.Put(DELIMITER, false)))
  }

  function Terminate(v: Env, delay: bool): Env
    requires v.Ok()
  {
    var v := v.(e := v.e.(delay := delay, hasty := v.e.hasty || !delay));
    match v.e.state
    case TermReqSent1 => v
    case TermReqSent2 => v
    case TermAckSent => v
    case Active => StopOutbound(AskPeer(v))
    case DelimiterReceived => StopOutbound(AskPeer(v))
    case WaitingForDelimiter =>
      if delay then StopOutbound(v)
      else StopOutbound(GiveUp(v))
  }

  function ProcessActivateRead(v: Env): Env {
    if !v.e.inActive && v.e.Reading() then v.(e := v.e.(inActive := true)) else v
  }

  function ProcessActivateWrite(v: Env, msgsRead: nat): Env {
    var v := v.(e := v.e.(peersMsgsRead := msgsRead));
    if !v.e.outActive && v.e.state == Active then v.(e := v.e.(outActive := true)) else v
  }

  function ProcessPipeTerm(v: Env): Env {
    match v.e.state
    case Active =>
      if v.e.delay then v.(e := v.e.(state := WaitingForDelimiter))
      else Acked(v.(e := v.e.(state := TermAckSent)))
    case DelimiterReceived => Acked(v.(e := v.e.(state := TermAckSent)))
    case TermReqSent1 => Acked(v.(e := v.e.(state := TermReqSent2)))
    case _ => v.(ok := false)
  }

  /** The end acknowledges if it still has to, empties its inbound queue and is gone. */
  function ProcessPipeTermAck(v: Env): Env {
    var v := if v.e.state == TermReqSent1 then Acked(v)
             else v.(ok := v.ok && (v.e.state == TermAckSent || v.e.state == TermReqSent2));
    v.(i := v.i.Drained(), e := v.e.(alive := false))
  }

  /** The end's own inbound queue is replaced; the peer will see to the old one. */
  function StartHiccup(v: Env, id: nat): Env {
    if v.e.state != Active then v
    else Send(v.(i := NewQueue(), e := v.e.(inActive := true)), Hiccup(id))
  }

  /** Frames that end a message, of whatever kind. */
  function Last(frames: seq<Frame>): nat {
    if frames == [] then 0 else Last(frames[..|frames| - 1]) + if frames[|frames| - 1].more then 0 else 1
  }

  /** The outbound queue is emptied by its writer and replaced by `q`. */
  function ProcessHiccup(v: Env, q: FrameQueue): Env
    requires v.Ok()
  {
    v.(ok := v.ok && v.e.hasOut, o := q,
       e := v.e.(msgsWritten := v.e.msgsWritten - Last(v.o.frames[v.o.rd..v.o.fin]), outActive := true))
  }
}
