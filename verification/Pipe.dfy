/**
 An end of a pipe pair as the object it is in the source, updated in place by
 the socket's calls and by the commands of its peer.  Every method is proved to
 do to the object's view what the function of the same name in PipeEnd does.
 The source's assertions are preconditions; PipePair shows that they hold.
 */
module Pipe {
  import opened Wrappers
  import opened YPipe
  import P = PipeEnd

  function AskedOrGivenUp(v: P.Env): P.Env
    requires v.Ok()
  {
    if v.e.state != P.WaitingForDelimiter then P.AskPeer(v) else if v.e.delay then v else P.GiveUp(v)
  }

  function Concluded(v: P.Env): P.Env
    requires v.Ok()
  {
    P.StopOutbound(AskedOrGivenUp(v))
  }

  lemma TerminateIs(v: P.Env, delay: bool)
    requires v.Ok() && (v.e.state == P.Active || v.e.state == P.DelimiterReceived || v.e.state == P.WaitingForDelimiter)
    ensures P.Terminate(v, delay) == Concluded(v.(e := v.e.(delay := delay, hasty := v.e.hasty || !delay)))
  {
  }

  class Pipe {
    var state: P.State
    var inPipe: YPipe<P.Frame>
    var outPipe: YPipe?<P.Frame>
    var inActive: bool
    var outActive: bool
    var hwm: int
    var lwm: int
    var msgsRead: nat
    var msgsWritten: int
    var peersMsgsRead: nat
    var delay: bool

    /** Commands sent to the peer. */
    var outbox: seq<P.Cmd>

    /** The outbound queue last used, what `read` has returned, whether `delay` was
        ever false, and whether the object still exists. */
    ghost var lastOut: YPipe<P.Frame>
    ghost var delivered: seq<P.Frame>
    ghost var hasty: bool
    ghost var alive: bool

    ghost predicate Valid()
      reads this, inPipe, lastOut
    {
      && inPipe != lastOut && inPipe.Valid() && lastOut.Valid()
      && (outPipe != null ==> outPipe == lastOut)
      && P.Unfinished(lastOut.View())
    }

    ghost function View(): P.Env
      reads this, inPipe, lastOut
    {
      P.Env(P.End(state, inActive, outActive, outPipe != null, hwm, lwm, msgsRead, msgsWritten, peersMsgsRead, delay,
                  alive, delivered, hasty),
            inPipe.View(), lastOut.View(), outbox, true)
    }

    /** The end keeps its queues. */
    twostate predicate SameQueues()
      reads this
    {
      inPipe == old(inPipe) && lastOut == old(lastOut)
    }

    constructor (inPipe: YPipe<P.Frame>, outPipe: YPipe<P.Frame>, inHwm: int, outHwm: int)
      requires inPipe != outPipe && inPipe.Valid() && outPipe.Valid() && P.Unfinished(outPipe.View())
      ensures Valid() && this.inPipe == inPipe && this.outPipe == outPipe
      ensures View() == P.Env(P.NewEnd(inHwm, outHwm), inPipe.View(), outPipe.View(), [], true)
    {
      state := P.Active;
      this.inPipe, this.outPipe := inPipe, outPipe;
      inActive, outActive := true, true;
      hwm, lwm := outHwm, P.ComputeLwm(inHwm);
      msgsRead, msgsWritten, peersMsgsRead := 0, 0, 0;
      delay := true;
      outbox := [];
      lastOut, delivered, hasty, alive := outPipe, [], false, true;
    }

    method Send(c: P.Cmd)
      requires Valid()
      modifies `outbox
      ensures Valid() && View() == P.Send(old(View()), c)
    {
      outbox := outbox + [c];
    }

    /** Drops what was written of an unfinished message. */
    method Rollback()
      requires Valid()
      modifies lastOut
      ensures Valid() && View() == P.Rollback(old(View()))
    {
      if outPipe != null {
        ghost var q := outPipe.View();
        while true
          invariant Valid() && q.fin <= |outPipe.View().frames| <= |q.frames|
          invariant outPipe.View() == q.(frames := q.frames[..|outPipe.View().frames|])
          decreases |outPipe.View().frames|
        {
          var msg := outPipe.Unwrite();
          if msg.None? {
            break;
          }
          assert msg.value.more;
        }
      }
    }

    method Flush()
      requires Valid()
      modifies lastOut, `outbox
      ensures Valid() && View() == P.Flush(old(View()))
    {
      if state == P.TermAckSent {
        return;
      }
      if outPipe != null {
        var awake := outPipe.Flush();
        if !awake {
          Send(P.ActivateRead);
        }
      }
    }

    method ProcessDelimiter()
      requires Valid() && View().e.Reading()
      modifies this, lastOut
      ensures Valid() && View() == P.ProcessDelimiter(old(View())) && SameQueues()
    {
      if state == P.Active {
        state := P.DelimiterReceived;
      } else {
        GiveUp();
      }
    }

    /** The unfinished message is dropped and the termination acknowledged. */
    method GiveUp()
      requires Valid()
      modifies `outPipe, `outbox, `state, lastOut
      ensures Valid() && outPipe == null
      ensures View() == P.GiveUp(old(View()))
    {
      Rollback();
      outPipe := null;
      Send(P.PipeTermAck);
      state := P.TermAckSent;
    }

    method CheckRead() returns (ready: bool)
      requires Valid()
      modifies this, inPipe, lastOut
      ensures Valid() && (View(), ready) == P.CheckRead(old(View())) && SameQueues()
    {
      if !inActive {
        return false;
      }
      if state != P.Active && state != P.WaitingForDelimiter {
        return false;
      }
      ready := inPipe.CheckRead();
      if !ready {
        inActive := false;
        return false;
      }
      if inPipe.queue[0].kind == P.Delimiter {
        var msg := inPipe.Read();
        ProcessDelimiter();
        return false;
      }
    }

    /** Reads on past credentials. */
    method ReadPast() returns (msg: Option<P.Frame>)
      requires Valid()
      modifies inPipe
      ensures Valid()
      ensures var q := P.Skip(old(inPipe.View()));
              if q.rd == q.pub then msg == None && inPipe.View() == q.Looked()
              else msg == Some(q.frames[q.rd]) && inPipe.View() == q.Taken()
    {
      while true
        invariant Valid() && P.Skip(inPipe.View()) == P.Skip(old(inPipe.View()))
        decreases inPipe.View().pub - inPipe.View().rd
      {
        msg := inPipe.Read();
        if msg.None? || msg.value.kind != P.Credential {
          break;
        }
      }
    }

    method Read() returns (msg: Option<P.Frame>)
      requires Valid()
      modifies this, inPipe, lastOut
      ensures Valid() && (View(), msg) == P.Read(old(View())) && SameQueues()
    {
      if !inActive {
        return None;
      }
      if state != P.Active && state != P.WaitingForDelimiter {
        return None;
      }
      msg := ReadPast();
      if msg.None? {
        inActive := false;
        return None;
      }
      if msg.value.kind == P.Delimiter {
        ProcessDelimiter();
        return None;
      }
      Deliver(msg.value);
    }

    /** The frame is counted and the writer told about every `lwm` messages. */
    method Deliver(msg: P.Frame)
      requires Valid()
      modifies `delivered, `msgsRead, `outbox
      ensures Valid() && View() == P.Deliver(old(View()), msg)
    {
      delivered := delivered + [msg];
      if !msg.more && msg.kind != P.RoutingId {
        msgsRead := msgsRead + 1;
      }
      if lwm > 0 && msgsRead % lwm == 0 {
        Send(P.ActivateWrite(msgsRead));
      }
    }

    method CheckWrite() returns (ok: bool)
      requires Valid()
      modifies `outActive
      ensures Valid() && (View(), ok) == P.CheckWrite(old(View()))
    {
      if !outActive || state != P.Active {
        return false;
      }
      var full := hwm > 0 && (msgsWritten - peersMsgsRead) % 0x1_0000_0000_0000_0000 >= hwm;
      if full {
        outActive := false;
        return false;
      }
      return true;
    }

    method Write(msg: P.Frame) returns (ok: bool)
      requires Valid() && (outPipe == null ==> state != P.Active)
      modifies `outActive, `msgsWritten, lastOut
      ensures Valid() && (View(), ok) == P.Write(old(View()), msg)
    {
      ok := CheckWrite();
      if !ok {
        return false;
      }
      outPipe.Write(msg, msg.more);
      if !msg.more && msg.kind != P.RoutingId {
        msgsWritten := msgsWritten + 1;
      }
    }

    method SetNoDelay()
      requires Valid()
      modifies `delay, `hasty
      ensures Valid() && View() == P.SetNoDelay(old(View()))
    {
      delay := false;
      hasty := true;
    }

    /** The end of `terminate`: no more messages, and the delimiter behind the last one. */
    method StopOutbound()
      requires Valid()
      modifies `outActive, `outbox, lastOut
      ensures Valid() && View() == P.StopOutbound(old(View()))
    {
      outActive := false;
      if outPipe != null {
        Rollback();
        outPipe.Write(P.DELIMITER, false);
        Flush();
      }
    }

    method AskPeer()
      requires Valid()
      modifies `outbox, `state
      ensures Valid() && View() == P.AskPeer(old(View()))
    {
      Send(P.PipeTerm);
      state := P.TermReqSent1;
    }

    /** What `terminate` tells the peer. */
    method AskOrGiveUp()
      requires Valid() && (state == P.Active || state == P.DelimiterReceived || state == P.WaitingForDelimiter)
      modifies this, lastOut
      ensures Valid() && SameQueues()
      ensures View() == AskedOrGivenUp(old(View()))
    {
      if state == P.Active {
        AskPeer();
      } else if state == P.WaitingForDelimiter && !delay {
        GiveUp();
      } else if state == P.WaitingForDelimiter {
      } else if state == P.DelimiterReceived {
        AskPeer();
      } else {
        assert false;
      }
    }

    method Terminate(delay: bool)
      requires Valid()
      modifies this, lastOut
      ensures Valid() && View() == P.Terminate(old(View()), delay) && SameQueues()
    {
      this.delay := delay;
      hasty := hasty || !delay;
      if state == P.TermReqSent1 || state == P.TermReqSent2 {
        return;
      }
      if state == P.TermAckSent {
        return;
      }
      TerminateIs(old(View()), delay);
      Conclude();
    }

    method Conclude()
      requires Valid() && (state == P.Active || state == P.DelimiterReceived || state == P.WaitingForDelimiter)
      modifies this, lastOut
      ensures Valid() && SameQueues() && View() == Concluded(old(View()))
    {
      AskOrGiveUp();
      StopOutbound();
    }

    method ProcessActivateRead()
      requires Valid()
      modifies `inActive
      ensures Valid() && View() == P.ProcessActivateRead(old(View()))
    {
      if !inActive && (state == P.Active || state == P.WaitingForDelimiter) {
        inActive := true;
      }
    }

    method ProcessActivateWrite(msgsRead: nat)
      requires Valid()
      modifies `peersMsgsRead, `outActive
      ensures Valid() && View() == P.ProcessActivateWrite(old(View()), msgsRead)
    {
      peersMsgsRead := msgsRead;
      if !outActive && state == P.Active {
        outActive := true;
      }
    }

    method ProcessPipeTerm()
      requires Valid() && (state == P.Active || state == P.DelimiterReceived || state == P.TermReqSent1)
      modifies this
      ensures Valid() && View() == P.ProcessPipeTerm(old(View())) && SameQueues()
    {
      if state == P.Active {
        if delay {
          state := P.WaitingForDelimiter;
        } else {
          state := P.TermAckSent;
          outPipe := null;
          Send(P.PipeTermAck);
        }
      } else if state == P.DelimiterReceived {
        state := P.TermAckSent;
        outPipe := null;
        Send(P.PipeTermAck);
      } else if state == P.TermReqSent1 {
        state := P.TermReqSent2;
        outPipe := null;
        Send(P.PipeTermAck);
      }
    }

    method ProcessPipeTermAck()
      requires Valid() && (state == P.TermReqSent1 || state == P.TermAckSent || state == P.TermReqSent2)
      modifies this, inPipe
      ensures Valid() && View() == P.ProcessPipeTermAck(old(View())) && SameQueues()
    {
      if state == P.TermReqSent1 {
        outPipe := null;
        Send(P.PipeTermAck);
      }
      Drain();
      alive := false;
    }

    /** The messages left in the inbound queue are closed. */
    method Drain()
      requires Valid()
      modifies inPipe
      ensures Valid() && inPipe.View() == old(inPipe.View()).Drained()
    {
      while true
        invariant Valid() && inPipe.View().Drained() == old(inPipe.View()).Drained()
        decreases inPipe.View().pub - inPipe.View().rd
      {
        var msg := inPipe.Read();
        if msg.None? {
          break;
        }
      }
    }

    method Hiccup(id: nat)
      requires Valid()
      modifies this
      ensures Valid() && View() == P.StartHiccup(old(View()), id)
      ensures lastOut == old(lastOut) && (inPipe == old(inPipe) || (fresh(inPipe) && inPipe.id == id))
    {
      if state != P.Active {
        return;
      }
      inPipe := new YPipe(id);
      inActive := true;
      Send(P.Hiccup(id));
    }

    /** The old outbound queue is flushed and emptied by its writer. */
    method DrainOut()
      requires Valid() && outPipe != null
      modifies `msgsWritten, lastOut
      ensures lastOut.Valid()
      ensures msgsWritten
          == old(msgsWritten) - P.Last(old(lastOut.View().frames[lastOut.View().rd..lastOut.View().fin]))
    {
      ghost var q := outPipe.View();
      var awake := outPipe.Flush();
      while true
        invariant outPipe.Valid() && q.rd <= outPipe.View().rd <= q.fin
        invariant outPipe.View().frames == q.frames && outPipe.View().pub == outPipe.View().fin == q.fin
        invariant msgsWritten == old(msgsWritten) - P.Last(q.frames[q.rd..outPipe.View().rd])
        decreases outPipe.View().pub - outPipe.View().rd
      {
        ghost var rd := outPipe.View().rd;
        var msg := outPipe.Read();
        if msg.None? {
          break;
        }
        if !msg.value.more {
          msgsWritten := msgsWritten - 1;
        }
        assert q.frames[q.rd..rd + 1][..|q.frames[q.rd..rd + 1]| - 1] == q.frames[q.rd..rd];
      }
    }

    /** The old outbound queue is dropped and `pipe` takes its place. */
    method ProcessHiccup(pipe: YPipe<P.Frame>)
      requires Valid() && outPipe != null
      requires pipe.Valid() && pipe != inPipe && pipe != lastOut && P.Unfinished(pipe.View())
      modifies this, lastOut
      ensures Valid() && View() == P.ProcessHiccup(old(View()), pipe.View())
      ensures inPipe == old(inPipe) && outPipe == pipe
    {
      DrainOut();
      outPipe := pipe;
      lastOut := pipe;
      outActive := true;
    }
  }
}
