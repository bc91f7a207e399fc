/**
 An object of the ownership tree as it is in the source, updated in place.  Every
 method is proved to do to the object's view what the function of the same name in
 OwnState does.  The source's assertions are preconditions; OwnTree shows that
 they hold.
 */
module Own {
  import opened Wrappers
  import S = OwnState

  class Own {
    const id: nat
    var owner: Option<nat>
    var terminating: bool
    var sentSeqnum: nat
    var processedSeqnum: nat
    var owned: set<nat>
    var termAcks: int

    /** Commands sent to other objects. */
    var outbox: seq<S.Msg>

    ghost var launching: Option<nat>
    ghost var asked: set<nat>
    ghost var gone: set<nat>
    ghost var alive: bool

    ghost function View(): S.Env
      reads this
    {
      S.Env(S.Obj(id, owner, terminating, sentSeqnum, processedSeqnum, owned, termAcks, launching, asked, gone, alive),
          outbox, true)
    }

    constructor (id: nat)
      ensures View() == S.Env(S.NewObj(id, None), [], true)
    {
      this.id := id;
      owner, terminating, sentSeqnum, processedSeqnum, owned, termAcks, outbox := None, false, 0, 0, {}, 0, [];
      launching, asked, gone, alive := None, {}, {}, true;
    }

    method SetOwner(owner: nat)
      requires this.owner.None?
      modifies `owner
      ensures this.owner == Some(owner)
    {
      this.owner := Some(owner);
    }

    method IncSeqnum()
      modifies `sentSeqnum
      ensures sentSeqnum == old(sentSeqnum) + 1
    {
      sentSeqnum := sentSeqnum + 1;
    }

    method SendCommand(to: nat, cmd: S.Cmd)
      modifies `outbox
      ensures View() == S.Send(old(View()), to, cmd)
    {
      outbox := outbox + [S.Msg(to, cmd)];
    }

    /** The first send of `launch_child`. */
    method Plug(child: Own)
      requires child != this && child.owner.None? && launching.None?
      modifies `outbox, `launching, child`owner, child`sentSeqnum
      ensures var v := S.Send(old(View()), child.id, S.Cmd.Plug); View() == v.(o := v.o.(launching := Some(child.id)))
      ensures child.View().o == old(child.View()).o.(owner := Some(id), sentSeqnum := old(child.sentSeqnum) + 1)
      ensures child.outbox == old(child.outbox)
    {
      child.SetOwner(id);
      child.IncSeqnum();
      SendCommand(child.id, S.Cmd.Plug);
      launching := Some(child.id);
    }

    /** The second send of `launch_child`. */
    method TakeOwnership(child: Own)
      requires launching == Some(child.id)
      modifies `outbox, `launching, `sentSeqnum
      ensures var v := S.Send(old(View()), id, S.Cmd.Own(child.id));
              View() == v.(o := v.o.(launching := None, sentSeqnum := old(sentSeqnum) + 1))
    {
      IncSeqnum();
      SendCommand(id, S.Cmd.Own(child.id));
      launching := None;
    }

    method LaunchChild(child: Own)
      requires child != this && child.owner.None? && launching.None?
      modifies `outbox, `launching, `sentSeqnum, child`owner, child`sentSeqnum
      ensures outbox == old(outbox) + [S.Msg(child.id, S.Cmd.Plug), S.Msg(id, S.Cmd.Own(child.id))]
      ensures View().o == old(View()).o.(sentSeqnum := old(sentSeqnum) + 1)
      ensures child.View().o == old(child.View()).o.(owner := Some(id), sentSeqnum := old(child.sentSeqnum) + 1)
    {
      Plug(child);
      TakeOwnership(child);
    }

    method CheckTermAcks()
      requires terminating && processedSeqnum == sentSeqnum && termAcks == 0 ==> owned == {}
      modifies `outbox, `alive
      ensures View() == S.CheckTermAcks(old(View()))
    {
      if terminating && processedSeqnum == sentSeqnum && termAcks == 0 {
        if owner.Some? {
          SendCommand(owner.value, S.TermAck(id));
        }
        alive := false;
      }
    }

    method ProcessSeqnum()
      requires terminating ==> owned == {}
      modifies `processedSeqnum, `outbox, `alive
      ensures View() == S.ProcessSeqnum(old(View()))
    {
      processedSeqnum := processedSeqnum + 1;
      CheckTermAcks();
    }

    method ProcessTermReq(child: nat)
      modifies `owned, `termAcks, `asked, `outbox
      ensures View() == S.ProcessTermReq(old(View()), child)
    {
      if terminating {
        return;
      }
      if child !in owned {
        return;
      }
      owned := owned - {child};
      termAcks := termAcks + 1;
      asked := asked + {child};
      SendCommand(child, S.Term);
    }

    method ProcessOwn(child: nat)
      modifies `owned, `termAcks, `asked, `outbox
      ensures View() == S.ProcessOwn(old(View()), child)
    {
      if terminating {
        termAcks := termAcks + 1;
        asked := asked + {child};
        SendCommand(child, S.Term);
        return;
      }
      owned := owned + {child};
    }

    /** Every owned object is sent a `term`, in the order of the set. */
    method SendTerms()
      modifies `outbox
      ensures outbox == old(outbox) + S.Terms(owned)
    {
      var rest := owned;
      while rest != {}
        invariant outbox + S.Terms(rest) == old(outbox) + S.Terms(owned)
        decreases rest
      {
        HasLeast(rest);
        var x :| IsLeast(x, rest);
        assert S.Terms(rest) == [S.Msg(x, S.Term)] + S.Terms(rest - {x});
        SendCommand(x, S.Term);
        rest := rest - {x};
      }
    }

    method ProcessTerm()
      requires !terminating
      modifies this
      ensures View() == S.ProcessTerm(old(View()))
    {
      SendTerms();
      termAcks := termAcks + |owned|;
      asked := asked + owned;
      owned := {};
      terminating := true;
      CheckTermAcks();
    }

    method ProcessTermAck(ghost from: nat)
      requires termAcks > 0 && (terminating ==> owned == {})
      modifies `termAcks, `asked, `gone, `outbox, `alive
      ensures View() == S.ProcessTermAck(old(View()), from)
    {
      termAcks := termAcks - 1;
      asked := asked - {from};
      gone := gone + {from};
      CheckTermAcks();
    }

    method Terminate()
      modifies this
      ensures View() == S.Terminate(old(View()))
    {
      if terminating {
        return;
      }
      if owner.None? {
        ProcessTerm();
        return;
      }
      SendCommand(owner.value, S.TermReq(id));
    }
  }
}
