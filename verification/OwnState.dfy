/**
 One object of the ownership tree as a value: its counters, the commands it handles
 and the commands it sends.  The class in Own.dfy is proved against these functions
 and OwnTree is a state machine over them.
 */
module OwnState {
  import opened Wrappers

  /** Commands between objects.  `plug`, `own` and `bind` (which also stands for
      `attach` and `inproc_connected`) carry a sequence number.  The sender of an
      acknowledgement is history: the source's command does not have it. */
  datatype Cmd = Plug | Own(child: nat) | Bind | TermReq(child: nat) | Term | TermAck(from: nat) {
    predicate Sequenced() {
      Plug? || Own? || Bind?
    }
  }

  datatype Msg = Msg(to: nat, cmd: Cmd)

  /** The fields of an object.  `launching` is the child between the two sends of
      `launch_child`; `asked` are the children sent a `term` and not yet
      acknowledged, `gone` the acknowledged ones, `alive` whether the object still
      exists: these four are history. */
  datatype Obj = Obj(id: nat, owner: Option<nat>, terminating: bool, sentSeqnum: nat, processedSeqnum: nat,
                     owned: set<nat>, termAcks: int, launching: Option<nat>, asked: set<nat>, gone: set<nat>,
                     alive: bool)

  /** An object and what it has sent; `ok` says that no assertion has failed. */
  datatype Env = Env(o: Obj, out: seq<Msg>, ok: bool)

  function NewObj(id: nat, owner: Option<nat>): Obj {
    Obj(id, owner, false, 0, 0, {}, 0, None, {}, {}, true)
  }

  function Send(v: Env, to: nat, cmd: Cmd): Env {
    v.(out := v.out + [Msg(to, cmd)])
  }

  function CheckTermAcks(v: Env): Env {
    if v.o.terminating && v.o.processedSeqnum == v.o.sentSeqnum && v.o.termAcks == 0 then
      var v := v.(ok := v.ok && v.o.owned == {});
      var v := if v.o.owner.Some? then Send(v, v.o.owner.value, TermAck(v.o.id)) else v;
      v.(o := v.o.(alive := false))
    else v
  }

  function ProcessSeqnum(v: Env): Env {
    CheckTermAcks(v.(o := v.o.(processedSeqnum := v.o.processedSeqnum + 1)))
  }

  /** A child is sent a `term`. */
  function Ask(v: Env, child: nat): Env {
    Send(v.(o := v.o.(termAcks := v.o.termAcks + 1, asked := v.o.asked + {child})), child, Term)
  }

  function ProcessTermReq(v: Env, child: nat): Env {
    if v.o.terminating || child !in v.o.owned then v
    else Ask(v.(o := v.o.(owned := v.o.owned - {child})), child)
  }

  function ProcessOwn(v: Env, child: nat): Env {
    if v.o.terminating then Ask(v, child) else v.(o := v.o.(owned := v.o.owned + {child}))
  }

  /** A `term` for each child, in the order of the set: by address. */
  ghost function Terms(children: set<nat>): seq<Msg>
    decreases children
  {
    if children == {} then []
    else
      HasLeast(children);
      var x :| IsLeast(x, children);
      [Msg(x, Term)] + Terms(children - {x})
  }

  ghost function ProcessTerm(v: Env): Env {
    CheckTermAcks(v.(ok := v.ok && !v.o.terminating, out := v.out + Terms(v.o.owned),
                     o := v.o.(termAcks := v.o.termAcks + |v.o.owned|, asked := v.o.asked + v.o.owned, owned := {},
                         terminating := true)))
  }

  function ProcessTermAck(v: Env, from: nat): Env {
    CheckTermAcks(v.(ok := v.ok && v.o.termAcks > 0,
                     o := v.o.(termAcks := v.o.termAcks - 1, asked := v.o.asked - {from}, gone := v.o.gone + {from})))
  }

  ghost function Terminate(v: Env): Env {
    if v.o.terminating then v
    else if v.o.owner.None? then ProcessTerm(v)
    else Send(v, v.o.owner.value, TermReq(v.o.id))
  }

  /** The dispatch of object.cpp. */
  ghost function ProcessCommand(v: Env, cmd: Cmd): Env {
    match cmd
    case Plug => ProcessSeqnum(v)
    case Own(child) => ProcessSeqnum(ProcessOwn(v, child))
    case Bind => ProcessSeqnum(v)
    case TermReq(child) => ProcessTermReq(v, child)
    case Term => ProcessTerm(v)
    case TermAck(from) => ProcessTermAck(v, from)
  }
}
