/**
 Load balancing over outbound pipes: every message goes to one pipe as a whole.
 */
module Lb {
  import opened Wrappers
  import opened PipeArray
  import R = Ring

  /** A message whose last part has been submitted, and the pipe it landed on, if any. */
  datatype Message = Message(frames: seq<Frame>, to: Option<Pipe>)

  /** The messages that landed on a pipe, one after the other. */
  function Landed(history: seq<Message>, p: Pipe): seq<Frame> {
    if history == [] then []
    else
      var m := history[|history| - 1];
      Landed(history[..|history| - 1], p) + if m.to == Some(p) then m.frames else []
  }

  lemma LandedAppend(history: seq<Message>, m: Message, p: Pipe)
    ensures Landed(history + [m], p) == Landed(history, p) + if m.to == Some(p) then m.frames else []
  {
    assert (history + [m])[..|history|] == history;
  }

  /** All parts but the last announce another one. */
  predicate Complete(frames: seq<Frame>) {
    frames != [] && !frames[|frames| - 1].more && forall i :: 0 <= i < |frames| - 1 ==> frames[i].more
  }

  predicate Begun(frames: seq<Frame>) {
    forall i :: 0 <= i < |frames| ==> frames[i].more
  }

  predicate WholeMessages(history: seq<Message>) {
    forall i :: 0 <= i < |history| ==> Complete(history[i].frames)
  }

  /** What a pipe has is what landed on it, all of it flushed, and behind that the begun
      message if it is the one that has it. */
  ghost predicate StreamOk(s: Side, landed: seq<Frame>, begun: seq<Frame>) {
    s.fin <= |s.out| && s.pub == s.fin && s.out == landed + begun && s.fin == |landed|
  }

  ghost predicate Streams(sides: map<Pipe, Side>, history: seq<Message>, cur: seq<Frame>, at: Option<Pipe>) {
    forall p :: p in sides ==> StreamOk(sides[p], Landed(history, p), if at == Some(p) then cur else [])
  }

  /** Whether a pipe was never used before. */
  predicate Unused(p: Pipe, history: seq<Message>)
    reads p
  {
    p.out == [] && p.fin == p.pub == 0 && forall i :: 0 <= i < |history| ==> history[i].to != Some(p)
  }

  lemma {:induction false} NothingLanded(p: Pipe, history: seq<Message>)
    requires forall i :: 0 <= i < |history| ==> history[i].to != Some(p)
    ensures Landed(history, p) == []
  {
    if history != [] { NothingLanded(p, history[..|history| - 1]); }
  }

  /** The outbound side after a frame was written, and flushed if it ends the message. */
  function Written(s: Side, f: Frame): Side {
    if f.more then s.Offered(f) else s.Offered(f).Flushed()
  }

  lemma WrittenOk(s: Side, landed: seq<Frame>, cur: seq<Frame>, f: Frame)
    requires StreamOk(s, landed, cur) && s.Takes()
    ensures f.more ==> StreamOk(Written(s, f), landed, cur + [f])
    ensures !f.more ==> StreamOk(Written(s, f), landed + (cur + [f]), [])
  {
    assert landed + (cur + [f]) == landed + cur + [f];
  }

  lemma WrittenStreams(sides: map<Pipe, Side>, sides': map<Pipe, Side>, history: seq<Message>, cur: seq<Frame>,
          at: Option<Pipe>, p: Pipe, f: Frame)
    requires Streams(sides, history, cur, at) && p in sides && at == (if cur == [] then None else Some(p)) && Begun(cur)
        && sides[p].Takes()
    requires sides' == sides[p := Written(sides[p], f)]
    ensures f.more ==> Streams(sides', history, cur + [f], Some(p))
    ensures !f.more ==> Streams(sides', history + [Message(cur + [f], Some(p))], [], None) && Complete(cur + [f])
  {
    assert StreamOk(sides[p], Landed(history, p), if at == Some(p) then cur else []);
    WrittenOk(sides[p], Landed(history, p), cur, f);
    if f.more {
      forall q | q in sides' ensures StreamOk(sides'[q], Landed(history, q), if q == p then cur + [f] else []) {
        if q != p { assert StreamOk(sides[q], Landed(history, q), if at == Some(q) then cur else []); }
      }
    } else {
      var m := Message(cur + [f], Some(p));
      forall q | q in sides' ensures StreamOk(sides'[q], Landed(history + [m], q), []) {
        LandedAppend(history, m, q);
        if q != p { assert StreamOk(sides[q], Landed(history, q), if at == Some(q) then cur else []); }
      }
    }
  }

  /** A message that lands nowhere changes no stream. */
  lemma DroppedStreams(sides: map<Pipe, Side>, history: seq<Message>, frames: seq<Frame>)
    requires Streams(sides, history, [], None)
    ensures Streams(sides, history + [Message(frames, None)], [], None)
  {
    forall q | q in sides ensures StreamOk(sides[q], Landed(history + [Message(frames, None)], q), []) {
      LandedAppend(history, Message(frames, None), q);
      assert StreamOk(sides[q], Landed(history, q), if None == Some(q) then [] else []);
    }
  }

  /** A pipe that was never used has an empty stream. */
  lemma NewStreams(sides: map<Pipe, Side>, history: seq<Message>, cur: seq<Frame>, at: Option<Pipe>, p: Pipe, s: Side)
    requires Streams(sides, history, cur, at) && Landed(history, p) == [] && s.out == [] && s.fin == s.pub == 0
        && at != Some(p)
    ensures Streams(sides[p := s], history, cur, at)
  {
    forall q | q in sides[p := s]
        ensures StreamOk(sides[p := s][q], Landed(history, q), if at == Some(q) then cur else [])
    {
      if q != p { assert StreamOk(sides[q], Landed(history, q), if at == Some(q) then cur else []); }
    }
  }

  /** The begun message is rolled back. */
  lemma RolledBackStreams(sides: map<Pipe, Side>, history: seq<Message>, cur: seq<Frame>, p: Pipe)
    requires Streams(sides, history, cur, Some(p)) && p in sides
    ensures Streams(sides[p := sides[p].RolledBack()], history, [], None)
  {
    assert StreamOk(sides[p], Landed(history, p), cur);
    forall q | q in sides ensures StreamOk(sides[p := sides[p].RolledBack()][q], Landed(history, q), []) {
      assert StreamOk(sides[q], Landed(history, q), if q == p then cur else []);
    }
  }

  /** A write that fails only uses up an answer. */
  lemma RefusedStreams(sides: map<Pipe, Side>, sides': map<Pipe, Side>, history: seq<Message>, cur: seq<Frame>,
          at: Option<Pipe>, p: Pipe)
    requires Streams(sides, history, cur, at) && p in sides && sides' == sides[p := sides[p].Asked()]
    ensures Streams(sides', history, cur, at)
  {
    forall q | q in sides' ensures StreamOk(sides'[q], Landed(history, q), if at == Some(q) then cur else []) {
      assert StreamOk(sides[q], Landed(history, q), if at == Some(q) then cur else []);
    }
  }

  /** The pipe that has the beginning of the current message. */
  function Holder(r: R.Ring<Pipe>, more: bool, dropping: bool): Option<Pipe> {
    if more && !dropping && r.current < |r.items| then Some(r.items[r.current]) else None
  }

  /** Every pipe has the messages that landed on it, whole and flushed, and behind them
      at most the begun message. */
  ghost predicate Good(r: R.Ring<Pipe>, sides: map<Pipe, Side>, history: seq<Message>, cur: seq<Frame>, more: bool,
          dropping: bool)
  {
    && r.Ok() && WholeMessages(history) && Begun(cur)
    && (!dropping ==> if more then r.active > 0 && cur != [] else cur == [])
    && Streams(sides, history, if dropping then [] else cur, Holder(r, more, dropping))
  }

  /** A frame is dropped: its message lands nowhere. */
  lemma DroppedGood(r: R.Ring<Pipe>, sides: map<Pipe, Side>, history: seq<Message>, cur: seq<Frame>, f: Frame,
          more: bool)
    requires r.Ok() && Streams(sides, history, [], None) && WholeMessages(history) && Begun(cur) && (more ==> f.more)
    ensures f.more ==> Good(r, sides, history, cur + [f], more, true)
    ensures !f.more ==> Good(r, sides, history + [Message(cur + [f], None)], [], more, false)
  {
    if !f.more { DroppedStreams(sides, history, cur + [f]); }
  }

  // ---- whose turn it is ----

  /** The pipe would take a frame. */
  predicate Willing(sides: map<Pipe, Side>, p: Pipe) {
    p in sides && sides[p].Takes()
  }

  /** The pipe on which the last message of `h'` landed, if it is not one of `h`. */
  function Landing(h: seq<Message>, h': seq<Message>): Option<Pipe> {
    if |h'| > |h| then h'[|h'| - 1].to else None
  }

  /** Every active pipe that would take a frame is still active, unless a message landed on
      it; and it is nearer to its turn by one if a message landed on another. */
  ghost predicate Turn(r: R.Ring<Pipe>, sides: map<Pipe, Side>, r': R.Ring<Pipe>, to: Option<Pipe>) {
    Gains(r, sides, r', to, if to.Some? then 1 else 0)
  }

  ghost predicate Gains(r: R.Ring<Pipe>, sides: map<Pipe, Side>, r': R.Ring<Pipe>, but: Option<Pipe>, gain: nat) {
    forall i: nat :: i < r.active && i < |r.items| && Willing(sides, r.items[i]) && but != Some(r.items[i]) ==>
      exists i' :: R.Nearer(r, i, r', i', gain)
  }

  ghost predicate Refusing(r: R.Ring<Pipe>, sides: map<Pipe, Side>) {
    forall p :: p in sides && r.IsActive(p) ==> !sides[p].Takes()
  }

  /** The search for a pipe began with `r0` and has come to `r`: what it skipped refused. */
  ghost predicate Search(r0: R.Ring<Pipe>, sides0: map<Pipe, Side>, r: R.Ring<Pipe>, sides: map<Pipe, Side>) {
    && r.Ok() && Turn(r0, sides0, r, None)
    && forall p :: p in sides0 && sides0[p].Takes() ==> p in sides && sides[p] == sides0[p]
  }

  lemma SearchStart(r: R.Ring<Pipe>, sides: map<Pipe, Side>)
    requires r.Ok()
    ensures Search(r, sides, r, sides)
  {
    forall i: nat | i < r.active && i < |r.items| && Willing(sides, r.items[i])
        ensures exists i' :: R.Nearer(r, i, r, i', 0)
    {
      assert R.Nearer(r, i, r, i, 0);
    }
  }

  /** The current pipe refused and is skipped. */
  lemma SearchSkip(r0: R.Ring<Pipe>, sides0: map<Pipe, Side>, r: R.Ring<Pipe>, sides: map<Pipe, Side>)
    requires Search(r0, sides0, r, sides) && r.active > 0 && r.items[r.current] in sides
        && !sides[r.items[r.current]].Takes()
    ensures var p := r.items[r.current]; Search(r0, sides0, R.Retire(r, r.current), sides[p := sides[p].Asked()])
  {
    R.RetireOk(r, r.current);
    forall i: nat | i < r0.active && i < |r0.items| && Willing(sides0, r0.items[i])
      ensures exists i' :: R.Nearer(r0, i, R.Retire(r, r.current), i', 0)
    {
      var k :| R.Nearer(r0, i, r, k, 0);
      R.RetireNearer(r, k);
      assert R.Nearer(r0, i, R.Retire(r, r.current), if k == r.active - 1 then r.current else k, 0);
    }
  }

  /** The current pipe took the last frame of a message. */
  lemma SearchLands(r0: R.Ring<Pipe>, sides0: map<Pipe, Side>, r: R.Ring<Pipe>, sides: map<Pipe, Side>)
    requires Search(r0, sides0, r, sides) && r.active > 0
    ensures Turn(r0, sides0, R.Advance(r), Some(r.items[r.current]))
  {
    forall i: nat | i < r0.active && i < |r0.items| && Willing(sides0, r0.items[i]) && r0.items[i] != r.items[r.current]
      ensures exists i' :: R.Nearer(r0, i, R.Advance(r), i', 1)
    {
      var k :| R.Nearer(r0, i, r, k, 0);
      R.AdvanceNearer(r, k);
      assert R.Nearer(r0, i, R.Advance(r), k, 1);
    }
  }

  /** When no pipe is left, all refused. */
  lemma SearchFails(r0: R.Ring<Pipe>, sides0: map<Pipe, Side>, r: R.Ring<Pipe>, sides: map<Pipe, Side>)
    requires Search(r0, sides0, r, sides) && r.active == 0
    ensures Refusing(r0, sides0)
  {
    forall p | p in sides0 && r0.IsActive(p) ensures !sides0[p].Takes() {
      var i :| 0 <= i < |r0.items[..if r0.active <= |r0.items| then r0.active else 0]| && r0.items[i] == p;
    }
  }

  /** What offering a frame to the current pipe did: it took it (0), its message is lost (-2),
      or the pipe is skipped (1). */
  ghost predicate Tried(r: R.Ring<Pipe>, sides: map<Pipe, Side>, h: seq<Message>, f: Frame, rc: int,
          r': R.Ring<Pipe>, sides': map<Pipe, Side>, h': seq<Message>)
  {
    && r.Ok() && r.active > 0
    && var p := r.items[r.current];
       if rc == 1 then
         p in sides && !sides[p].Takes() && r' == R.Retire(r, r.current) && sides' == sides[p := sides[p].Asked()]
             && h' == h
       else if rc == 0 && !f.more then
         r' == R.Advance(r) && Landing(h, h') == Some(p)
       else
         r' == r && Landing(h, h') == None
  }

  lemma TriedTurn(r0: R.Ring<Pipe>, sides0: map<Pipe, Side>, r: R.Ring<Pipe>, sides: map<Pipe, Side>, h: seq<Message>,
          f: Frame, rc: int, r': R.Ring<Pipe>, sides': map<Pipe, Side>, h': seq<Message>)
    requires Search(r0, sides0, r, sides) && Tried(r, sides, h, f, rc, r', sides', h')
    ensures if rc == 1 then Search(r0, sides0, r', sides') else Turn(r0, sides0, r', Landing(h, h'))
  {
    if rc == 1 {
      SearchSkip(r0, sides0, r, sides);
    } else if rc == 0 && !f.more {
      SearchLands(r0, sides0, r, sides);
    }
  }

  class Lb {
    const pipes: PipeArray
    var active: nat
    var current: nat
    var more: bool
    var dropping: bool

    /** The parts of the current message submitted so far, and the messages before it. */
    ghost var cur: seq<Frame>
    ghost var history: seq<Message>

    ghost function View(): R.Ring<Pipe>
      reads `active, `current, pipes
    {
      R.Ring(pipes.items, active, current)
    }

    ghost function All(): set<Pipe>
      reads pipes
    {
      set p | p in pipes.items
    }

    function Current(): Pipe
      requires current < |pipes.items|
      reads `current, pipes
    {
      pipes.items[current]
    }

    /** The pipe that has the beginning of the current message. */
    ghost function At(): Option<Pipe>
      reads `more, `dropping, `active, `current, pipes
    {
      Holder(View(), more, dropping)
    }

    ghost predicate Valid()
      reads this, pipes, pipes.items
    {
      pipes.Valid() && Good(View(), Sides(All()), history, cur, more, dropping)
    }

    constructor ()
      ensures Valid() && View() == R.Ring([], 0, 0) && history == [] && cur == [] && fresh(pipes)
    {
      active, current, more, dropping := 0, 0, false, false;
      cur, history := [], [];
      pipes := new PipeArray();
    }

    /** A new or passive pipe takes part in the rotation. */
    method Activated(pipe: Pipe)
      requires Valid() && pipe in pipes.items && pipe.arrayIndex >= active
      modifies `active, pipes, pipes.items`arrayIndex
      ensures Valid() && View() == R.Activate(old(View()), old(pipe.arrayIndex)) && At() == old(At())
      ensures View().Active() == old(View().Active()) + {pipe} && All() == old(All())
    {
      R.ActivateZones(View(), pipe.arrayIndex);
      Swap(pipe.arrayIndex, active);
      active := active + 1;
    }

    method Swap(i: nat, j: nat)
      requires pipes.Valid() && i < |pipes.items| && j < |pipes.items|
      modifies pipes, pipes.items`arrayIndex
      ensures pipes.Valid() && pipes.items == Swapped(old(pipes.items), i, j)
      ensures All() == old(All()) && Sides(All()) == old(Sides(All()))
    {
      pipes.Swap(i, j);
    }

    method Attach(pipe: Pipe)
      requires Valid() && pipe !in pipes.items && Unused(pipe, history)
      modifies `active, pipes, pipes.items`arrayIndex, pipe`arrayIndex
      ensures Valid() && View() == R.Attach(old(View()), pipe) && At() == old(At())
      ensures View().Active() == old(View().Active()) + {pipe} && All() == old(All()) + {pipe}
    {
      R.AttachZones(View(), pipe);
      NothingLanded(pipe, history);
      NewStreams(Sides(All()), history, if dropping then [] else cur, At(), pipe, pipe.Outbound());
      AddPassive(pipe);
      Activated(pipe);
    }

    method AddPassive(pipe: Pipe)
      requires pipes.Valid() && View().Ok() && pipe !in pipes.items
      modifies pipes, pipe`arrayIndex
      ensures pipes.Valid() && View() == old(View()).(items := old(pipes.items) + [pipe]) && View().Ok()
          && pipe.arrayIndex == |old(pipes.items)|
      ensures All() == old(All()) + {pipe} && Sides(All()) == old(Sides(All()))[pipe := old(pipe.Outbound())]
    {
      ghost var sides := Sides(All());
      pipes.PushBack(pipe);
      assert All() == old(All()) + {pipe};
      assert Sides(All()) == sides[pipe := old(pipe.Outbound())];
    }

    method Retire(k: nat)
      requires pipes.Valid() && k < active <= |pipes.items|
      modifies `active, `current, pipes, pipes.items`arrayIndex
      ensures pipes.Valid() && View() == R.Retire(old(View()), k)
      ensures All() == old(All()) && Sides(All()) == old(Sides(All())) && pipes.items[active] == old(pipes.items)[k]
    {
      active := active - 1;
      Swap(k, active);
      if current == active {
        current := 0;
      }
    }

    method Drop(pipe: Pipe)
      requires pipes.Valid() && pipe in pipes.items
      modifies pipes, pipes.items`arrayIndex
      ensures pipes.Valid() && View() == R.Drop(old(View()), old(pipe.arrayIndex))
      ensures All() == old(All()) - {pipe} && Sides(All()) == old(Sides(All())) - {pipe}
    {
      ghost var items, k := pipes.items, pipe.arrayIndex;
      pipes.Erase(pipe);
      forall p ensures p in pipes.items <==> p in items && p != pipe {
        if p in items && p != pipe {
          var i :| 0 <= i < |items| && items[i] == p;
          assert pipes.items[if i == |items| - 1 then k else i] == p;
        }
      }
    }

    /** The rest of a message whose pipe goes is dropped.  When another pipe goes in the middle
        of a message, the streams stay whole exactly if `current` stays with its pipe. */
    method PipeTerminated(pipe: Pipe)
      requires Valid() && pipe in pipes.items
      modifies `active, `current, `dropping, pipes, pipes.items`arrayIndex
      ensures pipes.Valid() && View() == R.Terminate(old(View()), old(pipe.arrayIndex))
      ensures All() == old(All()) - {pipe} && Sides(All()) == old(Sides(All())) - {pipe}
      ensures View().active <= |pipes.items| && View().Active() == old(View().Active()) - {pipe}
      ensures dropping == (old(dropping) || (old(pipe.arrayIndex == current) && old(more)))
      ensures Valid() <==> (old(more && !dropping) ==> R.Stays(old(View()), old(pipe.arrayIndex)))
      ensures Valid() ==> At() == if old(At()) == Some(pipe) then None else old(At())
    {
      var index := pipe.arrayIndex;
      R.TerminateZones(View(), index);
      GoneIff(View(), Sides(All()), history, cur, more, dropping, index);
      ghost var sides := Sides(All());
      if index == current && more {
        dropping := true;
      }
      assert Sides(All()) == sides;
      Leave(pipe);
    }

    /** The pipe is taken out of the array. */
    method Leave(pipe: Pipe)
      requires pipes.Valid() && View().Ok() && pipe in pipes.items
      modifies `active, `current, pipes, pipes.items`arrayIndex
      ensures pipes.Valid() && View() == R.Terminate(old(View()), old(pipe.arrayIndex))
      ensures All() == old(All()) - {pipe} && Sides(All()) == old(Sides(All())) - {pipe}
    {
      var index := pipe.arrayIndex;
      if index < active {
        Retire(index);
      }
      Drop(pipe);
    }

    /** Offers a frame to the current pipe; the end of a message is flushed. */
    method Place(f: Frame) returns (ok: bool)
      requires pipes.Valid() && current < |pipes.items|
      modifies Current()`room, Current()`out, Current()`fin, Current()`pub
      ensures var p := pipes.items[current]; var s := old(Sides(All()))[p];
              && ok == s.Takes() && All() == old(All())
              && Sides(All()) == old(Sides(All()))[p := if ok then Written(s, f) else s.Asked()]
    {
      var p := pipes.items[current];
      ok := p.Write(f);
      if ok && !f.more {
        p.Flush();
      }
    }

    /** What the current pipe has of the begun message is rolled back. */
    method TakeBack()
      requires Valid() && more && !dropping && current < |pipes.items|
      modifies Current()`out
      ensures pipes.Valid() && All() == old(All()) && View().Ok() && Streams(Sides(All()), history, [], None)
    {
      var p := pipes.items[current];
      ghost var sides := Sides(All());
      assert p in All();
      RolledBackStreams(sides, history, cur, p);
      p.Rollback();
      assert Sides(All()) == sides[p := sides[p].RolledBack()];
    }

    /** The current pipe lost its peer in the middle of the message: what it has of it is
        rolled back and the rest is dropped. */
    method GiveUp(f: Frame)
      requires Valid() && more && !dropping && current < |pipes.items|
      modifies `more, `dropping, `cur, `history, Current()`out
      ensures Valid() && Consumed(old(history), old(cur), f, None)
      ensures All() == old(All()) && dropping == f.more && !more
    {
      TakeBack();
      DropRest(f);
    }

    /** The message is over for its pipe; what follows of it is dropped. */
    method DropRest(f: Frame)
      requires pipes.Valid() && View().Ok() && Streams(Sides(All()), history, [], None) && WholeMessages(history)
          && Begun(cur)
      modifies `more, `dropping, `cur, `history
      ensures Valid() && Consumed(old(history), old(cur), f, None) && dropping == f.more && !more
    {
      ghost var r, sides := View(), Sides(All());
      dropping := f.more;
      more := false;
      assert View() == r && Sides(All()) == sides;
      Consume(f);
    }

    /** The frame was taken in; if it ends the message, that is where the message went. */
    ghost predicate Consumed(history0: seq<Message>, cur0: seq<Frame>, f: Frame, to: Option<Pipe>)
      reads `cur, `history
    {
      if f.more then cur == cur0 + [f] && history == history0
      else cur == [] && history == history0 + [Message(cur0 + [f], to)]
    }

    /** The frame went to a pipe, to the one that has the beginning of its message if there is one. */
    ghost predicate Placed(history0: seq<Message>, cur0: seq<Frame>, f: Frame, at0: Option<Pipe>)
      reads this, pipes
    {
      exists p :: p in All() && Consumed(history0, cur0, f, Some(p)) && (f.more ==> At() == Some(p))
          && (at0.Some? ==> at0 == Some(p))
    }

    /** A frame that goes nowhere. */
    ghost method Consume(f: Frame)
      requires pipes.Valid() && View().Ok() && Streams(Sides(All()), history, [], None) && WholeMessages(history)
          && Begun(cur)
      requires dropping == f.more && (more ==> f.more)
      modifies `cur, `history
      ensures Valid() && Consumed(old(history), old(cur), f, None)
    {
      ghost var r, sides := View(), Sides(All());
      DroppedGood(r, sides, history, cur, f, more);
      if f.more {
        cur := cur + [f];
      } else {
        history := history + [Message(cur + [f], None)];
        cur := [];
      }
      assert View() == r && Sides(All()) == sides;
    }

    /** 0 if the frame was sent, or dropped with the rest of its message; -1 if no pipe can
        take it, and then nothing has happened to it; -2 if its message is lost.  A message
        always goes to one pipe as a whole or to none: see `Valid`. */
    method SendPipe(f: Frame) returns (rc: int)
      requires Valid()
      modifies this, pipes, pipes.items
      ensures Valid() && All() == old(All())
      ensures rc == 0 || rc == -1 || rc == -2
      ensures rc == -1 ==> active == 0 && !old(dropping) && !old(more) && cur == old(cur) && history == old(history)
      ensures rc == -2 ==> old(more) && !old(dropping) && Consumed(old(history), old(cur), f, None)
      ensures rc == 0 && old(dropping) ==>
          Consumed(old(history), old(cur), f, None) && Sides(All()) == old(Sides(All()))
      ensures rc == 0 && !old(dropping) ==> Placed(old(history), old(cur), f, old(At()))
      ensures Turn(old(View()), old(Sides(All())), View(), Landing(old(history), history))
      ensures rc == -1 ==> Refusing(old(View()), old(Sides(All())))
    {
      if dropping {
        SearchStart(View(), Sides(All()));
        Ignore(f);
        return 0;
      }
      rc := Send(f);
    }

    /** A frame of a message that is being dropped. */
    method Ignore(f: Frame)
      requires Valid() && dropping
      modifies `more, `dropping, `cur, `history
      ensures Valid() && View() == old(View()) && All() == old(All()) && Sides(All()) == old(Sides(All()))
      ensures Consumed(old(history), old(cur), f, None)
    {
      ghost var r, sides := View(), Sides(All());
      more := f.more;
      dropping := more;
      assert View() == r && Sides(All()) == sides;
      Consume(f);
    }

    /** The search for a pipe that takes the frame. */
    method Send(f: Frame) returns (rc: int)
      requires Valid() && !dropping
      modifies this, pipes, pipes.items
      ensures Valid() && All() == old(All())
      ensures rc == 0 || rc == -1 || rc == -2
      ensures rc == -1 ==> active == 0 && !old(more) && cur == old(cur) && history == old(history)
      ensures rc == -2 ==> old(more) && Consumed(old(history), old(cur), f, None)
      ensures rc == 0 ==> Placed(old(history), old(cur), f, old(At()))
      ensures Turn(old(View()), old(Sides(All())), View(), Landing(old(history), history))
      ensures rc == -1 ==> Refusing(old(View()), old(Sides(All())))
    {
      ghost var r0, sides0 := View(), Sides(All());
      SearchStart(r0, sides0);
      while active > 0
        invariant Valid() && !dropping && All() == old(All()) && more == old(more) && cur == old(cur)
            && history == old(history)
        invariant At() == old(At()) && Search(r0, sides0, View(), Sides(All()))
        decreases active
      {
        forall j | 0 <= j < |pipes.items| ensures pipes.items[j] in old(pipes.items) { assert pipes.items[j] in All(); }
        ghost var r, sides := View(), Sides(All());
        rc := Try(f);
        TriedTurn(r0, sides0, r, sides, old(history), f, rc, View(), Sides(All()), history);
        if rc != 1 {
          return;
        }
      }
      SearchFails(r0, sides0, View(), Sides(All()));
      rc := -1;
    }

    /** One round: the frame is sent (0), its message is lost (-2), or the current pipe is
        skipped (1). */
    method Try(f: Frame) returns (rc: int)
      requires Valid() && !dropping && active > 0
      modifies this, pipes, pipes.items
      ensures Valid() && All() == old(All())
      ensures rc == 1 ==>
          !dropping && !more && !old(more) && cur == old(cur) && history == old(history) && active == old(active) - 1
      ensures rc == -2 ==> old(more) && Consumed(old(history), old(cur), f, None)
      ensures rc == 1 ==> At() == old(At())
      ensures rc == 0 ==> Placed(old(history), old(cur), f, old(At()))
      ensures rc == 0 || rc == 1 || rc == -2
      ensures Tried(old(View()), old(Sides(All())), old(history), f, rc, View(), Sides(All()), history)
    {
      ghost var p := pipes.items[current];
      var ok := Offer(f);
      if ok {
        Sent(f, p);
        assert p in All();
        return 0;
      }
      rc := Refused(f);
    }

    /** The streams after the current pipe was offered the frame. */
    method Offer(f: Frame) returns (ok: bool)
      requires Valid() && !dropping && active > 0
      modifies Current()`room, Current()`out, Current()`fin, Current()`pub
      ensures pipes.Valid() && All() == old(All()) && pipes.items[current] in All()
      ensures var p, sides := pipes.items[current], old(Sides(All()));
              ok == sides[p].Takes() && (!ok ==> Sides(All()) == sides[p := sides[p].Asked()])
      ensures !ok ==> Streams(Sides(All()), history, cur, At())
      ensures ok && f.more ==> Streams(Sides(All()), history, cur + [f], Some(pipes.items[current]))
      ensures ok && !f.more ==>
          && Streams(Sides(All()), history + [Message(cur + [f], Some(pipes.items[current]))], [], None)
          && Complete(cur + [f])
    {
      var p := pipes.items[current];
      ghost var sides := Sides(All());
      assert p in All();
      ok := Place(f);
      if ok {
        WrittenStreams(sides, Sides(All()), history, cur, At(), p, f);
      } else {
        RefusedStreams(sides, Sides(All()), history, cur, At(), p);
      }
    }

    /** The current pipe did not take the frame. */
    method Refused(f: Frame) returns (rc: int)
      requires Valid() && !dropping && active > 0
      modifies this, pipes, pipes.items
      ensures Valid() && All() == old(All())
      ensures if old(more) then rc == -2 && Consumed(old(history), old(cur), f, None)
              else
                && rc == 1 && !dropping && !more && active == old(active) - 1
                && cur == old(cur) && history == old(history)
      ensures View() == if old(more) then old(View()) else R.Retire(old(View()), old(current))
      ensures !old(more) ==> Sides(All()) == old(Sides(All()))
    {
      if more {
        GiveUp(f);
        return -2;
      }
      Skip();
      return 1;
    }

    /** The current pipe becomes passive. */
    method Skip()
      requires Valid() && !more && active > 0
      modifies `active, `current, pipes, pipes.items`arrayIndex
      ensures Valid() && All() == old(All()) && active == old(active) - 1
      ensures View() == R.Retire(old(View()), old(current)) && Sides(All()) == old(Sides(All()))
    {
      R.RetireOk(View(), current);
      Retire(current);
    }

    /** The frame was written to the current pipe. */
    method Sent(f: Frame, ghost p: Pipe)
      requires pipes.Valid() && View().Ok() && active > 0 && p == pipes.items[current] && !dropping
          && WholeMessages(history) && Begun(cur)
      requires if f.more then Streams(Sides(All()), history, cur + [f], Some(p))
               else Streams(Sides(All()), history + [Message(cur + [f], Some(p))], [], None) && Complete(cur + [f])
      modifies `more, `current, `cur, `history
      ensures Valid() && All() == old(All()) && Consumed(old(history), old(cur), f, Some(p))
          && (f.more ==> At() == Some(p))
      ensures View() == if f.more then old(View()) else R.Advance(old(View()))
    {
      R.AdvanceWraps(View());
      more := f.more;
      if f.more {
        cur := cur + [f];
      } else {
        history := history + [Message(cur + [f], Some(p))];
        cur := [];
        current := current + 1;
        if current >= active {
          current := 0;
        }
      }
    }

    /** Whether the next frame will be taken. */
    method HasOut() returns (has: bool)
      requires Valid()
      modifies `active, `current, pipes, pipes.items`arrayIndex, pipes.items`room
      ensures Valid() && All() == old(All()) && At() == old(At()) && has == (old(more) || active > 0)
      ensures has && !more ==> pipes.items[current].Takes()
      ensures Turn(old(View()), old(Sides(All())), View(), None)
      ensures !has ==> Refusing(old(View()), old(Sides(All())))
    {
      ghost var r0, sides0 := View(), Sides(All());
      SearchStart(r0, sides0);
      if more {
        return true;
      }
      while active > 0
        invariant Valid() && All() == old(All()) && At() == old(At())
        invariant Search(r0, sides0, View(), Sides(All()))
        decreases active
      {
        forall j | 0 <= j < |pipes.items| ensures pipes.items[j] in old(pipes.items) { assert pipes.items[j] in All(); }
        ghost var r, sides := View(), Sides(All());
        var ok := AskNext();
        if ok {
          return true;
        }
        SearchSkip(r0, sides0, r, sides);
      }
      SearchFails(r0, sides0, View(), Sides(All()));
      has := false;
    }

    /** One round: the current pipe is asked, and skipped if it refuses. */
    method AskNext() returns (ok: bool)
      requires Valid() && !more && active > 0
      modifies `active, `current, pipes, pipes.items`arrayIndex, pipes.items`room
      ensures Valid() && All() == old(All()) && At() == old(At()) == None
      ensures var r, sides := old(View()), old(Sides(All())); var p := r.items[r.current];
          && p in sides && ok == sides[p].Takes() && active == old(active) - (if ok then 0 else 1)
          && View() == (if ok then r else R.Retire(r, r.current))
          && Sides(All()) == (if ok then sides else sides[p := sides[p].Asked()])
      ensures ok ==> pipes.items[current].Takes()
    {
      ok := Ask();
      if !ok {
        Skip();
      }
    }

    method Ask() returns (ok: bool)
      requires Valid() && active > 0 && current < |pipes.items|
      modifies Current()`room
      ensures Valid() && All() == old(All()) && (ok ==> pipes.items[current].Takes())
      ensures var p, sides := pipes.items[current], old(Sides(All()));
              p in sides && ok == sides[p].Takes() && Sides(All()) == if ok then sides else sides[p := sides[p].Asked()]
    {
      var p := pipes.items[current];
      ghost var sides := Sides(All());
      assert p in All();
      ok := p.CheckWrite();
      assert Sides(All()) == if ok then sides else sides[p := sides[p].Asked()];
      if !ok { RefusedStreams(sides, Sides(All()), history, if dropping then [] else cur, At(), p); }
    }
  }

  lemma GoneStreams(sides: map<Pipe, Side>, history: seq<Message>, cur: seq<Frame>, at: Option<Pipe>, p: Pipe)
    requires Streams(sides, history, cur, at)
    ensures Streams(sides - {p}, history, cur, at)
    ensures at == None || at == Some(p) ==> Streams(sides - {p}, history, [], None)
  {
    forall q | q in sides - {p}
        ensures StreamOk((sides - {p})[q], Landed(history, q), if at == Some(q) then cur else [])
    {
      assert StreamOk(sides[q], Landed(history, q), if at == Some(q) then cur else []);
    }
  }

  /** A pipe goes: if it is the one with the begun message, the rest of that is dropped. */
  lemma GoneGood(r: R.Ring<Pipe>, sides: map<Pipe, Side>, history: seq<Message>, cur: seq<Frame>, more: bool,
          dropping: bool, k: nat)
    requires Good(r, sides, history, cur, more, dropping) && k < |r.items| && (more && !dropping ==> R.Stays(r, k))
    ensures Good(R.Terminate(r, k), sides - {r.items[k]}, history, cur, more, dropping || (k == r.current && more))
    ensures Holder(R.Terminate(r, k), more, dropping || (k == r.current && more))
         == if Holder(r, more, dropping) == Some(r.items[k]) then None else Holder(r, more, dropping)
  {
    R.TerminateOk(r, k);
    GoneStreams(sides, history, if dropping then [] else cur, Holder(r, more, dropping), r.items[k]);
    if r.active > 0 && k != r.current { R.TerminateFollows(r, k); }
  }

  /** In the middle of a message, when another pipe than the one with its beginning goes
      and `current` does not stay with its pipe, the rest would follow nothing. */
  lemma GoneBad(r: R.Ring<Pipe>, sides: map<Pipe, Side>, history: seq<Message>, cur: seq<Frame>, k: nat)
    requires Good(r, sides, history, cur, true, false) && k < |r.items| && !R.Stays(r, k) && r.items[0] in sides
    ensures !Good(R.Terminate(r, k), sides - {r.items[k]}, history, cur, true, false)
  {
    R.TerminateFollows(r, k);
    var q := r.items[0];
    assert StreamOk(sides[q], Landed(history, q), []);
    assert !StreamOk(sides[q], Landed(history, q), cur);
  }

  /** So the streams stay whole exactly if no message is begun or `current` stays with the
      pipe that has its beginning. */
  lemma GoneIff(r: R.Ring<Pipe>, sides: map<Pipe, Side>, history: seq<Message>, cur: seq<Frame>, more: bool,
          dropping: bool, k: nat)
    requires Good(r, sides, history, cur, more, dropping) && k < |r.items| && forall p :: p in r.items ==> p in sides
    ensures var dropping', r', sides' := dropping || (k == r.current && more), R.Terminate(r, k), sides - {r.items[k]};
        && (Good(r', sides', history, cur, more, dropping') <==> (more && !dropping ==> R.Stays(r, k)))
        && (Good(r', sides', history, cur, more, dropping') ==>
              Holder(r', more, dropping') == if Holder(r, more, dropping) == Some(r.items[k]) then None
                  else Holder(r, more, dropping))
  {
    if more && !dropping && !R.Stays(r, k) {
      GoneBad(r, sides, history, cur, k);
    } else {
      GoneGood(r, sides, history, cur, more, dropping, k);
    }
  }

  const LAST := Frame(false, 0)
  const PART := Frame(true, 1)

  /** Three pipes, of which the first two have got a message each and the last the
      beginning of another one. */
  function ThreePipes(p: Pipe, q: Pipe, s: Pipe): map<Pipe, Side> {
    map[p := Side([], [LAST], 1, 1), q := Side([], [LAST], 1, 1), s := Side([], [PART], 0, 0)]
  }

  lemma ThreeLanded(p: Pipe, q: Pipe, x: Pipe, history: seq<Message>)
    requires p != q && history == [Message([LAST], Some(p)), Message([LAST], Some(q))]
    ensures Landed(history, x) == if x == p || x == q then [LAST] else []
  {
    var one := history[..1];
    assert one == [history[0]] && one[..0] == [];
    assert Landed(one, x) == if x == p then [LAST] else [];
  }

  lemma ThreeStreams(p: Pipe, q: Pipe, s: Pipe, history: seq<Message>)
    requires p != q && q != s && s != p && history == [Message([LAST], Some(p)), Message([LAST], Some(q))]
    ensures Streams(ThreePipes(p, q, s), history, [PART], Some(s))
  {
    var sides := ThreePipes(p, q, s);
    forall x | x in sides ensures StreamOk(sides[x], Landed(history, x), if Some(s) == Some(x) then [PART] else []) {
      ThreeLanded(p, q, x, history);
      assert [LAST] + [] == [LAST] && [] + [PART] == [PART];
    }
  }

  lemma ThreeGood(p: Pipe, q: Pipe, s: Pipe, history: seq<Message>)
    requires p != q && q != s && s != p && history == [Message([LAST], Some(p)), Message([LAST], Some(q))]
    ensures Good(R.Ring([p, q, s], 3, 2), ThreePipes(p, q, s), history, [PART], true, false)
  {
    ThreeStreams(p, q, s, history);
    assert Holder(R.Ring([p, q, s], 3, 2), true, false) == Some(s);
  }

  /** When the second of them goes, the end of that message goes to the first pipe. */
  lemma MiddleGoes(p: Pipe, q: Pipe, s: Pipe, history: seq<Message>)
    requires p != q && q != s && s != p && history == [Message([LAST], Some(p)), Message([LAST], Some(q))]
    ensures var r := R.Ring([p, q, s], 3, 2);
        && Good(r, ThreePipes(p, q, s), history, [PART], true, false) && Holder(r, true, false) == Some(s)
        && !Good(R.Terminate(r, 1), ThreePipes(p, q, s) - {q}, history, [PART], true, false)
        && Holder(R.Terminate(r, 1), true, false) == Some(p)
  {
    ThreeGood(p, q, s, history);
    GoneBad(R.Ring([p, q, s], 3, 2), ThreePipes(p, q, s), history, [PART], 1);
    R.TerminateFollows(R.Ring([p, q, s], 3, 2), 1);
  }

  // ---- runs ----

  datatype State = State(r: R.Ring<Pipe>, sides: map<Pipe, Side>, history: seq<Message>)

  /** A frame is submitted, a pipe is looked for, or the passive pipe at `k` wakes; the
      methods are proved to do this. */
  datatype Event = Submit | Look | Wake(k: nat)

  ghost predicate Step(s: State, s': State, ev: Event) {
    && s.r.Ok() && s.history <= s'.history
    && match ev
       case Submit => |s'.history| <= |s.history| + 1 && Turn(s.r, s.sides, s'.r, Landing(s.history, s'.history))
       case Look => s'.history == s.history && Turn(s.r, s.sides, s'.r, None)
       case Wake(k) => s'.history == s.history && s.r.active <= k < |s.r.items| && s'.r == R.Activate(s.r, k)
  }

  ghost predicate Run(states: seq<State>, evs: seq<Event>) {
    |states| == |evs| + 1 && states[|evs|].r.Ok() && forall i :: 0 <= i < |evs| ==>
        Step(states[i], states[i + 1], evs[i])
  }

  /** The messages that landed somewhere. */
  function Landings(history: seq<Message>): nat {
    if history == [] then 0
    else Landings(history[..|history| - 1]) + if history[|history| - 1].to.Some? then 1 else 0
  }

  /** No message of `h'` that is not one of `h` landed on `p`. */
  predicate Spared(h: seq<Message>, h': seq<Message>, p: Pipe) {
    forall j :: |h| <= j < |h'| ==> h'[j].to != Some(p)
  }

  lemma StepNearer(s: State, s': State, ev: Event, p: Pipe, i: nat) returns (i': nat)
    requires Step(s, s', ev) && i < s.r.active && s.r.items[i] == p && Willing(s.sides, p)
        && Spared(s.history, s'.history, p)
    ensures R.Nearer(s.r, i, s'.r, i', if Landing(s.history, s'.history).Some? then 1 else 0)
    ensures Landings(s'.history) == Landings(s.history) + if Landing(s.history, s'.history).Some? then 1 else 0
  {
    if |s'.history| > |s.history| {
      assert s'.history[..|s'.history| - 1] == s.history;
    } else {
      assert s'.history == s.history;
    }
    match ev
    case Submit =>
      i' :| R.Nearer(s.r, i, s'.r, i', if Landing(s.history, s'.history).Some? then 1 else 0);
    case Look => i' :| R.Nearer(s.r, i, s'.r, i', 0);
    case Wake(k) =>
      R.ActivateNearer(s.r, k, i);
      i' := i;
  }

  lemma {:induction false} RunNearer(states: seq<State>, evs: seq<Event>, p: Pipe, i: nat, n: nat) returns (i': nat)
    requires Run(states, evs) && n <= |evs| && i < states[0].r.active <= |states[0].r.items|
        && states[0].r.items[i] == p
    requires forall k :: 0 <= k < |evs| ==> Willing(states[k].sides, p)
    requires Spared(states[0].history, states[n].history, p)
    ensures states[0].history <= states[n].history && Landings(states[0].history) <= Landings(states[n].history)
    ensures R.Nearer(states[0].r, i, states[n].r, i', Landings(states[n].history) - Landings(states[0].history))
    decreases n
  {
    if n == 0 {
      i' := i;
    } else {
      assert Step(states[n - 1], states[n], evs[n - 1]);
      var k := RunNearer(states, evs, p, i, n - 1);
      i' := StepNearer(states[n - 1], states[n], evs[n - 1], p, k);
    }
  }

  /** Fairness: while an active pipe takes what it is offered and gets no message, at most as
      many messages land on others as its distance says; with `n` pipes that is at most `n - 1`. */
  lemma {:induction false} FairShare(states: seq<State>, evs: seq<Event>, p: Pipe, i: nat)
    requires Run(states, evs) && states[0].r.Ok() && i < states[0].r.active && states[0].r.items[i] == p
    requires forall k :: 0 <= k < |evs| ==> Willing(states[k].sides, p)
    requires Spared(states[0].history, states[|evs|].history, p)
    ensures states[|evs|].r.IsActive(p)
    ensures Landings(states[|evs|].history) - Landings(states[0].history) <= R.Distance(states[0].r, i)
    ensures R.Distance(states[0].r, i) <= |states[0].r.items| - 1
  {
    R.DistanceBound(states[0].r, i);
    var i' := RunNearer(states, evs, p, i, |evs|);
    var r := states[|evs|].r;
    R.DistanceBound(r, i');
    assert r.items[..r.active][i'] == p;
  }

  /** So a passive pipe that wakes and takes what it is offered waits no longer than that. */
  lemma {:induction false} WokenShare(states: seq<State>, evs: seq<Event>, p: Pipe)
    requires Run(states, evs) && evs != [] && evs[0].Wake? && evs[0].k < |states[0].r.items|
    requires states[0].r.items[evs[0].k] == p && forall k :: 1 <= k < |evs| ==> Willing(states[k].sides, p)
    requires Spared(states[0].history, states[|evs|].history, p)
    ensures states[|evs|].r.IsActive(p)
    ensures Landings(states[|evs|].history) - Landings(states[0].history) <= |states[0].r.items| - 1
  {
    assert Step(states[0], states[1], evs[0]);
    R.ActivateZones(states[0].r, evs[0].k);
    assert |evs| > 1 ==> Step(states[1], states[2], evs[1]);
    forall j | 0 <= j < |evs| - 1 ensures Step(states[1..][j], states[1..][j + 1], evs[1..][j]) {
      assert Step(states[j + 1], states[j + 2], evs[j + 1]);
    }
    forall k | 0 <= k < |evs| - 1 ensures Willing(states[1..][k].sides, p) { assert Willing(states[k + 1].sides, p); }
    FairShare(states[1..], evs[1..], p, states[0].r.active);
  }

  /** What landed on a pipe ends with the end of a message. */
  lemma {:induction false} LandedWhole(history: seq<Message>, p: Pipe)
    requires WholeMessages(history)
    ensures var s := Landed(history, p); s != [] ==> !s[|s| - 1].more
  {
    if history != [] {
      assert WholeMessages(history[..|history| - 1]);
      LandedWhole(history[..|history| - 1], p);
    }
  }

  /** So the peer of a pipe never sees the beginning of a message without its end, and
      what is behind the flushed frames is nothing or the begun message. */
  lemma FlushedWhole(r: R.Ring<Pipe>, sides: map<Pipe, Side>, history: seq<Message>, cur: seq<Frame>, more: bool,
          dropping: bool, p: Pipe)
    requires Good(r, sides, history, cur, more, dropping) && p in sides
    ensures var s := sides[p];
            && s.pub <= |s.out| && s.out[..s.pub] == Landed(history, p) && (s.pub > 0 ==> !s.out[s.pub - 1].more)
            && s.out[s.pub..] == if Holder(r, more, dropping) == Some(p) then cur else []
  {
    LandedWhole(history, p);
    var begun := if dropping then [] else cur;
    assert StreamOk(sides[p], Landed(history, p), if Holder(r, more, dropping) == Some(p) then begun else []);
  }
}
