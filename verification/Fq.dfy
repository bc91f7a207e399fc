/**
 Fair queuing over inbound pipes.
 */
module Fq {
  import opened Wrappers
  import opened PipeArray
  import R = Ring

  /** A writer flushes whole messages only: what can be read ends with the end of one. */
  predicate Whole(inbox: seq<Frame>) {
    inbox != [] ==> !inbox[|inbox| - 1].more
  }

  /** Every active pipe of `r` with something to read, other than those of `served`, is
      active in `r'` and nearer to its turn by `gain`. */
  ghost predicate Waiting(r: R.Ring<Pipe>, r': R.Ring<Pipe>, boxes: map<Pipe, seq<Frame>>, served: set<Pipe>, gain: nat)
  {
    forall i: nat ::
      i < r.active && i < |r.items| && r.items[i] in boxes && boxes[r.items[i]] != [] && r.items[i] !in served ==>
        exists i' :: R.Nearer(r, i, r', i', gain)
  }

  /** A pipe with nothing to read is skipped. */
  lemma WaitingSkip(r0: R.Ring<Pipe>, r: R.Ring<Pipe>, boxes: map<Pipe, seq<Frame>>)
    requires r.Ok() && r.active > 0 && Waiting(r0, r, boxes, {}, 0)
    requires r.items[r.current] in boxes && boxes[r.items[r.current]] == []
    ensures Waiting(r0, R.Retire(r, r.current), boxes, {}, 0)
  {
    forall i: nat | i < r0.active && i < |r0.items| && r0.items[i] in boxes && boxes[r0.items[i]] != []
      ensures exists i' :: R.Nearer(r0, i, R.Retire(r, r.current), i', 0)
    {
      var k :| R.Nearer(r0, i, r, k, 0);
      R.RetireNearer(r, k);
      assert R.Nearer(r0, i, R.Retire(r, r.current), if k == r.active - 1 then r.current else k, 0);
    }
  }

  /** The current pipe has completed a message. */
  lemma WaitingServe(r0: R.Ring<Pipe>, r: R.Ring<Pipe>, boxes: map<Pipe, seq<Frame>>)
    requires r.Ok() && r.active > 0 && Waiting(r0, r, boxes, {}, 0)
    ensures Waiting(r0, R.Advance(r), boxes, {r.items[r.current]}, 1)
  {
    var p := r.items[r.current];
    forall i: nat | i < r0.active && i < |r0.items| && r0.items[i] in boxes && boxes[r0.items[i]] != []
        && r0.items[i] != p
      ensures exists i' :: R.Nearer(r0, i, R.Advance(r), i', 1)
    {
      var k :| R.Nearer(r0, i, r, k, 0);
      R.AdvanceNearer(r, k);
      assert R.Nearer(r0, i, R.Advance(r), k, 1);
    }
  }

  /** The search for a frame began with `r0` and has come to `r`: what it skipped had
      nothing to read. */
  ghost predicate Search(r0: R.Ring<Pipe>, r: R.Ring<Pipe>, boxes: map<Pipe, seq<Frame>>) {
    && r0.Ok() && r.Ok() && r.active <= r0.active && Waiting(r0, r, boxes, {}, 0)
    && (set p | p in r.items) == boxes.Keys
    && (forall i :: 0 <= i < r0.active ==>
          r0.items[i] in boxes && (r.IsActive(r0.items[i]) || boxes[r0.items[i]] == []))
    && (forall i :: 0 <= i < r.active ==> r0.IsActive(r.items[i]))
  }

  lemma SearchStart(r: R.Ring<Pipe>, boxes: map<Pipe, seq<Frame>>)
    requires r.Ok() && (set p | p in r.items) == boxes.Keys
    ensures Search(r, r, boxes)
  {
    forall i: nat | i < r.active && r.items[i] in boxes ensures exists i' :: R.Nearer(r, i, r, i', 0) {
      assert R.Nearer(r, i, r, i, 0);
    }
    forall i | 0 <= i < r.active ensures r.items[i] in boxes && r.IsActive(r.items[i]) {
      assert r.items[i] in r.items && r.items[..r.active][i] == r.items[i];
    }
  }

  lemma SearchSkip(r0: R.Ring<Pipe>, r: R.Ring<Pipe>, boxes: map<Pipe, seq<Frame>>)
    requires Search(r0, r, boxes) && r.active > 0 && r.items[r.current] in boxes && boxes[r.items[r.current]] == []
    ensures Search(r0, R.Retire(r, r.current), boxes)
  {
    var r' := R.Retire(r, r.current);
    R.RetireOk(r, r.current);
    WaitingSkip(r0, r, boxes);
    SwapKeeps(r.items, r.current, r.active - 1);
    forall i | 0 <= i < r0.active ensures r'.IsActive(r0.items[i]) || boxes[r0.items[i]] == [] {
      if r.IsActive(r0.items[i]) && r0.items[i] != r.items[r.current] { StaysActive(r, r0.items[i]); }
    }
    forall i | 0 <= i < r'.active ensures r0.IsActive(r'.items[i]) {
      assert r'.items[i] == r.items[if i == r.current then r.active - 1 else i];
    }
  }

  lemma StaysActive(r: R.Ring<Pipe>, p: Pipe)
    requires r.Ok() && r.active > 0 && r.IsActive(p) && p != r.items[r.current]
    ensures R.Retire(r, r.current).IsActive(p)
  {
    var r' := R.Retire(r, r.current);
    var k :| 0 <= k < r.active && r.items[..r.active][k] == p;
    var k' := if k == r.active - 1 then r.current else k;
    assert r'.items[..r'.active][k'] == p;
  }

  class Fq {
    const pipes: PipeArray
    var active: nat
    var current: nat
    var more: bool

    ghost function View(): R.Ring<Pipe>
      reads `active, `current, pipes
    {
      R.Ring(pipes.items, active, current)
    }

    /** In the middle of a message its pipe is current and has the rest of it. */
    ghost predicate Valid()
      reads this, pipes, pipes.items
    {
      && pipes.Valid() && View().Ok()
      && (forall p :: p in pipes.items ==> Whole(p.inbox))
      && (more ==> active > 0 && pipes.items[current].inbox != [])
    }

    constructor ()
      ensures Valid() && View() == R.Ring([], 0, 0) && !more && fresh(pipes)
    {
      active, current, more := 0, 0, false;
      pipes := new PipeArray();
    }

    method Attach(pipe: Pipe)
      requires Valid() && pipe !in pipes.items && Whole(pipe.inbox)
      modifies `active, pipes, pipes.items`arrayIndex, pipe`arrayIndex
      ensures Valid() && View() == R.Attach(old(View()), pipe)
      ensures View().Active() == old(View().Active()) + {pipe} && View().All() == old(View().All()) + {pipe}
    {
      R.AttachZones(View(), pipe);
      pipes.PushBack(pipe);
      pipes.Swap(|pipes.items| - 1, active);
      active := active + 1;
    }

    method Activated(pipe: Pipe)
      requires Valid() && pipe in pipes.items && pipe.arrayIndex >= active
      modifies `active, pipes, pipes.items`arrayIndex
      ensures Valid() && View() == R.Activate(old(View()), old(pipe.arrayIndex))
      ensures View().Active() == old(View().Active()) + {pipe} && View().All() == old(View().All())
    {
      R.ActivateZones(View(), pipe.arrayIndex);
      pipes.Swap(pipe.arrayIndex, active);
      active := active + 1;
    }

    /** In the middle of a message the next part is read from the same pipe exactly if that
        is another one and `current` stays with its pipe (see `Ring.TerminateFollows`). */
    method PipeTerminated(pipe: Pipe)
      requires Valid() && pipe in pipes.items
      modifies `active, `current, pipes, pipes.items`arrayIndex
      ensures pipes.Valid() && View() == R.Terminate(old(View()), old(pipe.arrayIndex)) && View().Ok()
      ensures View().Active() == old(View().Active()) - {pipe} && View().All() == old(View().All()) - {pipe}
      ensures forall p :: p in pipes.items ==> p in old(pipes.items) && p != pipe
      ensures var k := old(pipe.arrayIndex); var follows := k != old(current) && R.Stays(old(View()), k);
          && (!more || follows ==> Valid())
          && (more ==> (active > 0 && pipes.items[current] == old(pipes.items[current]) <==> follows))
    {
      var index := pipe.arrayIndex;
      ghost var r := View();
      R.TerminateZones(r, index);
      if more && index != current { R.TerminateFollows(r, index); }
      Leave(pipe);
    }

    /** The pipe is taken out of the array. */
    method Leave(pipe: Pipe)
      requires pipes.Valid() && View().Ok() && pipe in pipes.items
      modifies `active, `current, pipes, pipes.items`arrayIndex
      ensures pipes.Valid() && View() == R.Terminate(old(View()), old(pipe.arrayIndex))
      ensures forall p :: p in pipes.items ==> p in old(pipes.items) && p != pipe
    {
      var index := pipe.arrayIndex;
      if index < active {
        Retire(index);
      }
      Drop(pipe);
    }

    method Drop(pipe: Pipe)
      requires pipes.Valid() && pipe in pipes.items
      modifies pipes, pipes.items`arrayIndex
      ensures pipes.Valid() && View() == R.Drop(old(View()), old(pipe.arrayIndex))
      ensures forall p :: p in pipes.items ==> p in old(pipes.items) && p != pipe
    {
      pipes.Erase(pipe);
    }

    method Retire(k: nat)
      requires pipes.Valid() && k < active <= |pipes.items|
      modifies `active, `current, pipes, pipes.items`arrayIndex
      ensures pipes.Valid() && View() == R.Retire(old(View()), k)
      ensures pipes.items[active] == old(pipes.items)[k] && forall p :: p in pipes.items <==> p in old(pipes.items)
    {
      active := active - 1;
      pipes.Swap(k, active);
      if current == active {
        current := 0;
      }
    }

    /** The next frame and its pipe.  The parts of a message come in a row; a skipped pipe
        had nothing; every other pipe with something to read keeps its turn, and comes one
        nearer to it with every message that is not its own. */
    method RecvPipe(ghost all: set<Pipe>) returns (got: Option<(Pipe, Frame)>)
      requires Valid() && forall p :: p in all <==> p in pipes.items
      modifies `active, `current, `more, pipes, all
      ensures Valid() && forall p :: p in all <==> p in pipes.items
      ensures Received(old(View()), old(Inboxes(all)), old(more), View(), Inboxes(all), more, got)
    {
      ghost var r0, boxes := View(), Inboxes(all);
      SearchStart(r0, boxes);
      while active > 0
        invariant Searching(r0, boxes, all) && more == old(more) && (more ==> View() == r0)
        decreases active
      {
        ghost var r := View();
        assert pipes.items[current] in pipes.items;
        got := Take(all);
        if got.Some? {
          ServeReceived(r0, r, boxes, old(more), got.value.1);
          return;
        }
        SkipNext(r0, boxes, all);
      }
      NothingReceived(r0, View(), boxes);
      got := None;
    }

    /** The search has found nothing yet. */
    ghost predicate Searching(r0: R.Ring<Pipe>, boxes: map<Pipe, seq<Frame>>, all: set<Pipe>)
      reads this, pipes, pipes.items, all
    {
      Valid() && all == (set p | p in pipes.items) && Inboxes(all) == boxes && Search(r0, View(), boxes)
    }

    method SkipNext(ghost r0: R.Ring<Pipe>, ghost boxes: map<Pipe, seq<Frame>>, ghost all: set<Pipe>)
      requires Searching(r0, boxes, all) && active > 0 && !more && pipes.items[current].inbox == []
      modifies `active, `current, pipes, all`arrayIndex
      ensures Searching(r0, boxes, all) && active == old(active) - 1 && !more
    {
      assert pipes.items[current] in pipes.items;
      SearchSkip(r0, View(), boxes);
      Skip(all);
    }

    /** Tries to read from the current pipe. */
    method Take(ghost all: set<Pipe>) returns (got: Option<(Pipe, Frame)>)
      requires Valid() && active > 0 && forall p :: p in all <==> p in pipes.items
      modifies `current, `more, all`inbox
      ensures Valid()
      ensures var p := pipes.items[old(current)]; var boxes := old(Inboxes(all));
              && p in all
              && if boxes[p] == [] then
                   && got.None? && !more && Inboxes(all) == boxes && current == old(current) && more == old(more)
                 else
                   && got == Some((p, boxes[p][0])) && Inboxes(all) == boxes[p := boxes[p][1..]]
                   && more == boxes[p][0].more
                   && View() == if more then old(View()) else R.Advance(old(View()))
    {
      var p := pipes.items[current];
      assert p in pipes.items;
      ghost var inbox := p.inbox;
      var f := p.Read();
      if f.None? {
        return None;
      }
      assert inbox[1..] != [] ==> inbox[1..][|inbox| - 2] == inbox[|inbox| - 1];
      more := f.value.more;
      if !more {
        current := (current + 1) % active;
      }
      got := Some((p, f.value));
    }

    /** The current pipe had nothing to read. */
    method Skip(ghost all: set<Pipe>)
      requires Valid() && active > 0 && !more && forall p :: p in all <==> p in pipes.items
      modifies `active, `current, pipes, all`arrayIndex
      ensures Valid() && View() == R.Retire(old(View()), old(current)) && forall p :: p in all <==> p in pipes.items
      ensures Inboxes(all) == old(Inboxes(all)) && !more
    {
      R.RetireOk(View(), current);
      forall j | 0 <= j < |pipes.items| ensures pipes.items[j] in all { assert pipes.items[j] in pipes.items; }
      Retire(current);
    }

    /** Whether there is something to read; pipes with nothing are skipped. */
    method HasIn(ghost all: set<Pipe>) returns (has: bool)
      requires Valid() && forall p :: p in all <==> p in pipes.items
      modifies `active, `current, pipes, all`arrayIndex
      ensures Valid() && Inboxes(all) == old(Inboxes(all)) && forall p :: p in all <==> p in pipes.items
      ensures Looked(old(View()), View(), Inboxes(all), more)
      ensures has <==> Readable(old(View()), Inboxes(all))
    {
      if more {
        SearchStart(View(), Inboxes(all));
        CurrentFound(View(), View(), Inboxes(all));
        return true;
      }
      has := Find(all);
    }

    /** The search for a pipe with something to read. */
    method Find(ghost all: set<Pipe>) returns (has: bool)
      requires Valid() && !more && forall p :: p in all <==> p in pipes.items
      modifies `active, `current, pipes, all`arrayIndex
      ensures Valid() && Inboxes(all) == old(Inboxes(all)) && forall p :: p in all <==> p in pipes.items
      ensures Found(old(View()), View(), Inboxes(all), has)
    {
      ghost var r0, boxes := View(), Inboxes(all);
      SearchStart(r0, boxes);
      while active > 0
        invariant Searching(r0, boxes, all) && !more
        decreases active
      {
        var p := pipes.items[current];
        assert p in pipes.items;
        var ready := p.CheckRead();
        if ready {
          SomethingFound(r0, View(), boxes);
          return true;
        }
        SkipNext(r0, boxes, all);
      }
      NothingFound(r0, View(), boxes);
      has := false;
    }
  }

  /** What `has_in` may do to the rotation: nothing in the middle of a message. */
  ghost predicate Looked(r: R.Ring<Pipe>, r': R.Ring<Pipe>, boxes: map<Pipe, seq<Frame>>, more: bool) {
    if more then r' == r else r'.Ok() && Waiting(r, r', boxes, {}, 0)
  }

  ghost predicate Found(r: R.Ring<Pipe>, r': R.Ring<Pipe>, boxes: map<Pipe, seq<Frame>>, has: bool) {
    r'.Ok() && Waiting(r, r', boxes, {}, 0) && (has <==> Readable(r, boxes))
  }

  ghost predicate Readable(r: R.Ring<Pipe>, boxes: map<Pipe, seq<Frame>>) {
    exists p :: p in boxes && r.IsActive(p) && boxes[p] != []
  }

  lemma CurrentFound(r0: R.Ring<Pipe>, r: R.Ring<Pipe>, boxes: map<Pipe, seq<Frame>>)
    requires Search(r0, r, boxes) && r.active > 0
    ensures r.items[r.current] in boxes && (boxes[r.items[r.current]] != [] ==> Readable(r0, boxes))
  {
    assert r.items[r.current] in r.items;
  }

  /** What `recvpipe` did with the pipes, of which `boxes` were still to be read. */
  ghost predicate Received(r: R.Ring<Pipe>, boxes: map<Pipe, seq<Frame>>, more: bool,
                           r': R.Ring<Pipe>, boxes': map<Pipe, seq<Frame>>, more': bool, got: Option<(Pipe, Frame)>)
  {
    match got
    case None =>
      && !more && !more' && r'.active == 0 && boxes' == boxes
      && forall p :: p in boxes && r.IsActive(p) ==> boxes[p] == []
    case Some((p, f)) =>
      && p in boxes && r.IsActive(p) && boxes[p] != [] && f == boxes[p][0] && boxes' == boxes[p := boxes[p][1..]]
      && more' == f.more
      && (more ==> r.current < |r.items| && p == r.items[r.current])
      && (more' ==> r'.current < r'.active <= |r'.items| && p == r'.items[r'.current])
      && Waiting(r, r', boxes, {p}, if more' then 0 else 1)
  }

  lemma ServeReceived(r0: R.Ring<Pipe>, r: R.Ring<Pipe>, boxes: map<Pipe, seq<Frame>>, more: bool, f: Frame)
    requires Search(r0, r, boxes) && r.active > 0 && (more ==> r == r0)
    requires boxes[r.items[r.current]] != [] && f == boxes[r.items[r.current]][0]
    ensures var p := r.items[r.current];
            Received(r0, boxes, more, if f.more then r else R.Advance(r), boxes[p := boxes[p][1..]], f.more,
                Some((p, f)))
  {
    WaitingServe(r0, r, boxes);
  }

  lemma NothingReceived(r0: R.Ring<Pipe>, r: R.Ring<Pipe>, boxes: map<Pipe, seq<Frame>>)
    requires Search(r0, r, boxes) && r.active == 0
    ensures Received(r0, boxes, false, r, boxes, false, None)
  {
    forall p | p in boxes && r0.IsActive(p) ensures boxes[p] == [] {
      var i :| 0 <= i < r0.active && r0.items[..r0.active][i] == p;
      assert r0.items[i] == p;
    }
  }

  lemma SomethingFound(r0: R.Ring<Pipe>, r: R.Ring<Pipe>, boxes: map<Pipe, seq<Frame>>)
    requires Search(r0, r, boxes) && r.active > 0 && r.items[r.current] in boxes && boxes[r.items[r.current]] != []
    ensures Found(r0, r, boxes, true)
  {
    CurrentFound(r0, r, boxes);
  }

  lemma NothingFound(r0: R.Ring<Pipe>, r: R.Ring<Pipe>, boxes: map<Pipe, seq<Frame>>)
    requires Search(r0, r, boxes) && r.active == 0
    ensures Found(r0, r, boxes, false)
  {
    NothingReceived(r0, r, boxes);
  }

  // ---- runs ----

  datatype State = State(r: R.Ring<Pipe>, boxes: map<Pipe, seq<Frame>>, more: bool)

  /** A call of `recvpipe` with its result, of `has_in`, of `activated`, or the arrival of
      frames in a pipe. */
  datatype Event = Recv(got: Option<(Pipe, Frame)>) | Look | Wake(k: nat) | Arrive(p: Pipe, frames: seq<Frame>)

  ghost predicate Step(s: State, s': State, ev: Event) {
    && s.r.Ok()
    && match ev
       case Recv(got) => Received(s.r, s.boxes, s.more, s'.r, s'.boxes, s'.more, got)
       case Look => Looked(s.r, s'.r, s.boxes, s.more) && s' == s.(r := s'.r)
       case Wake(k) => s.r.active <= k < |s.r.items| && s' == s.(r := R.Activate(s.r, k))
       case Arrive(p, frames) => p in s.boxes && Whole(frames) && s' == s.(boxes := s.boxes[p := s.boxes[p] + frames])
  }

  ghost predicate Run(states: seq<State>, evs: seq<Event>) {
    |states| == |evs| + 1 && states[|evs|].r.Ok() && forall i :: 0 <= i < |evs| ==>
        Step(states[i], states[i + 1], evs[i])
  }

  /** The messages completed during a run. */
  function Messages(evs: seq<Event>): nat {
    if evs == [] then 0
    else (if evs[0].Recv? && evs[0].got.Some? && !evs[0].got.value.1.more then 1 else 0) + Messages(evs[1..])
  }

  predicate Serves(ev: Event, p: Pipe) {
    ev.Recv? && ev.got.Some? && ev.got.value.0 == p
  }

  /** A pipe with something to read stays in the rotation as long as it is not served, and
      comes one nearer to its turn with every message of another. */
  lemma StepNearer(s: State, s': State, ev: Event, p: Pipe, i: nat) returns (i': nat)
    requires Step(s, s', ev) && i < s.r.active && s.r.items[i] == p && p in s.boxes && s.boxes[p] != []
        && !Serves(ev, p)
    ensures R.Nearer(s.r, i, s'.r, i', Messages([ev])) && p in s'.boxes && s'.boxes[p] != []
  {
    assert [ev][1..] == [];
    assert s.r.items[..s.r.active][i] == p;
    match ev
    case Recv(got) => i' :| R.Nearer(s.r, i, s'.r, i', if s'.more then 0 else 1);
    case Look =>
      if s.more { i' := i; } else { i' :| R.Nearer(s.r, i, s'.r, i', 0); }
    case Wake(k) =>
      R.ActivateNearer(s.r, k, i);
      i' := i;
    case Arrive(q, frames) => i' := i;
  }

  /** Fairness: while an active pipe has something to read and is not served, at most as
      many messages of others are received as its distance says; with `n` pipes that is
      at most `n - 1`. */
  lemma {:induction false} FairTurn(states: seq<State>, evs: seq<Event>, p: Pipe, i: nat)
    requires Run(states, evs) && i < states[0].r.active && i < |states[0].r.items| && states[0].r.items[i] == p
    requires states[0].r.Ok() && p in states[0].boxes && states[0].boxes[p] != []
    requires forall k :: 0 <= k < |evs| ==> !Serves(evs[k], p)
    ensures Messages(evs) <= R.Distance(states[0].r, i) <= |states[0].r.items| - 1
    decreases |evs|
  {
    R.DistanceBound(states[0].r, i);
    if evs != [] {
      assert Step(states[0], states[1], evs[0]);
      var i' := StepNearer(states[0], states[1], evs[0], p, i);
      assert |evs| > 1 ==> Step(states[1], states[2], evs[1]);
      assert forall k :: 0 <= k < |evs| - 1 ==> Step(states[1..][k], states[1..][k + 1], evs[1..][k]) by {
        forall k | 0 <= k < |evs| - 1 ensures Step(states[1..][k], states[1..][k + 1], evs[1..][k]) {
          assert Step(states[k + 1], states[k + 2], evs[k + 1]);
        }
      }
      FairTurn(states[1..], evs[1..], p, i');
      assert [evs[0]][1..] == [];
    }
  }

  /** So a passive pipe that wakes with something to read waits no longer than that. */
  lemma {:induction false} WokenTurn(states: seq<State>, evs: seq<Event>, p: Pipe)
    requires Run(states, evs) && evs != [] && evs[0].Wake? && evs[0].k < |states[0].r.items|
    requires states[0].r.items[evs[0].k] == p && p in states[0].boxes && states[0].boxes[p] != []
    requires forall j :: 1 <= j < |evs| ==> !Serves(evs[j], p)
    ensures states[1].r.IsActive(p) && Messages(evs) <= |states[0].r.items| - 1
  {
    assert Step(states[0], states[1], evs[0]);
    R.ActivateZones(states[0].r, evs[0].k);
    assert states[1].r.items[..states[1].r.active][states[0].r.active] == p;
    assert |evs| > 1 ==> Step(states[1], states[2], evs[1]);
    forall j | 0 <= j < |evs| - 1 ensures Step(states[1..][j], states[1..][j + 1], evs[1..][j]) {
      assert Step(states[j + 1], states[j + 2], evs[j + 1]);
    }
    FairTurn(states[1..], evs[1..], p, states[0].r.active);
  }

  /** What holds of a state the class can be in: see `Fq.Valid`. */
  ghost predicate Sane(s: State) {
    && s.r.Ok() && (forall p :: p in s.boxes ==> Whole(s.boxes[p]))
    && (s.more ==> s.r.active > 0 && s.r.items[s.r.current] in s.boxes && s.boxes[s.r.items[s.r.current]] != [])
  }

  /** The frames received, each with its pipe. */
  function Output(evs: seq<Event>): seq<(Pipe, Frame)> {
    if evs == [] then []
    else
      var ev := evs[|evs| - 1];
      Output(evs[..|evs| - 1]) + if ev.Recv? && ev.got.Some? then [ev.got.value] else []
  }

  /** The last frame received announced another one. */
  predicate Mid(out: seq<(Pipe, Frame)>) {
    out != [] && out[|out| - 1].1.more
  }

  /** The parts of a message come in a row, from one pipe. */
  predicate InRows(out: seq<(Pipe, Frame)>) {
    forall k :: 0 <= k < |out| - 1 && out[k].1.more ==> out[k + 1].0 == out[k].0
  }

  /** The state remembers the message it is in the middle of. */
  ghost predicate Remembers(s: State, out: seq<(Pipe, Frame)>) {
    Sane(s) && (s.more <==> Mid(out)) && (s.more ==> s.r.items[s.r.current] == out[|out| - 1].0)
  }

  lemma StepRemembers(s: State, s': State, ev: Event, out: seq<(Pipe, Frame)>)
    requires Remembers(s, out) && Step(s, s', ev) && s'.r.Ok() && InRows(out)
    ensures var out' := out + (if ev.Recv? && ev.got.Some? then [ev.got.value] else []);
            Remembers(s', out') && InRows(out') && (ev == Recv(None) ==> !Mid(out))
  {
    match ev
    case Recv(got) =>
      if got.Some? {
        var (p, f) := got.value;
        assert Whole(s.boxes[p][1..]) by {
          assert s.boxes[p][1..] != [] ==> s.boxes[p][1..][|s.boxes[p]| - 2] == s.boxes[p][|s.boxes[p]| - 1];
        }
      }
    case Look =>
    case Wake(k) => R.ActivateOk(s.r, k);
    case Arrive(p, frames) =>
  }

  lemma RunPrefix(states: seq<State>, evs: seq<Event>)
    requires Run(states, evs) && evs != [] && states[|evs| - 1].r.Ok()
    ensures Run(states[..|evs|], evs[..|evs| - 1])
  {
    forall i | 0 <= i < |evs| - 1 ensures Step(states[..|evs|][i], states[..|evs|][i + 1], evs[..|evs| - 1][i]) {
      assert Step(states[i], states[i + 1], evs[i]);
    }
  }

  /** Frames leave as whole messages, whatever calls, looks, activations and arrivals lie
      between them, and the rest of a begun message is never missing. */
  lemma {:induction false} WholeMessages(states: seq<State>, evs: seq<Event>)
    requires Run(states, evs) && Sane(states[0]) && !states[0].more
    ensures InRows(Output(evs)) && Remembers(states[|evs|], Output(evs))
    ensures forall i :: 0 <= i < |evs| && evs[i] == Recv(None) ==> !Mid(Output(evs[..i]))
    decreases |evs|
  {
    if evs != [] {
      var n := |evs| - 1;
      assert Step(states[n], states[n + 1], evs[n]);
      RunPrefix(states, evs);
      WholeMessages(states[..n + 1], evs[..n]);
      StepRemembers(states[n], states[n + 1], evs[n], Output(evs[..n]));
      forall i | 0 <= i < |evs| && evs[i] == Recv(None) ensures !Mid(Output(evs[..i])) {
        if i < n { assert evs[..n][i] == evs[i] && evs[..n][..i] == evs[..i]; }
      }
    }
  }

  function Taken(ev: Event, p: Pipe): seq<Frame> {
    if Serves(ev, p) then [ev.got.value.1] else []
  }

  function Added(ev: Event, p: Pipe): seq<Frame> {
    if ev.Arrive? && ev.p == p then ev.frames else []
  }

  function Popped(evs: seq<Event>, p: Pipe): seq<Frame> {
    if evs == [] then [] else Popped(evs[..|evs| - 1], p) + Taken(evs[|evs| - 1], p)
  }

  function Arrived(evs: seq<Event>, p: Pipe): seq<Frame> {
    if evs == [] then [] else Arrived(evs[..|evs| - 1], p) + Added(evs[|evs| - 1], p)
  }

  /** Every pipe's frames are received in the order they arrived, each exactly once. */
  lemma {:induction false} FifoPerPipe(states: seq<State>, evs: seq<Event>, p: Pipe)
    requires Run(states, evs) && p in states[0].boxes
    ensures p in states[|evs|].boxes && Popped(evs, p) + states[|evs|].boxes[p] == states[0].boxes[p] + Arrived(evs, p)
    decreases |evs|
  {
    if evs != [] {
      var n := |evs| - 1;
      assert Step(states[n], states[n + 1], evs[n]);
      RunPrefix(states, evs);
      FifoPerPipe(states[..n + 1], evs[..n], p);
      var popped, arrived := Taken(evs[n], p), Added(evs[n], p);
      StepFifo(states[n], states[n + 1], evs[n], p);
      Rejoin(Popped(evs[..n], p), states[n].boxes[p], states[0].boxes[p], Arrived(evs[..n], p), popped,
          states[n + 1].boxes[p], arrived);
    }
  }

  lemma Rejoin<T>(out: seq<T>, rest: seq<T>, start: seq<T>, inp: seq<T>, taken: seq<T>, rest': seq<T>, added: seq<T>)
    requires out + rest == start + inp && taken + rest' == rest + added
    ensures (out + taken) + rest' == start + (inp + added)
  {
    assert (out + taken) + rest' == out + (rest + added) == (out + rest) + added == start + (inp + added);
  }

  lemma StepFifo(s: State, s': State, ev: Event, p: Pipe)
    requires Step(s, s', ev) && p in s.boxes
    ensures p in s'.boxes && Taken(ev, p) + s'.boxes[p] == s.boxes[p] + Added(ev, p)
  {
  }
}
