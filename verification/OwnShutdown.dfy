/**
 Shutting down an ownership tree comes to an end: once the root is terminating and
 no object launches another, delivering commands destroys every object.
 */
module OwnShutdown {
  import opened Wrappers
  import opened OwnState
  import opened OwnTree

  // ---- a measure ----

  function Sum(ws: seq<int>): int {
    if ws == [] then 0 else ws[0] + Sum(ws[1..])
  }

  lemma {:induction false} SumUpdate(ws: seq<int>, i: nat, x: int)
    requires i < |ws|
    ensures Sum(ws[i := x]) == Sum(ws) - ws[i] + x
  {
    if i == 0 {
      assert ws[0 := x][1..] == ws[1..];
    } else {
      assert ws[i := x][1..] == ws[1..][i - 1 := x];
      SumUpdate(ws[1..], i - 1, x);
    }
  }

  lemma {:induction false} SumMonotone(ws: seq<int>, ws': seq<int>)
    requires |ws| == |ws'| && forall k :: 0 <= k < |ws| ==> ws'[k] <= ws[k]
    ensures Sum(ws') <= Sum(ws)
  {
    if ws != [] { SumMonotone(ws[1..], ws'[1..]); }
  }

  /** An object loses two and at most one other gains one. */
  lemma SumDrops(ws: seq<int>, ws': seq<int>, i: nat, p: nat)
    requires |ws| == |ws'| && i < |ws| && p < |ws| && i != p
    requires ws'[i] <= ws[i] - 2 && ws'[p] <= ws[p] + 1 && forall k :: 0 <= k < |ws| && k != i && k != p ==>
        ws'[k] <= ws[k]
    ensures Sum(ws') < Sum(ws)
  {
    var mid := ws[i := ws[i] - 2];
    SumUpdate(ws, i, ws[i] - 2);
    SumUpdate(mid, p, ws[p] + 1);
    SumMonotone(mid[p := ws[p] + 1], ws');
  }

  lemma SumDropsAlone(ws: seq<int>, ws': seq<int>, i: nat)
    requires |ws| == |ws'| && i < |ws|
    requires ws'[i] < ws[i] && forall k :: 0 <= k < |ws| && k != i ==> ws'[k] <= ws[k]
    ensures Sum(ws') < Sum(ws)
  {
    SumUpdate(ws, i, ws'[i]);
    SumMonotone(ws[i := ws'[i]], ws');
  }

  /** What an object still has to do: its commands, its unfinished launch, and its end. */
  function Weight(n: Node): nat {
    |n.box| + (if n.o.launching.Some? then 2 else 0)
    + if !n.o.alive then 0 else if n.o.terminating || Term in n.box then 1 else 2
  }

  function Weights(w: World): (ws: seq<int>)
    ensures |ws| == |w.nodes| && forall k :: 0 <= k < |ws| ==> ws[k] == Weight(w.nodes[k])
  {
    seq(|w.nodes|, k requires 0 <= k < |w.nodes| => Weight(w.nodes[k]))
  }

  function Measure(w: World): int {
    Sum(Weights(w))
  }

  lemma {:induction false} SumNonNegative(ws: seq<int>)
    requires forall k :: 0 <= k < |ws| ==> ws[k] >= 0
    ensures Sum(ws) >= 0
  {
    if ws != [] { SumNonNegative(ws[1..]); }
  }

  /** Delivery of a command, or the second half of a launch. */
  predicate Progressing(w: World, i: nat, act: Act) {
    Enabled(w, i, act) && (act.Deliver? || act.FinishLaunch?)
  }

  lemma OthersWeight(w: World, w': World, m: Move, k: nat)
    requires Turn(w, w', m) && k < |w.nodes| && k != m.i
    ensures Weight(w'.nodes[k]) <= Weight(w.nodes[k]) + if Notified(w, m, k) then 1 else 0
  {
    MailOf(w, w', m, k);
    if k in m.told {
      ToldAreUntold(w, w', m, k);
      TermWeighsNothing(w.nodes[k], w'.nodes[k]);
    }
  }

  /** A `term` to an object that had none only takes the place of what is to come. */
  lemma TermWeighsNothing(n: Node, n': Node)
    requires n'.o == n.o && n'.box == n.box + [Term] && n.o.alive && !n.o.terminating && Term !in n.box
    ensures Weight(n') <= Weight(n)
  {
  }

  lemma SelfWeight(w: World, w': World, m: Move)
    requires Turn(w, w', m) && |m.got| == 1
    ensures Weight(w'.nodes[m.i]) < Weight(w.nodes[m.i])
    ensures !m.o.alive ==> Weight(w'.nodes[m.i]) <= Weight(w.nodes[m.i]) - 2
  {
    InBoth(m.got, m.rest, Term);
  }

  lemma TurnLightens(w: World, w': World, m: Move)
    requires Turn(w, w', m) && |m.got| == 1 && (m.note.Some? ==> !m.o.alive)
    ensures Measure(w') < Measure(w)
  {
    SelfWeight(w, w', m);
    forall k: nat | k < |w.nodes| && k != m.i
      ensures Weights(w')[k] <= Weights(w)[k] + if Notified(w, m, k) then 1 else 0
    {
      OthersWeight(w, w', m, k);
    }
    if m.note.Some? {
      var p := w.nodes[m.i].o.owner.value;
      assert IsChild(w, p, m.i);
      SumDrops(Weights(w), Weights(w'), m.i, p);
    } else {
      SumDropsAlone(Weights(w), Weights(w'), m.i);
    }
  }

  lemma StepLightens(w: World, i: nat, act: Act)
    requires Inv(w) && Progressing(w, i, act)
    ensures Inv(Step(w, i, act)) && Measure(Step(w, i, act)) < Measure(w)
  {
    StepKeeps(w, i, act);
    if act.Deliver? {
      StepIsTurn(w, i, act);
      TurnLightens(w, Step(w, i, act), MoveOf(w, i, act, Outcome(w, i, act).o));
    } else {
      SumDropsAlone(Weights(w), Weights(LaunchFinished(w, i)), i);
    }
  }

  // ---- no state is stuck ----

  predicate Stuck(w: World) {
    forall i: nat :: i < |w.nodes| ==> !Progressing(w, i, Deliver) && !Progressing(w, i, FinishLaunch)
  }

  lemma Idle(w: World, i: nat)
    requires Inv(w) && Stuck(w) && i < |w.nodes|
    ensures w.nodes[i].box == [] && w.nodes[i].o.launching.None?
  {
    assert Balanced(w.nodes[i]);
    assert !Progressing(w, i, Deliver) && !Progressing(w, i, FinishLaunch);
  }

  /** Without commands in flight, termination has come down to every living object. */
  lemma {:induction false} AllTerminating(w: World, i: nat)
    requires Inv(w) && Stuck(w) && w.nodes[0].o.terminating && i < |w.nodes| && w.nodes[i].o.alive
    ensures w.nodes[i].o.terminating
    decreases i
  {
    if i > 0 {
      var p := w.nodes[i].o.owner.value;
      assert IsChild(w, p, i);
      OwnerAlive(w, p, i);
      AllTerminating(w, p);
      Idle(w, p);
      Idle(w, i);
      assert Balanced(w.nodes[p]) && Linked(w.nodes[p], w.nodes[i]);
    }
  }

  /** The youngest object alive would wait for a child, so there is none alive. */
  lemma {:induction false} AllGone(w: World, i: nat)
    requires Inv(w) && Stuck(w) && w.nodes[0].o.terminating && i <= |w.nodes|
    ensures forall k: nat :: i <= k < |w.nodes| ==> !w.nodes[k].o.alive
    decreases |w.nodes| - i
  {
    if i < |w.nodes| {
      AllGone(w, i + 1);
      if w.nodes[i].o.alive { WaitsForChild(w, i); }
    }
  }

  lemma WaitsForChild(w: World, i: nat)
    requires Inv(w) && Stuck(w) && w.nodes[0].o.terminating && i < |w.nodes| && w.nodes[i].o.alive
    ensures exists c :: i < c < |w.nodes| && w.nodes[c].o.alive
  {
    AllTerminating(w, i);
    Idle(w, i);
    assert Balanced(w.nodes[i]);
    var c :| c in w.nodes[i].o.asked;
    assert Knows(w.nodes[i], c) && Linked(w.nodes[i], w.nodes[c]);
    Idle(w, c);
  }

  // ---- runs ----

  ghost predicate Drive(w: World, evs: seq<Event>, w': World)
    decreases |evs|
  {
    if evs == [] then w' == w
    else Progressing(w, evs[0].i, evs[0].act) && Drive(Step(w, evs[0].i, evs[0].act), evs[1..], w')
  }

  lemma RootStays(w: World, i: nat, act: Act)
    requires Inv(w) && Progressing(w, i, act) && w.nodes[0].o.terminating
    ensures var w' := Step(w, i, act); |w'.nodes| > 0 && w'.nodes[0].o.terminating
  {
    if act.Deliver? {
      StepIsTurn(w, i, act);
      if i != 0 { MailOf(w, Step(w, i, act), MoveOf(w, i, act, Outcome(w, i, act).o), 0); }
    }
  }

  lemma {:induction false} DriveBounded(w: World, evs: seq<Event>, w': World)
    requires Inv(w) && w.nodes[0].o.terminating && Drive(w, evs, w')
    ensures Inv(w') && w'.nodes[0].o.terminating && Measure(w') + |evs| <= Measure(w)
    decreases |evs|
  {
    if evs != [] {
      StepLightens(w, evs[0].i, evs[0].act);
      RootStays(w, evs[0].i, evs[0].act);
      DriveBounded(Step(w, evs[0].i, evs[0].act), evs[1..], w');
    }
  }

  /** Once the root of a tree terminates and nobody launches any more, delivering
      commands ends after a bounded number of steps, and when no step is left every
      object has been destroyed. */
  lemma {:induction false} ShutsDown(before: seq<Event>, w: World, evs: seq<Event>, end: World)
    requires Run(NewTree(), before, w) && |w.nodes| > 0 && w.nodes[0].o.terminating && Drive(w, evs, end)
    ensures |evs| <= Measure(w)
    ensures Stuck(end) ==> forall i: nat :: i < |end.nodes| ==> !end.nodes[i].o.alive
  {
    InitInv();
    RunKeeps(NewTree(), before, w);
    DriveBounded(w, evs, end);
    SumNonNegative(Weights(end));
    if Stuck(end) { AllGone(end, 0); }
  }

  /** A child's own request is honoured exactly if its owner has already taken it over:
      a request that arrives before the takeover is lost. */
  lemma RequestHonoured(w: World, i: nat, c: nat)
    requires Inv(w) && Enabled(w, i, Deliver) && w.nodes[i].box[0] == TermReq(c)
    ensures var o' := Outcome(w, i, Deliver).o;
            c in o'.asked || c in o'.gone <==> Own(c) !in w.nodes[i].box
  {
    assert w.nodes[i].box[0] in w.nodes[i].box && Knows(w.nodes[i], c);
    assert Linked(w.nodes[i], w.nodes[c]) && Balanced(w.nodes[i]);
  }

  /** Such a request exists: a child that terminates before its owner has finished
      launching it. */
  lemma {:induction false} EarlyRequest(w: World)
    requires Run(NewTree(), [Event(0, Launch), Event(1, Act.Terminate), Event(0, FinishLaunch)], w)
    ensures Enabled(w, 0, Deliver) && w.nodes[0].box == [TermReq(1), Own(1)]
    ensures 1 !in Outcome(w, 0, Deliver).o.asked && 1 !in Outcome(w, 0, Deliver).o.gone
  {
    var launch, ask, finish := Event(0, Launch), Event(1, Act.Terminate), Event(0, FinishLaunch);
    var w1 := Step(NewTree(), 0, Launch);
    assert [launch, ask, finish][1..] == [ask, finish] && [ask, finish][1..] == [finish] && [finish][1..] == [];
    assert Run(w1, [ask, finish], w);
    var w2 := Step(w1, 1, Act.Terminate);
    assert Run(w2, [finish], w);
    assert Run(Step(w2, 0, FinishLaunch), [], w);
    InitInv();
    RunKeeps(NewTree(), [launch, ask, finish], w);
    assert w2.nodes[0].box == [TermReq(1)] by {
      assert PostAll(World(w1.nodes[1 := w1.nodes[1]], true), [Msg(0, TermReq(1))])
          == PostAll(Post(w1, Msg(0, TermReq(1))), []);
    }
    RequestHonoured(w, 0, 1);
  }
}
