/**
 The shutdown of an ownership tree of any size: objects that launch children, ask
 for termination and handle their commands in any interleaving, with a FIFO of
 commands to each object.
 */
module OwnTree {
  import opened Wrappers
  import opened OwnState

  datatype Node = Node(o: Obj, box: seq<Cmd>)

  /** Objects are numbered in the order they were created; object 0 is the root.
      `ok` says that nothing has gone wrong so far: no assertion failed and no command
      went to an object that is gone. */
  datatype World = World(nodes: seq<Node>, ok: bool)

  function NewTree(): World {
    World([Node(NewObj(0, None), [])], true)
  }

  /** What can happen at an object.  `launch_child` is two steps, between which the
      object does nothing else; `SendBind` is some other object's command to it. */
  datatype Act = Launch | FinishLaunch | TermChild(child: nat) | Terminate | SendBind | Deliver

  predicate Enabled(w: World, i: nat, act: Act) {
    && i < |w.nodes| && w.nodes[i].o.alive
    && (act.FinishLaunch? <==> w.nodes[i].o.launching.Some? && !act.SendBind?)
    && (act.Deliver? ==> w.nodes[i].box != [])
  }

  function Post(w: World, m: Msg): World {
    if m.to >= |w.nodes| || !w.nodes[m.to].o.alive then w.(ok := false)
    else w.(nodes := w.nodes[m.to := w.nodes[m.to].(box := w.nodes[m.to].box + [m.cmd])])
  }

  function PostAll(w: World, out: seq<Msg>): World
    decreases |out|
  {
    if out == [] then w else PostAll(Post(w, out[0]), out[1..])
  }

  /** A new object, already plugged by its owner `i`. */
  function Launched(w: World, i: nat): World
    requires i < |w.nodes|
  {
    var id := |w.nodes|;
    var o := w.nodes[i].o;
    w.(nodes := w.nodes[i := w.nodes[i].(o := o.(launching := Some(id)))]
        + [Node(NewObj(id, Some(i)).(sentSeqnum := 1), [Plug])])
  }

  function LaunchFinished(w: World, i: nat): World
    requires i < |w.nodes| && w.nodes[i].o.launching.Some?
  {
    var n := w.nodes[i];
    w.(nodes := w.nodes[i :=
        Node(n.o.(launching := None, sentSeqnum := n.o.sentSeqnum + 1), n.box + [Own(n.o.launching.value)])])
  }

  function Bound(w: World, i: nat): World
    requires i < |w.nodes|
  {
    var n := w.nodes[i];
    w.(nodes := w.nodes[i := Node(n.o.(sentSeqnum := n.o.sentSeqnum + 1), n.box + [Bind])])
  }

  ghost function Outcome(w: World, i: nat, act: Act): Env
    requires Enabled(w, i, act)
  {
    var v := Env(w.nodes[i].o, [], true);
    match act
    case TermChild(child) => ProcessTermReq(v, child)
    case Terminate => OwnState.Terminate(v)
    case Deliver => ProcessCommand(v, w.nodes[i].box[0])
    case _ => v
  }

  function Got(w: World, i: nat, act: Act): seq<Cmd>
    requires Enabled(w, i, act)
  {
    if act.Deliver? then [w.nodes[i].box[0]] else []
  }

  function Rest(w: World, i: nat, act: Act): seq<Cmd>
    requires Enabled(w, i, act)
  {
    if act.Deliver? then w.nodes[i].box[1..] else w.nodes[i].box
  }

  /** Object `i` becomes `v.o` and its messages are posted. */
  function Leave(w: World, i: nat, v: Env, rest: seq<Cmd>): World
    requires i < |w.nodes|
  {
    PostAll(World(w.nodes[i := Node(v.o, rest)], w.ok && v.ok), v.out)
  }

  ghost function Step(w: World, i: nat, act: Act): World
    requires Enabled(w, i, act)
  {
    match act
    case Launch => Launched(w, i)
    case FinishLaunch => LaunchFinished(w, i)
    case SendBind => Bound(w, i)
    case _ => Leave(w, i, Outcome(w, i, act), Rest(w, i, act))
  }

  // ---- the invariant ----

  function Sequenced(box: seq<Cmd>): nat {
    if box == [] then 0 else (if box[0].Sequenced() then 1 else 0) + Sequenced(box[1..])
  }

  lemma {:induction false} SequencedAppend(x: seq<Cmd>, y: seq<Cmd>)
    ensures Sequenced(x + y) == Sequenced(x) + Sequenced(y)
  {
    if x == [] {
      assert x + y == y;
    } else {
      assert (x + y)[1..] == x[1..] + y;
      SequencedAppend(x[1..], y);
    }
  }

  /** Takeovers, requests to end and their acknowledgements come once, and a child's
      own requests do not come after its acknowledgement. */
  predicate InOrder(c: Cmd, d: Cmd) {
    && (c == d ==> c.Plug? || c.Bind? || c.TermReq?)
    && (c.TermAck? && d.TermReq? ==> c.from != d.child)
  }

  predicate Ordered(box: seq<Cmd>) {
    forall i, j :: 0 <= i < j < |box| ==> InOrder(box[i], box[j])
  }

  /** One object by itself. */
  predicate Balanced(n: Node) {
    && n.o.sentSeqnum == n.o.processedSeqnum + Sequenced(n.box)
    && n.o.termAcks == |n.o.asked|
    && (n.o.terminating ==> n.o.owned == {})
    && Ordered(n.box)
    && (if n.o.alive then n.o.terminating ==> n.o.sentSeqnum != n.o.processedSeqnum || n.o.asked != {}
        else n.o.terminating && n.o.asked == {} && n.o.launching.None? && n.box == [])
  }

  /** Whatever an object's records and commands are about is its child. */
  predicate Knows(p: Node, child: nat) {
    || p.o.launching == Some(child) || child in p.o.owned || child in p.o.asked || child in p.o.gone
    || Own(child) in p.box || TermReq(child) in p.box || TermAck(child) in p.box
  }

  predicate IsChild(w: World, p: nat, c: nat) {
    p < c < |w.nodes| && w.nodes[c].o.owner == Some(p)
  }

  function One(b: bool): int {
    if b then 1 else 0
  }

  /** Where a child is in its life, as its owner knows it: exactly one of these. */
  predicate OnePhase(p: Node, c: nat) {
    One(p.o.launching == Some(c)) + One(Own(c) in p.box) + One(c in p.o.owned) + One(c in p.o.asked)
        + One(c in p.o.gone) == 1
  }

  /** A child that was asked is about to be told, or terminating, or its
      acknowledgement is on the way: exactly one of these. */
  predicate OneAnswer(p: Node, child: Node) {
    var c := child.o.id;
    && One(Term in child.box) + One(child.o.alive && child.o.terminating) + One(TermAck(c) in p.box) == 1
    && (child.o.alive <==> TermAck(c) !in p.box)
  }

  predicate Untold(p: Node, child: Node) {
    child.o.alive && !child.o.terminating && Term !in child.box && TermAck(child.o.id) !in p.box
  }

  predicate Buried(p: Node, child: Node) {
    !child.o.alive && TermAck(child.o.id) !in p.box && TermReq(child.o.id) !in p.box
  }

  predicate Linked(p: Node, child: Node) {
    var c := child.o.id;
    && OnePhase(p, c)
    && (if c in p.o.asked then OneAnswer(p, child) else if c in p.o.gone then Buried(p, child) else Untold(p, child))
  }

  ghost predicate Inv(w: World) {
    && w.ok && |w.nodes| > 0 && w.nodes[0].o.owner.None? && Term !in w.nodes[0].box
    && (forall i: nat :: i < |w.nodes| ==> w.nodes[i].o.id == i && Balanced(w.nodes[i]))
    && (forall p: nat, c: nat :: p < |w.nodes| && Knows(w.nodes[p], c) ==> IsChild(w, p, c))
    && (forall c: nat :: 0 < c < |w.nodes| ==> w.nodes[c].o.owner.Some? && w.nodes[c].o.owner.value < c)
    && (forall p: nat, c: nat :: IsChild(w, p, c) ==> Linked(w.nodes[p], w.nodes[c]))
  }

  lemma InitInv()
    ensures Inv(NewTree())
  {
  }

  // ---- one object's step ----

  function Acked(got: seq<Cmd>): set<nat> {
    if got != [] && got[0].TermAck? then {got[0].from} else {}
  }

  function Taken(got: seq<Cmd>): set<nat> {
    if got != [] && got[0].Own? then {got[0].child} else {}
  }

  /** How an object changes that takes the commands `got`, asks the children `told` to
      terminate and sends `note` to its owner. */
  ghost predicate Moves(o: Obj, o': Obj, got: seq<Cmd>, told: set<nat>, note: Option<Cmd>) {
    && Counts(o, o', got, told)
    && (o'.alive <==> !(o'.terminating && o'.sentSeqnum == o'.processedSeqnum && o'.asked == {}))
    && (if o.owner.None? then note.None?
        else if o'.alive then note.None? || note == Some(TermReq(o.id))
        else note == Some(TermAck(o.id)))
  }

  /** How its fields change but for its end. */
  ghost predicate Counts(o: Obj, o': Obj, got: seq<Cmd>, told: set<nat>) {
    && o'.id == o.id && o'.owner == o.owner && o'.sentSeqnum == o.sentSeqnum && o'.launching == o.launching
    && o'.processedSeqnum == o.processedSeqnum + Sequenced(got)
    && o'.gone == o.gone + Acked(got) && o'.asked == o.asked + told - Acked(got) && o'.termAcks == |o'.asked|
    && told <= o.owned + Taken(got) && told * Acked(got) == {}
    && o'.owned == o.owned + Taken(got) - told
    && (o.terminating ==> o'.terminating) && (Term in got ==> o'.terminating)
    && (o'.terminating && !o.terminating ==> Term in got || o.owner.None?)
    && (o'.terminating ==> o'.owned == {})
  }

  /** What a handler may rely on. */
  predicate MayTake(o: Obj, got: seq<Cmd>) {
    && |got| <= 1 && o.alive && o.launching.None? && o.owned * o.asked == {} && o.termAcks == |o.asked|
    && (o.terminating ==> o.owned == {} && (o.sentSeqnum != o.processedSeqnum || o.asked != {}))
    && Acked(got) <= o.asked && Taken(got) !! o.asked + o.owned
    && (Term in got ==> !o.terminating)
  }

  ghost function Letters(told: set<nat>, o: Obj, note: Option<Cmd>): seq<Msg> {
    Terms(told) + if note.Some? && o.owner.Some? then [Msg(o.owner.value, note.value)] else []
  }

  lemma TermsOne(c: nat)
    ensures Terms({c}) == [Msg(c, Term)]
  {
    HasLeast({c});
    var x :| IsLeast(x, {c});
    assert {c} - {x} == {};
  }

  /** Everything a step may do: `told` and `note` are read off the objects. */
  function Told(o: Obj, o': Obj): set<nat> {
    o'.asked - o.asked
  }

  function Note(o: Obj, o': Obj): Option<Cmd> {
    if o'.alive || o.owner.None? then None else Some(TermAck(o.id))
  }

  ghost predicate Results(o: Obj, v': Env, got: seq<Cmd>, note: Option<Cmd>) {
    v'.ok && Moves(o, v'.o, got, Told(o, v'.o), note) && v'.out == Letters(Told(o, v'.o), o, note)
  }

  lemma OneCmd(c: Cmd)
    ensures Sequenced([c]) == if c.Sequenced() then 1 else 0
  {
    assert [c][1..] == [];
  }

  /** The check that ends most handlers: `o1` is the object before it. */
  lemma CheckMoves(o: Obj, o1: Obj, got: seq<Cmd>, told: set<nat>)
    requires Counts(o, o1, got, told) && o1.alive
    ensures var v' := CheckTermAcks(Env(o1, Terms(told), true));
            v'.ok && Moves(o, v'.o, got, told, Note(o, v'.o)) && v'.out == Letters(told, o, Note(o, v'.o))
                && v'.o == o1.(alive := v'.o.alive)
  {
  }

  lemma SeqnumMoves(o: Obj, cmd: Cmd)
    requires MayTake(o, [cmd]) && (cmd.Plug? || cmd.Bind?)
    ensures var v' := ProcessCommand(Env(o, [], true), cmd); Results(o, v', [cmd], Note(o, v'.o))
  {
    OneCmd(cmd);
    var o1 := o.(processedSeqnum := o.processedSeqnum + 1);
    CheckMoves(o, o1, [cmd], {});
    assert Told(o, o1) == {};
  }

  lemma OwnMoves(o: Obj, child: nat)
    requires MayTake(o, [Own(child)])
    ensures var v' := ProcessCommand(Env(o, [], true), Own(child)); Results(o, v', [Own(child)], Note(o, v'.o))
  {
    OneCmd(Own(child));
    assert child !in o.asked && child !in o.owned;
    if o.terminating { OwnAsks(o, child); } else { OwnTakes(o, child); }
  }

  lemma OwnAsks(o: Obj, child: nat)
    requires MayTake(o, [Own(child)]) && o.terminating && child !in o.asked && Sequenced([Own(child)]) == 1
    ensures var v' := ProcessCommand(Env(o, [], true), Own(child)); Results(o, v', [Own(child)], Note(o, v'.o))
  {
    TermsOne(child);
    var v' := ProcessCommand(Env(o, [], true), Own(child));
    assert v'.o.asked == o.asked + {child} && v'.o.alive;
    assert Told(o, v'.o) == {child};
  }

  lemma OwnTakes(o: Obj, child: nat)
    requires MayTake(o, [Own(child)]) && !o.terminating && Sequenced([Own(child)]) == 1
    ensures var v' := ProcessCommand(Env(o, [], true), Own(child)); Results(o, v', [Own(child)], Note(o, v'.o))
  {
    var v' := ProcessCommand(Env(o, [], true), Own(child));
    assert v' == Env(o.(owned := o.owned + {child}, processedSeqnum := o.processedSeqnum + 1), [], true);
    assert Told(o, v'.o) == {} && o.owned + {child} - {} == o.owned + {child} && o.asked + {} - {} == o.asked;
  }

  /** A request about an owned child is passed on; any other is ignored. */
  lemma TermReqMoves(o: Obj, child: nat, got: seq<Cmd>)
    requires MayTake(o, got) && (got == [] || got == [TermReq(child)])
    ensures var v' := ProcessTermReq(Env(o, [], true), child); Results(o, v', got, None)
  {
    OneCmd(TermReq(child));
    var v := Env(o, [], true);
    if !o.terminating && child in o.owned {
      TermReqAsks(o, child, got);
    } else {
      assert ProcessTermReq(v, child) == v;
      IdleMoves(o, got);
    }
  }

  lemma IdleMoves(o: Obj, got: seq<Cmd>)
    requires MayTake(o, got) && Sequenced(got) == 0 && Acked(got) == {} && Taken(got) == {} && Term !in got
    ensures Results(o, Env(o, [], true), got, None)
  {
    assert Told(o, o) == {};
  }

  lemma TermReqAsks(o: Obj, child: nat, got: seq<Cmd>)
    requires MayTake(o, got) && Sequenced(got) == 0 && Acked(got) == {} && Taken(got) == {} && Term !in got
    requires !o.terminating && child in o.owned
    ensures var v' := ProcessTermReq(Env(o, [], true), child); Results(o, v', got, None)
  {
    TermsOne(child);
    var v' := ProcessTermReq(Env(o, [], true), child);
    assert child !in o.asked;
    assert v'.o.asked == o.asked + {child};
    assert Told(o, v'.o) == {child};
  }

  lemma TermMoves(o: Obj, got: seq<Cmd>)
    requires MayTake(o, got) && !o.terminating && (got == [Term] || (got == [] && o.owner.None?))
    ensures var v' := ProcessTerm(Env(o, [], true)); Results(o, v', got, Note(o, v'.o))
  {
    OneCmd(Term);
    var o1 := o.(termAcks := o.termAcks + |o.owned|, asked := o.asked + o.owned, owned := {}, terminating := true);
    assert [] + Terms(o.owned) == Terms(o.owned);
    CheckMoves(o, o1, got, o.owned);
    assert Told(o, o1) == o.owned;
  }

  lemma TermAckMoves(o: Obj, from: nat)
    requires MayTake(o, [TermAck(from)])
    ensures var v' := ProcessCommand(Env(o, [], true), TermAck(from)); Results(o, v', [TermAck(from)], Note(o, v'.o))
  {
    OneCmd(TermAck(from));
    assert from in {from};
    var o1 := o.(termAcks := o.termAcks - 1, asked := o.asked - {from}, gone := o.gone + {from});
    assert o.asked + {} - {from} == o1.asked && |o1.asked| == |o.asked| - 1;
    CheckMoves(o, o1, [TermAck(from)], {});
    assert Told(o, o1) == {};
  }

  // ---- the messages of a step ----

  function Mail(told: set<nat>, o: Obj, note: Option<Cmd>, k: nat): seq<Cmd> {
    (if k in told then [Term] else []) + if note.Some? && o.owner == Some(k) then [note.value] else []
  }

  /** `w'` is `w` after object `i` became `o'`, left the commands `rest`, asked `told`
      and sent `note`. */
  ghost predicate Changes(w: World, w': World, i: nat, o': Obj, rest: seq<Cmd>, told: set<nat>, note: Option<Cmd>) {
    && |w'.nodes| == |w.nodes| && w'.ok == w.ok && i < |w.nodes| && w'.nodes[i] == Node(o', rest)
    && forall k: nat :: k < |w.nodes| && k != i ==>
        w'.nodes[k] == Node(w.nodes[k].o, w.nodes[k].box + Mail(told, w.nodes[i].o, note, k))
  }

  lemma {:induction false} PostAllAppend(w: World, x: seq<Msg>, y: seq<Msg>)
    ensures PostAll(w, x + y) == PostAll(PostAll(w, x), y)
    decreases |x|
  {
    if x == [] {
      assert x + y == y;
    } else {
      assert (x + y)[1..] == x[1..] + y;
      PostAllAppend(Post(w, x[0]), x[1..], y);
    }
  }

  lemma {:induction false} PostTerms(w: World, told: set<nat>)
    requires forall k :: k in told ==> k < |w.nodes| && w.nodes[k].o.alive
    ensures var w' := PostAll(w, Terms(told));
            && w'.ok == w.ok && |w'.nodes| == |w.nodes|
            && forall k: nat :: k < |w.nodes| ==>
                w'.nodes[k] == Node(w.nodes[k].o, w.nodes[k].box + if k in told then [Term] else [])
    decreases told
  {
    if told != {} {
      HasLeast(told);
      var x :| IsLeast(x, told) && Terms(told) == [Msg(x, Term)] + Terms(told - {x});
      var w1 := Post(w, Msg(x, Term));
      assert Terms(told)[1..] == Terms(told - {x});
      PostTerms(w1, told - {x});
      forall k: nat | k < |w.nodes|
        ensures PostAll(w, Terms(told)).nodes[k]
            == Node(w.nodes[k].o, w.nodes[k].box + if k in told then [Term] else [])
      {
        assert w1.nodes[k].box == w.nodes[k].box + if k == x then [Term] else [];
        assert w1.nodes[k].box + [] == w1.nodes[k].box;
      }
    } else {
      forall k: nat | k < |w.nodes| ensures w.nodes[k].box + [] == w.nodes[k].box {}
    }
  }

  lemma LeaveChanges(w: World, i: nat, o': Obj, rest: seq<Cmd>, told: set<nat>, note: Option<Cmd>)
    requires i < |w.nodes| && i !in told && w.nodes[i].o.owner != Some(i)
    requires forall k :: k in told ==> k < |w.nodes| && w.nodes[k].o.alive
    requires note.Some? && w.nodes[i].o.owner.Some? ==>
        w.nodes[i].o.owner.value < |w.nodes| && w.nodes[w.nodes[i].o.owner.value].o.alive
    ensures Changes(w, Leave(w, i, Env(o', Letters(told, w.nodes[i].o, note), true), rest), i, o', rest, told, note)
  {
    var o := w.nodes[i].o;
    var w1 := World(w.nodes[i := Node(o', rest)], w.ok);
    var tail := if note.Some? && o.owner.Some? then [Msg(o.owner.value, note.value)] else [];
    var w2 := PostAll(w1, Terms(told));
    PostTerms(w1, told);
    PostAllAppend(w1, Terms(told), tail);
    if tail != [] {
      assert tail[1..] == [];
      assert PostAll(w2, tail) == Post(w2, tail[0]);
    }
    assert rest + [] == rest;
    forall k: nat | k < |w.nodes| && k != i
      ensures PostAll(w2, tail).nodes[k] == Node(w.nodes[k].o, w.nodes[k].box + Mail(told, o, note, k))
    {
      var terms := if k in told then [Term] else [];
      assert w2.nodes[k].box == w.nodes[k].box + terms;
      if o.owner == Some(k) && note.Some? {
        assert w.nodes[k].box + terms + [note.value] == w.nodes[k].box + (terms + [note.value]);
      } else {
        assert terms + [] == terms;
      }
    }
  }

  // ---- what a step keeps ----

  /** A step of object `i` other than a launch or a bind: what it became, what it took
      from its box and left there, whom it told and what it noted to its owner. */
  datatype Move = Move(i: nat, o: Obj, got: seq<Cmd>, rest: seq<Cmd>, told: set<nat>, note: Option<Cmd>)

  ghost predicate Turn(w: World, w': World, m: Move) {
    && Inv(w) && m.i < |w.nodes| && w.nodes[m.i].box == m.got + m.rest && MayTake(w.nodes[m.i].o, m.got)
    && Moves(w.nodes[m.i].o, m.o, m.got, m.told, m.note) && Changes(w, w', m.i, m.o, m.rest, m.told, m.note)
  }

  lemma InBoth(got: seq<Cmd>, rest: seq<Cmd>, c: Cmd)
    ensures c in got + rest <==> c in got || c in rest
  {
  }

  lemma OrderedRest(got: seq<Cmd>, rest: seq<Cmd>)
    requires Ordered(got + rest)
    ensures Ordered(rest)
    ensures forall c, d :: c in got && d in rest ==> InOrder(c, d)
  {
    PairwiseSplit(InOrder, got, rest);
  }

  lemma OrderedAppend(box: seq<Cmd>, c: Cmd)
    requires Ordered(box) && forall b :: b in box ==> InOrder(b, c)
    ensures Ordered(box + [c])
  {
    forall i, j | 0 <= i < j < |box + [c]| ensures InOrder((box + [c])[i], (box + [c])[j]) {
      if j == |box| { assert box[i] in box; }
    }
  }

  /** An object outlives its children. */
  lemma OwnerAlive(w: World, p: nat, c: nat)
    requires Inv(w) && IsChild(w, p, c) && w.nodes[c].o.alive
    ensures w.nodes[p].o.alive
  {
    assert Linked(w.nodes[p], w.nodes[c]);
  }

  /** The children that are told are alive and have not been told before. */
  lemma ToldAreUntold(w: World, w': World, m: Move, c: nat)
    requires Turn(w, w', m) && c in m.told
    ensures IsChild(w, m.i, c) && Untold(w.nodes[m.i], w.nodes[c])
  {
    assert Knows(w.nodes[m.i], c);
    assert Linked(w.nodes[m.i], w.nodes[c]);
  }

  lemma {:induction false} SequencedNone(box: seq<Cmd>, c: Cmd)
    requires Sequenced(box) == 0 && c.Sequenced()
    ensures c !in box
  {
    if box != [] { SequencedNone(box[1..], c); }
  }

  /** An object that still has a `term` to come is not terminating. */
  lemma TermAhead(w: World, w': World, m: Move)
    requires Turn(w, w', m) && Term in m.rest
    ensures !m.o.terminating
  {
    var n := w.nodes[m.i];
    OrderedRest(m.got, m.rest);
    assert Term in n.box && m.i > 0;
    assert IsChild(w, n.o.owner.value, m.i) && Linked(w.nodes[n.o.owner.value], n);
  }

  lemma AckCounted(n: Node, child: Node, got: seq<Cmd>, rest: seq<Cmd>)
    requires n.box == got + rest && Ordered(n.box) && Linked(n, child) && |got| <= 1 && TermAck(child.o.id) in rest
    ensures child.o.id in n.o.asked && child.o.id !in Acked(got)
  {
    OrderedRest(got, rest);
    assert TermAck(child.o.id) in n.box;
    if got != [] { assert got[0] in got; }
  }

  /** An acknowledgement to come is counted. */
  lemma AckAhead(w: World, w': World, m: Move, f: nat)
    requires Turn(w, w', m) && TermAck(f) in m.rest
    ensures f in m.o.asked
  {
    var n := w.nodes[m.i];
    assert TermAck(f) in n.box && Knows(n, f) && Balanced(n);
    assert Linked(n, w.nodes[f]);
    AckCounted(n, w.nodes[f], m.got, m.rest);
  }

  /** A child whose request is to come is not yet acknowledged. */
  lemma ReqAhead(w: World, w': World, m: Move, f: nat)
    requires Turn(w, w', m) && TermReq(f) in m.rest
    ensures f in m.o.asked || f in m.o.owned || Own(f) in m.rest
  {
    var n := w.nodes[m.i];
    OrderedRest(m.got, m.rest);
    assert TermReq(f) in n.box && Knows(n, f);
    assert Linked(n, w.nodes[f]);
    InBoth(m.got, m.rest, Own(f));
  }

  /** When an object dies no command is left for it. */
  lemma NothingLeft(w: World, w': World, m: Move)
    requires Turn(w, w', m) && !m.o.alive
    ensures m.rest == []
  {
    assert Balanced(w.nodes[m.i]);
    SequencedAppend(m.got, m.rest);
    if m.rest != [] {
      var d := m.rest[0];
      match d
      case Term => TermAhead(w, w', m);
      case TermAck(f) => AckAhead(w, w', m, f);
      case TermReq(f) =>
        SequencedNone(m.rest, Own(f));
        ReqAhead(w, w', m, f);
      case _ => SequencedNone(m.rest, d);
    }
  }

  lemma SelfBalanced(w: World, w': World, m: Move)
    requires Turn(w, w', m)
    ensures Balanced(w'.nodes[m.i])
  {
    assert Balanced(w.nodes[m.i]);
    OrderedRest(m.got, m.rest);
    SequencedAppend(m.got, m.rest);
    if !m.o.alive { NothingLeft(w, w', m); }
  }

  /** What a living child notes to its owner is in order there. */
  lemma NoteInOrder(p: Node, n: Node, note: Cmd, b: Cmd)
    requires Linked(p, n) && n.o.alive && (note == TermReq(n.o.id) || note == TermAck(n.o.id)) && b in p.box
    ensures InOrder(b, note)
  {
  }

  lemma AppendBalanced(n: Node, c: Cmd)
    requires Balanced(n) && n.o.alive && !c.Sequenced() && forall b :: b in n.box ==> InOrder(b, c)
    ensures Balanced(Node(n.o, n.box + [c]))
  {
    OrderedAppend(n.box, c);
    OneCmd(c);
    SequencedAppend(n.box, [c]);
  }

  /** The owner of the object that moves, if it gets a note. */
  predicate Notified(w: World, m: Move, k: nat) {
    m.i < |w.nodes| && m.note.Some? && w.nodes[m.i].o.owner == Some(k)
  }

  /** A step appends at most one command to any other box. */
  lemma MailOf(w: World, w': World, m: Move, k: nat)
    requires Turn(w, w', m) && k < |w.nodes| && k != m.i
    ensures w'.nodes[k].o == w.nodes[k].o
    ensures k in m.told ==> !Notified(w, m, k) && w'.nodes[k].box == w.nodes[k].box + [Term]
    ensures Notified(w, m, k) ==> w'.nodes[k].box == w.nodes[k].box + [m.note.value] && IsChild(w, k, m.i)
    ensures k !in m.told && !Notified(w, m, k) ==> w'.nodes[k] == w.nodes[k]
  {
    if k in m.told { ToldAreUntold(w, w', m, k); }
  }

  lemma OtherBalanced(w: World, w': World, m: Move, k: nat)
    requires Turn(w, w', m) && k < |w.nodes| && k != m.i
    ensures Balanced(w'.nodes[k])
  {
    MailOf(w, w', m, k);
    assert Balanced(w.nodes[k]);
    if k in m.told {
      ToldAreUntold(w, w', m, k);
      AppendBalanced(w.nodes[k], Term);
    } else if Notified(w, m, k) {
      OwnerBalanced(w, w', m, k);
    }
  }

  lemma OwnerBalanced(w: World, w': World, m: Move, k: nat)
    requires Turn(w, w', m) && Notified(w, m, k) && IsChild(w, k, m.i)
    ensures Balanced(Node(w.nodes[k].o, w.nodes[k].box + [m.note.value]))
  {
    OwnerAlive(w, k, m.i);
    var p, n, note := w.nodes[k], w.nodes[m.i], m.note.value;
    assert Linked(p, n) && Balanced(p) && n.o.id == m.i;
    forall b | b in p.box ensures InOrder(b, note) { NoteInOrder(p, n, note, b); }
    AppendBalanced(p, note);
  }

  lemma MoverKnows(w: World, w': World, m: Move, c: nat)
    requires Turn(w, w', m) && Knows(w'.nodes[m.i], c)
    ensures IsChild(w, m.i, c)
  {
    assert Knows(w.nodes[m.i], c);
  }

  lemma OtherKnows(w: World, w': World, m: Move, p: nat, c: nat)
    requires Turn(w, w', m) && p < |w.nodes| && p != m.i && Knows(w'.nodes[p], c)
    ensures IsChild(w, p, c)
  {
    MailOf(w, w', m, p);
    if !(Notified(w, m, p) && (m.note == Some(TermReq(c)) || m.note == Some(TermAck(c)))) {
      assert Knows(w.nodes[p], c);
    }
  }

  lemma KnowsKept(w: World, w': World, m: Move, p: nat, c: nat)
    requires Turn(w, w', m) && p < |w.nodes| && Knows(w'.nodes[p], c)
    ensures IsChild(w', p, c)
  {
    if p == m.i { MoverKnows(w, w', m, c); } else { OtherKnows(w, w', m, p, c); }
    if c != m.i { MailOf(w, w', m, c); }
  }

  /** The object that moves, between its owner and its children. */
  predicate Steps(n: Node, m: Move) {
    && n.box == m.got + m.rest && Ordered(n.box) && MayTake(n.o, m.got)
  }

  ghost predicate ChildSees(n: Node, child: Node, child': Node, m: Move) {
    && Steps(n, m) && Moves(n.o, m.o, m.got, m.told, m.note) && Linked(n, child) && child'.o == child.o
    && child'.box == child.box + (if child.o.id in m.told then [Term] else [])
    && (child.o.id in m.told ==> Untold(n, child))
  }

  lemma AckedChild(n: Node, child: Node, child': Node, m: Move)
    requires ChildSees(n, child, child', m) && m.got == [TermAck(child.o.id)]
    ensures Linked(Node(m.o, m.rest), child')
  {
    var c := child.o.id;
    OrderedRest(m.got, m.rest);
    assert forall d :: d in m.rest ==> InOrder(TermAck(c), d);
    assert !InOrder(TermAck(c), TermAck(c)) && !InOrder(TermAck(c), TermReq(c));
    InBoth(m.got, m.rest, Own(c));
  }

  lemma TakenChild(n: Node, child: Node, child': Node, m: Move)
    requires ChildSees(n, child, child', m) && m.got == [Own(child.o.id)]
    ensures Linked(Node(m.o, m.rest), child')
  {
    var c := child.o.id;
    OrderedRest(m.got, m.rest);
    assert forall d :: d in m.rest ==> InOrder(Own(c), d);
    assert !InOrder(Own(c), Own(c));
    InBoth(m.got, m.rest, TermAck(c));
  }

  lemma OtherChild(n: Node, child: Node, child': Node, m: Move)
    requires ChildSees(n, child, child', m) && m.got != [TermAck(child.o.id)] && m.got != [Own(child.o.id)]
    ensures Linked(Node(m.o, m.rest), child')
  {
    var c := child.o.id;
    assert TermAck(c) !in m.got && Own(c) !in m.got;
    InBoth(m.got, m.rest, Own(c));
    InBoth(m.got, m.rest, TermAck(c));
    InBoth(m.got, m.rest, TermReq(c));
  }

  lemma ChildStays(n: Node, child: Node, child': Node, m: Move)
    requires ChildSees(n, child, child', m)
    ensures Linked(Node(m.o, m.rest), child')
  {
    var c := child.o.id;
    if m.got == [TermAck(c)] {
      AckedChild(n, child, child', m);
    } else if m.got == [Own(c)] {
      TakenChild(n, child, child', m);
    } else {
      OtherChild(n, child, child', m);
    }
  }

  lemma ChildLinked(w: World, w': World, m: Move, c: nat)
    requires Turn(w, w', m) && IsChild(w, m.i, c)
    ensures Linked(w'.nodes[m.i], w'.nodes[c])
  {
    MailOf(w, w', m, c);
    assert Balanced(w.nodes[m.i]) && Linked(w.nodes[m.i], w.nodes[c]) && w.nodes[c].o.id == c;
    if c in m.told { ToldAreUntold(w, w', m, c); }
    ChildStays(w.nodes[m.i], w.nodes[c], w'.nodes[c], m);
  }

  /** The object that moves, as its owner knows it. */
  lemma OwnerStays(p: Node, p': Node, n: Node, m: Move)
    requires Steps(n, m) && Moves(n.o, m.o, m.got, m.told, m.note) && Linked(p, n) && n.o.owner.Some? && p'.o == p.o
    requires p'.box == p.box + if m.note.Some? then [m.note.value] else []
    ensures Linked(p', Node(m.o, m.rest))
  {
    OrderedRest(m.got, m.rest);
    InBoth(m.got, m.rest, Term);
    assert !InOrder(Term, Term);
    OwnerSees(p, p', n, m);
  }

  /** The same, when a `term` is not both taken and still to come. */
  lemma OwnerSees(p: Node, p': Node, n: Node, m: Move)
    requires MayTake(n.o, m.got) && Moves(n.o, m.o, m.got, m.told, m.note) && Linked(p, n) && n.o.owner.Some?
        && p'.o == p.o
    requires p'.box == p.box + if m.note.Some? then [m.note.value] else []
    requires (Term in n.box <==> Term in m.got || Term in m.rest) && !(Term in m.got && Term in m.rest)
    ensures Linked(p', Node(m.o, m.rest))
  {
  }

  lemma OwnerLinked(w: World, w': World, m: Move, p: nat)
    requires Turn(w, w', m) && IsChild(w, p, m.i)
    ensures Linked(w'.nodes[p], w'.nodes[m.i])
  {
    MailOf(w, w', m, p);
    assert Balanced(w.nodes[m.i]) && Linked(w.nodes[p], w.nodes[m.i]);
    if p in m.told { ToldAreUntold(w, w', m, p); }
    OwnerStays(w.nodes[p], w'.nodes[p], w.nodes[m.i], m);
  }

  /** A pair of owner and child neither of which moves. */
  lemma OthersLinked(w: World, w': World, m: Move, p: nat, c: nat)
    requires Turn(w, w', m) && IsChild(w, p, c) && p != m.i && c != m.i
    ensures Linked(w'.nodes[p], w'.nodes[c])
  {
    MailOf(w, w', m, p);
    MailOf(w, w', m, c);
    assert Linked(w.nodes[p], w.nodes[c]);
    assert c !in m.told by { if c in m.told { ToldAreUntold(w, w', m, c); } }
    MailLinked(w.nodes[p], w'.nodes[p], w.nodes[c], w'.nodes[c], m.i);
  }

  /** A `term` to the owner, and notes of other children to either, change nothing between the two. */
  lemma MailLinked(p: Node, p': Node, n: Node, n': Node, i: nat)
    requires Linked(p, n) && p'.o == p.o && n'.o == n.o && n.o.id != i
    requires p'.box == p.box || p'.box == p.box + [Term] || p'.box == p.box + [TermReq(i)]
        || p'.box == p.box + [TermAck(i)]
    requires n'.box == n.box || (exists k :: n'.box == n.box + [TermReq(k)] || n'.box == n.box + [TermAck(k)])
    ensures Linked(p', n')
  {
    var c := n.o.id;
    assert (Own(c) in p'.box <==> Own(c) in p.box) && (TermAck(c) in p'.box <==> TermAck(c) in p.box)
        && (TermReq(c) in p'.box <==> TermReq(c) in p.box);
    assert Term in n'.box <==> Term in n.box;
  }

  lemma TurnKeeps(w: World, w': World, m: Move)
    requires Turn(w, w', m)
    ensures Inv(w')
  {
    forall i: nat | i < |w'.nodes| ensures w'.nodes[i].o.id == i && Balanced(w'.nodes[i]) {
      if i == m.i { SelfBalanced(w, w', m); } else { OtherBalanced(w, w', m, i); MailOf(w, w', m, i); }
    }
    forall p: nat, c: nat | p < |w'.nodes| && Knows(w'.nodes[p], c) ensures IsChild(w', p, c) {
      KnowsKept(w, w', m, p, c);
    }
    forall c: nat | c < |w'.nodes| ensures w'.nodes[c].o.owner == w.nodes[c].o.owner {
      if c != m.i { MailOf(w, w', m, c); }
    }
    forall p: nat, c: nat | IsChild(w', p, c) ensures Linked(w'.nodes[p], w'.nodes[c]) {
      assert IsChild(w, p, c);
      if p == m.i {
        ChildLinked(w, w', m, c);
      } else if c == m.i {
        OwnerLinked(w, w', m, p);
      } else {
        OthersLinked(w, w', m, p, c);
      }
    }
    RootKept(w, w', m);
  }

  lemma RootKept(w: World, w': World, m: Move)
    requires Turn(w, w', m)
    ensures Term !in w'.nodes[0].box
  {
    if m.i == 0 {
      InBoth(m.got, m.rest, Term);
    } else {
      MailOf(w, w', m, 0);
      if 0 in m.told { ToldAreUntold(w, w', m, 0); }
    }
  }

  lemma OwnedUnasked(w: World, i: nat)
    requires Inv(w) && i < |w.nodes|
    ensures w.nodes[i].o.owned * w.nodes[i].o.asked == {}
  {
    var n := w.nodes[i];
    forall c | c in n.o.owned ensures c !in n.o.asked {
      assert Knows(n, c) && Linked(n, w.nodes[c]);
    }
  }

  lemma CommandExpected(w: World, i: nat, cmd: Cmd)
    requires Inv(w) && i < |w.nodes| && cmd in w.nodes[i].box
    ensures Acked([cmd]) <= w.nodes[i].o.asked && Taken([cmd]) !! w.nodes[i].o.asked + w.nodes[i].o.owned
    ensures cmd == Term ==> !w.nodes[i].o.terminating
  {
    var n := w.nodes[i];
    match cmd
    case Own(c) => assert Knows(n, c) && Linked(n, w.nodes[c]);
    case TermAck(f) => assert Knows(n, f) && Linked(n, w.nodes[f]);
    case Term => if i > 0 { assert IsChild(w, n.o.owner.value, i) && Linked(w.nodes[n.o.owner.value], n); }
    case _ =>
  }

  /** The next command finds its object in a state that expects it. */
  lemma Expected(w: World, i: nat, got: seq<Cmd>, rest: seq<Cmd>)
    requires Inv(w) && i < |w.nodes| && w.nodes[i].o.alive && w.nodes[i].o.launching.None?
    requires w.nodes[i].box == got + rest && |got| <= 1
    ensures MayTake(w.nodes[i].o, got)
  {
    assert Balanced(w.nodes[i]);
    OwnedUnasked(w, i);
    if got != [] {
      assert got == [got[0]] && got[0] in w.nodes[i].box;
      CommandExpected(w, i, got[0]);
    }
  }

  /** A sequenced command is added to the box of a living object. */
  lemma SequencedBalanced(n: Node, c: Cmd)
    requires Balanced(n) && n.o.alive && c.Sequenced() && (c.Own? ==> c !in n.box)
    ensures Balanced(Node(n.o.(sentSeqnum := n.o.sentSeqnum + 1), n.box + [c]))
    ensures Balanced(Node(n.o.(sentSeqnum := n.o.sentSeqnum + 1, launching := None), n.box + [c]))
  {
    forall b | b in n.box ensures InOrder(b, c) {}
    OrderedAppend(n.box, c);
    OneCmd(c);
    SequencedAppend(n.box, [c]);
  }

  lemma LaunchedKeeps(w: World, i: nat)
    requires Inv(w) && Enabled(w, i, Launch)
    ensures Inv(Launched(w, i))
  {
    var w' := Launched(w, i);
    var id := |w.nodes|;
    OneCmd(Plug);
    assert Balanced(w.nodes[i]);
    forall k: nat | k < id ensures w'.nodes[k].o.id == k && Balanced(w'.nodes[k]) { assert Balanced(w.nodes[k]); }
    forall p: nat, c: nat | p < |w'.nodes| && Knows(w'.nodes[p], c) ensures IsChild(w', p, c) {
      assert p < id && ((c == id && p == i) || Knows(w.nodes[p], c));
    }
    forall p: nat, c: nat | IsChild(w', p, c) ensures Linked(w'.nodes[p], w'.nodes[c]) {
      if c == id {
        assert !Knows(w.nodes[p], c);
      } else {
        assert IsChild(w, p, c) && Linked(w.nodes[p], w.nodes[c]);
      }
    }
  }

  lemma LaunchFinishedKeeps(w: World, i: nat)
    requires Inv(w) && Enabled(w, i, FinishLaunch)
    ensures Inv(LaunchFinished(w, i))
  {
    var w' := LaunchFinished(w, i);
    var n, c := w.nodes[i], w.nodes[i].o.launching.value;
    assert Knows(n, c) && Linked(n, w.nodes[c]);
    SequencedBalanced(n, Own(c));
    forall p: nat, x: nat | p < |w'.nodes| && Knows(w'.nodes[p], x) ensures IsChild(w', p, x) {
      assert Knows(w.nodes[p], x);
      assert IsChild(w, p, x);
    }
    forall p: nat, x: nat | IsChild(w', p, x) ensures Linked(w'.nodes[p], w'.nodes[x]) { LaunchLinked(w, i, p, x); }
  }

  lemma LaunchLinked(w: World, i: nat, p: nat, x: nat)
    requires Inv(w) && Enabled(w, i, FinishLaunch) && IsChild(w, p, x)
    ensures var w' := LaunchFinished(w, i); Linked(w'.nodes[p], w'.nodes[x])
  {
    assert Linked(w.nodes[p], w.nodes[x]) && w.nodes[x].o.id == x;
  }

  lemma BoundKeeps(w: World, i: nat)
    requires Inv(w) && Enabled(w, i, SendBind)
    ensures Inv(Bound(w, i))
  {
    var w' := Bound(w, i);
    SequencedBalanced(w.nodes[i], Bind);
    forall p: nat, x: nat | p < |w'.nodes| && Knows(w'.nodes[p], x) ensures IsChild(w', p, x) {
      assert Knows(w.nodes[p], x);
      assert IsChild(w, p, x);
    }
    forall p: nat, x: nat | IsChild(w', p, x) ensures Linked(w'.nodes[p], w'.nodes[x]) {
      assert IsChild(w, p, x) && Linked(w.nodes[p], w.nodes[x]);
    }
  }

  /** The step as a move. */
  function MoveOf(w: World, i: nat, act: Act, o': Obj): Move
    requires Enabled(w, i, act)
  {
    var o := w.nodes[i].o;
    Move(i, o', Got(w, i, act), Rest(w, i, act), Told(o, o'),
         if act.Terminate? && !o.terminating && o.owner.Some? then Some(TermReq(o.id)) else Note(o, o'))
  }

  /** A result of a handler makes the step a turn. */
  lemma ResultIsTurn(w: World, i: nat, got: seq<Cmd>, rest: seq<Cmd>, v': Env, note: Option<Cmd>)
    requires Inv(w) && i < |w.nodes| && w.nodes[i].box == got + rest && MayTake(w.nodes[i].o, got)
    requires Results(w.nodes[i].o, v', got, note)
    ensures Turn(w, Leave(w, i, v', rest), Move(i, v'.o, got, rest, Told(w.nodes[i].o, v'.o), note))
  {
    var o := w.nodes[i].o;
    var m := Move(i, v'.o, got, rest, Told(o, v'.o), note);
    assert v' == Env(m.o, Letters(m.told, o, note), true);
    MoveIsTurn(w, m);
  }

  lemma TerminateMoves(o: Obj)
    requires MayTake(o, [])
    ensures var v' := OwnState.Terminate(Env(o, [], true));
            Results(o, v', [], if !o.terminating && o.owner.Some? then Some(TermReq(o.id)) else Note(o, v'.o))
  {
    if o.terminating {
      IdleMoves(o, []);
    } else if o.owner.None? {
      TermMoves(o, []);
    } else {
      assert Told(o, o) == {};
    }
  }

  lemma CommandMoves(o: Obj, cmd: Cmd)
    requires MayTake(o, [cmd])
    ensures var v' := ProcessCommand(Env(o, [], true), cmd); Results(o, v', [cmd], Note(o, v'.o))
  {
    match cmd
    case Plug => SeqnumMoves(o, cmd);
    case Bind => SeqnumMoves(o, cmd);
    case Own(child) => OwnMoves(o, child);
    case TermReq(child) => TermReqMoves(o, child, [cmd]);
    case Term => TermMoves(o, [cmd]);
    case TermAck(from) => TermAckMoves(o, from);
  }

  lemma StepIsTurn(w: World, i: nat, act: Act)
    requires Inv(w) && Enabled(w, i, act) && (act.TermChild? || act.Terminate? || act.Deliver?)
    ensures Turn(w, Step(w, i, act), MoveOf(w, i, act, Outcome(w, i, act).o))
  {
    var o, got, rest, v' := w.nodes[i].o, Got(w, i, act), Rest(w, i, act), Outcome(w, i, act);
    Expected(w, i, got, rest);
    match act
    case Deliver =>
      CommandMoves(o, w.nodes[i].box[0]);
      ResultIsTurn(w, i, got, rest, v', Note(o, v'.o));
    case Terminate =>
      TerminateMoves(o);
      ResultIsTurn(w, i, got, rest, v', if !o.terminating && o.owner.Some? then Some(TermReq(o.id)) else Note(o, v'.o));
    case TermChild(child) =>
      TermReqMoves(o, child, []);
      ResultIsTurn(w, i, got, rest, v', Note(o, v'.o));
    case _ =>
  }

  lemma ToldAlive(w: World, m: Move, k: nat)
    requires Inv(w) && m.i < |w.nodes| && w.nodes[m.i].box == m.got + m.rest && k in m.told
    requires MayTake(w.nodes[m.i].o, m.got) && m.told <= w.nodes[m.i].o.owned + Taken(m.got)
    ensures m.i < k < |w.nodes| && w.nodes[k].o.alive
  {
    assert Knows(w.nodes[m.i], k);
    assert Linked(w.nodes[m.i], w.nodes[k]);
  }

  lemma MoveIsTurn(w: World, m: Move)
    requires Inv(w) && m.i < |w.nodes| && w.nodes[m.i].box == m.got + m.rest
    requires MayTake(w.nodes[m.i].o, m.got) && Moves(w.nodes[m.i].o, m.o, m.got, m.told, m.note)
    ensures Turn(w, Leave(w, m.i, Env(m.o, Letters(m.told, w.nodes[m.i].o, m.note), true), m.rest), m)
  {
    var n := w.nodes[m.i];
    forall k | k in m.told ensures k < |w.nodes| && k > m.i && w.nodes[k].o.alive { ToldAlive(w, m, k); }
    if n.o.owner.Some? {
      assert IsChild(w, n.o.owner.value, m.i);
      OwnerAlive(w, n.o.owner.value, m.i);
    }
    LeaveChanges(w, m.i, m.o, m.rest, m.told, m.note);
  }

  /** Every step of every object keeps the invariant. */
  lemma StepKeeps(w: World, i: nat, act: Act)
    requires Inv(w) && Enabled(w, i, act)
    ensures Inv(Step(w, i, act))
  {
    match act
    case Launch => LaunchedKeeps(w, i);
    case FinishLaunch => LaunchFinishedKeeps(w, i);
    case SendBind => BoundKeeps(w, i);
    case _ =>
      StepIsTurn(w, i, act);
      TurnKeeps(w, Step(w, i, act), MoveOf(w, i, act, Outcome(w, i, act).o));
  }

  datatype Event = Event(i: nat, act: Act)

  /** The events `evs` lead from `w` to `w'`. */
  ghost predicate Run(w: World, evs: seq<Event>, w': World)
    decreases |evs|
  {
    if evs == [] then w' == w
    else Enabled(w, evs[0].i, evs[0].act) && Run(Step(w, evs[0].i, evs[0].act), evs[1..], w')
  }

  lemma {:induction false} RunKeeps(w: World, evs: seq<Event>, w': World)
    requires Inv(w) && Run(w, evs, w')
    ensures Inv(w')
    decreases |evs|
  {
    if evs != [] {
      StepKeeps(w, evs[0].i, evs[0].act);
      RunKeeps(Step(w, evs[0].i, evs[0].act), evs[1..], w');
    }
  }

  /** `d` is below `a` in the tree. */
  predicate Descends(w: World, a: nat, d: nat)
    decreases d
  {
    && d < |w.nodes| && w.nodes[d].o.owner.Some? && w.nodes[d].o.owner.value < d
    && (w.nodes[d].o.owner.value == a || Descends(w, a, w.nodes[d].o.owner.value))
  }

  lemma {:induction false} DescendantsGone(w: World, a: nat, d: nat)
    requires Inv(w) && a < |w.nodes| && !w.nodes[a].o.alive && Descends(w, a, d)
    ensures !w.nodes[d].o.alive
    decreases d
  {
    var p := w.nodes[d].o.owner.value;
    if p != a { DescendantsGone(w, a, p); }
    assert IsChild(w, p, d);
    if w.nodes[d].o.alive { OwnerAlive(w, p, d); }
  }

  /** The safety of shutting down a tree, in every interleaving: no assertion fails and
      no command reaches an object that is gone (`ok`); an object goes only after all
      its descendants, and with its box empty; `term` comes to an object at most once;
      and an object waits for exactly the children whose `term`, shutdown or
      acknowledgement is outstanding. */
  lemma {:induction false} ShutdownSafety(evs: seq<Event>, w: World, i: nat)
    requires Run(NewTree(), evs, w) && i < |w.nodes|
    ensures w.ok
    ensures !w.nodes[i].o.alive ==> w.nodes[i].box == [] && forall d: nat :: Descends(w, i, d) ==> !w.nodes[d].o.alive
    ensures Term in w.nodes[i].box ==> !w.nodes[i].o.terminating
    ensures forall j, k :: 0 <= j < k < |w.nodes[i].box| ==> !(w.nodes[i].box[j] == w.nodes[i].box[k] == Term)
    ensures w.nodes[i].o.termAcks == |w.nodes[i].o.asked|
    ensures forall c: nat :: c in w.nodes[i].o.asked <==>
        IsChild(w, i, c)
            && (Term in w.nodes[c].box || (w.nodes[c].o.alive && w.nodes[c].o.terminating) || TermAck(c)
            in w.nodes[i].box)
  {
    InitInv();
    RunKeeps(NewTree(), evs, w);
    var n := w.nodes[i];
    assert Balanced(n);
    if !n.o.alive {
      forall d: nat | Descends(w, i, d) ensures !w.nodes[d].o.alive { DescendantsGone(w, i, d); }
    }
    forall j, k | 0 <= j < k < |n.box| ensures !(n.box[j] == n.box[k] == Term) { assert InOrder(n.box[j], n.box[k]); }
    if i > 0 { assert IsChild(w, n.o.owner.value, i) && Linked(w.nodes[n.o.owner.value], n); }
    forall c: nat
      ensures c in n.o.asked <==>
        IsChild(w, i, c)
            && (Term in w.nodes[c].box || (w.nodes[c].o.alive && w.nodes[c].o.terminating) || TermAck(c) in n.box)
    {
      if c in n.o.asked { assert Knows(n, c); }
      if IsChild(w, i, c) {
        assert Linked(n, w.nodes[c]) && Balanced(w.nodes[c]) && w.nodes[c].o.id == c;
      }
    }
  }
}
