/**
 The distributor: sends every message to all pipes that match it.
 */
module Dist {
  import opened Wrappers
  import opened PipeArray
  import Z = DistZones
  import M = MsgMemory

  /** What being offered one frame does to a pipe.  What it got is one of the messages
      from `lo` to `hi`. */
  ghost predicate Offered(s: Side, s': Side, lo: nat, hi: nat, msgMore: bool) {
    && s'.room == s.Asked().room
    && if s.Takes() then
         && (exists body :: lo <= body < hi && s'.out == s.out + [Frame(msgMore, body)])
         && (if msgMore then s'.fin == s.fin && s'.pub == s.pub else s'.fin == s'.pub == |s'.out|)
       else s' == s.Asked()
  }

  /** A pipe of `first` that is `done` or left the `zone` was offered the message. */
  ghost predicate ServedPipe(s: map<Pipe, Side>, s': map<Pipe, Side>, p: Pipe, first: set<Pipe>, zone: set<Pipe>,
          done: set<Pipe>, lo: nat, hi: nat, msgMore: bool)
    requires p in s && p in s'
  {
    if p !in first || p in zone - done then s'[p] == s[p]
    else Offered(s[p], s'[p], lo, hi, msgMore) && (p in zone <==> s[p].Takes())
  }

  /** The message a pipe got last. */
  function Copy(s: Side): int {
    if s.out == [] then -1 else s.out[|s.out| - 1].body
  }

  /** No two pipes got the same one. */
  ghost predicate Separate(s: map<Pipe, Side>, done: set<Pipe>) {
    forall p, q :: p in done && q in done && p != q && p in s && q in s ==> Copy(s[p]) != Copy(s[q])
  }

  /** A distribution to the pipes `first`, of which `zone` are still in the matching zone
      and `done` have taken the message: every other pipe of `first` was offered it and
      did not take it, or is still to be offered it.  Every pipe has a copy of its own. */
  ghost predicate Served(s: map<Pipe, Side>, s': map<Pipe, Side>, first: set<Pipe>, zone: set<Pipe>, done: set<Pipe>,
                         lo: nat, hi: nat, msgMore: bool) {
    && s'.Keys == s.Keys && done <= zone <= first <= s.Keys && Separate(s', done)
    && forall p :: p in s ==> ServedPipe(s, s', p, first, zone, done, lo, hi, msgMore)
  }

  lemma ServedStart(s: map<Pipe, Side>, first: set<Pipe>, lo: nat, hi: nat, msgMore: bool)
    requires first <= s.Keys
    ensures Served(s, s, first, first, {}, lo, hi, msgMore)
  {
  }

  lemma ServedNext(s: map<Pipe, Side>, s1: map<Pipe, Side>, s2: map<Pipe, Side>, first: set<Pipe>, zone: set<Pipe>,
          done: set<Pipe>, lo: nat, hi: nat, hi': nat, msgMore: bool, p: Pipe)
    requires Served(s, s1, first, zone, done, lo, hi, msgMore) && p in zone && p !in done && lo <= hi <= hi'
    requires s2.Keys == s1.Keys && forall q :: q in s1 && q != p ==> s2[q] == s1[q]
    requires Offered(s1[p], s2[p], hi, hi', msgMore)
    ensures if s1[p].Takes() then Served(s, s2, first, zone, done + {p}, lo, hi', msgMore)
            else Served(s, s2, first, zone - {p}, done, lo, hi', msgMore)
  {
    var zone', done' := if s1[p].Takes() then zone else zone - {p}, if s1[p].Takes() then done + {p} else done;
    forall q | q in s
      ensures ServedPipe(s, s2, q, first, zone', done', lo, hi', msgMore)
    {
      assert ServedPipe(s, s1, q, first, zone, done, lo, hi, msgMore);
      if q != p && q in first && q !in zone - done && s[q].Takes() {
        var body :| lo <= body < hi && s1[q].out == s[q].out + [Frame(msgMore, body)];
        assert lo <= body < hi';
      }
    }
    if s1[p].Takes() {
      forall q | q in done ensures lo <= Copy(s2[q]) < hi {
        assert ServedPipe(s, s1, q, first, zone, done, lo, hi, msgMore);
      }
      assert hi <= Copy(s2[p]);
    }
  }

  /** One round of a distribution: the pipe at `k` takes the message or leaves the zone. */
  lemma RoundNext(z0: Z.Zones<Pipe>, z: Z.Zones<Pipe>, z': Z.Zones<Pipe>, s: map<Pipe, Side>, s1: map<Pipe, Side>,
          s2: map<Pipe, Side>, first: set<Pipe>, k: nat, zone: set<Pipe>, done: set<Pipe>, lo: nat, hi: nat, hi': nat,
          msgMore: bool, ok: bool)
    requires Z.Stage(z0, z, k, zone, done) && k < z.matching && z' == (if ok then z else Z.Withdraw(z, k).0)
    requires Served(s, s1, first, zone, done, lo, hi, msgMore) && lo <= hi <= hi'
    requires var p := z.items[k];
        p in s1 && s2.Keys == s1.Keys && Offered(s1[p], s2[p], hi, hi', msgMore) && ok == s1[p].Takes()
        && forall q :: q in s1 && q != p ==> s2[q] == s1[q]
    ensures var p := z.items[k];
            var zone', done' := if ok then zone else zone - {p}, if ok then done + {p} else done;
            Z.Stage(z0, z', if ok then k + 1 else k, zone', done')
                && Served(s, s2, first, zone', done', lo, hi', msgMore)
            && z'.matching == if ok then z.matching else z.matching - 1
  {
    assert ServedPipe(s, s1, z.items[k], first, zone, done, lo, hi, msgMore);
    Z.StageNext(z0, z, k, zone, done);
    ServedNext(s, s1, s2, first, zone, done, lo, hi, hi', msgMore, z.items[k]);
  }

  /** The message was offered to `done` and to the pipes that left the zone, and every
      pipe that took it has a copy. */
  ghost predicate Progress(z0: Z.Zones<Pipe>, z: Z.Zones<Pipe>, s0: map<Pipe, Side>, s: map<Pipe, Side>,
          msgs0: seq<M.Msg>, stake0: seq<nat>, msgs: seq<M.Msg>, stake: seq<nat>, i: nat, msgMore: bool,
          first: set<Pipe>, k: nat, zone: set<Pipe>, done: set<Pipe>)
  {
    Z.Stage(z0, z, k, zone, done) && Served(s0, s, first, zone, done, |msgs0|, |msgs|, msgMore)
        && M.Spread(msgs0, stake0, msgs, stake, i, k)
  }

  lemma ProgressNext(z0: Z.Zones<Pipe>, z: Z.Zones<Pipe>, z': Z.Zones<Pipe>, s0: map<Pipe, Side>, s: map<Pipe, Side>,
          s': map<Pipe, Side>, msgs0: seq<M.Msg>, stake0: seq<nat>, msgs: seq<M.Msg>, stake: seq<nat>,
          msgs': seq<M.Msg>, stake': seq<nat>, i: nat, msgMore: bool, first: set<Pipe>, k: nat, zone: set<Pipe>,
          done: set<Pipe>, ok: bool)
    requires Progress(z0, z, s0, s, msgs0, stake0, msgs, stake, i, msgMore, first, k, zone, done)
    requires k < z.matching && z' == (if ok then z else Z.Withdraw(z, k).0)
    requires var p := z.items[k];
        p in s && s'.Keys == s.Keys && Offered(s[p], s'[p], |msgs|, |msgs'|, msgMore) && ok == s[p].Takes()
        && forall q :: q in s && q != p ==> s'[q] == s[q]
    requires M.Spread(msgs, stake, msgs', stake', i, if ok then 1 else 0)
    ensures var p := z.items[k];
            && Progress(z0, z', s0, s', msgs0, stake0, msgs', stake', i, msgMore, first, if ok then k + 1 else k,
                        if ok then zone else zone - {p}, if ok then done + {p} else done)
            && z'.matching == z.matching - if ok then 0 else 1
  {
    M.SpreadOn(msgs0, stake0, msgs, stake, msgs', stake', i, k, if ok then 1 else 0);
    RoundNext(z0, z, z', s0, s, s', first, k, zone, done, |msgs0|, |msgs|, |msgs'|, msgMore, ok);
  }

  /** The zones after a message was sent to `first`: those that did not take it are passive,
      and at its end all others that are eligible are active. */
  ghost predicate SentTo(z: Z.Zones<Pipe>, z': Z.Zones<Pipe>, first: set<Pipe>, msgMore: bool) {
    && z.Bordered() && z'.Bordered()
    && var zone := z'.Matching();
       && z'.All() == z.All() && z'.Eligible() == z.Eligible() - (first - zone)
       && z'.Active() == (if msgMore then z.Active() - (first - zone) else z'.Eligible())
  }

  function Ended(z: Z.Zones<Pipe>, msgMore: bool): Z.Zones<Pipe> {
    z.(active := if msgMore then z.active else z.eligible, more := msgMore)
  }

  lemma SentAll(z: Z.Zones<Pipe>, z1: Z.Zones<Pipe>, z': Z.Zones<Pipe>, first: set<Pipe>, zone: set<Pipe>,
          msgMore: bool)
    requires z.Ok() && first == z.Matching() && Z.Stage(z, z1, z1.matching, zone, zone) && z' == Ended(z1, msgMore)
    ensures SentTo(z, z', first, msgMore) && z'.Matching() == zone
  {
  }

  class Dist {
    const pipes: PipeArray
    var matching: nat
    var active: nat
    var eligible: nat
    var more: bool

    ghost function View(): Z.Zones<Pipe>
      reads `matching, `active, `eligible, `more, pipes
    {
      Z.Zones(pipes.items, matching, active, eligible, more)
    }

    ghost predicate Valid()
      reads this, pipes, pipes.items
    {
      pipes.Valid() && View().Ok()
    }

    constructor ()
      ensures Valid() && View() == Z.Zones([], 0, 0, 0, false) && fresh(pipes)
    {
      matching, active, eligible, more := 0, 0, 0, false;
      pipes := new PipeArray();
    }

    method Attach(pipe: Pipe)
      requires Valid() && pipe !in pipes.items
      modifies this, pipes, pipes.items`arrayIndex, pipe`arrayIndex
      ensures Valid() && View() == Z.Attach(old(View()), pipe)
    {
      Z.AttachZones(View(), pipe);
      pipes.PushBack(pipe);
      if more {
        pipes.Swap(eligible, |pipes.items| - 1);
        eligible := eligible + 1;
      } else {
        pipes.Swap(active, |pipes.items| - 1);
        active := active + 1;
        eligible := eligible + 1;
      }
    }

    /** Exact even for a pipe that was in the array once: its position may be stale. */
    method HasPipe(pipe: Pipe) returns (has: bool)
      requires Valid()
      ensures has <==> pipe in pipes.items
    {
      var claimedIndex := pipe.arrayIndex;
      if claimedIndex < 0 || claimedIndex >= |pipes.items| {
        return false;
      }
      has := pipes.items[claimedIndex] == pipe;
    }

    /** The pipe at `i` becomes a matching one. */
    method MoveUp(i: nat)
      requires pipes.Valid() && matching <= i < |pipes.items|
      modifies `matching, pipes, pipes.items`arrayIndex
      ensures pipes.Valid() && View() == Z.Moved(old(View()), i)
      ensures forall p :: p in pipes.items <==> p in old(pipes.items)
    {
      pipes.Swap(i, matching);
      matching := matching + 1;
    }

    /** In the middle of a message a pipe that waits for its end can take the place of an
        active one, or leave more matching pipes than active ones. */
    method Match(pipe: Pipe)
      requires Valid() && pipe in pipes.items
      modifies this, pipes, pipes.items`arrayIndex
      ensures pipes.Valid() && View() == Z.Match(old(View()), old(pipe.arrayIndex))
      ensures forall p :: p in pipes.items <==> p in old(pipes.items)
      ensures var z, k := old(View()), old(pipe.arrayIndex);
              Valid() <==> (z.active <= k < z.eligible ==> z.matching < z.active)
    {
      Z.MatchOk(View(), pipe.arrayIndex);
      if pipe.arrayIndex < matching {
        return;
      }
      if pipe.arrayIndex >= eligible {
        return;
      }
      MoveUp(pipe.arrayIndex);
    }

    method Unmatch()
      requires Valid()
      modifies `matching
      ensures Valid() && View() == old(View()).(matching := 0)
    {
      matching := 0;
    }

    /** In the middle of a message there may be more pipes to match than active ones. */
    method ReverseMatch()
      requires Valid()
      modifies this, pipes, pipes.items`arrayIndex
      ensures pipes.Valid() && View() == Z.Reverse(old(View()).(matching := 0), old(matching))
      ensures forall p :: p in pipes.items <==> p in old(pipes.items)
      ensures Valid() <==> old(eligible - matching <= active)
    {
      Z.ReverseOk(View());
      var prevMatching := matching;
      Unmatch();
      ghost var end := Z.Reverse(View(), prevMatching);
      var i := prevMatching;
      while i < eligible
        invariant pipes.Valid() && matching <= i && matching <= |pipes.items| && eligible <= |pipes.items|
        invariant forall p :: p in pipes.items <==> p in old(pipes.items)
        invariant Z.Reverse(View(), i) == end
        decreases eligible - i
      {
        forall k | 0 <= k < |pipes.items| ensures pipes.items[k] in old(pipes.items) {
          assert pipes.items[k] in pipes.items;
        }
        MoveUp(i);
        i := i + 1;
      }
    }

    method PipeTerminated(pipe: Pipe)
      requires Valid() && pipe in pipes.items
      modifies `matching, `active, `eligible, pipes, pipes.items`arrayIndex
      ensures Valid() && View() == Z.Terminate(old(View()), old(pipe.arrayIndex))
    {
      Z.TerminateOk(View(), pipe.arrayIndex);
      Withdraw(pipe);
      forall j | 0 <= j < |pipes.items| ensures pipes.items[j] in old(pipes.items) {
        assert pipes.items[j] in pipes.items;
      }
      Erase(pipe);
    }

    method Erase(pipe: Pipe)
      requires pipes.Valid() && pipe in pipes.items
      modifies pipes, pipes.items`arrayIndex
      ensures pipes.Valid() && View() == Z.Erased(old(View()), old(pipe.arrayIndex))
    {
      pipes.Erase(pipe);
    }

    method Withdraw(pipe: Pipe)
      requires pipes.Valid() && pipe in pipes.items && matching <= active <= eligible <= |pipes.items|
      modifies `matching, `active, `eligible, pipes, pipes.items`arrayIndex
      ensures pipes.Valid() && (View(), pipe.arrayIndex) == Z.Withdraw(old(View()), old(pipe.arrayIndex))
      ensures forall p :: p in pipes.items <==> p in old(pipes.items)
    {
      LeaveMatching(pipe);
      LeaveActive(pipe);
      LeaveEligible(pipe);
    }

    method LeaveMatching(pipe: Pipe)
      requires pipes.Valid() && pipe in pipes.items && matching <= |pipes.items|
      modifies `matching, pipes, pipes.items`arrayIndex
      ensures pipes.Valid() && (View(), pipe.arrayIndex) == Z.LeaveMatching(old(View()), old(pipe.arrayIndex))
      ensures forall p :: p in pipes.items <==> p in old(pipes.items)
    {
      if pipe.arrayIndex < matching {
        pipes.Swap(pipe.arrayIndex, matching - 1);
        matching := matching - 1;
      }
    }

    method LeaveActive(pipe: Pipe)
      requires pipes.Valid() && pipe in pipes.items && active <= |pipes.items|
      modifies `active, pipes, pipes.items`arrayIndex
      ensures pipes.Valid() && (View(), pipe.arrayIndex) == Z.LeaveActive(old(View()), old(pipe.arrayIndex))
      ensures forall p :: p in pipes.items <==> p in old(pipes.items)
    {
      if pipe.arrayIndex < active {
        pipes.Swap(pipe.arrayIndex, active - 1);
        active := active - 1;
      }
    }

    method LeaveEligible(pipe: Pipe)
      requires pipes.Valid() && pipe in pipes.items && eligible <= |pipes.items|
      modifies `eligible, pipes, pipes.items`arrayIndex
      ensures pipes.Valid() && (View(), pipe.arrayIndex) == Z.LeaveEligible(old(View()), old(pipe.arrayIndex))
      ensures forall p :: p in pipes.items <==> p in old(pipes.items)
    {
      if pipe.arrayIndex < eligible {
        pipes.Swap(pipe.arrayIndex, eligible - 1);
        eligible := eligible - 1;
      }
    }

    method Activated(pipe: Pipe)
      requires Valid() && pipe in pipes.items && pipe.arrayIndex >= eligible
      modifies `active, `eligible, pipes, pipes.items`arrayIndex
      ensures Valid() && View() == Z.Activate(old(View()), old(pipe.arrayIndex))
    {
      Z.ActivateZones(View(), pipe.arrayIndex);
      BecomeEligible(pipe);
      if !more && active < |pipes.items| {
        forall j | 0 <= j < |pipes.items| ensures pipes.items[j] in old(pipes.items) {
          assert pipes.items[j] in pipes.items;
        }
        pipes.Swap(eligible - 1, active);
        active := active + 1;
      }
    }

    method BecomeEligible(pipe: Pipe)
      requires pipes.Valid() && pipe in pipes.items && eligible <= |pipes.items|
      modifies `eligible, pipes, pipes.items`arrayIndex
      ensures pipes.Valid() && forall p :: p in pipes.items <==> p in old(pipes.items)
      ensures var z := old(View());
          z.eligible < |z.items| ==> View() == z.Swap(old(pipe.arrayIndex), z.eligible).(eligible := z.eligible + 1)
      ensures var z := old(View()); z.eligible == |z.items| ==> View() == z
    {
      if eligible < |pipes.items| {
        pipes.Swap(pipe.arrayIndex, eligible);
        eligible := eligible + 1;
      }
    }

    /** The pipe did not take the message: it is swapped out of all three zones and
        becomes passive.  That it is in them is known here and not tested in the source. */
    method Deactivate(pipe: Pipe)
      requires Valid() && pipe in pipes.items && pipe.arrayIndex < matching
      modifies `matching, `active, `eligible, pipes, pipes.items`arrayIndex
      ensures Valid() && View() == Z.Withdraw(old(View()), old(pipe.arrayIndex)).0
    {
      Z.WithdrawOk(View(), pipe.arrayIndex);
      Withdraw(pipe);
    }

    /** Offers message `i` to a pipe, which gets a bitwise copy if it takes it. */
    method Write(pipe: Pipe, memory: M.Memory, i: nat, msgMore: bool) returns (ok: bool)
      requires Valid() && pipe in pipes.items && pipe.arrayIndex < matching && memory.Valid()
      requires i < |memory.msgs| && (memory.msgs[i].Long? ==> memory.stake[i] > 0)
      modifies `matching, `active, `eligible, pipes, pipes.items`arrayIndex, pipe`room, pipe`out, pipe`fin, pipe`pub
      modifies memory`msgs, memory`stake
      ensures Valid() && memory.Valid() && ok == old(pipe.Takes())
      ensures View() == if ok then old(View()) else Z.Withdraw(old(View()), old(pipe.arrayIndex)).0
      ensures ok ==> pipe.arrayIndex == old(pipe.arrayIndex)
      ensures Offered(old(pipe.Outbound()), pipe.Outbound(), |old(memory.msgs)|, |memory.msgs|, msgMore)
      ensures M.Spread(old(memory.msgs), old(memory.stake), memory.msgs, memory.stake, i, if ok then 1 else 0)
    {
      ok := pipe.Write(Frame(msgMore, |memory.msgs|));
      if !ok {
        Deactivate(pipe);
        return;
      }
      var j := memory.Duplicate(i);
      if !msgMore {
        pipe.Flush();
      }
    }

    /** Offers message `i` to the matching pipe at `k`; no other pipe notices. */
    method Turn(k: nat, memory: M.Memory, i: nat, msgMore: bool, ghost all: set<Pipe>) returns (ok: bool)
      requires Valid() && k < matching && memory.Valid() && forall p :: p in pipes.items <==> p in all
      requires i < |memory.msgs| && (memory.msgs[i].Long? ==> memory.stake[i] > 0)
      modifies `matching, `active, `eligible, pipes, all, memory`msgs, memory`stake
      ensures Valid() && memory.Valid() && View() == if ok then old(View()) else Z.Withdraw(old(View()), k).0
      ensures var p, s, s' := old(pipes.items)[k], old(Sides(all)), Sides(all);
          && p in all && s'.Keys == all && (forall q :: q in all && q != p ==> s'[q] == s[q])
          && ok == s[p].Takes() && Offered(s[p], s'[p], |old(memory.msgs)|, |memory.msgs|, msgMore)
      ensures M.Spread(old(memory.msgs), old(memory.stake), memory.msgs, memory.stake, i, if ok then 1 else 0)
    {
      var p := pipes.items[k];
      assert p in pipes.items;
      forall j | 0 <= j < |pipes.items| ensures pipes.items[j] in all { assert pipes.items[j] in pipes.items; }
      ok := Write(p, memory, i, msgMore);
      assert forall q :: q in all && q != p ==> q.Outbound() == old(q.Outbound());
    }

    /** The loop of `distribute`: every matching pipe is offered message `i` once, though
        pipes that do not take it disappear from the zone during the loop. */
    method OfferAll(memory: M.Memory, i: nat, msgMore: bool, ghost all: set<Pipe>, ghost first: set<Pipe>)
      returns (failed: nat)
      requires Valid() && memory.Valid() && i < |memory.msgs| && (memory.msgs[i].Long? ==> memory.stake[i] == matching)
      requires first == View().Matching() && all == View().All()
      modifies `matching, `active, `eligible, pipes, all, memory`msgs, memory`stake
      ensures Valid() && memory.Valid() && failed == old(matching) - matching
      ensures var zone := View().Matching();
              && Z.Stage(old(View()), View(), matching, zone, zone)
              && Served(old(Sides(all)), Sides(all), first, zone, zone, |old(memory.msgs)|, |memory.msgs|, msgMore)
      ensures M.Spread(old(memory.msgs), old(memory.stake), memory.msgs, memory.stake, i, matching)
    {
      ghost var z, msgs, stake, sides := View(), memory.msgs, memory.stake, Sides(all);
      ghost var zone: set<Pipe>, done: set<Pipe> := first, {};
      Z.StageStart(z);
      ServedStart(sides, first, |msgs|, |msgs|, msgMore);
      failed := 0;
      var k := 0;
      while k < matching
        invariant Valid() && memory.Valid() && failed == old(matching) - matching
        invariant Underway(memory, i, msgMore, all, first, k, z, sides, msgs, stake, zone, done)
        decreases matching - k
      {
        Z.StageAll(z, View(), k, zone, done);
        var ok;
        ok, zone, done := OfferNext(memory, i, msgMore, all, first, k, z, sides, msgs, stake, zone, done);
        if !ok {
          failed := failed + 1;
        } else {
          k := k + 1;
        }
      }
      Z.StageEnd(z, View(), k, zone, done);
    }

    /** The message has been offered to `done` and to those that left the zone. */
    ghost predicate Underway(memory: M.Memory, i: nat, msgMore: bool, all: set<Pipe>, first: set<Pipe>, k: nat,
                             z: Z.Zones<Pipe>, sides: map<Pipe, Side>, msgs: seq<M.Msg>, stake: seq<nat>,
                             zone: set<Pipe>, done: set<Pipe>)
      reads this, pipes, all, memory
    {
      Progress(z, View(), sides, Sides(all), msgs, stake, memory.msgs, memory.stake, i, msgMore, first, k, zone, done)
    }

    /** One round of the loop. */
    method OfferNext(memory: M.Memory, i: nat, msgMore: bool, ghost all: set<Pipe>, ghost first: set<Pipe>, k: nat,
            ghost z: Z.Zones<Pipe>, ghost sides: map<Pipe, Side>, ghost msgs: seq<M.Msg>, ghost stake: seq<nat>,
            ghost zone: set<Pipe>, ghost done: set<Pipe>)
      returns (ok: bool, ghost zone': set<Pipe>, ghost done': set<Pipe>)
      requires Valid() && memory.Valid() && k < matching && i < |msgs| == |stake| && (msgs[i].Long? ==> k < stake[i])
      requires all == z.All()
      requires Underway(memory, i, msgMore, all, first, k, z, sides, msgs, stake, zone, done)
      modifies `matching, `active, `eligible, pipes, all, memory`msgs, memory`stake
      ensures Valid() && memory.Valid() && matching == old(matching) - if ok then 0 else 1
      ensures Underway(memory, i, msgMore, all, first, if ok then k + 1 else k, z, sides, msgs, stake, zone', done')
    {
      Z.StageAll(z, View(), k, zone, done);
      ghost var p, msgs1, stake1, z1, sides1 := pipes.items[k], memory.msgs, memory.stake, View(), Sides(all);
      assert memory.msgs[i] == memory.msgs[..|msgs|][i];
      ok := Turn(k, memory, i, msgMore, all);
      ProgressNext(z, z1, View(), sides, sides1, Sides(all), msgs, stake, msgs1, stake1, memory.msgs, memory.stake, i,
          msgMore, first, k, zone, done, ok);
      zone', done' := if ok then zone else zone - {p}, if ok then done + {p} else done;
    }

    /** The part of `distribute` for messages with a content of their own. */
    method DistributeLong(memory: M.Memory, i: nat, msgMore: bool, ghost all: set<Pipe>, ghost first: set<Pipe>)
      requires Valid() && memory.Valid() && memory.Owns(i) && matching > 0
      requires first == View().Matching() && all == View().All()
      modifies `matching, `active, `eligible, pipes, all, memory`msgs, memory`stake, memory`contents, memory`buffers,
          memory`shared
      ensures Valid() && memory.Valid()
      ensures var zone := View().Matching();
              && Z.Stage(old(View()), View(), matching, zone, zone)
              && Served(old(Sides(all)), Sides(all), first, zone, zone, |old(memory.msgs)|, |memory.msgs|, msgMore)
      ensures M.HandedOut(old(memory.msgs), old(memory.stake), memory.msgs, memory.stake, i, matching)
    {
      memory.AddRefs(i, matching - 1);
      OfferLong(memory, i, msgMore, all, first, old(memory.msgs), old(memory.stake));
    }

    /** The message has a reference for every matching pipe; those not needed are dropped. */
    method OfferLong(memory: M.Memory, i: nat, msgMore: bool, ghost all: set<Pipe>, ghost first: set<Pipe>,
            ghost msgs: seq<M.Msg>, ghost stake: seq<nat>)
      requires Valid() && memory.Valid() && matching > 0
      requires first == View().Matching() && all == View().All()
      requires i < |msgs| == |stake| && msgs[i].Long? && |memory.msgs| == |msgs| && memory.stake[i] == matching
      requires memory.msgs == msgs || memory.msgs == msgs[i := M.Long(msgs[i].content, true)]
      requires forall c: nat :: M.Refs(memory.msgs, memory.stake, c) == M.Refs(msgs, stake, c) + if M.Points(msgs[i], c)
          then matching - 1 else 0
      modifies `matching, `active, `eligible, pipes, all, memory`msgs, memory`stake, memory`contents, memory`buffers
      ensures Valid() && memory.Valid()
      ensures var zone := View().Matching();
              && Z.Stage(old(View()), View(), matching, zone, zone)
              && Served(old(Sides(all)), Sides(all), first, zone, zone, |msgs|, |memory.msgs|, msgMore)
      ensures M.HandedOut(msgs, stake, memory.msgs, memory.stake, i, matching)
    {
      ghost var msgs1, stake1 := memory.msgs, memory.stake;
      var failed := OfferAll(memory, i, msgMore, all, first);
      ghost var msgs2, stake2 := memory.msgs, memory.stake;
      memory.Detach(i, failed);
      AllHandedOut(msgs, stake, msgs1, stake1, msgs2, stake2, memory.msgs, memory.stake, i, matching + failed,
          matching);
    }

    /** Sends message `i` to the matching pipes.  The pipes that do not take it become
        passive; the message itself holds nothing afterwards, and a content it held has
        one reference for every pipe that took it instead of this message's one. */
    method Distribute(memory: M.Memory, i: nat, msgMore: bool, ghost all: set<Pipe>, ghost first: set<Pipe>)
      requires Valid() && memory.Valid() && i < |memory.msgs| && (memory.msgs[i].Plain? || memory.Owns(i))
      requires first == View().Matching() && all == View().All()
      modifies `matching, `active, `eligible, pipes, all, memory`msgs, memory`stake, memory`contents, memory`buffers,
          memory`shared
      ensures Valid() && memory.Valid()
      ensures var zone := View().Matching();
              && Z.Stage(old(View()), View(), matching, zone, zone)
              && Served(old(Sides(all)), Sides(all), first, zone, zone, |old(memory.msgs)|, |memory.msgs|, msgMore)
      ensures M.HandedOut(old(memory.msgs), old(memory.stake), memory.msgs, memory.stake, i, matching)
    {
      if matching == 0 {
        Z.StageStart(View());
        ServedStart(Sides(all), first, |memory.msgs|, |memory.msgs|, msgMore);
        Drop(memory, i);
        return;
      }
      if memory.msgs[i].Plain? {
        var failed := OfferAll(memory, i, msgMore, all, first);
        InitPlain(memory, i, old(memory.msgs), old(memory.stake), matching);
        return;
      }
      DistributeLong(memory, i, msgMore, all, first);
    }

    /** Sends message `i` to the matching pipes.  At the end of a multipart message the
        pipes that joined or woke in the middle of it become active. */
    method SendToMatching(memory: M.Memory, i: nat, msgMore: bool, ghost all: set<Pipe>, ghost first: set<Pipe>)
      requires Valid() && memory.Valid() && i < |memory.msgs| && (memory.msgs[i].Plain? || memory.Owns(i))
      requires first == View().Matching() && all == View().All()
      modifies this, pipes, all, memory`msgs, memory`stake, memory`contents, memory`buffers, memory`shared
      ensures Valid() && memory.Valid() && more == msgMore
      ensures SentTo(old(View()), View(), first, msgMore)
      ensures var zone := View().Matching();
          Served(old(Sides(all)), Sides(all), first, zone, zone, |old(memory.msgs)|, |memory.msgs|, msgMore)
      ensures M.HandedOut(old(memory.msgs), old(memory.stake), memory.msgs, memory.stake, i, matching)
    {
      ghost var z := View();
      Distribute(memory, i, msgMore, all, first);
      ghost var z1, zone := View(), View().Matching();
      EndPart(msgMore, all);
      SentAll(z, z1, View(), first, zone, msgMore);
    }

    method EndPart(msgMore: bool, ghost all: set<Pipe>)
      requires Valid()
      modifies `active, `more
      ensures Valid() && View() == Ended(old(View()), msgMore) && Sides(all) == old(Sides(all))
    {
      if !msgMore {
        active := eligible;
      }
      more := msgMore;
    }

    /** Sends message `i` to all active pipes. */
    method SendToAll(memory: M.Memory, i: nat, msgMore: bool, ghost all: set<Pipe>, ghost first: set<Pipe>)
      requires Valid() && memory.Valid() && i < |memory.msgs| && (memory.msgs[i].Plain? || memory.Owns(i))
      requires first == View().Active() && all == View().All()
      modifies this, pipes, all, memory`msgs, memory`stake, memory`contents, memory`buffers, memory`shared
      ensures Valid() && memory.Valid() && more == msgMore
      ensures SentTo(old(View()), View(), first, msgMore)
      ensures var zone := View().Matching();
          Served(old(Sides(all)), Sides(all), first, zone, zone, |old(memory.msgs)|, |memory.msgs|, msgMore)
      ensures M.HandedOut(old(memory.msgs), old(memory.stake), memory.msgs, memory.stake, i, matching)
    {
      matching := active;
      SendToMatching(memory, i, msgMore, all, first);
    }

    method Drop(memory: M.Memory, i: nat)
      requires memory.Valid() && i < |memory.msgs| && (memory.msgs[i].Plain? || memory.Owns(i))
      modifies memory`msgs, memory`stake, memory`contents, memory`buffers
      ensures memory.Valid() && M.HandedOut(old(memory.msgs), old(memory.stake), memory.msgs, memory.stake, i, 0)
    {
      var closed := memory.Close(i);
      ghost var refs1 := memory.msgs;
      memory.Init(i);
      forall c: nat
        ensures M.Refs(memory.msgs, memory.stake, c)
            == old(M.Refs(memory.msgs, memory.stake, c)) + if M.Points(old(memory.msgs)[i], c) then -1 else 0
      {
        assert memory.RefsTo(c) == old(memory.RefsTo(c)) - if M.Points(old(memory.msgs)[i], c) then 1 else 0;
      }
    }

    method InitPlain(memory: M.Memory, i: nat, ghost msgs0: seq<M.Msg>, ghost stake0: seq<nat>, ghost n: nat)
      requires memory.Valid() && M.Spread(msgs0, stake0, memory.msgs, memory.stake, i, n) && msgs0[i].Plain?
      modifies memory`msgs, memory`stake
      ensures memory.Valid() && |memory.msgs| == |old(memory.msgs)|
          && M.HandedOut(msgs0, stake0, memory.msgs, memory.stake, i, n)
    {
      assert memory.msgs[i] == memory.msgs[..|msgs0|][i];
      ghost var msgs1 := memory.msgs;
      memory.Init(i);
      assert memory.msgs[..|msgs0|] == msgs1[..|msgs0|][i := M.Plain];
      forall c: nat ensures M.Refs(memory.msgs, memory.stake, c) == M.Refs(msgs0, stake0, c) {
        assert memory.RefsTo(c) == old(memory.RefsTo(c));
      }
    }
  }

  /** Adding references, copying bits and detaching the rest hands the message out. */
  lemma AllHandedOut(msgs0: seq<M.Msg>, stake0: seq<nat>, msgs1: seq<M.Msg>, stake1: seq<nat>, msgs2: seq<M.Msg>,
          stake2: seq<nat>, msgs3: seq<M.Msg>, stake3: seq<nat>, i: nat, first: nat, taken: nat)
    requires |msgs0| == |stake0| && i < |msgs0| && msgs0[i].Long? && first > 0 && taken <= first
    requires |msgs1| == |msgs0| && |stake1| == |msgs1|
        && (msgs1 == msgs0 || msgs1 == msgs0[i := M.Long(msgs0[i].content, true)])
    requires forall c: nat :: M.Refs(msgs1, stake1, c) == M.Refs(msgs0, stake0, c) + if M.Points(msgs0[i], c)
        then first - 1 else 0
    requires M.Spread(msgs1, stake1, msgs2, stake2, i, taken)
    requires msgs3 == msgs2[i := M.Plain] && stake3 == stake2[i := 0]
    requires forall c: nat :: M.Refs(msgs3, stake3, c) == M.Refs(msgs2, stake2, c) - if M.Points(msgs2[i], c)
        then first - taken else 0
    ensures M.HandedOut(msgs0, stake0, msgs3, stake3, i, taken)
  {
    assert msgs2[i] == msgs2[..|msgs1|][i];
    assert msgs3[..|msgs0|] == msgs2[..|msgs1|][i := M.Plain];
  }

  // ---- runs in the middle of a message ----

  datatype State = State(z: Z.Zones<Pipe>, sides: map<Pipe, Side>)

  /** A pipe joins, a passive pipe wakes, or a part of the message is sent to the pipes
      `first`; the calls themselves are proved to do this. */
  datatype Event = Join(p: Pipe) | Wake(k: nat) | Send(first: set<Pipe>, msgMore: bool)

  ghost predicate Step(s: State, s': State, ev: Event) {
    && s.z.Ok()
    && match ev
       case Join(p) =>
         && p !in s.z.items && s'.z == Z.Attach(s.z, p) && s'.sides.Keys == s.sides.Keys + {p}
         && forall q :: q in s.sides && q != p ==> s'.sides[q] == s.sides[q]
       case Wake(k) => s.z.eligible <= k < |s.z.items| && s' == s.(z := Z.Activate(s.z, k))
       case Send(first, msgMore) =>
         && s'.z.Ok() && s'.z.more == msgMore && (first == s.z.Matching() || first == s.z.Active())
         && SentTo(s.z, s'.z, first, msgMore)
         && var zone := s'.z.Matching(); exists lo, hi :: Served(s.sides, s'.sides, first, zone, zone, lo, hi, msgMore)
  }

  /** A run that begins in the middle of a message and lasts at most to its end. */
  ghost predicate Rest(states: seq<State>, evs: seq<Event>) {
    && |states| == |evs| + 1 && states[|evs|].z.Ok()
    && forall i :: 0 <= i < |evs| ==> states[i].z.more && Step(states[i], states[i + 1], evs[i])
  }

  lemma InZones(z: Z.Zones<Pipe>)
    requires z.Ok()
    ensures z.Matching() <= z.Active() <= z.Eligible()
  {
    forall p | p in z.Matching() ensures p in z.Active() {
      var i :| 0 <= i < z.matching && z.items[..z.matching][i] == p;
      assert z.items[..z.active][i] == p;
    }
    forall p | p in z.Active() ensures p in z.Eligible() {
      var i :| 0 <= i < z.active && z.items[..z.active][i] == p;
      assert z.items[..z.eligible][i] == p;
    }
  }

  lemma StepQuiet(s: State, s': State, ev: Event, p: Pipe)
    requires s.z.more && Step(s, s', ev) && p in s.sides && p in s.z.Eligible() && p !in s.z.Active()
    ensures s'.z.Ok() && p in s'.sides && s'.sides[p] == s.sides[p] && p in s'.z.Eligible()
    ensures p in s'.z.Active() <==> !s'.z.more
  {
    InZones(s.z);
    match ev
    case Join(q) =>
      Z.AttachZones(s.z, q);
      Z.AllPart(s.z);
    case Wake(k) => Z.ActivateZones(s.z, k);
    case Send(first, msgMore) =>
  }

  /** A pipe that joined or woke in the middle of a message gets no part of that message,
      but is ready for the next one. */
  lemma {:induction false} QuietUntilNext(states: seq<State>, evs: seq<Event>, p: Pipe)
    requires Rest(states, evs) && p in states[0].sides
    requires states[0].z.Ok() && states[0].z.more && p in states[0].z.Eligible() && p !in states[0].z.Active()
    ensures var s := states[|evs|];
            && p in s.sides && s.sides[p] == states[0].sides[p] && p in s.z.Eligible()
            && (p in s.z.Active() <==> !s.z.more)
    decreases |evs|
  {
    if evs != [] {
      assert Step(states[0], states[1], evs[0]);
      StepQuiet(states[0], states[1], evs[0], p);
      if |evs| > 1 {
        assert states[1].z.more && Step(states[1], states[2], evs[1]);
        forall i | 0 <= i < |evs| - 1
            ensures states[1..][i].z.more && Step(states[1..][i], states[1..][i + 1], evs[1..][i])
        {
          assert states[i + 1].z.more && Step(states[i + 1], states[i + 2], evs[i + 1]);
        }
        QuietUntilNext(states[1..], evs[1..], p);
      }
    }
  }

  /** A pipe that joins or wakes in the middle of a message is such a pipe. */
  lemma JoinsLate(s: State, s': State, ev: Event, p: Pipe)
    requires s.z.more && Step(s, s', ev) && s'.z.Ok()
    requires ev == Join(p) || (ev.Wake? && ev.k < |s.z.items| && s.z.items[ev.k] == p)
    ensures p in s'.z.Eligible() && p !in s'.z.Active()
  {
    InZones(s.z);
    match ev
    case Join(q) =>
      Z.AttachZones(s.z, q);
      Z.AllPart(s.z);
    case Wake(k) =>
      Z.ActivateZones(s.z, k);
      InPart(s.z.items, k, s.z.active);
  }
}
