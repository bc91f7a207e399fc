/**
 The zones of a distributor: one array of pipes with three borders, which are moved
 by swapping single entries.  The class in Dist.dfy is proved against these values;
 the lemmas say what the swaps mean for the sets of pipes.
 */
module DistZones {
  import opened PipeArray

  /** `items[..matching]` get the message being sent, `items[..active]` could get it,
      `items[..eligible]` may get the next one, and the rest is passive. */
  datatype Zones<T(==)> = Zones(items: seq<T>, matching: nat, active: nat, eligible: nat, more: bool) {
    ghost predicate Bordered() {
      Distinct(items) && matching <= active <= eligible <= |items|
    }

    /** Between messages every eligible pipe is active. */
    ghost predicate Ok() {
      Bordered() && (!more ==> active == eligible)
    }

    ghost function Matching(): set<T>
      requires Bordered()
    {
      Part(items, matching)
    }

    ghost function Active(): set<T>
      requires Bordered()
    {
      Part(items, active)
    }

    ghost function Eligible(): set<T>
      requires Bordered()
    {
      Part(items, eligible)
    }

    ghost function All(): set<T>
    {
      Part(items, |items|)
    }

    function Swap(i: nat, j: nat): Zones<T>
      requires i < |items| && j < |items|
    {
      this.(items := Swapped(items, i, j))
    }
  }

  /** A new pipe: it waits for the end of a message that is being sent. */
  function Attach<T>(z: Zones<T>, p: T): Zones<T>
    requires z.active <= z.eligible <= |z.items|
  {
    var z := z.(items := z.items + [p]);
    if z.more then z.Swap(z.eligible, |z.items| - 1).(eligible := z.eligible + 1)
    else z.Swap(z.active, |z.items| - 1).(active := z.active + 1, eligible := z.eligible + 1)
  }

  /** The pipe at `k` is to get the next message. */
  function Match<T>(z: Zones<T>, k: nat): Zones<T>
    requires k < |z.items|
  {
    if k < z.matching || k >= z.eligible then z
    else z.Swap(k, z.matching).(matching := z.matching + 1)
  }

  /** The pipe at `k` leaves the first zone and becomes the first behind it. */
  function LeaveMatching<T>(z: Zones<T>, k: nat): (Zones<T>, nat)
    requires k < |z.items| && z.matching <= |z.items|
  {
    if k < z.matching then (z.Swap(k, z.matching - 1).(matching := z.matching - 1), z.matching - 1) else (z, k)
  }

  function LeaveActive<T>(z: Zones<T>, k: nat): (Zones<T>, nat)
    requires k < |z.items| && z.active <= |z.items|
  {
    if k < z.active then (z.Swap(k, z.active - 1).(active := z.active - 1), z.active - 1) else (z, k)
  }

  function LeaveEligible<T>(z: Zones<T>, k: nat): (Zones<T>, nat)
    requires k < |z.items| && z.eligible <= |z.items|
  {
    if k < z.eligible then (z.Swap(k, z.eligible - 1).(eligible := z.eligible - 1), z.eligible - 1) else (z, k)
  }

  /** The pipe at `k` is swapped out of every zone it is in. */
  function Withdraw<T>(z: Zones<T>, k: nat): (Zones<T>, nat)
    requires k < |z.items| && z.matching <= z.active <= z.eligible <= |z.items|
  {
    var (z, k) := LeaveMatching(z, k);
    var (z, k) := LeaveActive(z, k);
    LeaveEligible(z, k)
  }

  function Erased<T>(z: Zones<T>, k: nat): Zones<T>
    requires k < |z.items|
  {
    z.(items := z.items[k := z.items[|z.items| - 1]][..|z.items| - 1])
  }

  /** The pipe at `k` goes. */
  function Terminate<T>(z: Zones<T>, k: nat): Zones<T>
    requires k < |z.items| && z.matching <= z.active <= z.eligible <= |z.items|
  {
    var (z, k) := Withdraw(z, k);
    Erased(z, k)
  }

  /** The passive pipe at `k` takes part again, from the next message on. */
  function Activate<T>(z: Zones<T>, k: nat): Zones<T>
    requires k < |z.items| && z.active <= z.eligible <= |z.items|
  {
    var z := if z.eligible < |z.items| then z.Swap(k, z.eligible).(eligible := z.eligible + 1) else z;
    if !z.more && z.active < |z.items| then z.Swap(z.eligible - 1, z.active).(active := z.active + 1) else z
  }

  lemma AllPart<T>(z: Zones<T>)
    ensures forall x :: x in z.All() <==> x in z.items
  {
    assert z.items[..|z.items|] == z.items;
  }

  /** The border after the item at it. */
  lemma PartNext<T>(s: seq<T>, k: nat)
    requires k < |s|
    ensures Part(s, k + 1) == Part(s, k) + {s[k]}
  {
    assert s[..k + 1] == s[..k] + [s[k]];
  }

  lemma PushPart<T>(s: seq<T>, x: T, k: nat)
    requires Distinct(s) && x !in s && k <= |s|
    ensures Distinct(s + [x]) && Part(s + [x], k) == Part(s, k)
  {
    assert (s + [x])[..k] == s[..k];
  }

  /** An eligible pipe joins the matching ones, unless it is not active yet: that happens
      only in the middle of a message. */
  lemma MatchZones<T>(z: Zones<T>, k: nat)
    requires z.Ok() && k < |z.items| && !(z.active <= k < z.eligible)
    ensures var z' := Match(z, k);
            && z'.Ok() && z'.All() == z.All() && z'.Active() == z.Active() && z'.Eligible() == z.Eligible()
            && z'.Matching() == z.Matching() + (if z.items[k] in z.Eligible() then {z.items[k]} else {})
  {
    InPart(z.items, k, z.eligible);
    InPart(z.items, k, z.matching);
    if z.matching <= k < z.eligible {
      var t := Swapped(z.items, k, z.matching);
      SwapPart(z.items, k, z.matching, z.matching);
      SwapPart(z.items, k, z.matching, z.active);
      SwapPart(z.items, k, z.matching, z.eligible);
      SwapPart(z.items, k, z.matching, |z.items|);
      PartNext(t, z.matching);
      assert t[z.matching] == z.items[k];
      InPart(z.items, z.matching, z.matching);
    }
  }

  /** Moving the border `m` down past the item at `k` takes that item, and no other, out. */
  lemma CutOff<T>(s: seq<T>, k: nat, m: nat)
    requires Distinct(s) && k < m <= |s|
    ensures var t := Swapped(s, k, m - 1);
            && Distinct(t) && |t| == |s| && t[m - 1] == s[k] && Part(t, m - 1) == Part(s, m) - {s[k]}
            && (forall n: nat :: m <= n <= |s| || n <= k ==> Part(t, n) == Part(s, n))
  {
    var t := Swapped(s, k, m - 1);
    SwapPart(s, k, m - 1, m);
    PartNext(t, m - 1);
    InPart(t, m - 1, m - 1);
    forall n: nat | m <= n <= |s| || n <= k ensures Part(t, n) == Part(s, n) { SwapPart(s, k, m - 1, n); }
  }

  /** The zones of `z'` are those of `z` with or without `p`. */
  ghost predicate Without<T>(z: Zones<T>, z': Zones<T>, p: T, inMatching: bool, inActive: bool, inEligible: bool) {
    && z.Bordered() && z'.Bordered() && |z'.items| == |z.items| && z'.more == z.more && z'.All() == z.All()
    && z'.Matching() == z.Matching() - (if inMatching then {} else {p})
    && z'.Active() == z.Active() - (if inActive then {} else {p})
    && z'.Eligible() == z.Eligible() - (if inEligible then {} else {p})
  }

  lemma LeaveMatchingZones<T>(z: Zones<T>, k: nat)
    requires z.Bordered() && k < |z.items|
    ensures var (z', k') := LeaveMatching(z, k);
            && Without(z, z', z.items[k], false, true, true) && z'.matching <= k' < |z.items|
            && z'.items[k'] == z.items[k]
            && z'.active == z.active && z'.eligible == z.eligible && (k < z.active <==> k' < z.active)
            && (k < z.eligible <==> k' < z.eligible)
            && z'.items[..if k < z.matching then k else 0] == z.items[..if k < z.matching then k else 0]
  {
    InPart(z.items, k, z.matching);
    if k < z.matching {
      CutOff(z.items, k, z.matching);
      assert Part(Swapped(z.items, k, z.matching - 1), z.active) == Part(z.items, z.active);
      assert Part(Swapped(z.items, k, z.matching - 1), z.eligible) == Part(z.items, z.eligible);
      assert Part(Swapped(z.items, k, z.matching - 1), |z.items|) == Part(z.items, |z.items|);
    }
  }

  lemma LeaveActiveZones<T>(z: Zones<T>, k: nat)
    requires z.Bordered() && z.matching <= k < |z.items|
    ensures var (z', k') := LeaveActive(z, k);
            && Without(z, z', z.items[k], true, false, true) && z'.active <= k' < |z.items|
            && z'.items[k'] == z.items[k]
            && z'.eligible == z.eligible && z'.matching == z.matching && (k < z.eligible <==> k' < z.eligible)
            && z'.items[..z.matching] == z.items[..z.matching]
            && z'.active == (if k < z.active then z.active - 1 else z.active)
  {
    InPart(z.items, k, z.active);
    if k < z.active { CutOff(z.items, k, z.active); }
  }

  lemma LeaveEligibleZones<T>(z: Zones<T>, k: nat)
    requires z.Bordered() && z.active <= k < |z.items|
    ensures var (z', k') := LeaveEligible(z, k);
            && Without(z, z', z.items[k], true, true, false) && z'.eligible <= k' < |z.items|
            && z'.items[k'] == z.items[k]
            && z'.matching == z.matching && z'.active == z.active && z'.items[..z.active] == z.items[..z.active]
            && z'.eligible == (if k < z.eligible then z.eligible - 1 else z.eligible)
  {
    InPart(z.items, k, z.eligible);
    if k < z.eligible {
      var t := Swapped(z.items, k, z.eligible - 1);
      CutOff(z.items, k, z.eligible);
      assert Part(t, z.matching) == Part(z.items, z.matching) && Part(t, z.active) == Part(z.items, z.active);
      assert Part(t, |t|) == Part(z.items, |z.items|);
      assert t[..z.active] == z.items[..z.active];
      InPart(z.items, k, z.matching);
      InPart(z.items, k, z.active);
    }
  }

  /** A withdrawn pipe is in no zone any more; nothing else changes for the others. */
  lemma WithdrawZones<T>(z: Zones<T>, k: nat)
    requires z.Ok() && k < |z.items|
    ensures var (z', k') := Withdraw(z, k);
            && z'.Ok() && Without(z, z', z.items[k], false, false, false) && z'.eligible <= k' < |z.items|
            && z'.items[k'] == z.items[k]
    ensures k < z.matching ==> var z' := Withdraw(z, k).0;
        z'.matching == z.matching - 1 && z'.items[..k] == z.items[..k]
  {
    LeaveMatchingZones(z, k);
    var (z1, k1) := LeaveMatching(z, k);
    LeaveActiveZones(z1, k1);
    var (z2, k2) := LeaveActive(z1, k1);
    LeaveEligibleZones(z2, k2);
    var (z3, k3) := LeaveEligible(z2, k2);
    if k < z.matching {
      assert z3.items[..k] == z3.items[..z2.active][..k] == z2.items[..z2.active][..k] == z2.items[..z1.matching][..k]
          == z1.items[..z1.matching][..k] == z1.items[..k];
    }
  }

  lemma TerminateZones<T>(z: Zones<T>, k: nat)
    requires z.Ok() && k < |z.items|
    ensures var z' := Terminate(z, k); var p := z.items[k];
            && z'.Ok() && z'.All() == z.All() - {p} && z'.Matching() == z.Matching() - {p}
            && z'.Active() == z.Active() - {p} && z'.Eligible() == z.Eligible() - {p}
  {
    WithdrawZones(z, k);
    var (w, j) := Withdraw(z, k);
    EraseZones(w, j);
  }

  /** Behind a border the last item takes the place of an erased one. */
  lemma ErasedPart<T>(s: seq<T>, j: nat)
    requires Distinct(s) && j < |s|
    ensures var t := s[j := s[|s| - 1]][..|s| - 1];
            && Distinct(t) && Part(t, |t|) == Part(s, |s|) - {s[j]}
            && (forall n: nat :: n <= j ==> Part(t, n) == Part(s, n))
  {
    var n := |s| - 1;
    var u := Swapped(s, j, n);
    var t := s[j := s[n]][..n];
    CutOff(s, j, |s|);
    assert t == u[..n];
    assert t[..n] == u[..n];
    forall m: nat | m <= j ensures Part(t, m) == Part(s, m) { assert t[..m] == s[..m]; }
  }

  lemma EraseZones<T>(w: Zones<T>, j: nat)
    requires w.Ok() && w.eligible <= j < |w.items|
    ensures var z' := Erased(w, j);
            && z'.Ok() && z'.All() == w.All() - {w.items[j]} && z'.Matching() == w.Matching()
            && z'.Active() == w.Active() && z'.Eligible() == w.Eligible()
  {
    ErasedPart(w.items, j);
  }

  lemma ActivateZones<T>(z: Zones<T>, k: nat)
    requires z.Ok() && z.eligible <= k < |z.items|
    ensures var z' := Activate(z, k); var p := z.items[k];
            && z'.Ok() && z'.All() == z.All() && z'.Matching() == z.Matching()
            && z'.Active() == z.Active() + (if z.more then {} else {p}) && z'.Eligible() == z.Eligible() + {p}
  {
    var e := z.eligible;
    var t := Swapped(z.items, k, e);
    SwapPart(z.items, k, e, z.matching);
    SwapPart(z.items, k, e, z.active);
    SwapPart(z.items, k, e, e);
    SwapPart(z.items, k, e, |z.items|);
    PartNext(t, e);
    if !z.more { assert Swapped(t, e, e) == t; }
  }

  lemma AttachIsActivate<T>(z: Zones<T>, p: T)
    requires z.Ok()
    ensures Attach(z, p) == Activate(z.(items := z.items + [p]), |z.items|)
  {
    var s := z.items + [p];
    SwapSame(s, z.eligible, |z.items|);
  }

  lemma SwapSame<T>(s: seq<T>, i: nat, j: nat)
    requires i < |s| && j < |s|
    ensures Swapped(s, i, j) == Swapped(s, j, i)
    ensures Swapped(Swapped(s, i, j), i, i) == Swapped(s, i, j)
  {
  }

  lemma PushZones<T>(z: Zones<T>, p: T)
    requires z.Ok() && p !in z.items
    ensures var w := z.(items := z.items + [p]);
            && w.Ok() && w.All() == z.All() + {p} && w.Matching() == z.Matching() && w.Active() == z.Active()
            && w.Eligible() == z.Eligible()
  {
    PushPart(z.items, p, z.matching);
    PushPart(z.items, p, z.active);
    PushPart(z.items, p, z.eligible);
    PushPart(z.items, p, |z.items|);
    PartNext(z.items + [p], |z.items|);
  }

  /** Attaching is adding a passive pipe and activating it. */
  lemma AttachZones<T>(z: Zones<T>, p: T)
    requires z.Ok() && p !in z.items
    ensures var z' := Attach(z, p);
            && z'.Ok() && z'.All() == z.All() + {p} && z'.Matching() == z.Matching()
            && z'.Active() == z.Active() + (if z.more then {} else {p}) && z'.Eligible() == z.Eligible() + {p}
  {
    PushZones(z, p);
    AttachIsActivate(z, p);
    ActivateZones(z.(items := z.items + [p]), |z.items|);
  }

  // ---- turning the match around ----

  /** The entry at `i` joins the matching zone. */
  function Moved<T>(z: Zones<T>, i: nat): Zones<T>
    requires z.matching <= i < |z.items|
  {
    z.Swap(i, z.matching).(matching := z.matching + 1)
  }

  /** The rounds of `reverse_match` from entry `i` on. */
  function Reverse<T>(z: Zones<T>, i: nat): Zones<T>
    requires z.matching <= i && z.eligible <= |z.items|
    decreases z.eligible - i
  {
    if i >= z.eligible then z else Reverse(Moved(z, i), i + 1)
  }

  /** In round `i` the entries from `i` on are still as they were, and the matching zone
      has what was between `from` and `i`. */
  ghost predicate Reversing<T>(s: seq<T>, z: Zones<T>, from: nat, i: nat) {
    && Distinct(z.items) && z.matching <= z.eligible <= |z.items| && Distinct(s) && |s| == |z.items|
    && from <= i <= z.eligible && z.matching == i - from && z.items[i..] == s[i..]
    && Part(z.items, z.matching) == Part(s, i) - Part(s, from) && Part(z.items, z.eligible) == Part(s, z.eligible)
    && z.All() == Part(s, |s|)
  }

  lemma ReverseRound<T>(s: seq<T>, z: Zones<T>, from: nat, i: nat)
    requires Reversing(s, z, from, i) && i < z.eligible
    ensures Reversing(s, Moved(z, i), from, i + 1)
  {
    var t := Swapped(z.items, i, z.matching);
    assert z.items[i] == z.items[i..][0] == s[i..][0] == s[i];
    assert t[i + 1..] == z.items[i..][1..] == s[i..][1..] == s[i + 1..];
    SwapPart(z.items, i, z.matching, z.matching);
    SwapPart(z.items, i, z.matching, z.eligible);
    SwapPart(z.items, i, z.matching, |s|);
    InPart(z.items, z.matching, z.matching);
    PartNext(t, z.matching);
    PartNext(s, i);
    InPart(s, i, from);
  }

  lemma {:induction false} ReverseFrom<T>(s: seq<T>, z: Zones<T>, from: nat, i: nat)
    requires Reversing(s, z, from, i)
    ensures var z' := Reverse(z, i);
        Reversing(s, z', from, z.eligible) && z' == z.(items := z'.items, matching := z'.matching)
    decreases z.eligible - i
  {
    if i < z.eligible {
      ReverseRound(s, z, from, i);
      ReverseFrom(s, Moved(z, i), from, i + 1);
    }
  }

  /** Exactly the eligible pipes that did not match do so afterwards, if all of them are active. */
  lemma ReverseZones<T>(z: Zones<T>)
    requires z.Ok() && z.active == z.eligible
    ensures var z' := Reverse(z.(matching := 0), z.matching);
            && z'.Ok() && z'.All() == z.All() && z'.Active() == z.Active() && z'.Eligible() == z.Eligible()
            && z'.Matching() == z.Eligible() - z.Matching()
  {
    ReverseFrom(z.items, z.(matching := 0), z.matching, z.matching);
  }

  // ---- the borders alone ----

  lemma TerminateOk<T>(z: Zones<T>, k: nat)
    requires z.Ok() && k < |z.items|
    ensures Terminate(z, k).Ok()
  {
    TerminateZones(z, k);
  }

  lemma WithdrawOk<T>(z: Zones<T>, k: nat)
    requires z.Ok() && k < z.matching
    ensures Withdraw(z, k).0.Ok()
  {
    WithdrawZones(z, k);
  }

  /** The borders stay in order exactly if the pipes to match are not more than the active ones. */
  lemma ReverseOk<T>(z: Zones<T>)
    requires z.Ok()
    ensures Reverse(z.(matching := 0), z.matching).Ok() <==> z.eligible - z.matching <= z.active
  {
    ReverseFrom(z.items, z.(matching := 0), z.matching, z.matching);
  }

  /** A pipe that is not yet active may match exactly if an active one does not. */
  lemma MatchOk<T>(z: Zones<T>, k: nat)
    requires z.Ok() && k < |z.items|
    ensures Match(z, k).Ok() <==> (z.active <= k < z.eligible ==> z.matching < z.active)
  {
    if z.matching <= k < z.eligible { SwapPart(z.items, k, z.matching, 0); }
  }

  // ---- a distribution ----

  /** In the middle of a distribution over the matching pipes of `z0`: `zone` are those
      still in the zone, and `done` those of them that were offered the message. */
  ghost predicate Stage<T>(z0: Zones<T>, z: Zones<T>, k: nat, zone: set<T>, done: set<T>) {
    && z0.Ok() && z.Ok() && z.All() == z0.All() && z.more == z0.more && k <= z.matching
    && z.Matching() == zone && Part(z.items, k) == done && done <= zone <= z0.Matching()
    && z.Active() == z0.Active() - (z0.Matching() - zone) && z.Eligible() == z0.Eligible() - (z0.Matching() - zone)
  }

  lemma StageStart<T>(z: Zones<T>)
    requires z.Ok()
    ensures Stage(z, z, 0, z.Matching(), {})
  {
  }

  /** The pipe at `k` is offered the message and takes it or not. */
  lemma StageNext<T>(z0: Zones<T>, z: Zones<T>, k: nat, zone: set<T>, done: set<T>)
    requires Stage(z0, z, k, zone, done) && k < z.matching
    ensures z.items[k] in zone && z.items[k] !in done
    ensures Stage(z0, z, k + 1, zone, done + {z.items[k]})
    ensures Withdraw(z, k).0.matching == z.matching - 1 && Stage(z0, Withdraw(z, k).0, k, zone - {z.items[k]}, done)
  {
    InPart(z.items, k, k);
    InPart(z.items, k, z.matching);
    PartNext(z.items, k);
    InPart(z.items, k, z.active);
    InPart(z.items, k, z.eligible);
    WithdrawZones(z, k);
  }

  lemma StageEnd<T>(z0: Zones<T>, z: Zones<T>, k: nat, zone: set<T>, done: set<T>)
    requires Stage(z0, z, k, zone, done) && k == z.matching
    ensures done == zone
  {
  }

  lemma StageAll<T>(z0: Zones<T>, z: Zones<T>, k: nat, zone: set<T>, done: set<T>)
    requires Stage(z0, z, k, zone, done)
    ensures forall x :: x in z.items <==> x in z0.items
    ensures forall x :: x in z0.items <==> x in z0.All()
  {
    AllPart(z0);
    AllPart(z);
  }
}
