/**
 The rotation that the fair-queuing and the load-balancing scheduler share: the
 active pipes stand in front, and `current` goes round among them.  The classes are
 proved against these values.
 */
module Ring {
  import opened PipeArray

  datatype Ring<T(==)> = Ring(items: seq<T>, active: nat, current: nat) {
    ghost predicate Ok() {
      Distinct(items) && active <= |items| && (if active == 0 then current == 0 else current < active)
    }

    predicate IsActive(p: T) {
      p in items[..if active <= |items| then active else 0]
    }

    ghost function Active(): set<T>
      requires active <= |items|
    {
      Part(items, active)
    }

    ghost function All(): set<T> {
      Part(items, |items|)
    }
  }

  function Activate<T>(r: Ring<T>, k: nat): Ring<T>
    requires k < |r.items| && r.active < |r.items|
  {
    r.(items := Swapped(r.items, k, r.active), active := r.active + 1)
  }

  function Attach<T>(r: Ring<T>, p: T): Ring<T>
    requires r.active <= |r.items|
  {
    Activate(r.(items := r.items + [p]), |r.items|)
  }

  /** The pipe at `k` of the active ones becomes passive. */
  function Retire<T>(r: Ring<T>, k: nat): Ring<T>
    requires k < r.active <= |r.items|
  {
    var n := r.active - 1;
    r.(items := Swapped(r.items, k, n), active := n, current := if r.current == n then 0 else r.current)
  }

  function Advance<T>(r: Ring<T>): Ring<T>
    requires r.active > 0
  {
    r.(current := (r.current + 1) % r.active)
  }

  function Terminate<T>(r: Ring<T>, k: nat): Ring<T>
    requires k < |r.items| && r.active <= |r.items|
  {
    if k < r.active then Drop(Retire(r, k), r.active - 1) else Drop(r, k)
  }

  function Drop<T>(r: Ring<T>, k: nat): Ring<T>
    requires k < |r.items|
  {
    r.(items := r.items[k := r.items[|r.items| - 1]][..|r.items| - 1])
  }

  /** The next position as the schedulers compute it without a division. */
  lemma AdvanceWraps<T>(r: Ring<T>)
    requires r.current < r.active
    ensures Advance(r) == r.(current := if r.current + 1 >= r.active then 0 else r.current + 1)
  {
    if r.current + 1 == r.active {
      assert (r.current + 1) % r.active == 0;
    } else {
      assert (r.current + 1) % r.active == r.current + 1;
    }
  }

  lemma RetireOk<T>(r: Ring<T>, k: nat)
    requires r.Ok() && k < r.active
    ensures Retire(r, k).Ok()
  {
    SwapPart(r.items, k, r.active - 1, 0);
  }

  lemma ActivateOk<T>(r: Ring<T>, k: nat)
    requires r.Ok() && r.active <= k < |r.items|
    ensures Activate(r, k).Ok()
    ensures forall i :: 0 <= i < r.active ==> Activate(r, k).items[i] == r.items[i]
  {
    SwapPart(r.items, k, r.active, 0);
  }

  lemma AttachOk<T>(r: Ring<T>, p: T)
    requires r.Ok() && p !in r.items
    ensures Attach(r, p).Ok()
    ensures forall i :: 0 <= i < r.active ==> Attach(r, p).items[i] == r.items[i]
  {
    ActivateOk(r.(items := r.items + [p]), |r.items|);
  }

  lemma DropOk<T>(r: Ring<T>, k: nat)
    requires r.Ok() && r.active <= k < |r.items|
    ensures Drop(r, k).Ok()
    ensures forall i :: 0 <= i < r.active ==> Drop(r, k).items[i] == r.items[i]
  {
  }

  lemma TerminateOk<T>(r: Ring<T>, k: nat)
    requires r.Ok() && k < |r.items|
    ensures Terminate(r, k).Ok()
  {
    if k < r.active {
      RetireOk(r, k);
      DropOk(Retire(r, k), r.active - 1);
    } else {
      DropOk(r, k);
    }
  }

  // ---- the active pipes as a set ----

  /** Exactly the pipe at `k` joins the active ones; it is the last of them. */
  lemma ActivateZones<T>(r: Ring<T>, k: nat)
    requires r.Ok() && r.active <= k < |r.items|
    ensures var r' := Activate(r, k);
        && r'.Ok() && r'.Active() == r.Active() + {r.items[k]} && r'.All() == r.All()
        && r'.active == r.active + 1 && r'.items[r.active] == r.items[k] && r'.current == r.current
  {
    var t := Swapped(r.items, k, r.active);
    ActivateOk(r, k);
    SwapPart(r.items, k, r.active, r.active);
    SwapPart(r.items, k, r.active, |r.items|);
    assert t[..r.active + 1] == t[..r.active] + [t[r.active]];
    assert t[r.active] == r.items[k];
    InPart(r.items, r.active, r.active);
    assert Part(t, r.active + 1) == Part(t, r.active) + {r.items[k]};
  }

  /** Exactly the new pipe joins them. */
  lemma AttachZones<T>(r: Ring<T>, p: T)
    requires r.Ok() && p !in r.items
    ensures var r' := Attach(r, p);
        && r'.Ok() && r'.Active() == r.Active() + {p} && r'.All() == r.All() + {p}
        && r'.active == r.active + 1 && r'.items[r.active] == p && r'.current == r.current
  {
    var w := r.(items := r.items + [p]);
    ActivateZones(w, |r.items|);
    assert w.items[..r.active] == r.items[..r.active];
    assert w.items[..|w.items|] == w.items && r.items[..|r.items|] == r.items;
  }

  /** Exactly the pipe at `k` leaves them. */
  lemma RetireZones<T>(r: Ring<T>, k: nat)
    requires r.Ok() && k < r.active
    ensures var r' := Retire(r, k);
        r'.Ok() && r'.Active() == r.Active() - {r.items[k]} && r'.All() == r.All() && r'.items[r'.active] == r.items[k]
  {
    var n := r.active - 1;
    var t := Swapped(r.items, k, n);
    RetireOk(r, k);
    SwapPart(r.items, k, n, r.active);
    SwapPart(r.items, k, n, |r.items|);
    assert t[..r.active] == t[..n] + [t[n]] && t[n] == r.items[k];
    InPart(t, n, n);
    assert Part(t, r.active) == Part(t, n) + {r.items[k]};
  }

  /** A pipe that goes leaves the array, and the active ones if it was one of them. */
  lemma TerminateZones<T>(r: Ring<T>, k: nat)
    requires r.Ok() && k < |r.items|
    ensures var r' := Terminate(r, k);
        r'.Ok() && r'.Active() == r.Active() - {r.items[k]} && r'.All() == r.All() - {r.items[k]}
  {
    if k < r.active {
      RetireZones(r, k);
      DropZones(Retire(r, k), r.active - 1);
    } else {
      InPart(r.items, k, r.active);
      DropZones(r, k);
    }
  }

  lemma DropZones<T>(r: Ring<T>, k: nat)
    requires r.Ok() && r.active <= k < |r.items|
    ensures var r' := Drop(r, k); r'.Ok() && r'.Active() == r.Active() && r'.All() == r.All() - {r.items[k]}
  {
    var s, n := r.items, |r.items| - 1;
    var t := Drop(r, k).items;
    DropOk(r, k);
    assert t[..r.active] == s[..r.active];
    assert t[..|t|] == t && s[..|s|] == s;
    forall x ensures x in t <==> x in s && x != s[k] {
      if x in s && x != s[k] {
        var i :| 0 <= i < |s| && s[i] == x;
        assert t[if i == n then k else i] == x;
      }
      if x in t {
        var i :| 0 <= i < |t| && t[i] == x;
        assert s[if i == k then n else i] == x;
      }
    }
  }

  /** When the pipe at `k` goes: it is the current one, or the current one is not the last
      active one or takes the first place. */
  predicate Stays<T>(r: Ring<T>, k: nat) {
    k == r.current || !(r.current == r.active - 1 && 0 < k < r.active)
  }

  /** When another pipe than the current one goes, `current` stays with its pipe exactly
      then; otherwise it is reset to the first pipe although its own pipe has only moved. */
  lemma TerminateFollows<T>(r: Ring<T>, k: nat)
    requires r.Ok() && r.active > 0 && k < |r.items| && k != r.current
    ensures var r' := Terminate(r, k); r'.active > 0 && (r'.items[r'.current] == r.items[r.current] <==> Stays(r, k))
    ensures !Stays(r, k) ==> Terminate(r, k).items[Terminate(r, k).current] == r.items[0] != r.items[r.current]
  {
    TerminateOk(r, k);
    if k < r.active {
      RetireOk(r, k);
      DropOk(Retire(r, k), r.active - 1);
    } else {
      DropOk(r, k);
    }
  }

  // ---- fairness ----

  /** How many pipes can come before the active pipe at `i`: the way from `current`, if
      need be once round all pipes. */
  function Distance<T>(r: Ring<T>, i: nat): int {
    if i >= r.current then i - r.current else |r.items| - r.current + i
  }

  lemma DistanceBound<T>(r: Ring<T>, i: nat)
    requires r.Ok() && i < r.active
    ensures 0 <= Distance(r, i) < |r.items|
  {
  }

  /** The active pipe at `i` is at `i'` afterwards, and not farther. */
  predicate Nearer<T(==)>(r: Ring<T>, i: nat, r': Ring<T>, i': nat, gain: nat) {
    && i < |r.items| && i' < r'.active <= |r'.items| && r'.items[i'] == r.items[i]
    && Distance(r', i') + gain <= Distance(r, i)
  }

  /** Skipping the current pipe brings no other active pipe farther away. */
  lemma RetireNearer<T>(r: Ring<T>, i: nat)
    requires r.Ok() && i < r.active && i != r.current
    ensures Nearer(r, i, Retire(r, r.current), if i == r.active - 1 then r.current else i, 0)
  {
  }

  /** A message of the current pipe brings every other active pipe nearer. */
  lemma AdvanceNearer<T>(r: Ring<T>, i: nat)
    requires r.Ok() && i < r.active && i != r.current
    ensures Nearer(r, i, Advance(r), i, 1)
  {
    AdvanceWraps(r);
  }

  lemma ActivateNearer<T>(r: Ring<T>, k: nat, i: nat)
    requires r.Ok() && r.active <= k < |r.items| && i < r.active
    ensures Nearer(r, i, Activate(r, k), i, 0)
  {
  }
}
