/**
 The bulk removal as a walk over trie snapshots.  The walk visits the nodes of
 the initial trie in lexicographic order of their paths; a cursor (trail, top,
 newTop) says how far it has come, and `Sweep` what the trie looks like meanwhile.
 */
module MTrieSweep {
  import opened Wire
  import opened Wrappers
  import opened MTrieShape

  /** `p` leaves the trail to the right. */
  predicate After(p: Path, trail: Path) {
    p != [] && trail != [] && (p[0] > trail[0] || (p[0] == trail[0] && After(p[1..], trail[1..])))
  }

  /** `p` lies strictly below the trail's node, at a child byte of at least `top`. */
  predicate Under(p: Path, trail: Path, top: int) {
    |p| > |trail| && p[..|trail|] == trail && p[|trail|] >= top
  }

  /** Nodes the walk has yet to visit. */
  predicate Ahead(p: Path, trail: Path, top: int, newTop: bool) {
    After(p, trail) || Under(p, trail, top) || (newTop && p == trail)
  }

  lemma {:induction false} AfterStep(p: Path, trail: Path, c: Byte)
    ensures After(p, trail + [c]) <==> After(p, trail) || Under(p, trail, c + 1)
  {
    if trail == [] {
      assert trail + [c] == [c];
      assert (trail + [c])[1..] == [];
      if p != [] { assert !After(p[1..], []); }
    } else if p != [] {
      assert (trail + [c])[0] == trail[0] && (trail + [c])[1..] == trail[1..] + [c];
      AfterStep(p[1..], trail[1..], c);
      if |p| > |trail| {
        assert p[..|trail|] == [p[0]] + p[1..][..|trail| - 1];
        assert trail == [trail[0]] + trail[1..];
      }
    }
  }

  lemma {:induction false} NotAfterPrefix(p: Path, trail: Path)
    requires p <= trail || trail <= p
    ensures !After(p, trail)
  {
    if p != [] && trail != [] {
      assert p[0] == trail[0];
      NotAfterPrefix(p[1..], trail[1..]);
    }
  }

  /** Descending to the child at byte `c` leaves the same nodes to visit. */
  lemma AheadDescend(p: Path, trail: Path, c: Byte)
    ensures Ahead(p, trail, c, false) <==> Ahead(p, trail + [c], 0, true)
  {
    AfterStep(p, trail, c);
    if |p| > |trail| && p[..|trail|] == trail && p[|trail|] == c {
      assert p[..|trail| + 1] == trail + [c];
    }
    if p == trail + [c] || (|p| > |trail| + 1 && p[..|trail| + 1] == trail + [c]) {
      assert p[..|trail|] == (trail + [c])[..|trail|] == trail;
      assert p[|trail|] == (trail + [c])[|trail|];
    }
  }

  /** Leaving a finished child: what is ahead is what was ahead apart from its own subtree. */
  lemma AheadReturn(p: Path, trail: Path, c: Byte, top: int)
    ensures Ahead(p, trail + [c], top, false) <==> Ahead(p, trail, c + 1, false) || Under(p, trail + [c], top)
  {
    AfterStep(p, trail, c);
  }

  /** The visited nodes of the initial trie. */
  ghost function Seen(s0: Shape, trail: Path, top: int, newTop: bool): set<Path> {
    set p | p in s0 && !Ahead(p, trail, top, newTop)
  }

  /** The nodes that are still to be entered, a node just pushed not counted. */
  ghost function Pending(s0: Shape, trail: Path, top: int): set<Path> {
    set p | p in s0 && Ahead(p, trail, top, false)
  }

  /** What the sweep has made of the node at `p`. */
  predicate Swept(s0: Shape, s: Shape, pipe: Pipe, p: Path, trail: Path, top: int, newTop: bool, exempt: Path) {
    && (p in s ==> p in s0)
    && (p in s0 && Ahead(p, trail, top, newTop) ==> p in s && s[p] == s0[p])
    && (p in s0 && !Ahead(p, trail, top, newTop) ==>
          if p !in s then Without(s0[p], pipe).pipes.None?
          else Sound(s[p]) && s[p].pipes == Without(s0[p], pipe).pipes)
    && (p in s && !Ahead(p, trail, top, newTop) && !(p <= trail) ==> Tight(s[p]) && (p == exempt || !Redundant(s[p])))
  }

  /** The trie `s` in the middle of a sweep of `s0`.  Nodes on the trail may have
      loose tables, and the node at `exempt` may be redundant. */
  ghost predicate Sweep(s0: Shape, s: Shape, pipe: Pipe, trail: Path, top: int, newTop: bool, exempt: Path) {
    && Canonical(s0) && Linked(s) && trail in s
    && forall p :: Swept(s0, s, pipe, p, trail, top, newTop, exempt)
  }

  lemma Start(s0: Shape, pipe: Pipe)
    requires Canonical(s0)
    ensures Sweep(s0, s0, pipe, [], 0, true, [])
    ensures Seen(s0, [], 0, true) == {}
  {
    forall p ensures Ahead(p, [], 0, true) {}
  }

  /** Entering a node: its pipe is taken. */
  lemma Enter(s0: Shape, s: Shape, pipe: Pipe, trail: Path, exempt: Path)
    requires Sweep(s0, s, pipe, trail, 0, true, exempt)
    ensures trail in s0 && s[trail] == s0[trail]
    ensures Sweep(s0, s[trail := Without(s[trail], pipe)], pipe, trail, 0, false, exempt)
    ensures trail !in Seen(s0, trail, 0, true) && Seen(s0, trail, 0, false) == Seen(s0, trail, 0, true) + {trail}
  {
    var v := Without(s[trail], pipe);
    var s' := s[trail := v];
    assert Swept(s0, s, pipe, trail, trail, 0, true, exempt);
    assert NodeOk(s0, trail, []);
    NotAfterPrefix(trail, trail);
    forall r, x: Byte ensures Down(s', r, x) { assert Down(s, r, x); }
    forall r ensures Up(s', r) { assert Up(s, r); }
    forall p ensures Swept(s0, s', pipe, p, trail, 0, false, exempt) {
      assert Swept(s0, s, pipe, p, trail, 0, true, exempt);
      if p != trail && p in s0 { assert Ahead(p, trail, 0, true) == Ahead(p, trail, 0, false); }
    }
  }

  /** No node of the initial trie is ahead through an empty slot. */
  lemma NoneUnder(s0: Shape, s: Shape, pipe: Pipe, trail: Path, top: int, newTop: bool, exempt: Path, p: Path)
    requires Sweep(s0, s, pipe, trail, top, newTop, exempt) && p in s0 && Under(p, trail, top)
    ensures HasKid(s[trail], p[|trail|])
  {
    assert Swept(s0, s, pipe, p, trail, top, newTop, exempt);
    PrefixClosed(s, p, |trail|);
  }

  /** Slots without a child may be skipped. */
  lemma RaiseTop(s0: Shape, s: Shape, pipe: Pipe, trail: Path, top: int, top': int, exempt: Path)
    requires Sweep(s0, s, pipe, trail, top, false, exempt) && top <= top'
    requires forall x :: top <= x < top' ==> !HasKid(s[trail], x)
    ensures Sweep(s0, s, pipe, trail, top', false, exempt)
    ensures Seen(s0, trail, top', false) == Seen(s0, trail, top, false)
    ensures Pending(s0, trail, top') == Pending(s0, trail, top)
  {
    forall p | p in s0 ensures Ahead(p, trail, top, false) == Ahead(p, trail, top', false) {
      if Under(p, trail, top) && !Under(p, trail, top') {
        NoneUnder(s0, s, pipe, trail, top, false, exempt, p);
      }
    }
    forall p ensures Swept(s0, s, pipe, p, trail, top', false, exempt) {
      assert Swept(s0, s, pipe, p, trail, top, false, exempt);
    }
  }

  /** Going down to an existing child. */
  lemma Descend(s0: Shape, s: Shape, pipe: Pipe, trail: Path, c: Byte)
    requires Sweep(s0, s, pipe, trail, c, false, trail) && HasKid(s[trail], c)
    ensures Sweep(s0, s, pipe, trail + [c], 0, true, trail + [c])
    ensures Seen(s0, trail + [c], 0, true) == Seen(s0, trail, c, false)
    ensures |Pending(s0, trail + [c], 0)| < |Pending(s0, trail, c)|
  {
    var q := trail + [c];
    assert Down(s, trail, c);
    forall p ensures Ahead(p, trail, c, false) == Ahead(p, q, 0, true) {
      AheadDescend(p, trail, c);
    }
    forall p ensures Swept(s0, s, pipe, p, q, 0, true, q) {
      assert Swept(s0, s, pipe, p, trail, c, false, trail);
      if p <= q && !(p <= trail) { assert p == q; }
    }
    NotAfterPrefix(q, q);
    assert Swept(s0, s, pipe, q, trail, c, false, trail);
    assert q in Pending(s0, trail, c) && q !in Pending(s0, q, 0);
    SubsetCard(Pending(s0, q, 0), Pending(s0, trail, c));
  }

  /** Going back up from a finished child, whose table is tight again. */
  lemma Return(s0: Shape, s: Shape, pipe: Pipe, trail: Path, c: Byte, top: int)
    requires Sweep(s0, s, pipe, trail + [c], top, false, trail + [c])
    requires (forall x :: x >= top ==> !HasKid(s[trail + [c]], x)) && Tight(s[trail + [c]])
    ensures Sweep(s0, s, pipe, trail, c + 1, false, trail + [c]) && HasKid(s[trail], c)
    ensures Seen(s0, trail, c + 1, false) == Seen(s0, trail + [c], top, false)
    ensures Pending(s0, trail, c + 1) == Pending(s0, trail + [c], top)
  {
    var q := trail + [c];
    assert Up(s, q) && q[..|q| - 1] == trail && q[|q| - 1] == c;
    forall p | p in s0 ensures Ahead(p, q, top, false) == Ahead(p, trail, c + 1, false) {
      AheadReturn(p, trail, c, top);
      if Under(p, q, top) { NoneUnder(s0, s, pipe, q, top, false, q, p); }
    }
    var next := c + 1;
    forall p ensures Swept(s0, s, pipe, p, trail, next, false, q) {
      assert Swept(s0, s, pipe, p, q, top, false, q);
      if p <= q && !(p <= trail) { assert p == q; }
    }
  }

  /** The top node's value is replaced, keeping its pipes and its children. */
  lemma Retable(s0: Shape, s: Shape, pipe: Pipe, trail: Path, top: int, exempt: Path, w: Val)
    requires Sweep(s0, s, pipe, trail, top, false, exempt)
    requires Sound(w) && w.pipes == s[trail].pipes && forall x :: HasKid(w, x) <==> HasKid(s[trail], x)
    ensures Sweep(s0, s[trail := w], pipe, trail, top, false, exempt)
  {
    var s' := s[trail := w];
    NotAfterPrefix(trail, trail);
    forall r, x: Byte ensures Down(s', r, x) { assert Down(s, r, x); }
    forall r ensures Up(s', r) { assert Up(s, r); }
    forall p ensures Swept(s0, s', pipe, p, trail, top, false, exempt) {
      assert Swept(s0, s, pipe, p, trail, top, false, exempt);
    }
  }

  /** The walk is through with the node at `trail`. */
  ghost predicate Done(s0: Shape, s: Shape, pipe: Pipe, trail: Path, top: int) {
    && Sweep(s0, s, pipe, trail, top, false, trail) && Tight(s[trail])
    && forall x :: x >= top ==> !HasKid(s[trail], x)
  }

  /** The finished child at byte `c` turned out redundant and is deleted. */
  lemma DropSlot(s0: Shape, s: Shape, pipe: Pipe, trail: Path, c: Byte, w: Val)
    requires Sweep(s0, s, pipe, trail, c + 1, false, trail + [c])
    requires trail + [c] in s && Redundant(s[trail + [c]])
    requires Sound(w) && w.pipes == s[trail].pipes && forall x :: HasKid(w, x) <==> HasKid(s[trail], x) && x != c
    ensures Sweep(s0, (s - {trail + [c]})[trail := w], pipe, trail, c + 1, false, trail)
  {
    var q := trail + [c];
    var s' := (s - {q})[trail := w];
    assert Swept(s0, s, pipe, q, trail, c + 1, false, q);
    NotAfterPrefix(q, trail);
    NotAfterPrefix(trail, trail);
    assert !Ahead(q, trail, c + 1, false);
    UnlinkKid(s, trail, c, w);
    var next := c + 1;
    forall p ensures Swept(s0, s', pipe, p, trail, next, false, trail) {
      assert Swept(s0, s, pipe, p, trail, c + 1, false, q);
    }
  }

  /** The trie once the child in slot `i` of the node at `trail` was deleted. */
  function Emptied(s: Shape, trail: Path, c: Byte, i: nat): Shape
    requires trail in s && i < |s[trail].kids| && s[trail].live > 0
  {
    (s - {trail + [c]})[trail := s[trail].(kids := s[trail].kids[i := false], live := s[trail].live - 1)]
  }

  lemma DropSlotOf(s0: Shape, s: Shape, pipe: Pipe, trail: Path, c: Byte, i: nat)
    requires Sweep(s0, s, pipe, trail, c as int + 1, false, trail + [c])
    requires trail + [c] in s && Redundant(s[trail + [c]])
    requires i < |s[trail].kids| && c == s[trail].min + i && s[trail].kids[i]
    ensures s[trail].live > 0
    ensures var s' := Emptied(s, trail, c, i);
        Sound(s'[trail]) && Sweep(s0, s', pipe, trail, c as int + 1, false, trail)
  {
    assert Swept(s0, s, pipe, trail, trail, c as int + 1, false, trail + [c]);
    NotAfterPrefix(trail, trail);
    LiveSlot(s[trail].kids, i);
    LiveUpdate(s[trail].kids, i, false);
    DropSlot(s0, s, pipe, trail, c, Emptied(s, trail, c, i)[trail]);
  }

  /** The trie once the only child of the node at `trail` was deleted. */
  function Bared(s: Shape, trail: Path, c: Byte): Shape
    requires trail in s
  {
    (s - {trail + [c]})[trail := s[trail].(kids := [], live := 0)]
  }

  /** After the post-visit of an only child the walk is through with the node. */
  lemma DropOnlyOf(s0: Shape, s: Shape, pipe: Pipe, trail: Path, c: Byte)
    requires Sweep(s0, s, pipe, trail, c as int + 1, false, trail + [c])
    requires s[trail].kids == [true] && s[trail].min == c && trail + [c] in s
    ensures Redundant(s[trail + [c]]) ==> Done(s0, Bared(s, trail, c), pipe, trail, c as int + 1)
    ensures !Redundant(s[trail + [c]]) ==> Done(s0, s, pipe, trail, c as int + 1)
  {
    assert Swept(s0, s, pipe, trail, trail, c as int + 1, false, trail + [c]);
    NotAfterPrefix(trail, trail);
    if Redundant(s[trail + [c]]) {
      DropSlot(s0, s, pipe, trail, c, Bared(s, trail, c)[trail]);
    } else {
      KeepSlot(s0, s, pipe, trail, c as int + 1, trail + [c]);
    }
  }

  /** The finished child is kept, or there is none. */
  lemma KeepSlot(s0: Shape, s: Shape, pipe: Pipe, trail: Path, top: int, q: Path)
    requires Sweep(s0, s, pipe, trail, top, false, q)
    requires q in s ==> !Redundant(s[q])
    ensures Sweep(s0, s, pipe, trail, top, false, trail)
  {
    forall p ensures Swept(s0, s, pipe, p, trail, top, false, trail) {
      assert Swept(s0, s, pipe, p, trail, top, false, q);
    }
  }

  lemma Loosen(s0: Shape, s: Shape, pipe: Pipe, trail: Path, top: int, q: Path)
    requires Sweep(s0, s, pipe, trail, top, false, trail)
    ensures Sweep(s0, s, pipe, trail, top, false, q)
  {
    forall p ensures Swept(s0, s, pipe, p, trail, top, false, q) {
      assert Swept(s0, s, pipe, p, trail, top, false, trail);
    }
  }

  // ---- the callback log ----

  /** Whether the callback is due at a node that the pipe leaves. */
  predicate Reported(v: Val, pipe: Pipe, uniq: bool) {
    v.pipes.Some? && pipe in v.pipes.value && (uniq ==> v.pipes.value == {pipe})
  }

  /** The log has exactly one call for every visited prefix that is due one. */
  ghost predicate LogIs(log: seq<Path>, s0: Shape, seen: set<Path>, pipe: Pipe, uniq: bool) {
    && (forall i, j :: 0 <= i < j < |log| ==> log[i] != log[j])
    && (forall p :: p in log <==> p in seen && p in s0 && Reported(s0[p], pipe, uniq))
  }

  lemma LogEnter(log: seq<Path>, s0: Shape, seen: set<Path>, p: Path, pipe: Pipe, uniq: bool)
    requires LogIs(log, s0, seen, pipe, uniq) && p in s0 && p !in seen
    ensures LogIs(if Reported(s0[p], pipe, uniq) then log + [p] else log, s0, seen + {p}, pipe, uniq)
  {
    assert p !in log;
  }

  /** A node already visited has nothing left to erase. */
  lemma VisitedHasNone(v: Val, w: Val, pipe: Pipe, uniq: bool)
    requires v.pipes == Without(w, pipe).pipes && Sound(v)
    ensures Without(v, pipe) == v && !Reported(v, pipe, uniq)
  {
    if v.pipes.Some? { assert v.pipes.value - {pipe} == v.pipes.value; }
  }

  /** The subscriptions without `pipe`. */
  ghost function Purged(m: map<Path, set<Pipe>>, pipe: Pipe): map<Path, set<Pipe>> {
    map p | p in m && m[p] - {pipe} != {} :: m[p] - {pipe}
  }

  /** The root is finished. */
  lemma Finish(s0: Shape, s: Shape, pipe: Pipe, top: int)
    requires Sweep(s0, s, pipe, [], top, false, []) && Tight(s[[]])
    requires forall x :: x >= top ==> !HasKid(s[[]], x)
    ensures Canonical(s) && Content(s) == Purged(Content(s0), pipe)
    ensures Seen(s0, [], top, false) == s0.Keys
  {
    forall p | p in s0 ensures !Ahead(p, [], top, false) {
      if Under(p, [], top) { NoneUnder(s0, s, pipe, [], top, false, [], p); }
    }
    forall p ensures NodeOk(s, p, []) {
      assert Swept(s0, s, pipe, p, [], top, false, []);
    }
    forall p
      ensures p in Content(s) <==> p in Purged(Content(s0), pipe)
      ensures p in Content(s) ==> Content(s)[p] == Purged(Content(s0), pipe)[p]
    {
      assert Swept(s0, s, pipe, p, [], top, false, []);
    }
  }

  // ---- the scan of one table ----

  /** `m` is the first live slot below `cur`, or the last slot if there is none. */
  predicate MinOk(kids: seq<bool>, cur: int, m: int) {
    && 0 <= m < |kids|
    && (forall i :: 0 <= i < m && i < cur && i < |kids| ==> !kids[i])
    && (m == |kids| - 1 || (m < cur && kids[m]))
  }

  /** `m` is the last live slot below `cur`, or slot 0 if there is none. */
  predicate MaxOk(kids: seq<bool>, cur: int, m: int) {
    && 0 <= m < |kids|
    && (forall i :: m < i < cur && i < |kids| ==> !kids[i])
    && (m == 0 || (m < cur && kids[m]))
  }

  lemma ScanEnd(kids: seq<bool>, lo: int, hi: int)
    requires MinOk(kids, |kids|, lo) && MaxOk(kids, |kids|, hi) && Live(kids) > 0
    ensures lo <= hi && kids[lo] && kids[hi]
    ensures forall i :: 0 <= i < lo || hi < i < |kids| ==> !kids[i]
    ensures Live(kids) == 1 <==> lo == hi
  {
    var i := LiveFind(kids);
    assert lo <= i <= hi;
    if lo < hi {
      LiveTwo(kids, lo, hi);
    } else {
      LiveSlice(kids, lo, hi + 1);
      assert kids[lo..hi + 1] == [true];
      assert [true][1..] == [];
    }
  }

  /** The callbacks in terms of the subscriptions: one for each prefix that held the
      pipe or, with `uniq`, for each prefix where it was the last one. */
  lemma LogOfContent(log: seq<Path>, s0: Shape, pipe: Pipe, uniq: bool)
    requires LogIs(log, s0, s0.Keys, pipe, uniq)
    ensures forall i, j :: 0 <= i < j < |log| ==> log[i] != log[j]
    ensures forall p :: p in log <==> pipe in PipesAt(Content(s0), p) && (uniq ==> PipesAt(Content(s0), p) == {pipe})
  {
  }

  /** The bulk removal is the keyed removal at every prefix. */
  lemma PurgedAt(m: map<Path, set<Pipe>>, pipe: Pipe, prefix: Path)
    requires forall p :: p in m ==> m[p] != {}
    ensures PipesAt(Purged(m, pipe), prefix) == PipesAt(m, prefix) - {pipe}
    ensures prefix in Purged(m, pipe) <==> prefix in Unsubscribed(m, prefix, pipe)
  {
    if prefix in m && pipe !in m[prefix] { assert m[prefix] - {pipe} == m[prefix]; }
  }

  lemma OneLeft(s: set<Pipe>, pipe: Pipe)
    ensures s - {pipe} == {} ==> s == {} || s == {pipe}
  {
    if s - {pipe} == {} { assert s <= {pipe}; }
  }

  /** A bulk removal keeps the number of prefixes exactly if the pipe was nowhere alone. */
  lemma PurgedCount(m: map<Path, set<Pipe>>, pipe: Pipe)
    requires forall p :: p in m ==> m[p] != {}
    ensures |Purged(m, pipe)| <= |m|
    ensures |Purged(m, pipe)| == |m| <==> forall p :: p in m ==> m[p] != {pipe}
  {
    var keys := Purged(m, pipe).Keys;
    SubsetCardLe(keys, m.Keys);
    if p :| p in m && m[p] == {pipe} {
      assert p in m.Keys && p !in keys;
      SubsetCard(keys, m.Keys);
    } else {
      forall p | p in m ensures p in keys {
        OneLeft(m[p], pipe);
      }
      assert keys == m.Keys;
    }
  }
}
