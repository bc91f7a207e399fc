/**
 The multi-trie as a value: a map from the path of every node to a snapshot of
 that node.  The mutable trie in MTrie.dfy is proved against this view; all the
 reasoning about which nodes exist, which are redundant and what the trie stores
 is done here, without a heap.
 */
module MTrieShape {
  import opened Wire
  import opened Wrappers

  type Path = seq<Byte>

  /** The address of a subscriber pipe. */
  type Pipe = nat

  /** One node: its pipe set, the first byte of its child table, its live-node
      counter, and for every table slot whether it is non-null. */
  datatype Val = Val(pipes: Option<set<Pipe>>, min: Byte, live: nat, kids: seq<bool>)

  type Shape = map<Path, Val>

  const Empty: Val := Val(None, 0, 0, [])

  // ---- counting live slots ----

  function Live(kids: seq<bool>): nat {
    if kids == [] then 0 else (if kids[0] then 1 else 0) + Live(kids[1..])
  }

  lemma {:induction false} LiveAppend(a: seq<bool>, b: seq<bool>)
    ensures Live(a + b) == Live(a) + Live(b)
  {
    if a == [] {
      assert a + b == b;
    } else {
      LiveAppend(a[1..], b);
      assert (a + b)[1..] == a[1..] + b;
    }
  }

  lemma {:induction false} LiveDead(a: seq<bool>)
    requires forall i :: 0 <= i < |a| ==> !a[i]
    ensures Live(a) == 0
  {
    if a != [] { LiveDead(a[1..]); }
  }

  lemma LiveUpdate(kids: seq<bool>, i: nat, b: bool)
    requires i < |kids|
    ensures Live(kids[i := b]) == Live(kids) - (if kids[i] then 1 else 0) + (if b then 1 else 0)
  {
    assert kids == kids[..i] + ([kids[i]] + kids[i + 1..]);
    assert kids[i := b] == kids[..i] + ([b] + kids[i + 1..]);
    LiveAppend(kids[..i], [kids[i]] + kids[i + 1..]);
    LiveAppend(kids[..i], [b] + kids[i + 1..]);
  }

  lemma LiveSlot(kids: seq<bool>, i: nat)
    requires i < |kids| && kids[i]
    ensures Live(kids) >= 1
  {
    LiveUpdate(kids, i, false);
  }

  lemma LiveTwo(kids: seq<bool>, i: nat, j: nat)
    requires i < j < |kids| && kids[i] && kids[j]
    ensures Live(kids) >= 2
  {
    LiveUpdate(kids, i, false);
    LiveSlot(kids[i := false], j);
  }

  /** Cutting dead slots off both sides keeps the count. */
  lemma LiveSlice(kids: seq<bool>, lo: nat, hi: nat)
    requires lo <= hi <= |kids|
    requires forall i :: 0 <= i < lo || hi <= i < |kids| ==> !kids[i]
    ensures Live(kids[lo..hi]) == Live(kids)
  {
    assert kids == kids[..lo] + (kids[lo..hi] + kids[hi..]);
    LiveAppend(kids[..lo], kids[lo..hi] + kids[hi..]);
    LiveAppend(kids[lo..hi], kids[hi..]);
    LiveDead(kids[..lo]);
    LiveDead(kids[hi..]);
  }

  lemma {:induction false} LiveFind(kids: seq<bool>) returns (i: nat)
    requires Live(kids) > 0
    ensures i < |kids| && kids[i]
  {
    if kids[0] { i := 0; } else { i := LiveFind(kids[1..]); i := i + 1; }
  }

  // ---- one node ----

  predicate HasKid(v: Val, c: int) {
    v.min <= c < v.min + |v.kids| && v.kids[c - v.min]
  }

  /** The table starts and ends with a non-null slot. */
  predicate Tight(v: Val) {
    |v.kids| > 0 ==> v.kids[0] && v.kids[|v.kids| - 1]
  }

  /** The counter is exact and an allocated pipe set is never empty. */
  predicate Sound(v: Val) {
    && v.min + |v.kids| <= 256
    && v.live == Live(v.kids)
    && (v.pipes.Some? ==> v.pipes.value != {})
  }

  predicate Redundant(v: Val) {
    v.pipes.None? && v.live == 0
  }

  // ---- the whole trie ----

  /** A node other than the root hangs in its parent's table. */
  predicate Up(s: Shape, p: Path) {
    p in s && p != [] ==> p[..|p| - 1] in s && HasKid(s[p[..|p| - 1]], p[|p| - 1])
  }

  /** A non-null slot leads to a node. */
  predicate Down(s: Shape, p: Path, c: Byte) {
    p in s && HasKid(s[p], c) ==> p + [c] in s
  }

  /** Slots and paths agree: exactly the non-null slots lead to nodes. */
  ghost predicate Linked(s: Shape) {
    && [] in s
    && (forall p :: Up(s, p))
    && (forall p, c: Byte :: Down(s, p, c))
  }

  /** What the canonical shape asks of the node at `p`; the node at `spare` may be redundant. */
  predicate NodeOk(s: Shape, p: Path, spare: Path) {
    p in s ==> Sound(s[p]) && Tight(s[p]) && (p == [] || p == spare || !Redundant(s[p]))
  }

  ghost predicate CanonicalBut(s: Shape, spare: Path) {
    Linked(s) && forall p :: NodeOk(s, p, spare)
  }

  ghost predicate Canonical(s: Shape) {
    CanonicalBut(s, [])
  }

  /** What the trie stores: the pipes of every prefix that has any. */
  ghost function Content(s: Shape): map<Path, set<Pipe>> {
    map p | p in s && s[p].pipes.Some? :: s[p].pipes.value
  }

  /** The pipes stored at a prefix. */
  function PipesAt(m: map<Path, set<Pipe>>, prefix: Path): set<Pipe> {
    if prefix in m then m[prefix] else {}
  }

  function Subscribed(m: map<Path, set<Pipe>>, prefix: Path, pipe: Pipe): map<Path, set<Pipe>> {
    m[prefix := PipesAt(m, prefix) + {pipe}]
  }

  /** The result of a keyed removal. */
  datatype RmResult = NotFound | LastValueRemoved | ValuesRemain

  function RmOutcome(m: map<Path, set<Pipe>>, prefix: Path, pipe: Pipe): RmResult {
    if pipe !in PipesAt(m, prefix) then NotFound
    else if PipesAt(m, prefix) == {pipe} then LastValueRemoved
    else ValuesRemain
  }

  /** The subscriptions without the pair of `prefix` and `pipe`; a prefix left
      without pipes is no longer stored. */
  function Unsubscribed(m: map<Path, set<Pipe>>, prefix: Path, pipe: Pipe): map<Path, set<Pipe>> {
    match RmOutcome(m, prefix, pipe)
    case NotFound => m
    case LastValueRemoved => m - {prefix}
    case ValuesRemain => m[prefix := m[prefix] - {pipe}]
  }

  lemma {:induction false} PrefixClosed(s: Shape, p: Path, n: nat)
    requires Linked(s) && p in s && n <= |p|
    ensures p[..n] in s
    ensures n < |p| ==> HasKid(s[p[..n]], p[n])
    decreases |p|
  {
    assert Up(s, p);
    if n < |p| {
      var q := p[..|p| - 1];
      if n < |q| {
        PrefixClosed(s, q, n);
        assert q[..n] == p[..n];
      } else {
        assert p[..n] == q;
      }
    } else {
      assert p[..n] == p;
    }
  }

  /** Below every node other than the root some key is stored. */
  lemma NodeHasKey(s: Shape, p: Path) returns (key: Path)
    requires Canonical(s) && p in s && p != []
    ensures p <= key && key in Content(s)
    decreases LongestAbove(s, p)
  {
    assert NodeOk(s, p, []);
    if s[p].pipes.Some? {
      key := p;
    } else {
      var i := LiveFind(s[p].kids);
      var c: Byte := s[p].min + i;
      assert Down(s, p, c);
      var q := p + [c];
      LongestAboveDrops(s, p, q);
      key := NodeHasKey(s, q);
    }
  }

  /** Nodes at or below a path, the measure of a walk towards the leaves. */
  ghost function Below(s: Shape, p: Path): set<Path> {
    set q | q in s && p <= q
  }

  ghost function LongestAbove(s: Shape, p: Path): nat {
    |Below(s, p)|
  }

  lemma LongestAboveDrops(s: Shape, p: Path, q: Path)
    requires p in s && p < q
    ensures LongestAbove(s, q) < LongestAbove(s, p)
  {
    assert p in Below(s, p) && p !in Below(s, q);
    SubsetCard(Below(s, q), Below(s, p));
  }

  lemma {:induction false} SubsetCard<T>(a: set<T>, b: set<T>)
    requires a < b
    ensures |a| < |b|
  {
    var x :| x in b && x !in a;
    assert a <= b - {x};
    SubsetCardLe(a, b - {x});
  }

  lemma {:induction false} SubsetCardLe<T>(a: set<T>, b: set<T>)
    requires a <= b
    ensures |a| <= |b|
  {
    if a != {} {
      var x :| x in a;
      SubsetCardLe(a - {x}, b - {x});
    }
  }

  /** A path has a node exactly if it is the root or a prefix of a stored key. */
  lemma NodesAreKeyPrefixes(s: Shape, p: Path)
    requires Canonical(s)
    ensures p in s <==> p == [] || exists key :: key in Content(s) && p <= key
  {
    if p in s && p != [] {
      var key := NodeHasKey(s, p);
    }
    if key :| key in Content(s) && p <= key {
      PrefixClosed(s, key, |p|);
      assert key[..|p|] == p;
    }
  }

  /** The canonical shape is unique: two tries that store the same subscriptions
      have the same nodes with the same tables, whatever history led to them.  Only
      the first byte of an empty table may differ. */
  lemma CanonicalUnique(s: Shape, t: Shape)
    requires Canonical(s) && Canonical(t) && Content(s) == Content(t)
    ensures s.Keys == t.Keys
    ensures forall p :: p in s ==> s[p].pipes == t[p].pipes && s[p].kids == t[p].kids && s[p].live == t[p].live
    ensures forall p :: p in s && s[p].kids != [] ==> s[p].min == t[p].min
  {
    forall p ensures p in s <==> p in t {
      NodesAreKeyPrefixes(s, p);
      NodesAreKeyPrefixes(t, p);
    }
    forall p | p in s
      ensures s[p].pipes == t[p].pipes && s[p].kids == t[p].kids && s[p].live == t[p].live
          && (s[p].kids != [] ==> s[p].min == t[p].min)
    {
      assert s[p].pipes.Some? <==> p in Content(s);
      assert t[p].pipes.Some? <==> p in Content(t);
      assert NodeOk(s, p, []) && NodeOk(t, p, []);
      forall c: Byte ensures HasKid(s[p], c) <==> HasKid(t[p], c) {
        KidIsNode(s, p, c);
        KidIsNode(t, p, c);
      }
      TightUnique(s[p], t[p]);
    }
  }

  lemma KidIsNode(s: Shape, p: Path, c: Byte)
    requires Linked(s) && p in s
    ensures HasKid(s[p], c) <==> p + [c] in s
  {
    assert Down(s, p, c) && Up(s, p + [c]);
    assert (p + [c])[..|p + [c]| - 1] == p;
  }

  lemma TightUnique(v: Val, w: Val)
    requires Sound(v) && Sound(w) && Tight(v) && Tight(w)
    requires forall c: Byte :: HasKid(v, c) <==> HasKid(w, c)
    ensures v.kids == w.kids && (v.kids != [] ==> v.min == w.min)
  {
    assert v.kids != [] ==> HasKid(v, v.min) && HasKid(v, v.min + |v.kids| - 1);
    assert w.kids != [] ==> HasKid(w, w.min) && HasKid(w, w.min + |w.kids| - 1);
    if v.kids != [] && w.kids != [] {
      assert HasKid(w, v.min) && HasKid(w, v.min + |v.kids| - 1);
      assert HasKid(v, w.min) && HasKid(v, w.min + |w.kids| - 1);
      assert |v.kids| == |w.kids|;
      forall i | 0 <= i < |v.kids| ensures v.kids[i] == w.kids[i] {
        var c: Byte := v.min + i;
        assert HasKid(v, c) <==> HasKid(w, c);
      }
    }
  }

  // ---- single steps of add and of the keyed removal ----

  function Falses(n: nat): (f: seq<bool>)
    ensures |f| == n && forall i :: 0 <= i < n ==> !f[i]
  {
    seq(n, _ => false)
  }

  /** The table after it was made to cover byte `c`. */
  function Grown(v: Val, c: Byte): Val {
    if v.kids == [] then v.(min := c, kids := [false])
    else if c < v.min then v.(min := c, kids := Falses(v.min - c) + v.kids)
    else if c >= v.min + |v.kids| then v.(kids := v.kids + Falses(c - v.min - |v.kids| + 1))
    else v
  }

  lemma GrownCovers(v: Val, c: Byte)
    requires Sound(v)
    ensures Sound(Grown(v, c)) && Grown(v, c).min <= c < Grown(v, c).min + |Grown(v, c).kids|
    ensures forall x :: HasKid(Grown(v, c), x) <==> HasKid(v, x)
    ensures Grown(v, c).pipes == v.pipes && Grown(v, c).live == v.live
  {
    if v.kids == [] {
    } else if c < v.min {
      LiveAppend(Falses(v.min - c), v.kids);
      LiveDead(Falses(v.min - c));
    } else if c >= v.min + |v.kids| {
      LiveAppend(v.kids, Falses(c - v.min - |v.kids| + 1));
      LiveDead(Falses(c - v.min - |v.kids| + 1));
    }
  }

  /** The node after a child was created at byte `c`. */
  function WithKid(v: Val, c: Byte): Val
    requires v.min <= c < v.min + |v.kids|
  {
    v.(kids := v.kids[c - v.min := true], live := v.live + 1)
  }

  lemma WithKidTight(v: Val, c: Byte)
    requires Sound(v) && Tight(v) && !HasKid(v, c)
    requires var g := Grown(v, c); g.min <= c < g.min + |g.kids|
    ensures var w := WithKid(Grown(v, c), c);
            Sound(w) == Sound(v) && Tight(w) && w.live > 0 && w.pipes == v.pipes
    ensures var w := WithKid(Grown(v, c), c); forall x :: HasKid(w, x) <==> HasKid(v, x) || x == c
  {
    var g := Grown(v, c);
    var w := WithKid(g, c);
    GrownCovers(v, c);
    LiveUpdate(g.kids, c - g.min, true);
    forall x ensures HasKid(w, x) <==> HasKid(v, x) || x == c {
      assert HasKid(g, x) <==> HasKid(v, x);
    }
    assert HasKid(w, c);
    if v.kids != [] {
      assert HasKid(v, v.min) && HasKid(v, v.min + |v.kids| - 1);
      assert HasKid(w, v.min) && HasKid(w, v.min + |v.kids| - 1);
    }
  }

  lemma LinkKid(s: Shape, p: Path, c: Byte, w: Val)
    requires Linked(s) && p in s && p + [c] !in s
    requires forall x :: HasKid(w, x) <==> HasKid(s[p], x) || x == c
    ensures Linked(s[p := w][p + [c] := Empty])
  {
    var q := p + [c];
    var s' := s[p := w][q := Empty];
    assert q[..|q| - 1] == p && q[|q| - 1] == c;
    forall r, x: Byte ensures Down(s', r, x) {
      assert Down(s, r, x);
    }
    forall r ensures Up(s', r) {
      assert Up(s, r);
    }
  }

  lemma AddKid(s: Shape, p: Path, c: Byte)
    requires CanonicalBut(s, p) && p in s && !HasKid(s[p], c)
    requires var g := Grown(s[p], c); g.min <= c < g.min + |g.kids|
    ensures var s' := s[p := WithKid(Grown(s[p], c), c)][p + [c] := Empty];
            CanonicalBut(s', p + [c]) && Content(s') == Content(s)
  {
    var w := WithKid(Grown(s[p], c), c);
    var q := p + [c];
    var s' := s[p := w][q := Empty];
    assert q !in s by { KidIsNode(s, p, c); }
    assert NodeOk(s, p, p);
    WithKidTight(s[p], c);
    forall r ensures NodeOk(s', r, q) { assert NodeOk(s, r, p); }
    LinkKid(s, p, c, w);
    assert forall r :: r in s' && r != q && r != p ==> s'[r] == s[r];
    assert Content(s') == Content(s);
  }

  lemma StepOver(s: Shape, p: Path, c: Byte)
    requires CanonicalBut(s, p) && p in s && HasKid(s[p], c)
    ensures CanonicalBut(s, p + [c])
  {
    LiveSlot(s[p].kids, c - s[p].min);
    forall r ensures NodeOk(s, r, p + [c]) { assert NodeOk(s, r, p); }
  }

  /** Storing a pipe set at the end of an `add` walk. */
  lemma StorePipes(s: Shape, p: Path, pipes: set<Pipe>)
    requires CanonicalBut(s, p) && p in s && pipes != {}
    ensures var s' := s[p := s[p].(pipes := Some(pipes))];
            Canonical(s') && Content(s') == Content(s)[p := pipes]
  {
    var s' := s[p := s[p].(pipes := Some(pipes))];
    assert forall r :: r in s' && r != p ==> s'[r] == s[r];
    forall r, x: Byte ensures Down(s', r, x) { assert Down(s, r, x); }
    forall r ensures Up(s', r) { assert Up(s, r); }
    forall r ensures NodeOk(s', r, []) { assert NodeOk(s, r, p); }
  }

  /** Taking the last pipe of a node leaves the trie canonical except at that node. */
  lemma DropPipes(s: Shape, p: Path)
    requires Canonical(s) && p in s
    ensures var s' := s[p := s[p].(pipes := None)];
            CanonicalBut(s', p) && Content(s') == Content(s) - {p}
  {
    var s' := s[p := s[p].(pipes := None)];
    assert forall r :: r in s' && r != p ==> s'[r] == s[r];
    forall r, x: Byte ensures Down(s', r, x) { assert Down(s, r, x); }
    forall r ensures Up(s', r) { assert Up(s, r); }
    forall r ensures NodeOk(s', r, p) { assert NodeOk(s, r, []); }
  }

  /** `w` is `v` with the child at `c` gone and the table made tight again. */
  ghost predicate Pruned(v: Val, w: Val, c: int) {
    && Sound(w) && Tight(w) && w.pipes == v.pipes && w.live == v.live - 1
    && forall x :: HasKid(w, x) <==> HasKid(v, x) && x != c
  }

  lemma NoKids(v: Val, c: int)
    requires Sound(v) && v.live == 0
    ensures !HasKid(v, c)
  {
    if HasKid(v, c) { LiveSlot(v.kids, c - v.min); }
  }

  lemma UnlinkKid(s: Shape, p: Path, c: Byte, w: Val)
    requires Linked(s) && p in s && p + [c] in s
    requires Sound(s[p + [c]]) && s[p + [c]].live == 0
    requires forall x :: HasKid(w, x) <==> HasKid(s[p], x) && x != c
    ensures Linked((s - {p + [c]})[p := w])
  {
    var q := p + [c];
    var s' := (s - {q})[p := w];
    forall r, x: Byte ensures Down(s', r, x) {
      assert Down(s, r, x);
      if r + [x] == q { assert r == (r + [x])[..|r|] == p && x == q[|p|]; }
    }
    forall r ensures Up(s', r) {
      assert Up(s, r);
      if r in s && r != [] {
        if r[..|r| - 1] == q { NoKids(s[q], r[|r| - 1]); }
        if r[..|r| - 1] == p { assert r == p + [r[|r| - 1]]; }
      }
    }
  }

  /** Deleting a redundant child and tightening its parent's table moves the
      exception one level up and changes nothing that is stored. */
  lemma PruneKid(s: Shape, p: Path, c: Byte, w: Val)
    requires CanonicalBut(s, p + [c]) && p in s && HasKid(s[p], c) && p + [c] in s && Redundant(s[p + [c]])
    requires Pruned(s[p], w, c)
    ensures var s' := (s - {p + [c]})[p := w];
            CanonicalBut(s', p) && Content(s') == Content(s)
  {
    var q := p + [c];
    var s' := (s - {q})[p := w];
    assert NodeOk(s, q, q);
    UnlinkKid(s, p, c, w);
    forall r ensures NodeOk(s', r, p) { assert NodeOk(s, r, q); }
    assert forall r :: r in s' && r != p ==> r in s && s'[r] == s[r];
    assert Content(s') == Content(s);
  }

  /** A child that is not redundant ends the unwinding. */
  lemma KeepKid(s: Shape, spare: Path)
    requires CanonicalBut(s, spare) && spare in s && !Redundant(s[spare])
    ensures Canonical(s)
  {
    forall r ensures NodeOk(s, r, []) { assert NodeOk(s, r, spare); }
  }

  /** Without the node for a prefix of `key`, `key` has no subscribers. */
  lemma MissingChild(s: Shape, key: Path, d: nat, pipe: Pipe)
    requires Canonical(s) && d < |key| && key[..d] in s && !HasKid(s[key[..d]], key[d])
    ensures RmOutcome(Content(s), key, pipe) == NotFound
  {
    if key in s { PrefixClosed(s, key, d); }
  }

  lemma Weaken(s: Shape, spare: Path)
    requires Canonical(s)
    ensures CanonicalBut(s, spare)
  {
    forall r ensures NodeOk(s, r, spare) { assert NodeOk(s, r, []); }
  }

  /** The node once `pipe` has been taken from its pipe set. */
  function Without(v: Val, pipe: Pipe): Val {
    if v.pipes.None? then v
    else if v.pipes.value - {pipe} == {} then v.(pipes := None)
    else v.(pipes := Some(v.pipes.value - {pipe}))
  }

  /** Taking a pipe from one node is a keyed removal; only that node may become redundant. */
  lemma TakePipe(s: Shape, p: Path, pipe: Pipe)
    requires Canonical(s) && p in s
    ensures var s' := s[p := Without(s[p], pipe)];
            CanonicalBut(s', p) && Content(s') == Unsubscribed(Content(s), p, pipe)
  {
    assert NodeOk(s, p, []);
    Weaken(s, p);
    var v := Without(s[p], pipe);
    if v.pipes.None? {
      DropPipes(s, p);
      assert s[p := v] == s[p := s[p].(pipes := None)];
    } else {
      StorePipes(s, p, v.pipes.value);
      Weaken(s[p := v], p);
    }
    assert s[p].pipes.Some? <==> p in Content(s);
    if s[p].pipes.Some? {
      var r := s[p].pipes.value;
      if pipe !in r { assert r - {pipe} == r; }
      if r - {pipe} == {} { assert r == {pipe}; }
    }
  }

  // ---- matching ----

  /** A callback of `match`: the pipe, and the length of the prefix it is subscribed to. */
  datatype Visit = Visit(depth: nat, pipe: Pipe)

  predicate Earlier(a: Visit, b: Visit) {
    a.depth < b.depth || (a.depth == b.depth && a.pipe < b.pipe)
  }

  /** Callbacks come by increasing prefix length, and by address within one prefix. */
  predicate InOrder(visits: seq<Visit>) {
    forall i, j :: 0 <= i < j < |visits| ==> Earlier(visits[i], visits[j])
  }

  /** A subscription to a prefix of `data`. */
  predicate Hits(m: map<Path, set<Pipe>>, data: Path, v: Visit) {
    v.depth <= |data| && v.pipe in PipesAt(m, data[..v.depth])
  }

  /** The hits on prefixes shorter than `d`. */
  ghost predicate Collected(m: map<Path, set<Pipe>>, data: Path, visits: seq<Visit>, d: nat) {
    forall v :: v in visits <==> v.depth < d && Hits(m, data, v)
  }

  /** No hits on prefixes of length `d` or more. */
  ghost predicate NoneFrom(m: map<Path, set<Pipe>>, data: Path, d: nat) {
    forall v :: Hits(m, data, v) ==> v.depth < d
  }

  lemma CollectNode(m: map<Path, set<Pipe>>, data: Path, visits: seq<Visit>, visits': seq<Visit>, d: nat)
    requires Collected(m, data, visits, d) && d <= |data|
    requires forall v :: v in visits' <==> v in visits || (v.depth == d && v.pipe in PipesAt(m, data[..d]))
    ensures Collected(m, data, visits', d + 1)
  {
  }

  lemma CollectAll(m: map<Path, set<Pipe>>, data: Path, visits: seq<Visit>, d: nat)
    requires Collected(m, data, visits, d) && NoneFrom(m, data, d)
    ensures forall v :: v in visits <==> Hits(m, data, v)
  {
  }

  /** No node, no subscriptions at or beyond it. */
  lemma NothingBeyond(s: Shape, data: Path, d: nat)
    requires Linked(s) && d <= |data| && (d < |data| ==> data[..d + 1] !in s)
    ensures NoneFrom(Content(s), data, d + 1)
  {
    forall v: Visit | v.depth > d ensures !Hits(Content(s), data, v) {
      if Hits(Content(s), data, v) {
        assert data[..v.depth][..d + 1] == data[..d + 1];
        PrefixClosed(s, data[..v.depth], d + 1);
      }
    }
  }

  // ---- counting the stored prefixes ----

  lemma SubscribedCount(m: map<Path, set<Pipe>>, prefix: Path, pipe: Pipe)
    ensures |Subscribed(m, prefix, pipe)| == |m| + if prefix in m then 0 else 1
  {
    assert Subscribed(m, prefix, pipe).Keys == m.Keys + {prefix};
  }

  lemma UnsubscribedCount(m: map<Path, set<Pipe>>, prefix: Path, pipe: Pipe)
    requires forall p :: p in m ==> m[p] != {}
    ensures |Unsubscribed(m, prefix, pipe)| == |m| - if RmOutcome(m, prefix, pipe) == LastValueRemoved then 1 else 0
    ensures RmOutcome(m, prefix, pipe) == LastValueRemoved ==> |m| > 0
  {
    match RmOutcome(m, prefix, pipe)
    case NotFound =>
    case LastValueRemoved => assert Unsubscribed(m, prefix, pipe).Keys == m.Keys - {prefix};
    case ValuesRemain => assert Unsubscribed(m, prefix, pipe).Keys == m.Keys;
  }

  /** A removal undoes the subscription that introduced its pair. */
  lemma UnsubscribeUndoes(m: map<Path, set<Pipe>>, prefix: Path, pipe: Pipe)
    requires forall p :: p in m ==> m[p] != {}
    requires pipe !in PipesAt(m, prefix)
    ensures Unsubscribed(Subscribed(m, prefix, pipe), prefix, pipe) == m
  {
    var w := Subscribed(m, prefix, pipe);
    assert w[prefix] - {pipe} == PipesAt(m, prefix);
    if prefix in m { assert w[prefix] != {pipe}; }
  }
}
