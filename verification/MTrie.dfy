/**
 The mutable multi-trie.  Nodes are heap objects updated in place; the ghost map
 `nodes` of a trie names every node by its path, so that the trie needs no
 recursive invariant, and `Shape()` is the snapshot MTrieShape reasons about.
 */
module MTrie {
  import opened Wire
  import opened Wrappers
  import opened MTrieShape
  import opened MTrieSweep

  class Node {
    ghost const path: Path

    /** The source keeps a null pointer or a pointer to a set. */
    var pipes: Option<set<Pipe>>
    var min: Byte
    var count: nat
    var liveNodes: nat

    /** The two arms of the source's union: `next` is used when `count == 1`,
        `table` when `count > 1`. */
    var next: Node?
    var table: seq<Node?>

    constructor (ghost path: Path)
      ensures this.path == path && Fits() && Val() == Empty
      ensures forall x :: At(x) == null
    {
      this.path := path;
      pipes, min, count, liveNodes := None, 0, 0, 0;
      next, table := null, [];
    }

    ghost predicate Fits()
      reads this
    {
      min + count <= 256 && (count > 1 ==> |table| == count)
    }

    /** The child for byte `x`, if there is one. */
    function At(x: int): Node?
      reads this
    {
      if !(min <= x < min + count) then null
      else if count == 1 then next
      else if x - min < |table| then table[x - min]
      else null
    }

    ghost function Kids(): seq<bool>
      reads this
    {
      if count == 0 then [] else if count == 1 then [next != null] else NonNull(table)
    }

    ghost function Val(): Val
      reads this
    {
      MTrieShape.Val(pipes, min, liveNodes, Kids())
    }

    predicate IsRedundant()
      reads this
    {
      pipes.None? && liveNodes == 0
    }

    /** The single child is moved into a table that also covers byte `c`. */
    method ExtendSingle(c: Byte)
      requires count == 1 && c != min
      modifies this
      ensures Fits() && Val() == Grown(old(Val()), c)
      ensures forall x :: At(x) == old(At(x))
    {
      var oldc := min;
      var oldp := next;
      count := (if min < c then c - min else min - c) + 1;
      table := seq(count, _ => null);
      min := if min < c then min else c;
      table := table[oldc - min := oldp];
      assert Kids() == Grown(old(Val()), c).kids;
    }

    /** Extends the table so that it covers byte `c`. */
    method Extend(c: Byte)
      requires Fits() && !(min <= c < min + count)
      modifies this
      ensures Fits() && Val() == Grown(old(Val()), c)
      ensures forall x :: At(x) == old(At(x))
    {
      if count == 0 {
        min := c;
        count := 1;
        next := null;
      } else if count == 1 {
        ExtendSingle(c);
      } else if min < c {
        var oldCount := count;
        count := c - min + 1;
        table := table + seq(count - oldCount, _ => null);
        assert Kids() == Grown(old(Val()), c).kids;
      } else {
        var oldCount := count;
        count := min + oldCount - c;
        table := seq(min - c, _ => null) + table;
        min := c;
        assert Kids() == Grown(old(Val()), c).kids;
      }
    }

    /** Puts `child` into the empty slot for byte `c`. */
    method Adopt(c: Byte, child: Node)
      requires Fits() && min <= c < min + count && At(c) == null
      modifies this
      ensures Fits() && Val() == WithKid(old(Val()), c)
      ensures forall x :: At(x) == if x == c then child else old(At(x))
    {
      if count == 1 {
        next := child;
      } else {
        table := table[c - min := child];
      }
      liveNodes := liveNodes + 1;
      assert Kids() == old(Kids())[c - min := true];
    }

    /** The live slots lie in `[lo, hi)`, so cutting the table down to them loses nothing. */
    lemma CutTable(lo: nat, hi: nat)
      requires Fits() && count > 1 && lo < hi <= count && Sound(Val())
      requires forall i :: 0 <= i < lo || hi <= i < count ==> table[i] == null
      ensures NonNull(table[lo..hi]) == NonNull(table)[lo..hi]
      ensures Live(NonNull(table[lo..hi])) == liveNodes
    {
      assert NonNull(table[lo..hi]) == NonNull(table)[lo..hi];
      LiveSlice(NonNull(table), lo, hi);
    }

    /** A table with one live slot is replaced by a single child. */
    method CompactToSingle(i: nat)
      requires Fits() && count > 1 && Sound(Val()) && liveNodes == 1
      requires i < count && table[i] != null
      modifies this
      ensures Fits() && Sound(Val()) && Tight(Val()) && pipes == old(pipes) && liveNodes == old(liveNodes)
      ensures forall x :: At(x) == old(At(x))
    {
      forall j | 0 <= j < count && j != i ensures table[j] == null {
        if table[j] != null { LiveTwo(NonNull(table), if i < j then i else j, if i < j then j else i); }
      }
      min := min + i;
      count := 1;
      next := table[i];
      table := [];
      assert Kids() == [true];
    }

    /** The table is cut to the slots `[lo, hi)`, both ends of which are live. */
    method CutTo(lo: nat, hi: nat)
      requires Fits() && count > 1 && Sound(Val()) && liveNodes > 1
      requires lo < hi <= count && table[lo] != null && table[hi - 1] != null
      requires forall i :: 0 <= i < lo || hi <= i < count ==> table[i] == null
      modifies this
      ensures Fits() && Sound(Val()) && Tight(Val()) && pipes == old(pipes) && liveNodes == old(liveNodes)
      ensures forall x :: At(x) == old(At(x))
    {
      CutTable(lo, hi);
      LiveOne(table[lo..hi]);
      min := min + lo;
      count := hi - lo;
      table := table[lo..hi];
    }

    /** Drops the child at byte `c` and makes the table tight again. */
    method Unlink(c: Byte)
      requires Fits() && Sound(Val()) && Tight(Val()) && At(c) != null
      modifies this
      ensures Fits() && Sound(Val()) && Tight(Val()) && pipes == old(pipes) && liveNodes == old(liveNodes) - 1
      ensures forall x :: At(x) == if x == c then null else old(At(x))
    {
      if count == 1 {
        DropOnly();
      } else {
        DropSlot(c);
        CompactAround(c);
      }
    }

    /** One of several children is dropped. */
    method DropSlot(c: Byte)
      requires Fits() && count > 1 && Sound(Val()) && Tight(Val()) && At(c) != null
      modifies `table, `liveNodes
      ensures Fits() && Sound(Val()) && liveNodes > 0 && liveNodes == old(liveNodes) - 1
      ensures Val() == old(Val()).(kids := old(Kids())[c - min := false], live := old(liveNodes) - 1)
      ensures forall x :: At(x) == if x == c then null else old(At(x))
    {
      assert liveNodes > 1 by { LiveTwo(NonNull(table), 0, count - 1); }
      LiveUpdate(NonNull(table), c - min, false);
      table := table[c - min := null];
      liveNodes := liveNodes - 1;
      assert Kids() == old(Kids())[c - min := false];
    }

    /** The only child is dropped. */
    method DropOnly()
      requires Fits() && count == 1 && next != null && Sound(Val())
      modifies this
      ensures Fits() && Val() == old(Val()).(kids := [], live := 0) && liveNodes == old(liveNodes) - 1
      ensures forall x :: At(x) == null
    {
      LiveUpdate(Kids(), 0, false);
      next := null;
      count := 0;
      liveNodes := liveNodes - 1;
      assert liveNodes == 0 by { LiveDead(old(Kids())[0 := false]); }
    }

    /** The child in slot `i` of the table is dropped; the table keeps its size. */
    method DropSlotAt(i: nat)
      requires Fits() && count > 1 && i < count && table[i] != null && Sound(Val())
      modifies this
      ensures old(liveNodes) > 0
      ensures Fits() && Sound(Val())
          && Val() == old(Val()).(kids := old(Kids())[i := false], live := old(liveNodes) - 1)
      ensures forall x :: At(x) == if x == min + i then null else old(At(x))
    {
      LiveUpdate(Kids(), i, false);
      LiveSlot(Kids(), i);
      table := table[i := null];
      liveNodes := liveNodes - 1;
      assert Kids() == old(Kids())[i := false];
    }

    /** All slots have been visited: the table is freed, replaced by its only
        child, or cut to the bytes from `newMin` to `newMax`. */
    method Resize(newMin: Byte, newMax: Byte)
      requires Fits() && count > 1 && Sound(Val())
      requires newMin >= min && newMax >= min
      requires MinOk(Kids(), count, newMin - min) && MaxOk(Kids(), count, newMax - min)
      modifies this
      ensures Fits() && Sound(Val()) && Tight(Val()) && pipes == old(pipes) && liveNodes == old(liveNodes)
      ensures forall x :: At(x) == old(At(x))
    {
      if liveNodes == 0 {
        forall x ensures At(x) == null {
          if At(x) != null { LiveSlot(Kids(), x - min); }
        }
        table := [];
        count := 0;
      } else {
        ScanEnd(Kids(), newMin - min, newMax - min);
        if liveNodes == 1 {
          CompactToSingle(newMin - min);
        } else if newMin > min || newMax < min + count - 1 {
          assert newMax - newMin + 1 > 1 && newMax - newMin + 1 < count;
          CutTo(newMin - min, newMax - min + 1);
        }
      }
    }

    lemma KidsAreSlots()
      requires Fits()
      ensures forall x :: HasKid(Val(), x) <==> At(x) != null
    {
    }

    /** The slot for byte `c` of a tight table was just emptied. */
    method CompactAround(c: Byte)
      requires Fits() && count > 1 && Sound(Val()) && liveNodes > 0
      requires min <= c < min + count && table[c - min] == null
      requires c != min ==> table[0] != null
      requires c != min + count - 1 ==> table[count - 1] != null
      modifies this
      ensures Fits() && Sound(Val()) && Tight(Val()) && pipes == old(pipes) && liveNodes == old(liveNodes)
      ensures forall x :: At(x) == old(At(x))
    {
      if liveNodes == 1 {
        var i := 0;
        while i < count && table[i] == null
          invariant 0 <= i <= count && forall j :: 0 <= j < i ==> table[j] == null
        {
          i := i + 1;
        }
        if i == count { LiveDead(NonNull(table)); }
        CompactToSingle(i);
      } else if c == min {
        var i := 1;
        while i < count && table[i] == null
          invariant 1 <= i <= count && forall j :: 0 <= j < i ==> table[j] == null
        {
          i := i + 1;
        }
        CutTo(i, count);
      } else if c == min + count - 1 {
        var i := 1;
        while i < count && table[count - 1 - i] == null
          invariant 1 <= i <= count && forall j :: count - i <= j < count ==> table[j] == null
        {
          i := i + 1;
        }
        CutTo(0, count - i);
      }
    }
  }

  lemma LiveOne(t: seq<Node?>)
    ensures |t| == 1 ==> Live(NonNull(t)) <= 1
  {
    if |t| == 1 { assert NonNull(t)[1..] == []; }
  }

  ghost function NonNull(t: seq<Node?>): (kids: seq<bool>)
    ensures |kids| == |t| && forall i :: 0 <= i < |t| ==> (kids[i] <==> t[i] != null)
  {
    seq(|t|, i requires 0 <= i < |t| => t[i] != null)
  }

  /** An entry of the keyed removal's explicit stack. */
  datatype KeyIter = KeyIter(node: Node, nextNode: Node?, rest: Path, currentChild: Byte, processed: bool)

  /** The stack entry at depth `d` of a keyed removal. */
  ghost predicate FrameOk(nodes: map<Path, Node>, f: KeyIter, d: nat, prefix: Path) {
    && d <= |prefix| && f.rest == prefix[d..]
    && prefix[..d] in nodes && nodes[prefix[..d]] == f.node
    && (f.processed ==>
          d < |prefix| && f.currentChild == prefix[d] &&
          prefix[..d + 1] in nodes && nodes[prefix[..d + 1]] == f.nextNode)
  }

  ghost predicate StackOk(nodes: map<Path, Node>, stack: seq<KeyIter>, prefix: Path) {
    && |stack| <= |prefix| + 1
    && (forall d :: 0 <= d < |stack| ==> FrameOk(nodes, stack[d], d, prefix))
    && (forall d :: 0 <= d < |stack| - 1 ==> stack[d].processed)
  }

  lemma StackTop(nodes: map<Path, Node>, stack: seq<KeyIter>, prefix: Path)
    requires StackOk(nodes, stack, prefix) && stack != []
    ensures var lower := stack[..|stack| - 1];
            FrameOk(nodes, stack[|lower|], |lower|, prefix) && StackOk(nodes, lower, prefix)
                && (lower != [] ==> lower[|lower| - 1].processed)
  {
  }

  lemma StackPush(nodes: map<Path, Node>, lower: seq<KeyIter>, f: KeyIter, g: KeyIter, prefix: Path)
    requires StackOk(nodes, lower, prefix) && (lower != [] ==> lower[|lower| - 1].processed) && |lower| < |prefix|
    requires FrameOk(nodes, f, |lower|, prefix) && FrameOk(nodes, g, |lower| + 1, prefix) && f.processed
    ensures StackOk(nodes, lower + [f, g], prefix)
  {
  }

  /** Entries at smaller depths do not mind the deletion of the child below them. */
  lemma StackStays(nodes: map<Path, Node>, stack: seq<KeyIter>, prefix: Path)
    requires StackOk(nodes, stack, prefix) && |stack| < |prefix|
    ensures StackOk(nodes - {prefix[..|stack| + 1]}, stack, prefix)
  {
    forall d | 0 <= d < |stack| ensures FrameOk(nodes - {prefix[..|stack| + 1]}, stack[d], d, prefix) {
      assert FrameOk(nodes, stack[d], d, prefix);
      assert |prefix[..d]| == d && |prefix[..d + 1]| == d + 1 && |prefix[..|stack| + 1]| == |stack| + 1;
    }
  }

  /** An entry of the bulk removal's explicit stack. */
  datatype BulkIter = BulkIter(node: Node, size: nat, currentChild: nat, newMin: Byte, newMax: Byte, processed: bool)

  /** The entry's bounds are right for the slots visited so far. */
  predicate Scanned(v: Val, f: BulkIter) {
    MinOk(v.kids, f.currentChild, f.newMin - v.min) && MaxOk(v.kids, f.currentChild, f.newMax - v.min)
  }

  /** The stack entry at depth `d` of a bulk removal: `buff[..d]` leads to its node. */
  ghost predicate BulkFrame(nodes: map<Path, Node>, s: Shape, f: BulkIter, d: nat, buff: seq<Byte>) {
    && f.size == d <= |buff|
    && buff[..d] in s && buff[..d] in nodes && nodes[buff[..d]] == f.node
    && var v := s[buff[..d]];
       && (f.currentChild == 0 || (|v.kids| > 1 && f.currentChild < |v.kids|))
       && (f.processed ==>
             && d < |buff| && f.currentChild < |v.kids| && buff[d] == v.min + f.currentChild
             && (|v.kids| == 1 ==> v.kids[0]))
       && (|v.kids| > 1 && (f.processed || f.currentChild > 0) ==> Scanned(v, f))
  }

  ghost predicate BulkStack(nodes: map<Path, Node>, s: Shape, stack: seq<BulkIter>, buff: seq<Byte>) {
    && (forall d :: 0 <= d < |stack| ==> BulkFrame(nodes, s, stack[d], d, buff))
    && (forall d :: 0 <= d < |stack| - 1 ==> stack[d].processed)
  }

  /** How far the walk has come with the top entry `f` at depth `d`. */
  ghost function TopByte(s: Shape, f: BulkIter, d: nat, buff: seq<Byte>): int {
    if f.processed && d < |buff| then buff[d] + 1
    else if f.currentChild > 0 && d <= |buff| && buff[..d] in s then s[buff[..d]].min + f.currentChild
    else 0
  }

  predicate FirstVisit(f: BulkIter) {
    !f.processed && f.currentChild == 0
  }

  /** The sweep the top entry `f` at depth `d` stands for. */
  ghost predicate AtSweep(s0: Shape, s: Shape, f: BulkIter, d: nat, buff: seq<Byte>, pipe: Pipe) {
    && d <= |buff| && (f.processed ==> d < |buff|)
    && Sweep(s0, s, pipe, buff[..d], TopByte(s, f, d, buff), FirstVisit(f),
        if f.processed then buff[..d + 1] else buff[..d])
  }

  ghost function SeenBy(s0: Shape, s: Shape, f: BulkIter, d: nat, buff: seq<Byte>): set<Path> {
    if d <= |buff| then Seen(s0, buff[..d], TopByte(s, f, d, buff), FirstVisit(f)) else {}
  }

  ghost function PendingBy(s0: Shape, s: Shape, f: BulkIter, d: nat, buff: seq<Byte>): nat {
    if d <= |buff| then |Pending(s0, buff[..d], TopByte(s, f, d, buff))| else 0
  }

  /** The walk goes on with the entry `f` on top; `seen` and `bound` say what has
      been visited and how much may be pending. */
  ghost predicate Resumes(s0: Shape, s: Shape, f: BulkIter, d: nat, buff: seq<Byte>, pipe: Pipe, seen: set<Path>,
          bound: int)
  {
    AtSweep(s0, s, f, d, buff, pipe) && SeenBy(s0, s, f, d, buff) == seen && PendingBy(s0, s, f, d, buff) <= bound
  }

  lemma ResumeSelf(s0: Shape, s: Shape, pipe: Pipe, trail: Path, top: int, c: Byte, f: BulkIter, buff: seq<Byte>)
    requires Sweep(s0, s, pipe, trail, top, false, trail) && top <= c + 1
    requires forall x :: top <= x <= c ==> !HasKid(s[trail], x)
    requires f.processed && |trail| < |buff| && buff[..|trail|] == trail && buff[|trail|] == c
    ensures Resumes(s0, s, f, |trail|, buff, pipe, Seen(s0, trail, top, false), |Pending(s0, trail, top)|)
  {
    assert buff[..|trail| + 1] == trail + [c];
    RaiseTop(s0, s, pipe, trail, top, c + 1, trail);
    Loosen(s0, s, pipe, trail, c + 1, trail + [c]);
  }

  lemma ResumeChild(s0: Shape, s: Shape, pipe: Pipe, trail: Path, top: int, c: Byte, f: BulkIter, buff: seq<Byte>)
    requires Sweep(s0, s, pipe, trail, top, false, trail) && top <= c && HasKid(s[trail], c)
    requires forall x :: top <= x < c ==> !HasKid(s[trail], x)
    requires FirstVisit(f) && |trail| < |buff| && buff[..|trail|] == trail && buff[|trail|] == c
    ensures Resumes(s0, s, f, |trail| + 1, buff, pipe, Seen(s0, trail, top, false), |Pending(s0, trail, top)| - 1)
  {
    assert buff[..|trail| + 1] == trail + [c];
    RaiseTop(s0, s, pipe, trail, top, c, trail);
    Descend(s0, s, pipe, trail, c);
  }

  /** The bounds after slot `currentChild` has been visited and found live or dead. */
  function Noted(min: Byte, f: BulkIter, live: bool): BulkIter
    requires f.currentChild + min < 256
  {
    var c: Byte := f.currentChild + min;
    if !live then f
    else f.(newMin := if c < f.newMin then c else f.newMin, newMax := if c > f.newMax then c else f.newMax)
  }

  lemma NotedScans(v: Val, w: Val, f: BulkIter, live: bool)
    requires v.min + |v.kids| <= 256 && f.currentChild < |v.kids| && Scanned(v, f)
    requires w.min == v.min && w.kids == v.kids[f.currentChild := live]
    ensures Scanned(w, Noted(v.min, f, live).(currentChild := f.currentChild + 1))
  {
  }

  /** Nodes with paths shorter than `d` are as they were. */
  ghost predicate Kept(nodes: map<Path, Node>, s: Shape, nodes': map<Path, Node>, s': Shape, d: nat) {
    forall p :: p in nodes && |p| < d ==> p in nodes' && nodes'[p] == nodes[p] && p in s && p in s' && s'[p] == s[p]
  }

  /** Entries below the top do not mind what happens to the top's node and its child. */
  lemma BulkStackStays(nodes: map<Path, Node>, s: Shape, nodes': map<Path, Node>, s': Shape, stack: seq<BulkIter>,
          buff: seq<Byte>, buff': seq<Byte>)
    requires BulkStack(nodes, s, stack, buff)
    requires |stack| <= |buff| && |stack| <= |buff'| && buff'[..|stack|] == buff[..|stack|]
    requires Kept(nodes, s, nodes', s', |stack|)
    ensures BulkStack(nodes', s', stack, buff')
  {
    forall d | 0 <= d < |stack| ensures BulkFrame(nodes', s', stack[d], d, buff') {
      assert BulkFrame(nodes, s, stack[d], d, buff);
      assert buff'[..d] == buff'[..|stack|][..d] == buff[..d];
      assert stack[d].processed && d < |stack| ==> buff'[d] == buff'[..|stack|][d] == buff[d];
    }
  }

  /** Whether the walk has ended or goes on with the top of `stack`. */
  ghost predicate BulkAt(s0: Shape, s: Shape, stack: seq<BulkIter>, buff: seq<Byte>, log: seq<Path>, pipe: Pipe,
          uniq: bool)
  {
    var t := |stack| - 1;
    if t < 0 then
      Canonical(s) && Content(s) == Purged(Content(s0), pipe) && LogIs(log, s0, s0.Keys, pipe, uniq)
    else
      AtSweep(s0, s, stack[t], t, buff, pipe) && LogIs(log, s0, SeenBy(s0, s, stack[t], t, buff), pipe, uniq)
  }

  ghost function BulkPending(s0: Shape, s: Shape, stack: seq<BulkIter>, buff: seq<Byte>): nat {
    if stack == [] then 0 else PendingBy(s0, s, stack[|stack| - 1], |stack| - 1, buff)
  }

  /** What the top entry still has to do at its own node. */
  ghost function BulkLeft(s: Shape, stack: seq<BulkIter>, buff: seq<Byte>): int {
    var t := |stack| - 1;
    if t < 0 || t > |buff| || buff[..t] !in s then 0
    else 2 * (|s[buff[..t]].kids| - stack[t].currentChild) + if stack[t].processed then 0 else 1
  }

  /** The top entry is through: the one below goes on, or the walk has ended. */
  lemma Popped(s0: Shape, s: Shape, nodes: map<Path, Node>, stack: seq<BulkIter>, buff: seq<Byte>, top: int,
          log: seq<Path>, pipe: Pipe, uniq: bool)
    requires BulkStack(nodes, s, stack, buff) && |stack| <= |buff|
    requires stack != [] ==> stack[|stack| - 1].processed
    requires Done(s0, s, pipe, buff[..|stack|], top)
    requires LogIs(log, s0, Seen(s0, buff[..|stack|], top, false), pipe, uniq)
    ensures BulkAt(s0, s, stack, buff, log, pipe, uniq)
    ensures BulkPending(s0, s, stack, buff) <= |Pending(s0, buff[..|stack|], top)|
  {
    if stack == [] {
      Finish(s0, s, pipe, top);
    } else {
      var t := |stack| - 1;
      assert BulkFrame(nodes, s, stack[t], t, buff);
      assert buff[..t + 1] == buff[..t] + [buff[t]];
      Return(s0, s, pipe, buff[..t], buff[t], top);
    }
  }

  /** The entry moves on to its next slot. */
  lemma NextSlot(nodes: map<Path, Node>, s0: Shape, s: Shape, f: BulkIter, buff: seq<Byte>, pipe: Pipe, trail: Path,
          next: int)
    requires trail in s && NotingOf(nodes, s, f, trail, next, |s[trail].kids|, s0, pipe)
        && f.currentChild < |s[trail].kids|
    requires f.size <= |buff| && buff[..f.size] == trail
    ensures BulkFrame(nodes, s, f, f.size, buff) && AtSweep(s0, s, f, f.size, buff, pipe)
    ensures TopByte(s, f, f.size, buff) == next
  {
  }

  /** The slots below `it.currentChild` of the node at `trail` are done with. */
  ghost predicate NotingOf(nodes: map<Path, Node>, s: Shape, it: BulkIter, trail: Path, next: int, count: nat,
          s0: Shape, pipe: Pipe)
  {
    && trail in nodes && nodes[trail] == it.node && it.size == |trail| && !it.processed && trail in s
    && 1 < count == |s[trail].kids| && 0 < it.currentChild <= count && Scanned(s[trail], it)
    && Sound(s[trail]) && next == s[trail].min + it.currentChild && Sweep(s0, s, pipe, trail, next, false, trail)
  }

  /** Keeping the child, or having none, is a step to the next slot. */
  lemma KeepNotes(nodes: map<Path, Node>, s0: Shape, s: Shape, pipe: Pipe, f: BulkIter, it: BulkIter, buff: seq<Byte>,
          trail: Path)
    requires BulkFrame(nodes, s, f, f.size, buff) && f.processed && AtSweep(s0, s, f, f.size, buff, pipe)
    requires trail == buff[..f.size] && |s[trail].kids| > 1 && Sound(s[trail])
    requires buff[..f.size + 1] in s ==> !Redundant(s[buff[..f.size + 1]])
    requires it == Noted(s[trail].min, f, s[trail].kids[f.currentChild]).(processed := false,
        currentChild := f.currentChild + 1)
    ensures NotingOf(nodes, s, it, trail, buff[f.size] as int + 1, |s[trail].kids|, s0, pipe)
  {
    KeepSlot(s0, s, pipe, trail, buff[f.size] as int + 1, buff[..f.size + 1]);
    NotedScans(s[trail], s[trail], f, s[trail].kids[f.currentChild]);
  }

  /** Deleting a redundant child is a step to the next slot. */
  lemma DropNotes(nodes: map<Path, Node>, s0: Shape, s: Shape, pipe: Pipe, f: BulkIter, buff: seq<Byte>, trail: Path)
    requires BulkFrame(nodes, s, f, f.size, buff) && f.processed && AtSweep(s0, s, f, f.size, buff, pipe)
    requires trail == buff[..f.size] && |s[trail].kids| > 1 && s[trail].kids[f.currentChild]
    requires trail + [buff[f.size]] in s && Redundant(s[trail + [buff[f.size]]])
    ensures s[trail].live > 0
    ensures NotingOf(nodes - {trail + [buff[f.size]]}, Emptied(s, trail, buff[f.size], f.currentChild),
                     f.(processed := false, currentChild := f.currentChild + 1), trail, buff[f.size] as int + 1,
                         |s[trail].kids|, s0, pipe)
  {
    var c := buff[f.size];
    assert buff[..f.size + 1] == trail + [c] && |trail + [c]| == |trail| + 1;
    DropSlotOf(s0, s, pipe, trail, c, f.currentChild);
    var v := Emptied(s, trail, c, f.currentChild)[trail];
    assert v.min == s[trail].min && v.kids == s[trail].kids[f.currentChild := false];
    NotedScans(s[trail], v, f, false);
  }

  /** The walk goes on with `g` on top of the entries `lower`. */
  lemma Pushed(s0: Shape, s: Shape, nodes: map<Path, Node>, lower: seq<BulkIter>, g: BulkIter, buff: seq<Byte>,
               log: seq<Path>, pipe: Pipe, uniq: bool, seen: set<Path>, bound: int)
    requires BulkStack(nodes, s, lower, buff) && (lower != [] ==> lower[|lower| - 1].processed)
    requires BulkFrame(nodes, s, g, |lower|, buff) && Resumes(s0, s, g, |lower|, buff, pipe, seen, bound)
    requires LogIs(log, s0, seen, pipe, uniq)
    ensures BulkStack(nodes, s, lower + [g], buff) && BulkAt(s0, s, lower + [g], buff, log, pipe, uniq)
    ensures BulkPending(s0, s, lower + [g], buff) <= bound
    ensures BulkLeft(s, lower + [g], buff) == 2 * (|s[buff[..|lower|]].kids| - g.currentChild) + if g.processed then 0
        else 1
  {
    var stack := lower + [g];
    forall d | 0 <= d < |stack| ensures BulkFrame(nodes, s, stack[d], d, buff) {
      assert d < |lower| ==> BulkFrame(nodes, s, lower[d], d, buff);
    }
  }

  /** A processed entry is put on top; what goes on is said of the one above it. */
  lemma PushedUnder(s: Shape, nodes: map<Path, Node>, lower: seq<BulkIter>, g: BulkIter, buff: seq<Byte>)
    requires BulkStack(nodes, s, lower, buff) && (lower != [] ==> lower[|lower| - 1].processed)
    requires BulkFrame(nodes, s, g, |lower|, buff)
    ensures BulkStack(nodes, s, lower + [g], buff)
  {
    forall d | 0 <= d < |lower + [g]| ensures BulkFrame(nodes, s, (lower + [g])[d], d, buff) {
      assert d < |lower| ==> BulkFrame(nodes, s, lower[d], d, buff);
    }
  }

  /** The lexicographic measure of a bulk removal. */
  ghost predicate Progress(p: nat, n: nat, l: int, p0: nat, n0: nat, l0: int) {
    p < p0 || (p == p0 && (n < n0 || (n == n0 && l < l0)))
  }

  /** What the descending part of a pre-visit of `f` pushes. */
  ghost predicate Descends(nodes: map<Path, Node>, s0: Shape, s: Shape, f: BulkIter, trail: Path, top: int,
          pushed: seq<BulkIter>, buff: seq<Byte>, pipe: Pipe)
  {
    && f.size <= |buff| && buff[..f.size] == trail && |pushed| <= 2
    && (pushed == [] ==> Done(s0, s, pipe, trail, top))
    && (pushed != [] ==>
          pushed[0].processed && pushed[0].currentChild == f.currentChild
              && BulkFrame(nodes, s, pushed[0], f.size, buff))
    && (|pushed| == 1 ==>
          Resumes(s0, s, pushed[0], f.size, buff, pipe, Seen(s0, trail, top, false), |Pending(s0, trail, top)|))
    && (|pushed| == 2 ==>
          && BulkFrame(nodes, s, pushed[1], f.size + 1, buff)
          && Resumes(s0, s, pushed[1], f.size + 1, buff, pipe, Seen(s0, trail, top, false),
              |Pending(s0, trail, top)| - 1))
  }

  lemma Descended(nodes: map<Path, Node>, s0: Shape, s: Shape, lower: seq<BulkIter>, f: BulkIter, trail: Path, top: int,
                  pushed: seq<BulkIter>, buff: seq<Byte>, log: seq<Path>, pipe: Pipe, uniq: bool)
    requires BulkStack(nodes, s, lower, buff) && (lower != [] ==> lower[|lower| - 1].processed) && f.size == |lower|
    requires Descends(nodes, s0, s, f, trail, top, pushed, buff, pipe) && trail in s
    requires LogIs(log, s0, Seen(s0, trail, top, false), pipe, uniq)
    ensures var stack := lower + pushed;
            && BulkStack(nodes, s, stack, buff) && BulkAt(s0, s, stack, buff, log, pipe, uniq) && |stack| <= |buff| + 1
            && Progress(BulkPending(s0, s, stack, buff), |stack|, BulkLeft(s, stack, buff),
                        |Pending(s0, trail, top)|, |lower| + 1, 2 * (|s[trail].kids| - f.currentChild) + 1)
  {
    var seen := Seen(s0, trail, top, false);
    if pushed == [] {
      assert lower + pushed == lower;
      Popped(s0, s, nodes, lower, buff, top, log, pipe, uniq);
    } else if |pushed| == 1 {
      assert pushed == [pushed[0]];
      Pushed(s0, s, nodes, lower, pushed[0], buff, log, pipe, uniq, seen, |Pending(s0, trail, top)|);
    } else {
      assert lower + pushed == lower + [pushed[0]] + [pushed[1]];
      PushedUnder(s, nodes, lower, pushed[0], buff);
      Pushed(s0, s, nodes, lower + [pushed[0]], pushed[1], buff, log, pipe, uniq, seen, |Pending(s0, trail, top)| - 1);
    }
  }

  /** What the descending part may rely on once the pipe was taken from the top node. */
  ghost predicate Entered(nodes: map<Path, Node>, s0: Shape, s: Shape, f: BulkIter, buff: seq<Byte>, trail: Path,
          top: int, pipe: Pipe)
  {
    && BulkFrame(nodes, s, f, f.size, buff) && !f.processed && trail == buff[..f.size]
    && top == TopByte(s, f, f.size, buff)
    && Sweep(s0, s, pipe, trail, top, false, trail)
    && (f.currentChild == 0 ==> Tight(s[trail]))
  }

  /** Taking the pipe from the top node and logging the call is right on the first
      visit, and does nothing on later ones. */
  lemma Entering(nodes: map<Path, Node>, s0: Shape, s: Shape, f: BulkIter, buff: seq<Byte>, trail: Path, top: int,
          log: seq<Path>, pipe: Pipe, uniq: bool)
    requires BulkFrame(nodes, s, f, f.size, buff) && !f.processed && AtSweep(s0, s, f, f.size, buff, pipe)
    requires trail == buff[..f.size] && top == TopByte(s, f, f.size, buff)
    requires LogIs(log, s0, SeenBy(s0, s, f, f.size, buff), pipe, uniq)
    ensures Sound(s[trail]) && Entered(nodes, s0, s[trail := Without(s[trail], pipe)], f, buff, trail, top, pipe)
    ensures LogIs(if Reported(s[trail], pipe, uniq) then log + [trail] else log, s0, Seen(s0, trail, top, false), pipe,
        uniq)
    ensures |Without(s[trail], pipe).kids| == |s[trail].kids|
  {
    assert Swept(s0, s, pipe, trail, trail, top, FirstVisit(f), trail);
    assert NodeOk(s0, trail, []);
    NotAfterPrefix(trail, trail);
    if FirstVisit(f) {
      Enter(s0, s, pipe, trail, trail);
      LogEnter(log, s0, Seen(s0, trail, 0, true), trail, pipe, uniq);
    } else {
      VisitedHasNone(s[trail], s0[trail], pipe, uniq);
      assert s[trail := s[trail]] == s;
    }
  }

  /** The walk goes on with another slot of the same node. */
  lemma Again(nodes: map<Path, Node>, s0: Shape, s: Shape, lower: seq<BulkIter>, it: BulkIter, trail: Path, next: int,
          kids: nat, buff: seq<Byte>, log: seq<Path>, pipe: Pipe, uniq: bool)
    requires BulkStack(nodes, s, lower, buff) && (lower != [] ==> lower[|lower| - 1].processed)
    requires |lower| < |buff| && trail == buff[..|lower|] && it.currentChild < kids
    requires NotingOf(nodes, s, it, trail, next, kids, s0, pipe)
    requires LogIs(log, s0, Seen(s0, trail, next, false), pipe, uniq)
    ensures BulkStack(nodes, s, lower + [it], buff) && BulkAt(s0, s, lower + [it], buff, log, pipe, uniq)
    ensures BulkPending(s0, s, lower + [it], buff) == |Pending(s0, trail, next)|
    ensures BulkLeft(s, lower + [it], buff) == 2 * (kids - it.currentChild) + 1
  {
    NextSlot(nodes, s0, s, it, buff, pipe, trail, next);
    Pushed(s0, s, nodes, lower, it, buff, log, pipe, uniq, Seen(s0, trail, next, false), |Pending(s0, trail, next)|);
  }

  /** What a post-visit leaves: another slot of the same node, or a finished node. */
  ghost predicate Left(nodes: map<Path, Node>, s0: Shape, s: Shape, it: BulkIter, again: bool, trail: Path, next: int,
          kids: nat, pipe: Pipe)
  {
    if again then it.currentChild < kids && NotingOf(nodes, s, it, trail, next, kids, s0, pipe)
        else Done(s0, s, pipe, trail, next)
  }

  lemma Ascended(nodes0: map<Path, Node>, before: Shape, nodes: map<Path, Node>, s0: Shape, s: Shape,
          lower: seq<BulkIter>, it: BulkIter, again: bool, current: nat, trail: Path, next: int, kids: nat,
          buff: seq<Byte>, log: seq<Path>, pipe: Pipe, uniq: bool)
    requires BulkStack(nodes0, before, lower, buff) && (lower != [] ==> lower[|lower| - 1].processed)
    requires Kept(nodes0, before, nodes, s, |lower|)
    requires |lower| < |buff| && trail == buff[..|lower|] && (again ==> current < it.currentChild)
    requires Left(nodes, s0, s, it, again, trail, next, kids, pipe)
    requires LogIs(log, s0, Seen(s0, trail, next, false), pipe, uniq)
    ensures var stack := if again then lower + [it] else lower;
            && BulkStack(nodes, s, stack, buff) && BulkAt(s0, s, stack, buff, log, pipe, uniq) && |stack| <= |buff| + 1
            && Progress(BulkPending(s0, s, stack, buff), |stack|, BulkLeft(s, stack, buff),
                        |Pending(s0, trail, next)|, |lower| + 1, 2 * (kids - current))
  {
    BulkStackStays(nodes0, before, nodes, s, lower, buff, buff);
    if again {
      Again(nodes, s0, s, lower, it, trail, next, kids, buff, log, pipe, uniq);
    } else {
      Popped(s0, s, nodes, lower, buff, next, log, pipe, uniq);
    }
  }

  lemma Reorder(s: Shape, p: Path, v: Val, q: Path, w: Val)
    requires p != q
    ensures s[p := v][q := w] == s[q := w][p := v]
  {
  }

  /** What the invariant says of a top entry `f` that is about to be post-visited. */
  lemma TopProcessed(nodes: map<Path, Node>, s0: Shape, s: Shape, lower: seq<BulkIter>, f: BulkIter, trail: Path,
          next: int, buff: seq<Byte>, log: seq<Path>, pipe: Pipe, uniq: bool)
    requires f.processed && BulkStack(nodes, s, lower + [f], buff) && BulkAt(s0, s, lower + [f], buff, log, pipe, uniq)
    requires |lower| < |buff| && trail == buff[..|lower|] && next == buff[|lower|] as int + 1
    ensures f.size == |lower| && BulkFrame(nodes, s, f, |lower|, buff) && BulkStack(nodes, s, lower, buff)
    ensures lower != [] ==> lower[|lower| - 1].processed
    ensures AtSweep(s0, s, f, |lower|, buff, pipe) && trail in s
        && LogIs(log, s0, Seen(s0, trail, next, false), pipe, uniq)
    ensures BulkPending(s0, s, lower + [f], buff) == |Pending(s0, trail, next)|
    ensures BulkLeft(s, lower + [f], buff) == 2 * (|s[trail].kids| - f.currentChild)
  {
    var stack := lower + [f];
    assert stack[|lower|] == f && BulkFrame(nodes, s, stack[|lower|], |lower|, buff);
    forall d | 0 <= d < |lower| ensures BulkFrame(nodes, s, lower[d], d, buff) { assert stack[d] == lower[d]; }
    forall d | 0 <= d < |lower| - 1 ensures lower[d].processed { assert stack[d] == lower[d]; }
    if lower != [] { assert stack[|lower| - 1] == lower[|lower| - 1]; }
  }

  /** The round that post-visits the top entry `f`. */
  lemma AscendedFrom(nodes0: map<Path, Node>, before: Shape, nodes: map<Path, Node>, s0: Shape, s: Shape,
          lower: seq<BulkIter>, f: BulkIter, it: BulkIter, again: bool, trail: Path, next: int, buff: seq<Byte>,
          log: seq<Path>, pipe: Pipe, uniq: bool)
    requires f.processed && BulkStack(nodes0, before, lower + [f], buff)
        && BulkAt(s0, before, lower + [f], buff, log, pipe, uniq)
    requires |lower| < |buff| && trail == buff[..|lower|] && next == buff[|lower|] as int + 1 && trail in before
    requires Kept(nodes0, before, nodes, s, |lower|) && (again ==> f.currentChild < it.currentChild)
    requires Left(nodes, s0, s, it, again, trail, next, |before[trail].kids|, pipe)
    ensures var stack' := if again then lower + [it] else lower;
            && BulkStack(nodes, s, stack', buff) && BulkAt(s0, s, stack', buff, log, pipe, uniq)
            && |stack'| <= |buff| + 1
            && Progress(BulkPending(s0, s, stack', buff), |stack'|, BulkLeft(s, stack', buff),
                        BulkPending(s0, before, lower + [f], buff), |lower| + 1, BulkLeft(before, lower + [f], buff))
  {
    TopProcessed(nodes0, s0, before, lower, f, trail, next, buff, log, pipe, uniq);
    Ascended(nodes0, before, nodes, s0, s, lower, it, again, f.currentChild, trail, next, |before[trail].kids|, buff,
        log, pipe, uniq);
  }

  lemma LastStep(q: Path, x: Byte, p: Path, c: Byte)
    ensures q + [x] == p + [c] ==> q == p && x == c
  {
    assert (q + [x])[..|q|] == q && (q + [x])[|q|] == x;
    assert (p + [c])[..|p|] == p && (p + [c])[|p|] == c;
  }

  /** The next visit is the first one of its entry. */
  predicate Descending(stack: seq<KeyIter>) {
    |stack| > 0 && !stack[|stack| - 1].processed
  }

  class MTrie {
    const root: Node
    var numPrefixes: nat
    ghost var nodes: map<Path, Node>

    /** The slot of the node at `p` for byte `x` is empty or points to the node at `p + [x]`. */
    ghost predicate Points(p: Path, x: Byte)
      reads `nodes, nodes.Values
    {
      p in nodes && nodes[p].At(x) != null ==> p + [x] in nodes && nodes[p].At(x) == nodes[p + [x]]
    }

    /** Every node is filed under its path and its table points to its children. */
    ghost predicate Wired()
      reads `nodes, nodes.Values
    {
      && [] in nodes && nodes[[]] == root
      && (forall p :: p in nodes ==> nodes[p].path == p && nodes[p].Fits())
      && (forall p, x: Byte :: Points(p, x))
    }

    ghost function Shape(): Shape
      reads `nodes, nodes.Values
    {
      map p | p in nodes :: nodes[p].Val()
    }

    ghost predicate Shaped()
      reads `nodes, nodes.Values
    {
      Wired() && Canonical(Shape())
    }

    /** The prefix counter is never too low. */
    ghost predicate Valid()
      reads `nodes, `numPrefixes, nodes.Values
    {
      Shaped() && |Stored()| <= numPrefixes
    }

    /** The prefix counter is exact. */
    ghost predicate Counted()
      reads `nodes, `numPrefixes, nodes.Values
    {
      numPrefixes == |Stored()|
    }

    lemma StoredNonEmpty()
      requires Shaped()
      ensures forall p :: p in Stored() ==> Stored()[p] != {}
    {
      forall p | p in Stored() ensures Stored()[p] != {} {
        assert NodeOk(Shape(), p, []);
      }
    }

    /** The subscriptions: every prefix with the pipes subscribed to it. */
    ghost function Stored(): map<Path, set<Pipe>>
      reads `nodes, nodes.Values
    {
      Content(Shape())
    }

    constructor ()
      ensures Valid() && Counted() && fresh(nodes.Values) && Stored() == map[]
    {
      root := new Node([]);
      numPrefixes := 0;
      new;
      nodes := map[[] := root];
      forall p ensures Up(Shape(), p) {}
      forall p, c: Byte ensures Down(Shape(), p, c) {}
    }

    /** Old nodes keep their place and the others are newly allocated. */
    twostate predicate Grew()
      reads `nodes
    {
      forall q :: q in nodes ==> (q in old(nodes) && nodes[q] == old(nodes)[q]) || fresh(nodes[q])
    }

    /** The node `it` is filed in this trie. */
    ghost predicate Files(it: Node)
      reads `nodes, nodes.Values
    {
      Wired() && it.path in nodes && nodes[it.path] == it
    }

    /** `it` changed its own fields but kept its children; no other node changed. */
    twostate lemma Rewired(it: Node)
      requires old(Files(it)) && nodes == old(nodes)
      requires forall q :: q in nodes && q != it.path ==> unchanged(nodes[q])
      requires it.Fits() && forall x :: it.At(x) == old(it.At(x))
      ensures Files(it) && Shape() == old(Shape())[it.path := it.Val()]
    {
      forall p, x: Byte ensures Points(p, x) { assert old(Points(p, x)); }
    }

    /** The table of `it` is made to cover byte `c`. */
    method Cover(it: Node, c: Byte)
      requires Files(it)
      modifies it
      ensures Files(it) && it.min <= c < it.min + it.count
      ensures Shape() == old(Shape())[it.path := Grown(old(it.Val()), c)]
    {
      if !(it.min <= c < it.min + it.count) {
        it.Extend(c);
      }
      Rewired(it);
    }

    /** A new empty node is put into the empty slot for byte `c`. */
    method Sprout(it: Node, c: Byte) returns (child: Node)
      requires Files(it)
      requires it.min <= c < it.min + it.count && it.At(c) == null && it.path + [c] !in nodes
      modifies `nodes, it
      ensures Files(it) && fresh(child) && nodes == old(nodes)[it.path + [c] := child]
      ensures Shape() == old(Shape())[it.path := WithKid(old(it.Val()), c)][it.path + [c] := Empty]
    {
      ghost var s, v, p := Shape(), it.Val(), it.path + [c];
      child := Seed(p);
      assert Shape() == s[p := Empty] && it.Val() == v;
      Link(it, c, child);
      Reorder(s, it.path, WithKid(v, c), p, Empty);
    }

    /** A new node that no table points to yet. */
    method Seed(ghost p: Path) returns (child: Node)
      requires Wired() && p !in nodes
      modifies `nodes
      ensures Wired() && fresh(child) && nodes == old(nodes)[p := child] && Shape() == old(Shape())[p := Empty]
    {
      child := new Node(p);
      nodes := nodes[p := child];
      forall q, x: Byte ensures Points(q, x) { assert old(Points(q, x)); }
    }

    method Link(it: Node, c: Byte, child: Node)
      requires Files(it) && it.min <= c < it.min + it.count && it.At(c) == null
      requires it.path + [c] in nodes && nodes[it.path + [c]] == child && child != it
      modifies it
      ensures Files(it) && Shape() == old(Shape())[it.path := WithKid(old(it.Val()), c)]
    {
      it.Adopt(c, child);
      forall p, x: Byte ensures Points(p, x) {
        assert old(Points(p, x));
        LastStep(p, x, it.path, c);
      }
    }

    lemma SlotIsKid(p: Path, c: Byte)
      requires Wired() && p in nodes
      ensures HasKid(nodes[p].Val(), c) <==> nodes[p].At(c) != null
    {
    }

    /** The missing child of a covered byte is created. */
    method MakeChild(it: Node, c: Byte, ghost s: Shape) returns (child: Node)
      requires Files(it) && it.min <= c < it.min + it.count && it.At(c) == null
      requires it.path in s && CanonicalBut(s, it.path) && Shape() == s[it.path := Grown(s[it.path], c)]
      modifies `nodes, it
      ensures Files(child) && child.path == it.path + [c]
      ensures CanonicalBut(Shape(), child.path) && Stored() == Content(s)
      ensures Grew()
    {
      ghost var g := Grown(s[it.path], c);
      assert it.Val() == g by { assert Shape()[it.path] == g; }
      assert NodeOk(s, it.path, it.path);
      GrownCovers(s[it.path], c);
      SlotIsKid(it.path, c);
      KidIsNode(s, it.path, c);
      assert it.path + [c] !in Shape();
      AddKid(s, it.path, c);
      child := Sprout(it, c);
      assert Shape() == s[it.path := WithKid(g, c)][it.path + [c] := Empty];
      assert it.path + [c] in nodes;
    }

    /** One round of the `add` walk: make the child for byte `c` exist. */
    method Step(it: Node, c: Byte) returns (child: Node)
      requires Files(it) && CanonicalBut(Shape(), it.path)
      modifies `nodes, it
      ensures Files(child) && child.path == it.path + [c]
      ensures CanonicalBut(Shape(), child.path) && Stored() == old(Stored())
      ensures Grew()
    {
      ghost var s := Shape();
      Cover(it, c);
      if it.At(c) == null {
        child := MakeChild(it, c, s);
      } else {
        SlotIsKid(it.path, c);
        assert NodeOk(s, it.path, it.path);
        GrownCovers(s[it.path], c);
        StepOver(s, it.path, c);
        assert Shape() == s;
        assert Points(it.path, c);
        child := it.At(c);
      }
    }

    /** The `add` walk: every node on the way to `prefix` is made to exist. */
    method Walk(prefix: Path) returns (it: Node)
      requires Shaped()
      modifies `nodes, nodes.Values
      ensures Files(it) && it.path == prefix && CanonicalBut(Shape(), prefix)
      ensures Stored() == old(Stored()) && Grew()
    {
      it := root;
      var i := 0;
      while i < |prefix|
        invariant 0 <= i <= |prefix| && it.path == prefix[..i]
        invariant Files(it) && CanonicalBut(Shape(), it.path)
        invariant Stored() == old(Stored()) && Grew()
      {
        it := Step(it, prefix[i]);
        i := i + 1;
      }
    }

    /** Subscribes `pipe` to `prefix`; true iff the prefix had no subscriber. */
    method Add(prefix: Path, pipe: Pipe) returns (isNew: bool)
      requires Valid()
      modifies this, nodes.Values
      ensures Valid() && Grew()
      ensures isNew <==> prefix !in old(Stored())
      ensures Stored() == Subscribed(old(Stored()), prefix, pipe)
      ensures old(Counted()) ==> Counted()
    {
      SubscribedCount(Stored(), prefix, pipe);
      var it := Walk(prefix);
      isNew := Subscribe(it, pipe);
    }

    /** The end of the `add` walk. */
    method Subscribe(it: Node, pipe: Pipe) returns (isNew: bool)
      requires Files(it) && CanonicalBut(Shape(), it.path)
      modifies `numPrefixes, it
      ensures Shaped()
      ensures isNew <==> it.path !in old(Stored())
      ensures Stored() == Subscribed(old(Stored()), it.path, pipe)
      ensures numPrefixes == old(numPrefixes) + if isNew then 1 else 0
    {
      ghost var s := Shape();
      isNew := it.pipes.None?;
      if it.pipes.None? {
        it.pipes := Some({});
        numPrefixes := numPrefixes + 1;
      }
      it.pipes := Some(it.pipes.value + {pipe});
      Rewired(it);
      StorePipes(s, it.path, it.pipes.value);
    }

    /** Nodes may have gone; the others are where they were. */
    twostate predicate Shrunk()
      reads `nodes
    {
      forall q :: q in nodes ==> q in old(nodes) && nodes[q] == old(nodes)[q]
    }

    /** Deletes the redundant child of `it` at byte `c`. */
    method Prune(it: Node, c: Byte)
      requires Files(it) && CanonicalBut(Shape(), it.path + [c])
      requires it.At(c) != null && it.At(c).IsRedundant()
      modifies `nodes, it
      ensures Files(it) && CanonicalBut(Shape(), it.path) && Stored() == old(Stored())
      ensures Shrunk() && nodes == old(nodes) - {it.path + [c]}
    {
      ghost var s := Shape();
      ghost var p := it.path;
      ghost var v := it.Val();
      assert NodeOk(s, p, p + [c]);
      assert Points(p, c);
      it.KidsAreSlots();
      it.Unlink(c);
      it.KidsAreSlots();
      nodes := nodes - {p + [c]};
      forall q, x: Byte ensures Points(q, x) {
        assert old(Points(q, x));
        LastStep(q, x, p, c);
      }
      assert Shape() == (s - {p + [c]})[p := it.Val()];
      PruneKid(s, p, c, it.Val());
    }

    /** The keyed removal has reached the node of its key. */
    method EraseAt(it: Node, pipe: Pipe) returns (ret: RmResult)
      requires Files(it) && Canonical(Shape())
      modifies it
      ensures Files(it) && CanonicalBut(Shape(), it.path)
      ensures ret == RmOutcome(old(Stored()), it.path, pipe)
      ensures Stored() == Unsubscribed(old(Stored()), it.path, pipe)
    {
      TakePipe(Shape(), it.path, pipe);
      assert NodeOk(Shape(), it.path, []);
      if it.pipes.None? {
        ret := NotFound;
      } else {
        var erased := pipe in it.pipes.value;
        it.pipes := Some(it.pipes.value - {pipe});
        if it.pipes.value == {} {
          assert erased;
          it.pipes := None;
          ret := LastValueRemoved;
        } else {
          ret := if erased then ValuesRemain else NotFound;
        }
      }
      assert it.Val() == Without(old(it.Val()), pipe);
      Rewired(it);
    }

    /** First visit of a stack entry: stop here, or go on to the next byte's child. */
    method KeyDown(entry: KeyIter, ghost d: nat, ghost prefix: Path, pipe: Pipe)
      returns (ret: RmResult, pushed: seq<KeyIter>)
      requires Shaped() && FrameOk(nodes, entry, d, prefix) && !entry.processed
      modifies entry.node
      ensures Wired() && nodes == old(nodes)
      ensures pushed == [] ==>
          && CanonicalBut(Shape(), prefix[..d])
          && ret == RmOutcome(old(Stored()), prefix, pipe)
          && Stored() == Unsubscribed(old(Stored()), prefix, pipe)
      ensures pushed != [] ==>
          && Shape() == old(Shape()) && d < |prefix| && |pushed| == 2
          && FrameOk(nodes, pushed[0], d, prefix) && FrameOk(nodes, pushed[1], d + 1, prefix)
          && pushed[0].processed && !pushed[1].processed
    {
      var it := entry;
      ret, pushed := NotFound, [];
      if it.rest == [] {
        assert prefix[..d] == prefix;
        ret := EraseAt(it.node, pipe);
        return;
      }
      ghost var s := Shape();
      it := it.(currentChild := it.rest[0]);
      it.node.KidsAreSlots();
      if it.node.count == 0 || it.currentChild < it.node.min || it.currentChild >= it.node.min + it.node.count {
        MissingChild(s, prefix, d, pipe);
        Weaken(s, prefix[..d]);
        return;
      }
      it := it.(nextNode := if it.node.count == 1 then it.node.next else it.node.table[it.currentChild - it.node.min]);
      if it.nextNode == null {
        MissingChild(s, prefix, d, pipe);
        Weaken(s, prefix[..d]);
        return;
      }
      assert Points(prefix[..d], prefix[d]);
      assert prefix[..d] + [prefix[d]] == prefix[..d + 1];
      it := it.(processed := true);
      pushed := [it, KeyIter(it.nextNode, null, it.rest[1..], 0, false)];
    }

    /** Second visit of a stack entry: prune the child if it became redundant. */
    method KeyUp(entry: KeyIter, ghost d: nat, ghost prefix: Path)
      requires Wired() && FrameOk(nodes, entry, d, prefix) && entry.processed
      requires CanonicalBut(Shape(), prefix[..d + 1])
      modifies `nodes, entry.node
      ensures Wired() && CanonicalBut(Shape(), prefix[..d]) && Stored() == old(Stored())
      ensures nodes == old(nodes) || nodes == old(nodes) - {prefix[..d + 1]}
    {
      assert prefix[..d] + [prefix[d]] == prefix[..d + 1];
      PathChild(prefix, d);
      if entry.nextNode.IsRedundant() {
        Prune(entry.node, entry.currentChild);
      } else {
        KeepKid(Shape(), prefix[..d + 1]);
        Weaken(Shape(), prefix[..d]);
      }
    }

    lemma PathChild(prefix: Path, d: nat)
      requires d < |prefix| && Wired() && CanonicalBut(Shape(), prefix[..d + 1]) && prefix[..d + 1] in nodes
      ensures prefix[..d] in nodes && nodes[prefix[..d]].At(prefix[d]) == nodes[prefix[..d + 1]]
    {
      var q := prefix[..d + 1];
      assert q[..|q| - 1] == prefix[..d] && q[d] == prefix[d];
      assert Up(Shape(), q);
      nodes[prefix[..d]].KidsAreSlots();
      assert Points(prefix[..d], prefix[d]);
      assert prefix[..d] + [prefix[d]] == q;
    }

    /** The removal itself is done and the nodes below the stack are pruned. */
    ghost predicate Ascending(depth: nat, ret: RmResult, before: map<Path, set<Pipe>>, prefix: Path, pipe: Pipe)
      requires depth <= |prefix|
      reads `nodes, nodes.Values
    {
      && CanonicalBut(Shape(), prefix[..depth])
      && ret == RmOutcome(before, prefix, pipe)
      && Stored() == Unsubscribed(before, prefix, pipe)
    }

    /** Removes `pipe` from `prefix`. */
    method RmKey(prefix: Path, pipe: Pipe) returns (ret: RmResult)
      requires Valid()
      modifies this, nodes.Values
      ensures Valid() && Shrunk()
      ensures ret == RmOutcome(old(Stored()), prefix, pipe)
      ensures Stored() == Unsubscribed(old(Stored()), prefix, pipe)
      ensures old(Counted()) ==> Counted()
    {
      ghost var m := Stored();
      StoredNonEmpty();
      UnsubscribedCount(m, prefix, pipe);
      ghost var n := |Unsubscribed(m, prefix, pipe)|;
      ret := Unwind(prefix, pipe);
      assert |Stored()| == n;
      if ret == LastValueRemoved {
        Discount();
      }
    }

    method Discount()
      requires Shaped() && numPrefixes > 0
      modifies `numPrefixes
      ensures Shaped() && Stored() == old(Stored()) && numPrefixes == old(numPrefixes) - 1
    {
      numPrefixes := numPrefixes - 1;
    }

    /** What every round of a keyed removal keeps. */
    ghost predicate Underway(stack: seq<KeyIter>, ret: RmResult, s: Shape, prefix: Path, pipe: Pipe)
      reads `nodes, nodes.Values
    {
      && Wired() && StackOk(nodes, stack, prefix)
      && (if Descending(stack) then Shape() == s
          else |stack| <= |prefix| && Ascending(|stack|, ret, Content(s), prefix, pipe))
    }

    /** One round: the top entry is visited. */
    method Round(stack: seq<KeyIter>, ret: RmResult, prefix: Path, pipe: Pipe, ghost s: Shape)
      returns (stack': seq<KeyIter>, ret': RmResult)
      requires |stack| > 0 && Canonical(s) && Underway(stack, ret, s, prefix, pipe)
      modifies `nodes, stack[|stack| - 1].node
      ensures Underway(stack', ret', s, prefix, pipe) && Shrunk()
      ensures if Descending(stack') then |stack'| == |stack| + 1 && Descending(stack) else |stack'| == |stack| - 1
    {
      var it := stack[|stack| - 1];
      stack' := stack[..|stack| - 1];
      ret' := ret;
      StackTop(nodes, stack, prefix);
      if !it.processed {
        ret', stack' := KeyDive(stack', it, prefix, pipe, s);
      } else {
        KeyRise(stack', it, ret, prefix, pipe, s);
      }
    }

    /** The part of a round that goes down to a child or takes the pipe out. */
    method KeyDive(lower: seq<KeyIter>, it: KeyIter, prefix: Path, pipe: Pipe, ghost s: Shape)
      returns (ret: RmResult, stack: seq<KeyIter>)
      requires Canonical(s) && !it.processed && Wired() && Shape() == s && StackOk(nodes, lower, prefix)
          && (lower != [] ==> lower[|lower| - 1].processed)
      requires FrameOk(nodes, it, |lower|, prefix)
      modifies it.node
      ensures Underway(stack, ret, s, prefix, pipe) && nodes == old(nodes)
      ensures if Descending(stack) then |stack| == |lower| + 2 else stack == lower
    {
      var pushed: seq<KeyIter>;
      ret, pushed := KeyDown(it, |lower|, prefix, pipe);
      if pushed == [] {
        stack := lower;
        assert !Descending(stack);
      } else {
        StackPush(nodes, lower, pushed[0], pushed[1], prefix);
        stack := lower + [pushed[0], pushed[1]];
        assert Descending(stack);
      }
    }

    /** The part of a round that comes back from the child. */
    method KeyRise(lower: seq<KeyIter>, it: KeyIter, ghost ret: RmResult, prefix: Path, ghost pipe: Pipe,
            ghost s: Shape)
      requires Canonical(s) && it.processed && Wired() && StackOk(nodes, lower, prefix)
          && (lower != [] ==> lower[|lower| - 1].processed)
      requires FrameOk(nodes, it, |lower|, prefix) && |lower| < |prefix|
          && Ascending(|lower| + 1, ret, Content(s), prefix, pipe)
      modifies `nodes, it.node
      ensures Underway(lower, ret, s, prefix, pipe) && Shrunk()
    {
      KeyUp(it, |lower|, prefix);
      StackStays(old(nodes), lower, prefix);
    }

    method Unwind(prefix: Path, pipe: Pipe) returns (ret: RmResult)
      requires Shaped()
      modifies `nodes, nodes.Values
      ensures Shaped() && Shrunk()
      ensures ret == RmOutcome(old(Stored()), prefix, pipe)
      ensures Stored() == Unsubscribed(old(Stored()), prefix, pipe)
    {
      ret := NotFound;
      var stack := [KeyIter(root, null, prefix, 0, false)];
      while |stack| > 0
        invariant Underway(stack, ret, old(Shape()), prefix, pipe) && Shrunk()
        decreases Descending(stack), if Descending(stack) then |prefix| + 1 - |stack| else |stack|
      {
        assert FrameOk(nodes, stack[|stack| - 1], |stack| - 1, prefix);
        stack, ret := Round(stack, ret, prefix, pipe, old(Shape()));
      }
    }

    /** Takes `pipe` from one node; true iff the callback is due. */
    method Erase(it: Node, pipe: Pipe, uniq: bool) returns (called: bool)
      requires Files(it) && Sound(it.Val())
      modifies it
      ensures Files(it) && Shape() == old(Shape())[it.path := Without(old(it.Val()), pipe)]
      ensures called == Reported(old(it.Val()), pipe, uniq)
    {
      called := false;
      if it.pipes.Some? && pipe in it.pipes.value {
        it.pipes := Some(it.pipes.value - {pipe});
        if !uniq || it.pipes.value == {} {
          called := true;
        }
        if it.pipes.value == {} {
          assert old(it.pipes.value) == {pipe};
          it.pipes := None;
        }
      } else if it.pipes.Some? {
        assert it.pipes.value - {pipe} == it.pipes.value;
      }
      assert it.Val() == Without(old(it.Val()), pipe);
      Rewired(it);
    }

    /** Marks the entry as visited and puts the byte of its current child into the buffer. */
    method Arm(f: BulkIter, buff: seq<Byte>) returns (it: BulkIter, buff': seq<Byte>)
      requires Wired() && BulkFrame(nodes, Shape(), f, f.size, buff) && !f.processed && f.node.count > 0
      requires f.currentChild == 0 ==> Tight(Shape()[buff[..f.size]])
      ensures f.size < |buff'| && buff'[..f.size] == buff[..f.size]
      ensures it.processed && it.currentChild == f.currentChild && it.size == f.size && it.node == f.node
      ensures it.currentChild < it.node.count && buff'[f.size] == it.node.min + it.currentChild
      ensures BulkFrame(nodes, Shape(), it, f.size, buff')
    {
      it := f;
      buff' := if it.size >= |buff| then buff + seq(it.size + 256 - |buff|, _ => 0) else buff;
      assert it.node.Kids() == Shape()[buff[..f.size]].kids;
      if it.node.count > 1 && it.currentChild == 0 {
        it := it.(newMin := it.node.min + it.node.count - 1, newMax := it.node.min);
      }
      buff' := buff'[it.size := it.node.min + it.currentChild];
      assert buff'[..it.size] == buff[..f.size];
      it := it.(processed := true);
    }

    /** The descending part of a pre-visit: what is pushed and the buffer. */
    method BulkDescend(f: BulkIter, buff: seq<Byte>, pipe: Pipe, ghost s0: Shape, ghost trail: Path, ghost top: int)
      returns (pushed: seq<BulkIter>, buff': seq<Byte>)
      requires Wired() && Entered(nodes, s0, Shape(), f, buff, trail, top, pipe)
      ensures Descends(nodes, s0, Shape(), f, trail, top, pushed, buff', pipe)
    {
      if f.node.count == 0 {
        pushed, buff' := [], buff;
        return;
      }
      var it: BulkIter;
      it, buff' := Arm(f, buff);
      ghost var c: Byte := buff'[it.size];
      it.node.KidsAreSlots();
      var child := if it.node.count == 1 then it.node.next else it.node.table[it.currentChild];
      assert child == it.node.At(c);
      if child != null {
        assert Points(trail, c);
        assert buff'[..it.size + 1] == trail + [c];
        pushed := [it, BulkIter(child, it.size + 1, 0, 0, 0, false)];
        ResumeChild(s0, Shape(), pipe, trail, top, c, pushed[1], buff');
      } else {
        pushed := [it];
        ResumeSelf(s0, Shape(), pipe, trail, top, c, it, buff');
      }
    }

    /** The node's processed entry, seen from the shape: its child's path and value. */
    lemma ChildOf(f: BulkIter, buff: seq<Byte>)
      requires Wired() && Linked(Shape()) && BulkFrame(nodes, Shape(), f, f.size, buff) && f.processed
      ensures buff[..f.size + 1] == buff[..f.size] + [buff[f.size]]
      ensures f.node.At(buff[f.size]) != null <==> buff[..f.size + 1] in nodes
      ensures f.node.At(buff[f.size]) != null ==> f.node.At(buff[f.size]) == nodes[buff[..f.size + 1]]
      ensures HasKid(Shape()[buff[..f.size]], buff[f.size]) <==> buff[..f.size + 1] in nodes
      ensures f.node.Kids() == Shape()[buff[..f.size]].kids && |f.node.Kids()| == f.node.count
    {
      assert buff[..f.size + 1] == buff[..f.size] + [buff[f.size]];
      KidIsNode(Shape(), buff[..f.size], buff[f.size]);
      f.node.KidsAreSlots();
      assert Points(buff[..f.size], buff[f.size]);
    }

    /** The redundant only child of `it` is deleted. */
    method DeleteOnly(it: Node, ghost c: Byte)
      requires Files(it) && it.count == 1 && it.min == c && it.next != null && Sound(it.Val())
      modifies `nodes, it
      ensures Wired() && nodes == old(nodes) - {it.path + [c]} && Shape() == Bared(old(Shape()), it.path, c)
    {
      ghost var p := it.path;
      it.DropOnly();
      nodes := nodes - {p + [c]};
      forall q, x: Byte ensures Points(q, x) {
        assert old(Points(q, x));
        LastStep(q, x, p, c);
      }
    }

    /** The redundant child of `it` in slot `i` is deleted. */
    method DeleteAt(it: Node, i: nat, ghost c: Byte)
      requires Files(it) && it.count > 1 && i < it.count && c == it.min + i && it.table[i] != null && Sound(it.Val())
      modifies `nodes, it
      ensures Wired() && nodes == old(nodes) - {it.path + [c]}
      ensures old(it.liveNodes) > 0 && Shape() == Emptied(old(Shape()), it.path, c, i)
    {
      ghost var p := it.path;
      it.DropSlotAt(i);
      nodes := nodes - {p + [c]};
      forall q, x: Byte ensures Points(q, x) {
        assert old(Points(q, x));
        LastStep(q, x, p, c);
      }
    }

    /** Nodes with paths shorter than `d` are as they were. */
    twostate predicate KeptBelow(d: nat)
      reads `nodes, nodes.Values
    {
      Kept(old(nodes), old(Shape()), nodes, Shape(), d)
    }

    /** The post-visit of a node with one child. */
    method BulkUpOnly(f: BulkIter, ghost buff: seq<Byte>, pipe: Pipe, ghost s0: Shape)
      requires Wired() && BulkFrame(nodes, Shape(), f, f.size, buff) && f.processed && f.node.count == 1
      requires AtSweep(s0, Shape(), f, f.size, buff, pipe)
      modifies `nodes, f.node
      ensures Wired() && Done(s0, Shape(), pipe, buff[..f.size], buff[f.size] as int + 1)
      ensures Shrunk() && KeptBelow(f.size)
    {
      OnlyChild(f, buff, pipe, s0);
      if f.node.next.IsRedundant() {
        DeleteOnly(f.node, buff[f.size]);
      }
    }

    /** Whether or not the only child goes, the walk is through with the node. */
    lemma OnlyChild(f: BulkIter, buff: seq<Byte>, pipe: Pipe, s0: Shape)
      requires Wired() && BulkFrame(nodes, Shape(), f, f.size, buff) && f.processed && f.node.count == 1
      requires AtSweep(s0, Shape(), f, f.size, buff, pipe)
      ensures Files(f.node) && f.node.path == buff[..f.size] && f.node.min == buff[f.size] && f.node.next != null
          && Sound(f.node.Val())
      ensures var s, trail, c := Shape(), buff[..f.size], buff[f.size];
              Done(s0, if f.node.next.IsRedundant() then Bared(s, trail, c) else s, pipe, trail, c as int + 1)
    {
      SoundTop(f, buff, pipe, s0);
      ChildOf(f, buff);
      assert f.node.Kids() == [true];
      DropOnlyOf(s0, Shape(), pipe, buff[..f.size], buff[f.size]);
    }

    ghost predicate Noting(it: BulkIter, trail: Path, next: int, count: nat, s0: Shape, pipe: Pipe)
      reads `nodes, nodes.Values
    {
      Wired() && NotingOf(nodes, Shape(), it, trail, next, count, s0, pipe)
    }

    lemma SoundTop(f: BulkIter, buff: seq<Byte>, pipe: Pipe, s0: Shape)
      requires BulkFrame(nodes, Shape(), f, f.size, buff) && f.processed
      requires AtSweep(s0, Shape(), f, f.size, buff, pipe)
      ensures Sound(f.node.Val())
    {
      var trail := buff[..f.size];
      assert Swept(s0, Shape(), pipe, trail, trail, TopByte(Shape(), f, f.size, buff), false, buff[..f.size + 1]);
      NotAfterPrefix(trail, trail);
    }

    /** A child that is not redundant, or an empty slot, is left as it is. */
    lemma BulkKeep(f: BulkIter, it: BulkIter, buff: seq<Byte>, pipe: Pipe, s0: Shape, trail: Path)
      requires Wired() && BulkFrame(nodes, Shape(), f, f.size, buff) && f.processed && f.node.count > 1
      requires AtSweep(s0, Shape(), f, f.size, buff, pipe) && trail == buff[..f.size]
      requires f.node.table[f.currentChild] != null ==> !f.node.table[f.currentChild].IsRedundant()
      requires f.node.min + f.currentChild < 256
      requires it == Noted(f.node.min, f, f.node.table[f.currentChild] != null).(processed := false,
          currentChild := f.currentChild + 1)
      ensures Noting(it, trail, buff[f.size] as int + 1, f.node.count, s0, pipe)
    {
      SoundTop(f, buff, pipe, s0);
      ChildOf(f, buff);
      KeepNotes(nodes, s0, Shape(), pipe, f, it, buff, trail);
    }

    /** The redundant child is deleted. */
    method BulkDrop(f: BulkIter, ghost buff: seq<Byte>, pipe: Pipe, ghost s0: Shape, ghost trail: Path)
      requires Wired() && BulkFrame(nodes, Shape(), f, f.size, buff) && f.processed && f.node.count > 1
      requires AtSweep(s0, Shape(), f, f.size, buff, pipe) && trail == buff[..f.size]
      requires f.node.table[f.currentChild] != null && f.node.table[f.currentChild].IsRedundant()
      modifies `nodes, f.node
      ensures Noting(f.(processed := false, currentChild := f.currentChild + 1), trail, buff[f.size] as int + 1,
          old(f.node.count), s0, pipe)
      ensures Shrunk() && KeptBelow(f.size) && Shape()[trail].min == old(Shape())[trail].min
    {
      Droppable(f, buff, pipe, s0, trail);
      DeleteAt(f.node, f.currentChild, buff[f.size]);
    }

    lemma Droppable(f: BulkIter, buff: seq<Byte>, pipe: Pipe, s0: Shape, trail: Path)
      requires Wired() && BulkFrame(nodes, Shape(), f, f.size, buff) && f.processed && f.node.count > 1
      requires AtSweep(s0, Shape(), f, f.size, buff, pipe) && trail == buff[..f.size]
      requires f.node.table[f.currentChild] != null && f.node.table[f.currentChild].IsRedundant()
      ensures Files(f.node) && f.node.path == trail && f.currentChild < f.node.count
          && buff[f.size] == f.node.min + f.currentChild
      ensures Sound(f.node.Val()) && f.node.liveNodes > 0
      ensures NotingOf(nodes - {trail + [buff[f.size]]}, Emptied(Shape(), trail, buff[f.size], f.currentChild),
                       f.(processed := false, currentChild := f.currentChild + 1), trail, buff[f.size] as int + 1,
                           f.node.count, s0, pipe)
    {
      SoundTop(f, buff, pipe, s0);
      ChildOf(f, buff);
      DropNotes(nodes, s0, Shape(), pipe, f, buff, trail);
    }

    /** The post-visit of slot `currentChild`: a redundant child is deleted, another
        one is noted in the bounds; the entry moves on to the next slot. */
    method BulkNote(f: BulkIter, ghost buff: seq<Byte>, pipe: Pipe, ghost s0: Shape, ghost trail: Path)
      returns (it: BulkIter)
      requires Wired() && BulkFrame(nodes, Shape(), f, f.size, buff) && f.processed && f.node.count > 1
      requires AtSweep(s0, Shape(), f, f.size, buff, pipe) && trail == buff[..f.size]
      modifies `nodes, f.node
      ensures Noting(it, trail, buff[f.size] as int + 1, old(f.node.count), s0, pipe)
      ensures it.node == f.node && it.currentChild == f.currentChild + 1
          && Shape()[trail].min == old(Shape())[trail].min
      ensures Shrunk() && KeptBelow(f.size)
    {
      it := f;
      SoundTop(f, buff, pipe, s0);
      if f.node.table[f.currentChild] != null && f.node.table[f.currentChild].IsRedundant() {
        BulkDrop(f, buff, pipe, s0, trail);
        it := it.(processed := false, currentChild := it.currentChild + 1);
      } else {
        it := Noted(f.node.min, f, f.node.table[f.currentChild] != null);
        it := it.(processed := false, currentChild := it.currentChild + 1);
        BulkKeep(f, it, buff, pipe, s0, trail);
      }
    }

    /** All slots have been visited: the table is brought into shape. */
    method BulkClose(it: BulkIter, pipe: Pipe, ghost s0: Shape, ghost trail: Path, ghost next: int)
      requires Noting(it, trail, next, it.node.count, s0, pipe) && it.currentChild == it.node.count
      modifies it.node
      ensures Wired() && Done(s0, Shape(), pipe, trail, next)
      ensures Shape() == old(Shape())[trail := it.node.Val()]
    {
      ghost var s := Shape();
      assert s[trail] == it.node.Val();
      it.node.KidsAreSlots();
      it.node.Resize(it.newMin, it.newMax);
      it.node.KidsAreSlots();
      Rewired(it.node);
      Retable(s0, s, pipe, trail, next, trail, it.node.Val());
    }

    /** The post-visit of a node with several slots; true iff a slot is left. */
    method BulkUpTable(f: BulkIter, ghost buff: seq<Byte>, pipe: Pipe, ghost s0: Shape, ghost trail: Path,
            ghost next: int) returns (it: BulkIter, again: bool)
      requires Wired() && BulkFrame(nodes, Shape(), f, f.size, buff) && f.processed && f.node.count > 1
      requires AtSweep(s0, Shape(), f, f.size, buff, pipe) && trail == buff[..f.size] && next == buff[f.size] as int + 1
      modifies `nodes, f.node
      ensures it.currentChild == f.currentChild + 1
      ensures again ==> Noting(it, trail, next, old(f.node.count), s0, pipe) && it.currentChild < old(f.node.count)
      ensures !again ==> Wired() && Done(s0, Shape(), pipe, trail, next)
      ensures Shrunk() && KeptBelow(f.size)
    {
      it := BulkNote(f, buff, pipe, s0, trail);
      again := it.currentChild < f.node.count;
      if !again {
        assert it.node.Val() == Shape()[trail];
        BulkClose(it, pipe, s0, trail, next);
      }
    }

    /** What every round of a bulk removal keeps. */
    ghost predicate BulkUnderway(stack: seq<BulkIter>, buff: seq<Byte>, log: seq<Path>, s0: Shape, pipe: Pipe,
            uniq: bool)
      reads `nodes, nodes.Values
    {
      && Wired() && |stack| <= |buff| + 1 && BulkStack(nodes, Shape(), stack, buff)
      && BulkAt(s0, Shape(), stack, buff, log, pipe, uniq)
    }

    /** The erasing part of a pre-visit. */
    method BulkErase(f: BulkIter, buff: seq<Byte>, log: seq<Path>, pipe: Pipe, uniq: bool, ghost s0: Shape,
            ghost trail: Path, ghost top: int) returns (log': seq<Path>)
      requires Wired() && BulkFrame(nodes, Shape(), f, f.size, buff) && !f.processed
          && AtSweep(s0, Shape(), f, f.size, buff, pipe)
      requires trail == buff[..f.size] && top == TopByte(Shape(), f, f.size, buff)
      requires LogIs(log, s0, SeenBy(s0, Shape(), f, f.size, buff), pipe, uniq)
      modifies f.node
      ensures Wired() && Entered(nodes, s0, Shape(), f, buff, trail, top, pipe)
      ensures LogIs(log', s0, Seen(s0, trail, top, false), pipe, uniq)
      ensures forall p :: p in nodes && p != trail ==> Shape()[p] == old(Shape())[p]
      ensures |Shape()[trail].kids| == |old(Shape())[trail].kids|
    {
      Entering(nodes, s0, Shape(), f, buff, trail, top, log, pipe, uniq);
      var called := Erase(f.node, pipe, uniq);
      log' := if called then log + [buff[..f.size]] else log;
    }

    /** A pre-visit of the top entry. */
    method BulkVisit(f: BulkIter, buff: seq<Byte>, log: seq<Path>, pipe: Pipe, uniq: bool, ghost s0: Shape,
            ghost trail: Path, ghost top: int) returns (pushed: seq<BulkIter>, buff': seq<Byte>, log': seq<Path>)
      requires Wired() && BulkFrame(nodes, Shape(), f, f.size, buff) && !f.processed
          && AtSweep(s0, Shape(), f, f.size, buff, pipe)
      requires trail == buff[..f.size] && top == TopByte(Shape(), f, f.size, buff)
      requires LogIs(log, s0, SeenBy(s0, Shape(), f, f.size, buff), pipe, uniq)
      modifies f.node
      ensures Wired() && Descends(nodes, s0, Shape(), f, trail, top, pushed, buff', pipe)
      ensures LogIs(log', s0, Seen(s0, trail, top, false), pipe, uniq)
      ensures forall p :: p in nodes && p != trail ==> Shape()[p] == old(Shape())[p]
      ensures |Shape()[trail].kids| == |old(Shape())[trail].kids|
    {
      log' := BulkErase(f, buff, log, pipe, uniq, s0, trail, top);
      pushed, buff' := BulkDescend(f, buff, pipe, s0, trail, top);
    }

    /** A round that visits the top entry for the first time for its current slot. */
    method BulkDown(stack: seq<BulkIter>, buff: seq<Byte>, log: seq<Path>, pipe: Pipe, uniq: bool, ghost s0: Shape,
            ghost p0: nat, ghost l0: int) returns (stack': seq<BulkIter>, buff': seq<Byte>, log': seq<Path>)
      requires stack != [] && !stack[|stack| - 1].processed && BulkUnderway(stack, buff, log, s0, pipe, uniq)
      requires p0 == BulkPending(s0, Shape(), stack, buff) && l0 == BulkLeft(Shape(), stack, buff)
      modifies stack[|stack| - 1].node
      ensures nodes == old(nodes) && BulkUnderway(stack', buff', log', s0, pipe, uniq)
      ensures Progress(BulkPending(s0, Shape(), stack', buff'), |stack'|, BulkLeft(Shape(), stack', buff'), p0, |stack|,
          l0)
    {
      var f := stack[|stack| - 1];
      var lower := stack[..|stack| - 1];
      ghost var trail := buff[..|lower|];
      ghost var top := TopByte(Shape(), f, f.size, buff);
      ghost var s := Shape();
      assert BulkFrame(nodes, s, f, |lower|, buff);
      assert BulkStack(nodes, s, lower, buff);
      assert p0 == |Pending(s0, trail, top)| && l0 == 2 * (|s[trail].kids| - f.currentChild) + 1;
      var pushed: seq<BulkIter>;
      pushed, buff', log' := BulkVisit(f, buff, log, pipe, uniq, s0, trail, top);
      BulkStackStays(nodes, s, nodes, Shape(), lower, buff, buff');
      Descended(nodes, s0, Shape(), lower, f, trail, top, pushed, buff', log', pipe, uniq);
      stack' := lower + pushed;
    }

    /** A post-visit of the top entry; true iff its node has another slot. */
    method BulkLeave(f: BulkIter, ghost buff: seq<Byte>, pipe: Pipe, ghost s0: Shape, ghost trail: Path,
            ghost next: int) returns (it: BulkIter, again: bool)
      requires Wired() && BulkFrame(nodes, Shape(), f, f.size, buff) && f.processed
      requires AtSweep(s0, Shape(), f, f.size, buff, pipe) && trail == buff[..f.size] && next == buff[f.size] as int + 1
      modifies `nodes, f.node
      ensures Wired() && Shrunk() && KeptBelow(f.size)
      ensures again ==> it.currentChild == f.currentChild + 1
      ensures Left(nodes, s0, Shape(), it, again, trail, next, |old(Shape())[trail].kids|, pipe)
    {
      ChildOf(f, buff);
      if f.node.count == 1 {
        BulkUpOnly(f, buff, pipe, s0);
        it, again := f, false;
      } else {
        it, again := BulkUpTable(f, buff, pipe, s0, trail, next);
      }
    }

    /** A round that visits the top entry after its current child. */
    method BulkUp(stack: seq<BulkIter>, ghost buff: seq<Byte>, ghost log: seq<Path>, pipe: Pipe, ghost uniq: bool,
            ghost s0: Shape, ghost p0: nat, ghost l0: int) returns (stack': seq<BulkIter>)
      requires stack != [] && stack[|stack| - 1].processed && BulkUnderway(stack, buff, log, s0, pipe, uniq)
      requires p0 == BulkPending(s0, Shape(), stack, buff) && l0 == BulkLeft(Shape(), stack, buff)
      modifies `nodes, stack[|stack| - 1].node
      ensures BulkUnderway(stack', buff, log, s0, pipe, uniq) && Shrunk()
      ensures Progress(BulkPending(s0, Shape(), stack', buff), |stack'|, BulkLeft(Shape(), stack', buff), p0, |stack|,
          l0)
    {
      ghost var s := Shape();
      var f := stack[|stack| - 1];
      var lower := stack[..|stack| - 1];
      assert stack == lower + [f] && BulkFrame(nodes, s, f, |lower|, buff);
      ghost var trail, next := buff[..|lower|], buff[|lower|] as int + 1;
      TopProcessed(nodes, s0, s, lower, f, trail, next, buff, log, pipe, uniq);
      var it, again := BulkLeave(f, buff, pipe, s0, trail, next);
      AscendedFrom(old(nodes), s, nodes, s0, Shape(), lower, f, it, again, trail, next, buff, log, pipe, uniq);
      stack' := if again then lower + [it] else lower;
    }

    /** Removes `pipe` from every prefix.  The result lists the callbacks: one for every
        prefix that held the pipe or, if `uniq`, for every prefix it left empty. */
    method RmAll(pipe: Pipe, uniq: bool) returns (log: seq<Path>)
      requires Valid()
      modifies `nodes, nodes.Values
      ensures Valid() && Shrunk() && numPrefixes == old(numPrefixes)
      ensures Stored() == Purged(old(Stored()), pipe)
      ensures forall i, j :: 0 <= i < j < |log| ==> log[i] != log[j]
      ensures forall p :: p in log <==>
          pipe in PipesAt(old(Stored()), p) && (uniq ==> PipesAt(old(Stored()), p) == {pipe})
      ensures old(Counted()) ==> (Counted() <==> forall p :: p in old(Stored()) ==> old(Stored())[p] != {pipe})
    {
      ghost var s0 := Shape();
      StoredNonEmpty();
      PurgedCount(Stored(), pipe);
      log := Sweeping(pipe, uniq);
      LogOfContent(log, s0, pipe, uniq);
    }

    /** The sweep over the whole trie with an explicit stack. */
    method Sweeping(pipe: Pipe, uniq: bool) returns (log: seq<Path>)
      requires Shaped()
      modifies `nodes, nodes.Values
      ensures Shaped() && Shrunk()
      ensures Stored() == Purged(old(Stored()), pipe)
      ensures LogIs(log, old(Shape()), old(Shape()).Keys, pipe, uniq)
    {
      ghost var s0 := Shape();
      log := [];
      var buff: seq<Byte> := [];
      var stack := [BulkIter(root, 0, 0, 0, 0, false)];
      Start(s0, pipe);
      while stack != []
        invariant BulkUnderway(stack, buff, log, s0, pipe, uniq) && Shrunk()
        decreases BulkPending(s0, Shape(), stack, buff), |stack|, BulkLeft(Shape(), stack, buff)
      {
        var t := |stack| - 1;
        ghost var p0, l0 := BulkPending(s0, Shape(), stack, buff), BulkLeft(Shape(), stack, buff);
        assert BulkFrame(nodes, Shape(), stack[t], t, buff);
        if !stack[t].processed {
          stack, buff, log := BulkDown(stack, buff, log, pipe, uniq, s0, p0, l0);
        } else {
          stack := BulkUp(stack, buff, log, pipe, uniq, s0, p0, l0);
        }
      }
    }

    /** The callbacks for one node's pipes. */
    method MatchNode(pipes: set<Pipe>, depth: nat, visits: seq<Visit>) returns (visits': seq<Visit>)
      requires InOrder(visits) && forall v :: v in visits ==> v.depth < depth
      ensures InOrder(visits')
      ensures forall v :: v in visits' <==> v in visits || (v.depth == depth && v.pipe in pipes)
    {
      visits' := visits;
      var rest := pipes;
      while rest != {}
        invariant rest <= pipes && InOrder(visits')
        invariant forall v :: v in visits' <==> v in visits || (v.depth == depth && v.pipe in pipes - rest)
        invariant forall p, q :: p in pipes - rest && q in rest ==> p < q
        decreases rest
      {
        HasLeast(rest);
        var p :| IsLeast(p, rest);
        ghost var before := visits';
        visits' := visits' + [Visit(depth, p)];
        forall i | 0 <= i < |before| ensures Earlier(before[i], Visit(depth, p)) {
          assert before[i] in before;
        }
        assert pipes - (rest - {p}) == pipes - rest + {p};
        rest := rest - {p};
      }
    }

    /** The child for the next byte, or `stop` when the table has no slot for it. */
    method Follow(current: Node, c: Byte) returns (next: Node?, stop: bool)
      requires current.Fits()
      ensures if stop then current.At(c) == null && next == null else next == current.At(c)
    {
      next, stop := null, true;
      if current.count == 0 {
        return;
      }
      if current.count == 1 {
        if c != current.min {
          return;
        }
        next := current.next;
      } else {
        if c < current.min || c >= current.min + current.count {
          return;
        }
        next := current.table[c - current.min];
      }
      stop := false;
    }

    lemma NextNode(data: Path, i: nat)
      requires Shaped() && i < |data| && data[..i] in nodes
      ensures var next := nodes[data[..i]].At(data[i]);
              if next == null then NoneFrom(Stored(), data, i + 1)
              else data[..i + 1] in nodes && nodes[data[..i + 1]] == next
    {
      KidIsNode(Shape(), data[..i], data[i]);
      nodes[data[..i]].KidsAreSlots();
      assert data[..i] + [data[i]] == data[..i + 1];
      assert Points(data[..i], data[i]);
      if nodes[data[..i]].At(data[i]) == null { NothingBeyond(Shape(), data, i); }
    }

    /** The walk stands at the node of the first `i` bytes, or there is none from there on. */
    ghost predicate Stands(n: Node?, data: Path, i: nat)
      reads this, nodes.Values
    {
      if n == null then NoneFrom(Stored(), data, i)
      else i <= |data| && data[..i] in nodes && nodes[data[..i]] == n
    }

    method VisitNode(n: Node, data: Path, i: nat, visits: seq<Visit>) returns (visits': seq<Visit>)
      requires Shaped() && Stands(n, data, i) && InOrder(visits) && Collected(Stored(), data, visits, i)
      ensures InOrder(visits') && Collected(Stored(), data, visits', i + 1)
    {
      visits' := MatchNode(if n.pipes.Some? then n.pipes.value else {}, i, visits);
      CollectNode(Stored(), data, visits, visits', i);
    }

    method Descend(n: Node, data: Path, i: nat) returns (next: Node?, stop: bool)
      requires Shaped() && Stands(n, data, i) && i < |data|
      ensures Stands(next, data, i + 1) && (stop ==> next == null)
    {
      NextNode(data, i);
      next, stop := Follow(n, data[i]);
    }

    /** Visits every subscription to a prefix of `data` exactly once, shorter prefixes first. */
    method Match(data: Path) returns (visits: seq<Visit>)
      requires Shaped()
      ensures InOrder(visits)
      ensures forall v :: v in visits <==> Hits(Stored(), data, v)
    {
      var current: Node? := root;
      var i := 0;
      visits := [];
      while current != null
        invariant 0 <= i <= |data| + 1 && InOrder(visits) && Collected(Stored(), data, visits, i)
            && Stands(current, data, i)
        decreases |data| + 1 - i
      {
        visits := VisitNode(current, data, i, visits);
        if i == |data| {
          i := i + 1;
          break;
        }
        var stop;
        current, stop := Descend(current, data, i);
        i := i + 1;
        if stop {
          break;
        }
      }
      CollectAll(Stored(), data, visits, i);
    }
  }

  /** A trie with a single subscription, whose pipe goes: nothing is stored any more and one
      prefix is still counted. */
  method LonePipeGoes(prefix: Path, pipe: Pipe, uniq: bool) returns (t: MTrie)
    ensures t.Valid() && t.Stored() == map[] && t.numPrefixes == 1
  {
    t := new MTrie();
    var isNew := t.Add(prefix, pipe);
    assert t.Stored() == map[prefix := {pipe}];
    var log := t.RmAll(pipe, uniq);
    assert {pipe} - {pipe} == {};
  }
}
