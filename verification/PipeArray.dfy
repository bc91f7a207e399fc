/**
 The array of pipes shared by the schedulers: every pipe stores its own position,
 so that a pipe is found, swapped and removed in constant time.
 */
module PipeArray {
  import opened Wrappers

  /** A part of a message; `more` says that others follow. */
  datatype Frame = Frame(more: bool, body: nat)

  /** The outbound side of a pipe as a value. */
  datatype Side = Side(room: seq<bool>, out: seq<Frame>, fin: nat, pub: nat) {
    predicate Takes() {
      room != [] && room[0]
    }

    /** After an answer was used up. */
    function Asked(): Side {
      this.(room := if room == [] then [] else room[1..])
    }

    /** After a frame was offered. */
    function Offered(f: Frame): Side {
      if Takes() then Asked().(out := out + [f], fin := if f.more then fin else |out| + 1) else Asked()
    }

    function RolledBack(): Side {
      if fin <= |out| then this.(out := out[..fin]) else this
    }

    function Flushed(): Side {
      this.(pub := fin)
    }
  }

  /** A pipe as a scheduler sees it.  Whether it takes a frame is up to its peer:
      `room` are the answers it will give.  `out` is what was written and not rolled
      back, `fin` how much of that is complete and `pub` how much is flushed. */
  class Pipe {
    var arrayIndex: int

    var room: seq<bool>
    var out: seq<Frame>
    var fin: nat
    var pub: nat

    var inbox: seq<Frame>

    constructor (room: seq<bool>, inbox: seq<Frame>)
      ensures arrayIndex == -1 && out == [] && fin == pub == 0
      ensures this.room == room && this.inbox == inbox
    {
      arrayIndex := -1;
      this.room, this.inbox := room, inbox;
      out, fin, pub := [], 0, 0;
    }

    function Outbound(): Side
      reads this
    {
      Side(room, out, fin, pub)
    }

    /** The answer to the next write. */
    predicate Takes()
      reads this
    {
      room != [] && room[0]
    }

    method CheckWrite() returns (ok: bool)
      modifies `room
      ensures ok == old(Takes()) && Outbound() == if ok then old(Outbound()) else old(Outbound()).Asked()
    {
      ok := room != [] && room[0];
      if room != [] && !ok {
        room := room[1..];
      }
    }

    method Write(f: Frame) returns (ok: bool)
      modifies `room, `out, `fin
      ensures ok == old(Takes()) && Outbound() == old(Outbound()).Offered(f)
    {
      ok := room != [] && room[0];
      if room != [] {
        room := room[1..];
      }
      if ok {
        out := out + [f];
        if !f.more {
          fin := |out|;
        }
      }
    }

    method Rollback()
      modifies `out
      ensures Outbound() == old(Outbound()).RolledBack()
    {
      if fin <= |out| {
        out := out[..fin];
      }
    }

    method Flush()
      modifies `pub
      ensures Outbound() == old(Outbound()).Flushed()
    {
      pub := fin;
    }

    method CheckRead() returns (ready: bool)
      ensures ready == (inbox != [])
    {
      ready := inbox != [];
    }

    method Read() returns (f: Option<Frame>)
      modifies `inbox
      ensures old(inbox) == [] ==> f.None? && inbox == []
      ensures old(inbox) != [] ==> f == Some(old(inbox)[0]) && inbox == old(inbox)[1..]
    {
      if inbox == [] {
        return None;
      }
      f := Some(inbox[0]);
      inbox := inbox[1..];
    }
  }

  /** The outbound sides of a set of pipes. */
  ghost function Sides(pipes: set<Pipe>): map<Pipe, Side>
    reads pipes
  {
    map p | p in pipes :: p.Outbound()
  }

  /** What is left to read from a set of pipes. */
  ghost function Inboxes(pipes: set<Pipe>): map<Pipe, seq<Frame>>
    reads pipes
  {
    map p | p in pipes :: p.inbox
  }

  function Swapped<T>(s: seq<T>, i: nat, j: nat): seq<T>
    requires i < |s| && j < |s|
  {
    s[i := s[j]][j := s[i]]
  }

  lemma SwapKeeps<T>(s: seq<T>, i: nat, j: nat)
    requires i < |s| && j < |s|
    ensures forall x :: x in Swapped(s, i, j) <==> x in s
  {
    var t := Swapped(s, i, j);
    forall x | x in s ensures x in t {
      var k :| 0 <= k < |s| && s[k] == x;
      assert t[if k == i then j else if k == j then i else k] == x;
    }
  }

  class PipeArray {
    var items: seq<Pipe>

    constructor ()
      ensures items == [] && Valid()
    {
      items := [];
    }

    /** Stored positions are the real ones; so no pipe is stored twice. */
    ghost predicate Valid()
      reads this, items
    {
      forall k :: 0 <= k < |items| ==> items[k].arrayIndex == k
    }

    method PushBack(item: Pipe)
      requires Valid() && item !in items
      modifies `items, item`arrayIndex
      ensures Valid() && items == old(items) + [item]
    {
      item.arrayIndex := |items|;
      items := items + [item];
    }

    /** The last item takes the place of the erased one. */
    method EraseAt(index: nat)
      requires Valid() && (items == [] || index < |items|)
      modifies this, items`arrayIndex
      ensures Valid() && items == if old(items) == [] then []
          else old(items)[index := old(items)[|old(items)| - 1]][..|old(items)| - 1]
    {
      if |items| == 0 {
        return;
      }
      var back := items[|items| - 1];
      back.arrayIndex := index;
      items := items[index := back];
      items := items[..|items| - 1];
    }

    method Erase(item: Pipe)
      requires Valid() && item in items
      modifies this, items`arrayIndex
      ensures Valid()
      ensures items == old(items)[old(item.arrayIndex) := old(items)[|old(items)| - 1]][..|old(items)| - 1]
    {
      EraseAt(item.arrayIndex);
    }

    method Swap(i: nat, j: nat)
      requires Valid() && i < |items| && j < |items|
      modifies this, items`arrayIndex
      ensures Valid() && items == Swapped(old(items), i, j)
      ensures forall p :: p in items <==> p in old(items)
    {
      SwapKeeps(items, i, j);
      items[i].arrayIndex := j;
      items[j].arrayIndex := i;
      items := items[i := items[j]][j := items[i]];
    }
  }

  predicate Distinct<T(==)>(s: seq<T>) {
    forall i, j :: 0 <= i < j < |s| ==> s[i] != s[j]
  }

  /** The first `k` items as a set. */
  ghost function Part<T>(s: seq<T>, k: nat): set<T>
    requires k <= |s|
  {
    set x | x in s[..k]
  }

  lemma InPart<T>(s: seq<T>, i: nat, k: nat)
    requires Distinct(s) && i < |s| && k <= |s|
    ensures s[i] in Part(s, k) <==> i < k
  {
    if i < k { assert s[i] == s[..k][i]; }
  }

  /** A swap across the border of a part exchanges two items, any other swap none. */
  lemma SwapPart<T>(s: seq<T>, i: nat, j: nat, k: nat)
    requires Distinct(s) && i < |s| && j < |s| && k <= |s|
    ensures Distinct(Swapped(s, i, j)) && |Swapped(s, i, j)| == |s|
    ensures (i < k <==> j < k) ==> Part(Swapped(s, i, j), k) == Part(s, k)
    ensures i < k <= j ==> Part(Swapped(s, i, j), k) == Part(s, k) - {s[i]} + {s[j]}
    ensures j < k <= i ==> Part(Swapped(s, i, j), k) == Part(s, k) - {s[j]} + {s[i]}
  {
    var t := Swapped(s, i, j);
    forall x ensures x in Part(t, k) <==>
        if (i < k) == (j < k) then x in Part(s, k)
        else (x in Part(s, k) && x != s[i] && x != s[j]) || x == (if i < k then s[j] else s[i])
    {
      if x in t[..k] {
        var m :| 0 <= m < k && t[..k][m] == x;
        var n := if m == i then j else if m == j then i else m;
        assert s[n] == x;
        InPart(s, n, k);
      }
      if x in s[..k] {
        var m :| 0 <= m < k && s[..k][m] == x;
        var n := if m == i then j else if m == j then i else m;
        assert t[n] == x;
        if n < k { assert t[..k][n] == x; }
      }
      if i < k { assert t[..k][i] == s[j]; }
      if j < k { assert t[..k][j] == s[i]; }
      InPart(s, i, k);
      InPart(s, j, k);
    }
  }
}
