/**
 The lock-free queue between one writer and one reader (ypipe.hpp), with the
 pointers of the source as absolute positions, proved against its contract.
 */
module YPipe {
  import opened Wrappers

  /** What a queue is to its users.  `frames` is everything written and not taken
      back: the reader has taken `frames[..rd]`, `frames[..pub]` is flushed,
      `frames[..fin]` is complete and the rest belongs to an unfinished message. */
  datatype Queue<T> = Queue(frames: seq<T>, rd: nat, pub: nat, fin: nat, asleep: bool) {
    predicate Ok() {
      rd <= pub <= fin <= |frames| && (asleep ==> rd == pub)
    }

    function Put(x: T, incomplete: bool): Queue<T> {
      this.(frames := frames + [x], fin := if incomplete then fin else |frames| + 1)
    }

    /** Completed frames become visible to the reader. */
    function Flushed(): Queue<T> {
      this.(pub := fin, asleep := asleep && pub == fin)
    }

    /** The reader has to be told about the flush. */
    predicate Wakes() {
      asleep && pub != fin
    }

    function RolledBack(): Queue<T>
      requires Ok()
    {
      this.(frames := frames[..fin])
    }

    /** A look at the queue puts the reader to sleep if there is nothing to read. */
    function Looked(): Queue<T> {
      this.(asleep := asleep || rd == pub)
    }

    function Taken(): Queue<T> {
      this.(rd := rd + 1)
    }

    /** The reader has read on until nothing was left. */
    function Drained(): Queue<T> {
      this.(rd := pub, asleep := true)
    }
  }

  function NewQueue<T>(): Queue<T> {
    Queue([], 0, 0, 0, false)
  }

  class YPipe<T> {
    /** The address by which commands refer to this queue. */
    const id: nat

    /** The elements between `first` and `first + |queue|`, where the terminator is. */
    var queue: seq<T>
    var first: nat

    /** First un-flushed, first un-prefetched and end of the complete items. */
    var w: nat
    var r: Option<nat>
    var f: nat

    /** The one variable both threads use; None while the reader sleeps. */
    var c: Option<nat>

    ghost var past: seq<T>

    ghost predicate Valid()
      reads this
    {
      && |past| == first <= w <= f <= first + |queue|
      && (r.Some? ==> first <= r.value <= w)
      && (if c.None? then w == first else c.value == w)
    }

    ghost function View(): Queue<T>
      reads this
    {
      Queue(past + queue, first, w, f, c.None?)
    }

    constructor (id: nat)
      ensures this.id == id && Valid() && View() == NewQueue()
    {
      this.id := id;
      queue, first, w, r, f, c, past := [], 0, 0, Some(0), 0, Some(0), [];
    }

    method Write(value: T, incomplete: bool)
      requires Valid()
      modifies this
      ensures Valid() && View() == old(View()).Put(value, incomplete)
    {
      queue := queue + [value];
      if !incomplete {
        f := first + |queue|;
      }
      assert past + queue == old(past + queue) + [value];
    }

    /** Takes back the last incomplete item, if there is one. */
    method Unwrite() returns (value: Option<T>)
      requires Valid()
      modifies this
      ensures Valid() && value.Some? == (old(View()).fin < |old(View()).frames|)
      ensures var q := old(View());
              View() == if value.None? then q else q.(frames := q.frames[..|q.frames| - 1])
      ensures value.Some? ==> value.value == old(View()).frames[|old(View()).frames| - 1]
    {
      if f == first + |queue| {
        return None;
      }
      value := Some(queue[|queue| - 1]);
      queue := queue[..|queue| - 1];
      assert past + queue == old(past + queue)[..|old(past + queue)| - 1];
    }

    /** Publishes the completed items; false iff the reader was asleep. */
    method Flush() returns (awake: bool)
      requires Valid()
      modifies this
      ensures Valid() && View() == old(View()).Flushed() && awake == !old(View()).Wakes()
    {
      if w == f {
        return true;
      }
      if c != Some(w) {
        c := Some(f);
        w := f;
        return false;
      }
      c := Some(f);
      w := f;
      return true;
    }

    /** Whether there is something to read; a failed look puts the reader to sleep. */
    method CheckRead() returns (ready: bool)
      requires Valid()
      modifies this`r, this`c
      ensures Valid() && View() == old(View()).Looked() && ready == (View().rd < View().pub)
      ensures ready ==> View() == old(View()) && r.Some? && first < r.value
    {
      if r != Some(first) && r.Some? {
        return true;
      }
      r := c;
      if c == Some(first) {
        c := None;
      }
      ready := !(r == Some(first) || r.None?);
    }

    method Read() returns (value: Option<T>)
      requires Valid()
      modifies this
      ensures Valid() && value.Some? == (old(View()).rd < old(View()).pub)
      ensures View() == if value.None? then old(View()).Looked() else old(View()).Taken()
      ensures value.Some? ==> value.value == View().frames[old(View()).rd]
    {
      var ready := CheckRead();
      if !ready {
        return None;
      }
      value := Some(queue[0]);
      past := past + [queue[0]];
      queue := queue[1..];
      first := first + 1;
      assert past + queue == old(past + queue);
    }
  }
}
