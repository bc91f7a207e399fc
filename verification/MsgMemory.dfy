/**
 Messages and what they hold: long contents with a reference counter that is only
 used once a content is shared, and the receive buffer whose counter is shared by
 the allocator and the zero-copy contents that lie in it.
 */
module MsgMemory {
  import opened Wrappers

  const MAX_VSM_SIZE: nat := 33

  /** A message: the handle that the source copies around bit by bit. */
  datatype Msg = Closed | Plain | Long(content: nat, shared: bool)

  /** A content; `buffer` is the receive buffer a zero-copy content lies in. */
  datatype Content = Content(refcnt: int, freed: bool, buffer: Option<nat>)

  /** A receive buffer with its counter. */
  datatype Buffer = Buffer(count: int, freed: bool)

  // ---- counting ----

  predicate Points(m: Msg, c: nat) {
    m.Long? && m.content == c
  }

  /** The references to a content.  A message owns one, except between `add_refs` and
      the end of a bulk distribution: `stake` says how many. */
  function Refs(msgs: seq<Msg>, stake: seq<nat>, c: nat): nat
    requires |msgs| == |stake|
  {
    if msgs == [] then 0
    else
      var k := |msgs| - 1;
      Refs(msgs[..k], stake[..k], c) + if Points(msgs[k], c) then stake[k] else 0
  }

  lemma {:induction false} RefsUpdate(msgs: seq<Msg>, stake: seq<nat>, i: nat, m: Msg, n: nat, c: nat)
    requires |msgs| == |stake| && i < |msgs|
    ensures Refs(msgs[i := m], stake[i := n], c)
         == Refs(msgs, stake, c) - (if Points(msgs[i], c) then stake[i] else 0) + if Points(m, c) then n else 0
  {
    var k := |msgs| - 1;
    if i == k {
      assert msgs[i := m][..k] == msgs[..k] && stake[i := n][..k] == stake[..k];
    } else {
      assert msgs[i := m][..k] == msgs[..k][i := m] && stake[i := n][..k] == stake[..k][i := n];
      RefsUpdate(msgs[..k], stake[..k], i, m, n, c);
    }
  }

  lemma RefsAppend(msgs: seq<Msg>, stake: seq<nat>, m: Msg, n: nat, c: nat)
    requires |msgs| == |stake|
    ensures Refs(msgs + [m], stake + [n], c) == Refs(msgs, stake, c) + if Points(m, c) then n else 0
  {
    assert (msgs + [m])[..|msgs|] == msgs && (stake + [n])[..|stake|] == stake;
  }

  lemma RefsSome(msgs: seq<Msg>, stake: seq<nat>, i: nat, c: nat)
    requires |msgs| == |stake| && i < |msgs| && Points(msgs[i], c)
    ensures Refs(msgs, stake, c) >= stake[i]
  {
    RefsUpdate(msgs, stake, i, Closed, 0, c);
  }

  lemma RefsTwo(msgs: seq<Msg>, stake: seq<nat>, i: nat, j: nat, c: nat)
    requires |msgs| == |stake| && i < |msgs| && j < |msgs| && i != j && Points(msgs[i], c) && Points(msgs[j], c)
    ensures Refs(msgs, stake, c) >= stake[i] + stake[j]
  {
    RefsUpdate(msgs, stake, i, Closed, 0, c);
    RefsSome(msgs[i := Closed], stake[i := 0], j, c);
  }

  lemma {:induction false} RefsNone(msgs: seq<Msg>, stake: seq<nat>, c: nat)
    requires |msgs| == |stake| && forall i :: 0 <= i < |msgs| ==> !Points(msgs[i], c)
    ensures Refs(msgs, stake, c) == 0
  {
    if msgs != [] { RefsNone(msgs[..|msgs| - 1], stake[..|msgs| - 1], c); }
  }

  /** The contents alive in a buffer. */
  function Alive(contents: seq<Content>, b: nat): nat {
    if contents == [] then 0
    else
      var k := |contents| - 1;
      Alive(contents[..k], b) + if !contents[k].freed && contents[k].buffer == Some(b) then 1 else 0
  }

  lemma {:induction false} AliveUpdate(contents: seq<Content>, i: nat, x: Content, b: nat)
    requires i < |contents|
    ensures Alive(contents[i := x], b) == Alive(contents, b)
      - (if !contents[i].freed && contents[i].buffer == Some(b) then 1 else 0)
          + (if !x.freed && x.buffer == Some(b) then 1 else 0)
  {
    var k := |contents| - 1;
    if i == k {
      assert contents[i := x][..k] == contents[..k];
    } else {
      assert contents[i := x][..k] == contents[..k][i := x];
      AliveUpdate(contents[..k], i, x, b);
    }
  }

  lemma AliveAppend(contents: seq<Content>, x: Content, b: nat)
    ensures Alive(contents + [x], b) == Alive(contents, b) + if !x.freed && x.buffer == Some(b) then 1 else 0
  {
    assert (contents + [x])[..|contents|] == contents;
  }

  lemma {:induction false} AliveSome(contents: seq<Content>, c: nat, b: nat)
    requires c < |contents| && !contents[c].freed && contents[c].buffer == Some(b)
    ensures Alive(contents, b) >= 1
  {
    if c < |contents| - 1 { AliveSome(contents[..|contents| - 1], c, b); }
  }

  lemma {:induction false} AliveNone(contents: seq<Content>, b: nat)
    requires forall c :: 0 <= c < |contents| ==> contents[c].buffer != Some(b)
    ensures Alive(contents, b) == 0
  {
    if contents != [] { AliveNone(contents[..|contents| - 1], b); }
  }

  // ---- what always holds ----

  /** A freed content has no reference, an unshared one exactly one, and a shared one
      as many as its counter says. */
  predicate ContentOk(refs: nat, x: Content, isShared: bool) {
    if x.freed then refs == 0
    else if isShared then refs == x.refcnt >= 1
    else refs == 1
  }

  /** `shared` are the contents whose counter is in use; the messages that own a
      reference know. */
  ghost predicate MsgsOk(msgs: seq<Msg>, stake: seq<nat>, contents: seq<Content>, shared: set<nat>) {
    && |msgs| == |stake|
    && (forall i :: 0 <= i < |msgs| && msgs[i].Long? ==>
          msgs[i].content < |contents| && (stake[i] > 0 ==> (msgs[i].shared <==> msgs[i].content in shared)))
    && (forall c: nat :: c < |contents| ==> ContentOk(Refs(msgs, stake, c), contents[c], c in shared))
    && (forall c :: c in shared ==> c < |contents|)
  }

  /** A buffer's counter is the number of contents alive in it, and one more while the
      allocator holds it. */
  predicate BufferOk(contents: seq<Content>, held: Option<nat>, x: Buffer, b: nat) {
    var refs := Alive(contents, b) + if held == Some(b) then 1 else 0;
    if x.freed then refs == 0 else refs == x.count >= 1
  }

  ghost predicate BuffersOk(contents: seq<Content>, buffers: seq<Buffer>, held: Option<nat>) {
    && (forall c :: 0 <= c < |contents| && contents[c].buffer.Some? ==> contents[c].buffer.value < |buffers|)
    && (forall b: nat :: b < |buffers| ==> BufferOk(contents, held, buffers[b], b))
    && (held.Some? ==> held.value < |buffers|)
  }

  // ---- references come and go ----

  /** Messages and stakes change so that only the references of `c` do, by `n`. */
  ghost predicate Shifts(msgs: seq<Msg>, stake: seq<nat>, msgs': seq<Msg>, stake': seq<nat>, c: nat, n: int) {
    |msgs| == |stake| && |msgs'| == |stake'| &&
    forall d: nat :: Refs(msgs', stake', d) == Refs(msgs, stake, d) + if d == c then n else 0
  }

  lemma OneShifts(msgs: seq<Msg>, stake: seq<nat>, i: nat, m: Msg, n: nat, c: nat)
    requires |msgs| == |stake| && i < |msgs| && (!Points(msgs[i], c) ==> !msgs[i].Long? || stake[i] == 0)
    requires !Points(m, c) ==> !m.Long? || n == 0
    ensures Shifts(msgs, stake, msgs[i := m], stake[i := n], c,
                   (if Points(m, c) then n as int else 0) - if Points(msgs[i], c) then stake[i] else 0)
  {
    forall d: nat ensures Refs(msgs[i := m], stake[i := n], d) == Refs(msgs, stake, d)
        + if d == c then (if Points(m, c) then n as int else 0) - (if Points(msgs[i], c) then stake[i] else 0) else 0
    {
      RefsUpdate(msgs, stake, i, m, n, d);
    }
  }

  /** `n` references to a content are gone: the counter goes down, or they were the last
      and it is freed. */
  function Dropped(x: Content, isShared: bool, n: nat): Content {
    x.(refcnt := if isShared then x.refcnt - n else x.refcnt, freed := !isShared || x.refcnt == n)
  }

  lemma DroppedOk(msgs: seq<Msg>, stake: seq<nat>, contents: seq<Content>, shared: set<nat>, msgs': seq<Msg>,
          stake': seq<nat>, c: nat, n: nat)
    requires MsgsOk(msgs, stake, contents, shared) && c < |contents| && !contents[c].freed && n >= 1
    requires Shifts(msgs, stake, msgs', stake', c, -(n as int))
    requires |msgs'| == |msgs|
    requires forall i :: 0 <= i < |msgs| && msgs'[i].Long? ==> msgs'[i] == msgs[i] && (stake'[i] > 0 ==> stake[i] > 0)
    ensures MsgsOk(msgs', stake', contents[c := Dropped(contents[c], c in shared, n)], shared)
  {
    forall d: nat | d < |contents|
      ensures ContentOk(Refs(msgs', stake', d), contents[c := Dropped(contents[c], c in shared, n)][d], d in shared)
    {
      assert ContentOk(Refs(msgs, stake, d), contents[d], d in shared);
    }
  }

  /** `n` references more: an unshared content becomes shared. */
  function Grown(x: Content, isShared: bool, n: nat): Content {
    x.(refcnt := if isShared then x.refcnt + n else n + 1)
  }

  /** A content in a buffer goes, and its part of the buffer's counter with it. */
  function Unbuffered(buffers: seq<Buffer>, b: Option<nat>): seq<Buffer>
    requires b.Some? ==> b.value < |buffers|
  {
    if b.None? then buffers
    else
      var x := buffers[b.value];
      buffers[b.value := Buffer(x.count - 1, x.freed || x.count == 1)]
  }

  lemma FreedOk(contents: seq<Content>, buffers: seq<Buffer>, held: Option<nat>, c: nat, x: Content)
    requires BuffersOk(contents, buffers, held) && c < |contents| && !contents[c].freed
    requires x.freed && x.buffer == contents[c].buffer
    ensures BuffersOk(contents[c := x], Unbuffered(buffers, contents[c].buffer), held)
    ensures contents[c].buffer.Some? ==> !buffers[contents[c].buffer.value].freed
  {
    var buffers' := Unbuffered(buffers, contents[c].buffer);
    forall b: nat | b < |buffers| ensures BufferOk(contents[c := x], held, buffers'[b], b) {
      assert BufferOk(contents, held, buffers[b], b);
      AliveUpdate(contents, c, x, b);
    }
    if contents[c].buffer.Some? { AliveSome(contents, c, contents[c].buffer.value); }
  }

  lemma KeptOk(contents: seq<Content>, buffers: seq<Buffer>, held: Option<nat>, c: nat, x: Content)
    requires BuffersOk(contents, buffers, held) && c < |contents|
    requires x.freed == contents[c].freed && x.buffer == contents[c].buffer
    ensures BuffersOk(contents[c := x], buffers, held)
  {
    forall b: nat | b < |buffers| ensures BufferOk(contents[c := x], held, buffers[b], b) {
      assert BufferOk(contents, held, buffers[b], b);
      AliveUpdate(contents, c, x, b);
    }
  }

  lemma AttachedOk(msgs: seq<Msg>, stake: seq<nat>, contents: seq<Content>, shared: set<nat>, i: nat, x: Content)
    requires MsgsOk(msgs, stake, contents, shared) && i < |msgs| && !msgs[i].Long? && !x.freed
    ensures MsgsOk(msgs[i := Long(|contents|, false)], stake[i := 1], contents + [x], shared)
  {
    var c := |contents|;
    var msgs', stake' := msgs[i := Long(c, false)], stake[i := 1];
    RefsNone(msgs, stake, c);
    forall d: nat | d < |contents + [x]| ensures ContentOk(Refs(msgs', stake', d), (contents + [x])[d], d in shared) {
      RefsUpdate(msgs, stake, i, Long(c, false), 1, d);
      if d < c { assert ContentOk(Refs(msgs, stake, d), contents[d], d in shared); }
    }
  }

  /** A content in the held buffer counts as a use of it. */
  lemma UsedOk(contents: seq<Content>, buffers: seq<Buffer>, held: Option<nat>, x: Content)
    requires BuffersOk(contents, buffers, held) && held.Some? && x == Content(0, false, held)
    ensures held.value < |buffers| && !buffers[held.value].freed
    ensures BuffersOk(contents + [x],
        buffers[held.value := buffers[held.value].(count := buffers[held.value].count + 1)], held)
  {
    var b := held.value;
    assert !buffers[b].freed by { assert BufferOk(contents, held, buffers[b], b); }
    var buffers' := buffers[b := buffers[b].(count := buffers[b].count + 1)];
    forall k: nat | k < |buffers| ensures BufferOk(contents + [x], held, buffers'[k], k) {
      assert BufferOk(contents, held, buffers[k], k);
      AliveAppend(contents, x, k);
    }
  }

  /** Between two states of the memory message `i` was copied bit by bit `n` times, each
      copy taking one of its references along. */
  ghost predicate Spread(msgs: seq<Msg>, stake: seq<nat>, msgs': seq<Msg>, stake': seq<nat>, i: nat, n: nat) {
    && i < |msgs| == |stake| <= |msgs'| == |stake'| && msgs'[..|msgs|] == msgs
    && (forall k: nat :: |msgs| <= k < |msgs'| ==> msgs'[k] == msgs[i] && (msgs[i].Long? ==> stake'[k] == 1))
    && (msgs[i].Long? ==> stake'[i] == stake[i] - n)
    && (forall k: nat :: k < |msgs| && k != i ==> stake'[k] == stake[k])
    && (forall c: nat :: Refs(msgs', stake', c) == Refs(msgs, stake, c))
  }

  /** Message `i` was given to `n` new messages: what it held has one reference for each
      of them instead of the one of `i`, which holds nothing any more. */
  ghost predicate HandedOut(msgs: seq<Msg>, stake: seq<nat>, msgs': seq<Msg>, stake': seq<nat>, i: nat, n: nat) {
    && i < |msgs| == |stake| <= |msgs'| == |stake'| && msgs'[..|msgs|] == msgs[i := Plain]
    && (forall k: nat :: |msgs| <= k < |msgs'| ==>
          if msgs[i].Long? then msgs'[k].Long? && msgs'[k].content == msgs[i].content && stake'[k] == 1
              else msgs'[k] == msgs[i])
    && (forall c: nat :: Refs(msgs', stake', c) == Refs(msgs, stake, c) + if Points(msgs[i], c) then n as int - 1
        else 0)
  }

  lemma SpreadOn(msgs0: seq<Msg>, stake0: seq<nat>, msgs1: seq<Msg>, stake1: seq<nat>, msgs2: seq<Msg>,
          stake2: seq<nat>, i: nat, m: nat, n: nat)
    requires Spread(msgs0, stake0, msgs1, stake1, i, m) && Spread(msgs1, stake1, msgs2, stake2, i, n)
    ensures Spread(msgs0, stake0, msgs2, stake2, i, m + n)
  {
    assert msgs1[i] == msgs1[..|msgs0|][i];
    assert msgs2[..|msgs0|] == msgs2[..|msgs1|][..|msgs0|];
    forall k: nat | |msgs0| <= k < |msgs1| ensures msgs2[k] == msgs0[i] && (msgs0[i].Long? ==> stake2[k] == 1) {
      assert msgs2[k] == msgs2[..|msgs1|][k];
    }
  }

  class Memory {
    var msgs: seq<Msg>
    var contents: seq<Content>
    var buffers: seq<Buffer>

    /** The allocator of the decoder: the buffer it holds, the next place for a content
        in it, and how many of its bytes have been given to messages. */
    const maxSize: nat
    const maxCounters: nat
    var held: Option<nat>
    var nextContent: nat
    var used: nat

    ghost var stake: seq<nat>
    ghost var shared: set<nat>

    ghost predicate Valid()
      reads this
    {
      && MsgsOk(msgs, stake, contents, shared)
      && BuffersOk(contents, buffers, held)
      && maxCounters == (maxSize + MAX_VSM_SIZE - 1) / MAX_VSM_SIZE
      && MAX_VSM_SIZE * nextContent <= used <= maxSize
    }

    constructor (bufsize: nat)
      ensures Valid() && msgs == [] && contents == [] && buffers == [] && held.None? && maxSize == bufsize
    {
      msgs, contents, buffers := [], [], [];
      stake, shared := [], {};
      maxSize := bufsize;
      maxCounters := (bufsize + MAX_VSM_SIZE - 1) / MAX_VSM_SIZE;
      held, nextContent, used := None, 0, 0;
    }

    /** The references to content `c`. */
    ghost function RefsTo(c: nat): nat
      requires |msgs| == |stake|
      reads this
    {
      Refs(msgs, stake, c)
    }

    /** Message `i` owns exactly one reference, as it does outside of `distribute`. */
    ghost predicate Owns(i: nat)
      reads this
    {
      i < |msgs| && i < |stake| && msgs[i].Long? && stake[i] == 1
    }

    /** Message `i` owns nothing. */
    ghost predicate Empty(i: nat)
      reads this
    {
      i < |msgs| && i < |stake| && (!msgs[i].Long? || stake[i] == 0)
    }

    /** A new message variable, initialised. */
    method Declare() returns (i: nat)
      requires Valid()
      modifies `msgs, `stake
      ensures Valid() && i == |old(msgs)| && msgs == old(msgs) + [Plain] && stake == old(stake) + [0]
      ensures forall c: nat :: RefsTo(c) == old(RefsTo(c))
    {
      forall c: nat ensures Refs(msgs + [Plain], stake + [0], c) == Refs(msgs, stake, c) {
        RefsAppend(msgs, stake, Plain, 0, c);
      }
      i := |msgs|;
      msgs := msgs + [Plain];
      stake := stake + [0];
    }

    /** What a message was is forgotten; it must not own anything. */
    method Init(i: nat)
      requires Valid() && Empty(i)
      modifies `msgs, `stake
      ensures Valid() && msgs == old(msgs)[i := Plain] && stake == old(stake)[i := 0]
      ensures forall c: nat :: RefsTo(c) == old(RefsTo(c))
    {
      forall c: nat ensures Refs(msgs[i := Plain], stake[i := 0], c) == Refs(msgs, stake, c) {
        RefsUpdate(msgs, stake, i, Plain, 0, c);
      }
      msgs := msgs[i := Plain];
      stake := stake[i := 0];
    }

    /** A message gets a content of its own. */
    method InitSize(i: nat, size: nat)
      requires Valid() && Empty(i)
      modifies `msgs, `contents, `stake
      ensures Valid()
      ensures size <= MAX_VSM_SIZE ==> msgs == old(msgs)[i := Plain] && contents == old(contents)
      ensures size > MAX_VSM_SIZE ==>
          msgs == old(msgs)[i := Long(|old(contents)|, false)] && contents == old(contents) + [Content(0, false, None)]
              && Owns(i)
    {
      Init(i);
      if size > MAX_VSM_SIZE {
        var x := Content(0, false, None);
        AttachedOk(msgs, stake, contents, shared, i, x);
        forall b: nat | b < |buffers| ensures BufferOk(contents + [x], held, buffers[b], b) {
          assert BufferOk(contents, held, buffers[b], b);
          AliveAppend(contents, x, b);
        }
        msgs := msgs[i := Long(|contents|, false)];
        stake := stake[i := 1];
        contents := contents + [x];
      }
    }

    /** Takes `n` references from a content; true iff they were the last and it was freed. */
    method DropRefs(c: nat, isShared: bool, n: nat) returns (gone: bool)
      requires c < |contents| && !contents[c].freed && BuffersOk(contents, buffers, held)
      modifies `contents, `buffers
      ensures contents == old(contents)[c := Dropped(old(contents)[c], isShared, n)] && gone == contents[c].freed
      ensures BuffersOk(contents, buffers, held)
      ensures !gone ==> buffers == old(buffers)
    {
      gone := true;
      if isShared {
        KeptOk(contents, buffers, held, c, contents[c].(refcnt := contents[c].refcnt - n));
        contents := contents[c := contents[c].(refcnt := contents[c].refcnt - n)];
        gone := contents[c].refcnt == 0;
      }
      if gone {
        FreedOk(contents, buffers, held, c, contents[c].(freed := true));
        if contents[c].buffer.Some? {
          CallDecRef(contents[c].buffer.value);
        }
        contents := contents[c := contents[c].(freed := true)];
      }
    }

    /** The free function of a zero-copy content. */
    method CallDecRef(b: nat)
      requires b < |buffers| && !buffers[b].freed
      modifies `buffers
      ensures buffers == Unbuffered(old(buffers), Some(b))
    {
      buffers := buffers[b := buffers[b].(count := buffers[b].count - 1)];
      if buffers[b].count == 0 {
        buffers := buffers[b := buffers[b].(freed := true)];
      }
    }

    /** Message `i` gives up `n` of its references and becomes `m`. */
    method GiveUp(i: nat, m: Msg, n: nat) returns (gone: bool)
      requires Valid() && i < |msgs| && msgs[i].Long? && 1 <= n <= stake[i]
          && (m == msgs[i] || (m.Closed? && n == stake[i]))
      modifies `msgs, `stake, `contents, `buffers
      ensures var c := old(msgs)[i].content;
              && Valid() && msgs == old(msgs)[i := m] && stake == old(stake)[i := old(stake)[i] - n]
              && contents == old(contents)[c := Dropped(old(contents)[c], old(msgs)[i].shared, n)]
              && gone == contents[c].freed
              && forall d: nat :: RefsTo(d) == old(RefsTo(d)) - if d == c then n else 0
    {
      var c := msgs[i].content;
      RefsSome(msgs, stake, i, c);
      assert ContentOk(Refs(msgs, stake, c), contents[c], c in shared);
      OneShifts(msgs, stake, i, m, stake[i] - n, c);
      DroppedOk(msgs, stake, contents, shared, msgs[i := m], stake[i := stake[i] - n], c, n);
      gone := DropRefs(c, msgs[i].shared, n);
      stake := stake[i := stake[i] - n];
      msgs := msgs[i := m];
    }

    /** False iff the message was not valid. */
    method Close(i: nat) returns (ok: bool)
      requires Valid() && i < |msgs| && (msgs[i].Long? ==> Owns(i))
      modifies `msgs, `stake, `contents, `buffers
      ensures Valid() && msgs == old(msgs)[i := Closed] && ok == !old(msgs)[i].Closed?
      ensures stake == old(stake)[i := if old(msgs)[i].Long? then 0 else old(stake)[i]]
      ensures forall d: nat :: RefsTo(d) == old(RefsTo(d)) - if Points(old(msgs)[i], d) then 1 else 0
      ensures !old(msgs)[i].Long? ==> contents == old(contents)
      ensures old(msgs)[i].Long? ==>
          var c := old(msgs)[i].content;
              contents == old(contents)[c := Dropped(old(contents)[c], old(msgs)[i].shared, 1)]
    {
      ok := !msgs[i].Closed?;
      if msgs[i].Long? {
        var gone := GiveUp(i, Closed, 1);
      } else {
        forall d: nat ensures Refs(msgs[i := Closed], stake, d) == Refs(msgs, stake, d) {
          RefsUpdate(msgs, stake, i, Closed, stake[i], d);
          assert stake[i := stake[i]] == stake;
        }
        msgs := msgs[i := Closed];
      }
    }

    /** Message `i` gets `n` further references to give away. */
    method AddRefs(i: nat, n: nat)
      requires Valid() && i < |msgs| && (msgs[i].Long? ==> Owns(i))
      modifies `msgs, `stake, `contents, `shared
      ensures Valid()
      ensures n == 0 || !old(msgs)[i].Long? ==> msgs == old(msgs) && stake == old(stake) && contents == old(contents)
      ensures n > 0 && old(msgs)[i].Long? ==> var c := old(msgs)[i].content;
          && msgs == old(msgs)[i := Long(c, true)] && stake == old(stake)[i := 1 + n]
          && contents == old(contents)[c := Grown(old(contents)[c], old(msgs)[i].shared, n)]
      ensures forall d: nat :: RefsTo(d) == old(RefsTo(d)) + if Points(old(msgs)[i], d) then n else 0
    {
      if n == 0 {
        return;
      }
      if msgs[i].Long? {
        var c := msgs[i].content;
        GrownOk(msgs, stake, contents, shared, i, n);
        KeptOk(contents, buffers, held, c, Grown(contents[c], msgs[i].shared, n));
        OneShifts(msgs, stake, i, Long(c, true), 1 + n, c);
        if msgs[i].shared {
          contents := contents[c := contents[c].(refcnt := contents[c].refcnt + n)];
        } else {
          contents := contents[c := contents[c].(refcnt := n + 1)];
        }
        msgs := msgs[i := Long(c, true)];
        stake := stake[i := 1 + n];
        shared := shared + {c};
      }
    }

    /** Gives `n` references back; false iff there is nothing left of the message. */
    method RmRefs(i: nat, n: nat) returns (left: bool)
      requires Valid() && i < |msgs| && (msgs[i].Long? ==> n <= stake[i])
      modifies `msgs, `stake, `contents, `buffers
      ensures Valid()
      ensures forall d: nat :: RefsTo(d) == old(RefsTo(d)) - if Points(old(msgs)[i], d) then n else 0
      ensures n == 0 ==> left && msgs == old(msgs) && stake == old(stake) && contents == old(contents)
      ensures n > 0 && !old(msgs)[i].Long? ==>
          !left && msgs == old(msgs)[i := Closed] && stake == old(stake) && contents == old(contents)
      ensures n > 0 && old(msgs)[i].Long? ==> var c := old(msgs)[i].content;
          && contents == old(contents)[c := Dropped(old(contents)[c], old(msgs)[i].shared, n)]
          && left == !contents[c].freed
          && msgs == old(msgs)[i := if old(msgs)[i].shared then old(msgs)[i] else Closed]
          && stake == old(stake)[i := old(stake)[i] - n]
    {
      if n == 0 {
        return true;
      }
      if !msgs[i].Long? || !msgs[i].shared {
        if msgs[i].Long? {
          Unshared(i);
        }
        var ok := Close(i);
        return false;
      }
      var gone := GiveUp(i, msgs[i], n);
      left := !gone;
    }

    /** The only owner of an unshared content owns it once. */
    lemma Unshared(i: nat)
      requires Valid() && i < |msgs| && msgs[i].Long? && !msgs[i].shared && stake[i] > 0
      ensures stake[i] == 1
    {
      var c := msgs[i].content;
      RefsSome(msgs, stake, i, c);
      assert ContentOk(Refs(msgs, stake, c), contents[c], c in shared);
    }

    /** Message `j`, which owns nothing, becomes a bitwise copy of `i`. */
    method CopyBits(i: nat, j: nat)
      requires Valid() && i < |msgs| && Empty(j) && i != j && (msgs[i].Long? ==> stake[i] > 0)
      modifies `msgs, `stake
      ensures Valid() && msgs == old(msgs)[j := old(msgs)[i]]
      ensures stake == if old(msgs)[i].Long? then old(stake)[j := 1][i := old(stake)[i] - 1] else old(stake)
      ensures forall d: nat :: RefsTo(d) == old(RefsTo(d))
    {
      var m := msgs[i];
      ghost var own: nat := if m.Long? then 1 else stake[j];
      ghost var left: nat := if m.Long? then stake[i] - 1 else stake[i];
      ghost var mid := stake[j := own];
      forall d: nat ensures Refs(msgs[j := m], mid[i := left], d) == Refs(msgs, stake, d) {
        RefsUpdate(msgs, stake, j, m, own, d);
        RefsUpdate(msgs[j := m], mid, i, m, left, d);
        assert msgs[j := m][i := m] == msgs[j := m];
      }
      msgs := msgs[j := m];
      stake := mid[i := left];
      assert m.Plain? || m.Closed? ==> stake == old(stake);
    }

    /** A new message that is a bitwise copy of `i`. */
    method Duplicate(i: nat) returns (j: nat)
      requires Valid() && i < |msgs| && (msgs[i].Long? ==> stake[i] > 0)
      modifies `msgs, `stake
      ensures Valid() && j == |old(msgs)| && |msgs| == j + 1
      ensures Spread(old(msgs), old(stake), msgs, stake, i, 1)
    {
      j := Declare();
      CopyBits(i, j);
      forall c: nat ensures Refs(msgs, stake, c) == old(Refs(msgs, stake, c)) { assert RefsTo(c) == old(RefsTo(c)); }
    }

    /** The end of a distribution: the `failed` references nobody took are given back and
        the message is detached from what it held. */
    method Detach(i: nat, failed: nat)
      requires Valid() && i < |msgs| && (msgs[i].Long? ==> stake[i] == failed)
      modifies `msgs, `stake, `contents, `buffers
      ensures Valid() && msgs == old(msgs)[i := Plain] && stake == old(stake)[i := 0]
      ensures forall c: nat :: RefsTo(c) == old(RefsTo(c)) - if Points(old(msgs)[i], c) then failed else 0
    {
      if failed > 0 {
        var left := RmRefs(i, failed);
      }
      Init(i);
    }

    /** The content is shared with `src`; false iff one of the messages was not valid.  A
        message that is copied to itself is closed. */
    method Copy(dst: nat, src: nat) returns (ok: bool)
      requires Valid() && dst < |msgs| && src < |msgs|
      requires (msgs[dst].Long? ==> Owns(dst)) && (msgs[src].Long? ==> Owns(src))
      modifies `msgs, `stake, `contents, `buffers, `shared
      ensures Valid() && ok == !(old(msgs)[dst].Closed? || old(msgs)[src].Closed?)
      ensures !ok ==> msgs == old(msgs) && contents == old(contents)
      ensures |msgs| == |old(msgs)|
      ensures ok && dst != src ==> msgs[dst] == msgs[src] && (msgs[src].Long? ==> Owns(dst) && Owns(src))
      ensures ok && dst != src && old(msgs)[src].Long? ==> msgs[src] == Long(old(msgs)[src].content, true)
      ensures ok && dst == src ==> msgs == old(msgs)[dst := Closed]
      ensures forall i: nat :: i < |msgs| && i != dst && i != src ==> msgs[i] == old(msgs)[i]
      ensures ok ==> forall d: nat :: RefsTo(d) == old(RefsTo(d)) - (if Points(old(msgs)[dst], d) then 1 else 0)
                                      + if dst != src && Points(old(msgs)[src], d) then 1 else 0
    {
      if msgs[src].Closed? {
        return false;
      }
      if msgs[dst].Closed? {
        return false;
      }
      ok := Close(dst);
      AddRefs(src, 1);
      if dst != src {
        CopyBits(src, dst);
      }
    }

    /** The content moves from `src` to `dst`; false iff one of the messages was not valid.
        A message that is moved to itself loses its content. */
    method Move(dst: nat, src: nat) returns (ok: bool)
      requires Valid() && dst < |msgs| && src < |msgs|
      requires (msgs[dst].Long? ==> Owns(dst)) && (msgs[src].Long? ==> Owns(src))
      modifies `msgs, `stake, `contents, `buffers
      ensures Valid() && ok == !(old(msgs)[dst].Closed? || old(msgs)[src].Closed?)
      ensures msgs == if ok then old(msgs)[dst := old(msgs)[src]][src := Plain] else old(msgs)
      ensures !ok ==> contents == old(contents)
      ensures ok ==> forall d: nat :: RefsTo(d) == old(RefsTo(d)) - if Points(old(msgs)[dst], d) then 1 else 0
    {
      if msgs[src].Closed? {
        return false;
      }
      if msgs[dst].Closed? {
        return false;
      }
      ok := Close(dst);
      if dst != src {
        CopyBits(src, dst);
      }
      Init(src);
    }

    // ---- the decoder's buffer ----

    /** A buffer no message uses any more is reused; one in use is left to its messages. */
    method Allocate()
      requires Valid()
      modifies `buffers, `held, `nextContent, `used
      ensures Valid() && held.Some? && !buffers[held.value].freed && Alive(contents, held.value) == 0
      ensures nextContent == used == 0
      ensures held == old(held) || held == Some(|old(buffers)|)
      ensures held == old(held) <==> old(held).Some? && Alive(contents, old(held).value) == 0
    {
      if held.Some? {
        var b := held.value;
        assert BufferOk(contents, held, buffers[b], b);
        LetGo(contents, buffers, held);
        buffers := buffers[b := buffers[b].(count := buffers[b].count - 1)];
        if buffers[b].count != 0 {
          held := None;
        }
      }
      if held.None? {
        NoneAlive(contents, buffers, held);
        forall k: nat | k < |buffers| ensures BufferOk(contents, Some(|buffers|), buffers[k], k) {
          assert BufferOk(contents, held, buffers[k], k);
        }
        held := Some(|buffers|);
        buffers := buffers + [Buffer(1, false)];
      } else {
        buffers := buffers[held.value := buffers[held.value].(count := 1)];
      }
      used := 0;
      nextContent := 0;
    }

    /** The allocator gives its buffer up for good. */
    method Deallocate()
      requires Valid()
      modifies `buffers, `held, `nextContent, `used
      ensures Valid() && held.None?
      ensures old(held).Some? ==>
          old(held).value < |buffers| && (buffers[old(held).value].freed <==> Alive(contents, old(held).value) == 0)
    {
      if held.Some? {
        var b := held.value;
        assert BufferOk(contents, held, buffers[b], b);
        LetGo(contents, buffers, held);
        buffers := buffers[b := buffers[b].(count := buffers[b].count - 1)];
        if buffers[b].count == 0 {
          buffers := buffers[b := buffers[b].(freed := true)];
        }
      }
      held := None;
      used := 0;
      nextContent := 0;
    }

    /** A message over the next `size` bytes of the buffer: small ones are copied, larger
        ones get the next content of the buffer, for which there is always room. */
    method InitInBuffer(i: nat, size: nat)
      requires Valid() && Empty(i) && held.Some? && used + size <= maxSize
      modifies `msgs, `contents, `buffers, `stake, `nextContent, `used
      ensures Valid() && used == old(used) + size && held == old(held)
      ensures size < MAX_VSM_SIZE ==>
          msgs == old(msgs)[i := Plain] && contents == old(contents) && nextContent == old(nextContent)
      ensures size >= MAX_VSM_SIZE ==>
          && old(nextContent) < maxCounters && nextContent == old(nextContent) + 1
          && msgs == old(msgs)[i := Long(|old(contents)|, false)]
          && contents == old(contents) + [Content(0, false, held)] && Owns(i)
    {
      Init(i);
      used := used + size;
      if size >= MAX_VSM_SIZE {
        var x, b := Content(0, false, held), held.value;
        AttachedOk(msgs, stake, contents, shared, i, x);
        UsedOk(contents, buffers, held, x);
        msgs := msgs[i := Long(|contents|, false)];
        stake := stake[i := 1];
        nextContent := nextContent + 1;
        buffers := buffers[b := buffers[b].(count := buffers[b].count + 1)];
        contents := contents + [x];
      }
    }
  }

  /** What `Valid` says of the contents: freed with the last reference, and only then;
      the counter of a shared one is exact, and an unshared one has a single owner. */
  lemma ContentLifetime(memory: Memory, c: nat)
    requires memory.Valid() && c < |memory.contents|
    ensures memory.contents[c].freed <==> memory.RefsTo(c) == 0
    ensures !memory.contents[c].freed && c in memory.shared ==> memory.contents[c].refcnt == memory.RefsTo(c)
    ensures !memory.contents[c].freed && c !in memory.shared ==> memory.RefsTo(c) == 1
    ensures forall i: nat :: i < |memory.msgs| && Points(memory.msgs[i], c) && memory.stake[i] > 0 ==>
        !memory.contents[c].freed
  {
    assert ContentOk(Refs(memory.msgs, memory.stake, c), memory.contents[c], c in memory.shared);
    forall i: nat | i < |memory.msgs| && Points(memory.msgs[i], c) && memory.stake[i] > 0
        ensures !memory.contents[c].freed
    {
      RefsSome(memory.msgs, memory.stake, i, c);
    }
  }

  /** What `Valid` says of a receive buffer: it outlives the contents in it, its counter
      is exact, and it is freed once neither they nor the allocator need it. */
  lemma BufferLifetime(memory: Memory, b: nat)
    requires memory.Valid() && b < |memory.buffers|
    ensures memory.buffers[b].freed <==> Alive(memory.contents, b) == 0 && memory.held != Some(b)
    ensures !memory.buffers[b].freed ==>
        memory.buffers[b].count == Alive(memory.contents, b) + if memory.held == Some(b) then 1 else 0
    ensures forall c: nat ::
        c < |memory.contents| && memory.contents[c].buffer == Some(b) && memory.buffers[b].freed ==>
          memory.contents[c].freed
  {
    assert BufferOk(memory.contents, memory.held, memory.buffers[b], b);
    forall c: nat | c < |memory.contents| && memory.contents[c].buffer == Some(b) && !memory.contents[c].freed
        ensures !memory.buffers[b].freed
    {
      AliveSome(memory.contents, c, b);
    }
  }

  /** Without the allocator's reference the buffer's counter is one too high. */
  lemma LetGo(contents: seq<Content>, buffers: seq<Buffer>, held: Option<nat>)
    requires BuffersOk(contents, buffers, held) && held.Some?
    ensures var b := held.value; var x := buffers[b].(count := buffers[b].count - 1);
            BuffersOk(contents, buffers[b := if x.count == 0 then x.(freed := true) else x], None)
  {
    var b := held.value;
    var x := buffers[b].(count := buffers[b].count - 1);
    var buffers' := buffers[b := if x.count == 0 then x.(freed := true) else x];
    forall k: nat | k < |buffers| ensures BufferOk(contents, None, buffers'[k], k) {
      assert BufferOk(contents, held, buffers[k], k);
    }
  }

  lemma NoneAlive(contents: seq<Content>, buffers: seq<Buffer>, held: Option<nat>)
    requires forall c :: 0 <= c < |contents| && contents[c].buffer.Some? ==> contents[c].buffer.value < |buffers|
    ensures Alive(contents, |buffers|) == 0
  {
    AliveNone(contents, |buffers|);
  }

  lemma GrownOk(msgs: seq<Msg>, stake: seq<nat>, contents: seq<Content>, shared: set<nat>, i: nat, n: nat)
    requires MsgsOk(msgs, stake, contents, shared) && i < |msgs| && msgs[i].Long? && stake[i] == 1 && n >= 1
    ensures var c := msgs[i].content;
            MsgsOk(msgs[i := Long(c, true)], stake[i := 1 + n], contents[c := Grown(contents[c], msgs[i].shared, n)],
                shared + {c})
  {
    var c := msgs[i].content;
    var msgs', stake', contents' := msgs[i := Long(c, true)], stake[i := 1 + n],
        contents[c := Grown(contents[c], msgs[i].shared, n)];
    RefsSome(msgs, stake, i, c);
    assert ContentOk(Refs(msgs, stake, c), contents[c], c in shared);
    forall d: nat | d < |contents| ensures ContentOk(Refs(msgs', stake', d), contents'[d], d in shared + {c}) {
      RefsUpdate(msgs, stake, i, Long(c, true), 1 + n, d);
      assert ContentOk(Refs(msgs, stake, d), contents[d], d in shared);
    }
    forall j: nat | j < |msgs| && j != i && Points(msgs[j], c) && stake[j] > 0 ensures c in shared {
      RefsTwo(msgs, stake, i, j, c);
    }
  }
}
