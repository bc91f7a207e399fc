/**
 What the fair queue assumes of an inbound pipe against what the end of a pipe pair
 does: its reads are those of the unread frames, arrivals are whole messages, and in
 the middle of a message a read succeeds exactly as long as the end has not stopped.
 */
module PipeInbound {
  import opened Wrappers
  import opened YPipe
  import opened PipeEnd
  import opened PipePair
  import PipeArray
  import PipeClose
  import PipeFlow
  import PipeRefines
  import Fq

  function Item(f: Frame): seq<PipeArray.Frame>
    requires f.body >= 0
  {
    if f.kind == Credential then [] else [PipeRefines.Seen(f)]
  }

  /** The frames from `lo` to `hi` that a reader gets: credentials are passed over, and
      a delimiter is the end. */
  function Inbox(frames: seq<Frame>, lo: nat, hi: nat): seq<PipeArray.Frame>
    requires lo <= hi <= |frames| && PipeRefines.Plain(frames)
    decreases hi - lo
  {
    if lo == hi || frames[lo].kind == Delimiter then []
    else Item(frames[lo]) + Inbox(frames, lo + 1, hi)
  }

  /** What the next reads of an end will return, without anything more arriving. */
  function Readable(v: Env): seq<PipeArray.Frame>
    requires v.i.Ok() && PipeRefines.Plain(v.i.frames)
  {
    if v.e.inActive && v.e.Reading() then Inbox(v.i.frames, v.i.rd, v.i.pub) else []
  }

  lemma {:induction false} SkipInbox(q: FrameQueue)
    requires q.Ok() && PipeRefines.Plain(q.frames)
    ensures Inbox(q.frames, Skip(q).rd, q.pub) == Inbox(q.frames, q.rd, q.pub)
    decreases q.pub - q.rd
  {
    if q.rd < q.pub && q.frames[q.rd].kind == Credential { SkipInbox(q.Taken()); }
  }

  /** What a read from `v` with result `v'` and `m` does to what can be read. */
  predicate Refines(v: Env, v': Env, m: Option<Frame>)
    requires v.i.Ok() && v'.i.Ok() && PipeRefines.Plain(v.i.frames) && PipeRefines.Plain(v'.i.frames)
  {
    match m
    case None => Readable(v) == [] && Readable(v') == []
    case Some(f) => f.body >= 0 && Readable(v) == [PipeRefines.Seen(f)] + Readable(v')
  }

  lemma DeliverRefines(v: Env, q: FrameQueue)
    requires v.Ok() && PipeRefines.Plain(v.i.frames) && v.e.inActive && v.e.Reading()
    requires q.Ok() && q == v.i.(rd := q.rd) && q.rd < q.pub
        && Inbox(q.frames, q.rd, q.pub) == Inbox(q.frames, v.i.rd, q.pub)
    requires q.frames[q.rd].kind != Delimiter && q.frames[q.rd].kind != Credential
    ensures var v' := PipeEnd.Deliver(v.(i := q.Taken()), q.frames[q.rd]);
            v'.i == q.Taken() && Refines(v, v', Some(q.frames[q.rd]))
  {
  }

  lemma StopsReading(v: Env)
    requires v.Ok() && v.e.Reading()
    ensures var v' := PipeEnd.ProcessDelimiter(v); v'.i == v.i && !v'.e.Reading()
  {
  }

  /** A read returns the first unread frame and leaves the others; it fails exactly if
      there is none. */
  lemma ReadRefines(v: Env)
    requires v.Ok() && PipeRefines.Plain(v.i.frames)
    ensures var (v', m) := PipeEnd.Read(v);
            && v'.i.Ok() && v'.i.frames == v.i.frames && Refines(v, v', m) && (m.None? <==> Readable(v) == [])
  {
    if v.e.inActive && v.e.Reading() {
      SkipInbox(v.i);
      var q := Skip(v.i);
      if q.rd < q.pub {
        if q.frames[q.rd].kind == Delimiter { StopsReading(v.(i := q.Taken())); } else { DeliverRefines(v, q); }
      }
    }
  }

  /** A look finds something exactly if a read would, unless all there is are credentials. */
  lemma CheckReadRefines(v: Env)
    requires v.Ok() && PipeRefines.Plain(v.i.frames)
    requires v.i.rd < v.i.pub ==> v.i.frames[v.i.rd].kind != Credential
    ensures var (v', ready) := PipeEnd.CheckRead(v);
            && v'.i.Ok() && v'.i.frames == v.i.frames && Readable(v') == Readable(v) && (ready <==> Readable(v) != [])
  {
  }

  // ---- whole messages ----

  predicate NoCredential(frames: seq<Frame>) {
    forall k :: 0 <= k < |frames| ==> frames[k].kind != Credential
  }

  lemma {:induction false} InboxLast(frames: seq<Frame>, lo: nat, hi: nat) returns (k: nat)
    requires lo <= hi <= |frames| && PipeRefines.Plain(frames) && NoCredential(frames) && Inbox(frames, lo, hi) != []
    ensures lo <= k < hi && (k + 1 == hi || frames[k + 1].kind == Delimiter)
    ensures var inbox := Inbox(frames, lo, hi); inbox[|inbox| - 1] == PipeRefines.Seen(frames[k])
    decreases hi - lo
  {
    if lo + 1 == hi || frames[lo + 1].kind == Delimiter {
      k := lo;
    } else {
      k := InboxLast(frames, lo + 1, hi);
    }
  }

  lemma WholeInbox(state: State, frames: seq<Frame>, lo: nat, hi: nat)
    requires lo <= hi <= |frames| && PipeRefines.Plain(frames) && NoCredential(frames)
    requires PipeClose.Ending(state, frames) && (hi > 0 ==> !frames[hi - 1].more)
    ensures Fq.Whole(Inbox(frames, lo, hi))
  {
    if Inbox(frames, lo, hi) != [] {
      var k := InboxLast(frames, lo, hi);
      assert k + 1 < hi ==> PipeClose.IsDelimiter(frames, k + 1);
    }
  }

  predicate ArriveWhole(q: FrameQueue) {
    q.Ok() && PipeRefines.Plain(q.frames) && NoCredential(q.frames) ==>
      Fq.Whole(Inbox(q.frames, q.rd, q.pub)) && Fq.Whole(Inbox(q.frames, q.pub, q.fin))
  }

  lemma StreamWhole(state: State, q: FrameQueue)
    requires PipeClose.Ending(state, q.frames) && PipeClose.Closed(q)
    ensures ArriveWhole(q)
  {
    if PipeRefines.Plain(q.frames) && NoCredential(q.frames) {
      WholeInbox(state, q.frames, q.rd, q.pub);
      WholeInbox(state, q.frames, q.pub, q.fin);
    }
  }

  /** In every run what can be read, and what the next flush will add to that, ends with
      the end of a message. */
  lemma {:induction false} ArrivalsWhole(hwm0: int, hwm1: int, evs: seq<Event>, end: World, first: bool, w: World)
    requires Run(NewPair(hwm0, hwm1), evs, end) && w == PipeClose.Face(end, first)
    ensures Formed(w) && ArriveWhole(w.qs[w.b.inId])
  {
    PipeClose.InitStreams(hwm0, hwm1);
    PipeClose.RunStreams(NewPair(hwm0, hwm1), evs, end);
    StreamWhole(w.a.e.state, w.qs[w.b.inId]);
  }

  /** A flush adds what it publishes to what can be read. */
  lemma {:induction false} FlushArrives(frames: seq<Frame>, rd: nat, pub: nat, fin: nat)
    requires rd <= pub <= fin <= |frames| && PipeRefines.Plain(frames)
    requires forall k :: rd <= k < pub ==> frames[k].kind != Delimiter
    ensures Inbox(frames, rd, fin) == Inbox(frames, rd, pub) + Inbox(frames, pub, fin)
    decreases pub - rd
  {
    if rd < pub {
      FlushArrives(frames, rd + 1, pub, fin);
      Associative(Item(frames[rd]), Inbox(frames, rd + 1, pub), Inbox(frames, pub, fin));
    }
  }

  // ---- in the middle of a message ----

  lemma AmidReads(v: Env, writer: State)
    requires v.Ok() && PipeClose.Amid(v.i) && PipeClose.Closed(v.i) && PipeClose.Ending(writer, v.i.frames)
    requires v.e.Reading() ==> v.e.inActive
    requires v.i.rd < |v.i.frames| ==> v.i.frames[v.i.rd].kind != Credential
    ensures PipeEnd.Read(v).1.Some? <==> v.e.Reading()
  {
    assert Skip(v.i) == v.i;
    assert !PipeClose.IsDelimiter(v.i.frames, v.i.rd);
  }

  /** In every run: once the first part of a message was read, the next read returns the
      next part if and only if the end has not stopped reading. */
  lemma {:induction false} ReadOnExact(hwm0: int, hwm1: int, evs: seq<Event>, end: World, first: bool, w: World)
    requires Run(NewPair(hwm0, hwm1), evs, end) && w == PipeClose.Face(end, first)
    requires Formed(w) && w.b.e.alive && PipeClose.Amid(w.qs[w.b.inId])
    requires var q := w.qs[w.b.inId]; q.rd < |q.frames| ==> q.frames[q.rd].kind != Credential
    ensures Formed(Mirror(w)) && (PipeEnd.Read(Enter(Mirror(w))).1.Some? <==> w.b.e.Reading())
  {
    PipeClose.InitStreams(hwm0, hwm1);
    PipeClose.RunStreams(NewPair(hwm0, hwm1), evs, end);
    assert PipeClose.Stream(w.a, w.b, w.qs[w.b.inId]);
    AmidReads(Enter(Mirror(w)), w.a.e.state);
  }

  const PART := Frame(Data, true, 0)
  const LAST := Frame(Data, false, 1)

  /** A new pair whose first end has written `frames`, flushed or not. */
  function Loaded(hwm0: int, hwm1: int, frames: seq<Frame>, flushed: bool, written: int): World {
    var w := NewPair(hwm0, hwm1);
    var n := if |frames| < 2 then 0 else 2;
    w.(a := w.a.(e := w.a.e.(msgsWritten := written)),
        qs := [NewQueue(), Queue(frames, 0, if flushed then n else 0, n, false)])
  }

  lemma LoadPart(hwm0: int, hwm1: int)
    ensures StepA(NewPair(hwm0, hwm1), Act.Write(PART)) == Loaded(hwm0, hwm1, [PART], false, 0)
  {
    var v := Enter(NewPair(hwm0, hwm1));
    assert v.o.Put(PART, true) == Queue([PART], 0, 0, 0, false);
  }

  lemma LoadLast(hwm0: int, hwm1: int)
    ensures StepA(Loaded(hwm0, hwm1, [PART], false, 0), Act.Write(LAST)) == Loaded(hwm0, hwm1, [PART, LAST], false, 1)
  {
    var v := Enter(Loaded(hwm0, hwm1, [PART], false, 0));
    assert v.o.Put(LAST, false) == Queue([PART, LAST], 0, 0, 2, false);
  }

  lemma LoadFlush(hwm0: int, hwm1: int)
    ensures StepA(Loaded(hwm0, hwm1, [PART, LAST], false, 1), Act.Flush) == Loaded(hwm0, hwm1, [PART, LAST], true, 1)
  {
  }

  /** The reader takes the part and is terminated. */
  lemma ReadsPart(w: World)
    requires Formed(w) && w.b.inId != w.b.outId && w.b.e.state == Active && w.b.e.alive && w.b.e.inActive
    requires w.qs[w.b.inId] == Queue([PART, LAST], 0, 2, 2, false)
    ensures var w' := Mirror(StepA(Mirror(w), Act.Read));
            && Formed(w') && w'.b.inId == w.b.inId && w'.b.outId == w.b.outId && w'.b.e.state == Active && w'.b.e.alive
            && w'.qs[w.b.inId] == Queue([PART, LAST], 1, 2, 2, false)
  {
    var v := Enter(Mirror(w));
    assert Skip(v.i) == v.i;
    assert PipeEnd.Read(v).0.i == v.i.Taken() && PipeEnd.Read(v).0.o == v.o;
  }

  lemma TerminatesAmid(w: World, delay: bool)
    requires Formed(w) && w.b.inId != w.b.outId && w.b.e.state == Active && w.b.e.alive
    requires w.qs[w.b.inId] == Queue([PART, LAST], 1, 2, 2, false)
    ensures var w' := Mirror(StepA(Mirror(w), Act.Terminate(delay)));
            && w'.b.inId == w.b.inId && w'.b.e.state == TermReqSent1 && w'.b.e.alive && |w'.qs| == |w.qs|
            && w'.qs[w.b.inId] == w.qs[w.b.inId]
  {
    PipeFlow.TerminateQuiet(Enter(Mirror(w)), delay);
    ActiveAsks(Enter(Mirror(w)), delay);
  }

  lemma ActiveAsks(v: Env, delay: bool)
    requires v.Ok() && v.e.state == Active
    ensures PipeEnd.Terminate(v, delay).e.state == TermReqSent1
  {
  }

  lemma FillsPipe(hwm0: int, hwm1: int) returns (evs: seq<Event>, w: World)
    ensures w == Loaded(hwm0, hwm1, [PART, LAST], true, 1) && Run(NewPair(hwm0, hwm1), evs, w) && PipeFlow.AllPlain(evs)
  {
    var w0 := NewPair(hwm0, hwm1);
    LoadPart(hwm0, hwm1);
    evs, w := PipeFlow.RunOn(w0, [], w0, Event(true, Act.Write(PART)));
    LoadLast(hwm0, hwm1);
    evs, w := PipeFlow.RunOn(w0, evs, w, Event(true, Act.Write(LAST)));
    LoadFlush(hwm0, hwm1);
    evs, w := PipeFlow.RunOn(w0, evs, w, Event(true, Act.Flush));
  }

  /** Such an end exists: the second end reads the first part of a message and is then
      terminated by its socket, and the other part is there and cannot be read. */
  lemma StopsInside(hwm0: int, hwm1: int, delay: bool) returns (evs: seq<Event>, w: World)
    ensures Run(NewPair(hwm0, hwm1), evs, w) && Formed(w) && Formed(Mirror(w)) && w.b.e.alive
    ensures var q := w.qs[w.b.inId]; PipeClose.Amid(q) && q.rd < q.pub && q.frames[q.rd] == LAST
    ensures PipeEnd.Read(Enter(Mirror(w))).1.None?
  {
    var w0 := NewPair(hwm0, hwm1);
    evs, w := FillsPipe(hwm0, hwm1);
    ReadsPart(w);
    evs, w := PipeFlow.RunOn(w0, evs, w, Event(false, Act.Read));
    TerminatesAmid(w, delay);
    InitInv(hwm0, hwm1);
    evs, w := PipeFlow.RunOn(w0, evs, w, Event(false, Act.Terminate(delay)));
    RunKeeps(w0, evs, w);
  }
}
