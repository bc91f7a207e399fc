/**
 What the schedulers assume of an outbound pipe is what the end of a pipe pair does:
 its answers are those of `check_write`, and written, rolled back and flushed frames
 are the ones in its queue.
 */
module PipeRefines {
  import opened YPipe
  import E = PipeEnd
  import S = PipeArray

  function Seen(m: E.Frame): S.Frame
    requires m.body >= 0
  {
    S.Frame(m.more, m.body)
  }

  predicate Plain(frames: seq<E.Frame>) {
    forall k :: 0 <= k < |frames| ==> frames[k].body >= 0
  }

  function SeenAll(frames: seq<E.Frame>): (s: seq<S.Frame>)
    requires Plain(frames)
    ensures |s| == |frames| && forall k :: 0 <= k < |s| ==> s[k] == Seen(frames[k])
  {
    if frames == [] then [] else SeenAll(frames[..|frames| - 1]) + [Seen(frames[|frames| - 1])]
  }

  /** An outbound queue as a scheduler sees it, whose pipe will give the answers `room`. */
  function Abstract(q: E.FrameQueue, room: seq<bool>): S.Side
    requires Plain(q.frames)
  {
    S.Side(room, SeenAll(q.frames), q.fin, q.pub)
  }

  /** A write: the answer is the one given and the frame is where the scheduler expects it. */
  lemma WriteRefines(v: E.Env, m: E.Frame, rest: seq<bool>)
    requires v.Ok() && Plain(v.o.frames) && m.body >= 0
    ensures var (v', ok) := E.Write(v, m);
            && ok == E.CheckWrite(v).1 && Plain(v'.o.frames)
            && Abstract(v'.o, rest) == Abstract(v.o, [ok] + rest).Offered(Seen(m))
  {
    var (v', ok) := E.Write(v, m);
    assert ([ok] + rest)[1..] == rest;
    if ok { assert SeenAll(v'.o.frames) == SeenAll(v.o.frames) + [Seen(m)]; }
  }

  /** Asking whether a write would succeed changes no frame. */
  lemma CheckRefines(v: E.Env, rest: seq<bool>)
    requires v.Ok() && Plain(v.o.frames)
    ensures var (v', ok) := E.CheckWrite(v);
            v'.o == v.o && (!ok ==> Abstract(v'.o, rest) == Abstract(v.o, [ok] + rest).Asked())
  {
    assert forall ok :: ([ok] + rest)[1..] == rest;
  }

  /** An answer given is kept: a successful check is followed by a successful write. */
  lemma CheckThenWrite(v: E.Env, m: E.Frame)
    requires E.CheckWrite(v).1
    ensures E.CheckWrite(v).0 == v && E.Write(v, m).1
  {
  }

  /** An end that has given up its queue rolls nothing back. */
  lemma RollbackRefines(v: E.Env, room: seq<bool>)
    requires v.Ok() && Plain(v.o.frames)
    ensures var v' := E.Rollback(v);
            && Plain(v'.o.frames) && v' == v.(o := v'.o)
            && Abstract(v'.o, room) == if v.e.hasOut then Abstract(v.o, room).RolledBack() else Abstract(v.o, room)
  {
    var v' := E.Rollback(v);
    if v.e.hasOut { assert SeenAll(v'.o.frames) == SeenAll(v.o.frames)[..v.o.fin]; }
  }

  /** An end that has given up its queue or acknowledged does not flush. */
  lemma FlushRefines(v: E.Env, room: seq<bool>)
    requires v.Ok() && Plain(v.o.frames)
    ensures var v' := E.Flush(v);
            && v'.e == v.e && v'.i == v.i && v'.o.frames == v.o.frames
            && Abstract(v'.o, room) ==
               if v.e.hasOut && v.e.state != E.TermAckSent then Abstract(v.o, room).Flushed() else Abstract(v.o, room)
  {
  }
}
