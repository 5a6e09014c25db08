// The gate around record operations: many readers, or one bulk mutation.

module Gates {
  import opened Results
  import opened Collections

  // Who is inside: how deeply each thread has entered for reading, and the writer if any.
  datatype Gate = Gate(depth: map<nat, nat>, writer: Option<nat>)
  {
    function Depth(thread: nat): nat {
      if thread in depth then depth[thread] else 0
    }

    ghost predicate Exclusive() {
      && (forall t :: t in depth ==> depth[t] > 0)
      && (writer.Some? ==> depth == map[])
    }

    function Entered(thread: nat): Gate {
      this.(depth := depth[thread := Depth(thread) + 1])
    }

    function Left(thread: nat): Gate {
      this.(depth := if Depth(thread) <= 1 then depth - {thread} else depth[thread := depth[thread] - 1])
    }

    predicate AdmitsReader(thread: nat) {
      Depth(thread) > 0 || writer.None?
    }

    predicate AdmitsWriter() {
      writer.None? && depth == map[]
    }
  }

  datatype Admission = Admitted | Blocked | Refused

  // Blocked calls are those still waiting on the condition; they change nothing.
  class ReadWriteGate {
    var readers: int
    var writer: bool
    var waitingWriters: nat
    var readDepth: map<nat, nat>     // thread-local
    ghost var view: Gate

    ghost predicate Valid()
      reads this
    {
      && view.Exclusive()
      && view.depth == readDepth
      && readers == Sum(readDepth)
      && writer == view.writer.Some?
    }

    constructor ()
      ensures Valid() && view == Gate(map[], None) && waitingWriters == 0
    {
      readers, writer, waitingWriters, readDepth := 0, false, 0, map[];
      view := Gate(map[], None);
      new;
      assert Sum(readDepth) == 0;
    }

    // A nested entry is always admitted, even past a waiting writer.
    method EnterRead(thread: nat) returns (admission: Admission)
      requires Valid()
      modifies this
      ensures Valid() && waitingWriters == old(waitingWriters)
      ensures admission.Admitted? <==> old(view.Depth(thread) > 0 || (view.writer.None? && waitingWriters == 0))
      ensures admission.Admitted? ==> old(view.AdmitsReader(thread)) && view == old(view).Entered(thread)
      ensures !admission.Admitted? ==> admission.Blocked? && view == old(view)
    {
      var depth := if thread in readDepth then readDepth[thread] else 0;
      if depth == 0 && !(!writer && waitingWriters == 0) {
        return Blocked;
      }
      SumUpdate(readDepth, thread, depth + 1);
      readers := readers + 1;
      readDepth := readDepth[thread := depth + 1];
      view := view.Entered(thread);
      return Admitted;
    }

    method LeaveRead(thread: nat)
      requires Valid() && view.Depth(thread) > 0
      modifies this
      ensures Valid() && waitingWriters == old(waitingWriters)
      ensures view == old(view).Left(thread)
    {
      SumUpdate(readDepth, thread, readDepth[thread] - 1);
      SumRemove(readDepth, thread);
      readers := readers - 1;
      readDepth := if readDepth[thread] == 1 then readDepth - {thread} else readDepth[thread := readDepth[thread] - 1];
      view := view.Left(thread);
    }

    // A reader may not upgrade.
    method AnnounceWrite(thread: nat) returns (admission: Admission)
      requires Valid()
      modifies this
      ensures Valid() && view == old(view)
      ensures admission.Refused? <==> view.Depth(thread) > 0
      ensures waitingWriters == old(waitingWriters) + if admission.Refused? then 0 else 1
    {
      if thread in readDepth {
        return Refused;
      }
      waitingWriters := waitingWriters + 1;
      return Blocked;
    }

    // One wake-up of a waiting writer.
    method EnterWrite(thread: nat) returns (admission: Admission)
      requires Valid() && waitingWriters > 0
      modifies this
      ensures Valid()
      ensures admission.Admitted? <==> old(view.AdmitsWriter())
      ensures admission.Admitted? ==>
                view == old(view).(writer := Some(thread)) && waitingWriters == old(waitingWriters) - 1
      ensures !admission.Admitted? ==> admission.Blocked? && view == old(view) && waitingWriters == old(waitingWriters)
    {
      NoReadersMeansEmpty(readDepth);
      if !(!writer && readers == 0) {
        return Blocked;
      }
      writer := true;
      waitingWriters := waitingWriters - 1;
      view := view.(writer := Some(thread));
      return Admitted;
    }

    method LeaveWrite(thread: nat)
      requires Valid() && view.writer == Some(thread)
      modifies this
      ensures Valid() && view == old(view).(writer := None) && waitingWriters == old(waitingWriters)
    {
      writer := false;
      view := view.(writer := None);
    }
  }

  // The reader count is zero exactly when no thread is inside.
  lemma NoReadersMeansEmpty(depth: map<nat, nat>)
    requires forall t :: t in depth ==> depth[t] > 0
    ensures Sum(depth) == 0 <==> depth == map[]
  {
    if depth != map[] {
      var t :| t in depth;
      SumRemove(depth, t);
    }
  }

  // ---- Every sequence of entries and exits ----

  datatype Move = EnterRead(reader: nat) | LeaveRead(reader: nat) | EnterWrite(writerThread: nat) | LeaveWrite

  ghost predicate Permitted(g: Gate, move: Move) {
    match move
    case EnterRead(t) => g.AdmitsReader(t)
    case LeaveRead(t) => g.Depth(t) > 0
    case EnterWrite(t) => g.AdmitsWriter()
    case LeaveWrite => g.writer.Some?
  }

  function Moved(g: Gate, move: Move): Gate {
    match move
    case EnterRead(t) => g.Entered(t)
    case LeaveRead(t) => g.Left(t)
    case EnterWrite(t) => g.(writer := Some(t))
    case LeaveWrite => g.(writer := None)
  }

  // A writer is never inside together with a reader or a second writer.
  lemma MoveKeepsExclusion(g: Gate, move: Move)
    requires g.Exclusive() && Permitted(g, move)
    ensures Moved(g, move).Exclusive()
    ensures move.EnterWrite? ==> g.writer.None? && g.depth == map[]
    ensures move.EnterRead? && g.Depth(move.reader) == 0 ==> g.writer.None?
  {
  }

  ghost predicate ValidMoves(g: Gate, moves: seq<Move>)
    decreases |moves|
  {
    moves == [] || (Permitted(g, moves[0]) && ValidMoves(Moved(g, moves[0]), moves[1..]))
  }

  ghost function AfterMoves(g: Gate, moves: seq<Move>): Gate
    requires ValidMoves(g, moves)
    decreases |moves|
  {
    if moves == [] then g else AfterMoves(Moved(g, moves[0]), moves[1..])
  }

  // However threads come and go, a writer inside is alone.
  lemma {:induction false} WriterIsAlone(g: Gate, moves: seq<Move>)
    requires g.Exclusive() && ValidMoves(g, moves)
    ensures AfterMoves(g, moves).Exclusive()
    ensures AfterMoves(g, moves).writer.Some? ==>
              AfterMoves(g, moves).depth == map[] && !AfterMoves(g, moves).AdmitsWriter()
    decreases |moves|
  {
    if moves != [] {
      MoveKeepsExclusion(g, moves[0]);
      WriterIsAlone(Moved(g, moves[0]), moves[1..]);
    }
  }
}
