// A thread's process-local ring may be evicted at any moment and rebuilt from the log.

module ThreadState {
  import opened Results
  import opened Models
  import opened TextBudget
  import opened EventLog
  import opened RecentRing

  // The ring that the registry creates for a thread: the last rows of the log, appended in order.
  method CreateRing(log: seq<ContextEvent>, recentEvents: int, recentTokens: int) returns (ring: RecentEventRing)
    requires Ordered(log) && DistinctIds(log) && forall e :: e in log ==> 1 <= e.sequence
    ensures fresh(ring) && ring.Valid()
    ensures ring.maxEvents == Max(1, recentEvents) && ring.maxTokens == Max(64, recentTokens)
    ensures ring.events == FittingSuffix(RingViews(log, ring.maxTokens), ring.maxEvents, ring.maxTokens)
    ensures ring.highestSequence == SequenceBefore(log, |log|)
  {
    hide FittingSuffix, RingViews, RingView, Ids, FreshRows, RingTokens, RecentRing.Fits;
    ring := new RecentEventRing(recentEvents, recentTokens);
    var rows := LastRows(log, ring.maxEvents);
    RowsAreFresh(log, |log| - |rows|);
    AppendRows(ring, rows);
    RebuiltIsSuffix(log, ring.maxEvents, ring.maxTokens);
  }

  function SequenceBefore(rows: seq<ContextEvent>, i: nat): nat
    requires i <= |rows|
  {
    if i == 0 then 0 else rows[i - 1].sequence
  }

  // Every row is new to a ring that has seen only the rows before it.
  ghost predicate FreshRows(rows: seq<ContextEvent>) {
    forall i :: 0 <= i < |rows| ==>
      && rows[i].eventId !in Ids(rows[..i])
      && SequenceBefore(rows, i) < rows[i].sequence
  }

  method AppendRows(ring: RecentEventRing, rows: seq<ContextEvent>)
    requires ring.Valid() && ring.events == [] && ring.ids == {} && ring.highestSequence == 0 && FreshRows(rows)
    modifies ring
    ensures ring.Valid()
    ensures ring.events == FittingSuffix(RingViews(rows, ring.maxTokens), ring.maxEvents, ring.maxTokens)
    ensures ring.highestSequence == SequenceBefore(rows, |rows|)
  {
    assert FittingSuffix(RingViews(rows[..0], ring.maxTokens), ring.maxEvents, ring.maxTokens) == [];
    hide FittingSuffix, RingViews, RingView, Ids;
    for i := 0 to |rows|
      invariant ring.Valid()
      invariant ring.events == FittingSuffix(RingViews(rows[..i], ring.maxTokens), ring.maxEvents, ring.maxTokens)
      invariant ring.highestSequence == SequenceBefore(rows, i)
      invariant ring.ids <= Ids(rows[..i])
    {
      ViewStep(rows, i, ring.maxEvents, ring.maxTokens);
      assert rows[i].eventId !in ring.ids && ring.highestSequence < rows[i].sequence;
      ring.Append(rows[i]);
    }
    assert rows[..|rows|] == rows;
  }

  lemma ViewStep(rows: seq<ContextEvent>, i: nat, maxEvents: nat, maxTokens: nat)
    requires i < |rows|
    ensures var kept := FittingSuffix(RingViews(rows[..i], maxTokens), maxEvents, maxTokens);
            FittingSuffix(kept + [RingView(rows[i], maxTokens)], maxEvents, maxTokens)
            == FittingSuffix(RingViews(rows[..i + 1], maxTokens), maxEvents, maxTokens)
    ensures Ids(rows[..i + 1]) == Ids(rows[..i]) + {rows[i].eventId}
  {
    var before, view := RingViews(rows[..i], maxTokens), [RingView(rows[i], maxTokens)];
    SuffixThenAppend(before, view, maxEvents, maxTokens);
    assert rows[..i + 1] == rows[..i] + [rows[i]];
    assert Ids(rows[..i] + [rows[i]]) == Ids(rows[..i]) + {rows[i].eventId} by {
      assert forall e :: e in rows[..i] + [rows[i]] <==> e in rows[..i] || e == rows[i];
    }
    assert RingViews(rows[..i + 1], maxTokens) == before + view;
  }

  lemma RowsAreFresh(log: seq<ContextEvent>, skipped: nat)
    requires Ordered(log) && DistinctIds(log) && skipped <= |log|
    requires forall e :: e in log ==> 1 <= e.sequence
    ensures FreshRows(log[skipped..])
  {
    var rows := log[skipped..];
    forall i | 0 <= i < |rows|
      ensures rows[i].eventId !in Ids(rows[..i])
      ensures SequenceBefore(rows, i) < rows[i].sequence
    {
      assert rows[i] in log && rows[i] == log[skipped + i];
      forall j | 0 <= j < i
        ensures rows[j].eventId != rows[i].eventId && rows[j].sequence < rows[i].sequence
      {
        assert rows[j] == log[skipped + j];
      }
    }
  }

  // ---- Histories ----

  // `stored` is the metadata as the log holds it after the round through JSON text; the ring
  // holds it as it was given. A flag set outside the governor reaches only the log.
  datatype ThreadOp =
    | Recorded(event: ContextEvent, stored: Metadata)
    | Flagged(eventId: string, flag: bool)
    | FlaggedOutside(eventId: string, flag: bool)
    | Indexed(eventId: string, at: Time)
    | Evicted

  // The durable log, and the ring while the thread's state is in memory.
  datatype ThreadView = ThreadView(log: seq<ContextEvent>, ring: Option<seq<ContextEvent>>)

  function Rebuilt(log: seq<ContextEvent>, maxEvents: nat, maxTokens: nat): seq<ContextEvent> {
    FittingSuffix(RingViews(LastRows(log, maxEvents), maxTokens), maxEvents, maxTokens)
  }

  // What a lease of the thread's state finds.
  function Leased(v: ThreadView, maxEvents: nat, maxTokens: nat): seq<ContextEvent> {
    if v.ring.Some? then v.ring.value else Rebuilt(v.log, maxEvents, maxTokens)
  }

  function IndexSetter(eventId: string, at: Time): ContextEvent -> ContextEvent {
    (e: ContextEvent) => if e.eventId == eventId && e.indexedAt.None? then e.(indexedAt := Some(at)) else e
  }

  function Apply(v: ThreadView, op: ThreadOp, maxEvents: nat, maxTokens: nat): ThreadView {
    var ring := Leased(v, maxEvents, maxTokens);
    match op
    case Recorded(event, stored) =>
      ThreadView(v.log + [event.(metadata := stored)],
                 Some(FittingSuffix(ring + [RingView(event, maxTokens)], maxEvents, maxTokens)))
    case Flagged(eventId, flag) =>
      ThreadView(MapEvents(FlagSetter(eventId, flag), v.log), Some(MapEvents(FlagSetter(eventId, flag), ring)))
    case FlaggedOutside(eventId, flag) => v.(log := MapEvents(FlagSetter(eventId, flag), v.log))
    case Indexed(eventId, at) => v.(log := MapEvents(IndexSetter(eventId, at), v.log))
    case Evicted => v.(ring := None)
  }

  function Replay(v: ThreadView, ops: seq<ThreadOp>, maxEvents: nat, maxTokens: nat): ThreadView
    decreases |ops|
  {
    if ops == [] then v else Replay(Apply(v, ops[0], maxEvents, maxTokens), ops[1..], maxEvents, maxTokens)
  }

  // The indexing time is never kept current in the ring; metadata is compared if `whole`.
  function Eraser(whole: bool): ContextEvent -> ContextEvent {
    (e: ContextEvent) => e.(indexedAt := None, metadata := if whole then e.metadata else map[])
  }

  function Erased(whole: bool, events: seq<ContextEvent>): seq<ContextEvent> {
    MapEvents(Eraser(whole), events)
  }

  ghost predicate RingAgrees(whole: bool, v: ThreadView, maxEvents: nat, maxTokens: nat) {
    Erased(whole, Leased(v, maxEvents, maxTokens))
    == Erased(whole, FittingSuffix(RingViews(v.log, maxTokens), maxEvents, maxTokens))
  }

  // What keeps ring and log together: metadata that survives JSON, where it is compared, and
  // no flag changed behind the back of a ring that holds the event with the other flag.
  ghost predicate Harmless(whole: bool, v: ThreadView, op: ThreadOp) {
    match op
    case Recorded(event, stored) => whole ==> stored == event.metadata
    case FlaggedOutside(eventId, flag) =>
      v.ring.Some? ==> forall e :: e in v.ring.value && e.eventId == eventId ==> e.isProtected == flag
    case _ => true
  }

  ghost predicate AllHarmless(whole: bool, v: ThreadView, ops: seq<ThreadOp>, maxEvents: nat, maxTokens: nat)
    decreases |ops|
  {
    ops == [] || (&& Harmless(whole, v, ops[0])
                  && AllHarmless(whole, Apply(v, ops[0], maxEvents, maxTokens), ops[1..], maxEvents, maxTokens))
  }

  lemma RebuiltIsSuffix(log: seq<ContextEvent>, maxEvents: nat, maxTokens: nat)
    ensures Rebuilt(log, maxEvents, maxTokens) == FittingSuffix(RingViews(log, maxTokens), maxEvents, maxTokens)
  {
    assert RingViews(LastRows(log, maxEvents), maxTokens) == LastRows(RingViews(log, maxTokens), maxEvents);
    LastRowsSuffice(RingViews(log, maxTokens), maxEvents, maxTokens);
  }

  // A change of flag or indexing time, seen through the ring's view of the log.
  lemma ChangeThroughView(f: ContextEvent -> ContextEvent, log: seq<ContextEvent>, maxEvents: nat, maxTokens: nat)
    requires forall e :: f(e).tokenCount == e.tokenCount
    requires forall e :: RingView(f(e), maxTokens) == f(RingView(e, maxTokens))
    ensures FittingSuffix(RingViews(MapEvents(f, log), maxTokens), maxEvents, maxTokens)
         == MapEvents(f, FittingSuffix(RingViews(log, maxTokens), maxEvents, maxTokens))
  {
    assert RingViews(MapEvents(f, log), maxTokens) == MapEvents(f, RingViews(log, maxTokens));
    SuffixOfMapped(f, RingViews(log, maxTokens), maxEvents, maxTokens);
  }

  lemma MapConcat(f: ContextEvent -> ContextEvent, a: seq<ContextEvent>, b: seq<ContextEvent>)
    ensures MapEvents(f, a + b) == MapEvents(f, a) + MapEvents(f, b)
  {
  }

  lemma ViewOfStored(whole: bool, event: ContextEvent, stored: Metadata, maxTokens: nat)
    requires whole ==> stored == event.metadata
    ensures Erased(whole, [RingView(event.(metadata := stored), maxTokens)])
         == Erased(whole, [RingView(event, maxTokens)])
  {
    hide TruncateText;
  }

  lemma RecordedAgrees(whole: bool, v: ThreadView, event: ContextEvent, stored: Metadata, maxEvents: nat,
                       maxTokens: nat)
    requires RingAgrees(whole, v, maxEvents, maxTokens) && Harmless(whole, v, Recorded(event, stored))
    ensures RingAgrees(whole, Apply(v, Recorded(event, stored), maxEvents, maxTokens), maxEvents, maxTokens)
  {
    hide FittingSuffix, RingView;
    var erase := Eraser(whole);
    var ring, given := Leased(v, maxEvents, maxTokens), [RingView(event, maxTokens)];
    var kept := [RingView(event.(metadata := stored), maxTokens)];
    var views := RingViews(v.log, maxTokens);
    var suffix := FittingSuffix(views, maxEvents, maxTokens);
    assert RingViews(v.log + [event.(metadata := stored)], maxTokens) == views + kept;
    SuffixThenAppend(views, kept, maxEvents, maxTokens);
    ViewOfStored(whole, event, stored, maxTokens);
    SuffixOfMapped(erase, ring + given, maxEvents, maxTokens);
    SuffixOfMapped(erase, suffix + kept, maxEvents, maxTokens);
    MapConcat(erase, ring, given);
    MapConcat(erase, suffix, kept);
  }

  lemma FlagThroughView(eventId: string, flag: bool, maxTokens: nat)
    ensures var f := FlagSetter(eventId, flag);
            forall e: ContextEvent ::
              f(e).tokenCount == e.tokenCount && RingView(f(e), maxTokens) == f(RingView(e, maxTokens))
  {
    hide TruncateText;
  }

  lemma IndexThroughView(eventId: string, at: Time, maxTokens: nat)
    ensures var f := IndexSetter(eventId, at);
            forall e: ContextEvent ::
              f(e).tokenCount == e.tokenCount && RingView(f(e), maxTokens) == f(RingView(e, maxTokens))
  {
    hide TruncateText;
  }

  lemma FlaggedAgrees(whole: bool, v: ThreadView, eventId: string, flag: bool, maxEvents: nat, maxTokens: nat)
    requires RingAgrees(whole, v, maxEvents, maxTokens)
    ensures RingAgrees(whole, Apply(v, Flagged(eventId, flag), maxEvents, maxTokens), maxEvents, maxTokens)
  {
    var setFlag := FlagSetter(eventId, flag);
    var ring := Leased(v, maxEvents, maxTokens);
    var kept := FittingSuffix(RingViews(v.log, maxTokens), maxEvents, maxTokens);
    FlagThroughView(eventId, flag, maxTokens);
    hide FittingSuffix, RingViews, RingView;
    ChangeThroughView(setFlag, v.log, maxEvents, maxTokens);
    assert Erased(whole, MapEvents(setFlag, ring)) == MapEvents(setFlag, Erased(whole, ring));
    assert Erased(whole, MapEvents(setFlag, kept)) == MapEvents(setFlag, Erased(whole, kept));
  }

  // A flag set outside the governor is seen by the ring exactly if the thread's state is not in
  // memory, or the ring does not hold the event, or holds it with that flag already.
  lemma OutsideFlagAgrees(whole: bool, v: ThreadView, eventId: string, flag: bool, maxEvents: nat, maxTokens: nat)
    requires RingAgrees(whole, v, maxEvents, maxTokens)
    ensures RingAgrees(whole, Apply(v, FlaggedOutside(eventId, flag), maxEvents, maxTokens), maxEvents, maxTokens)
       <==> Harmless(whole, v, FlaggedOutside(eventId, flag))
  {
    var setFlag := FlagSetter(eventId, flag);
    var log := MapEvents(setFlag, v.log);
    var kept := FittingSuffix(RingViews(v.log, maxTokens), maxEvents, maxTokens);
    FlagThroughView(eventId, flag, maxTokens);
    hide FittingSuffix, RingViews, RingView, LastRows;
    ChangeThroughView(setFlag, v.log, maxEvents, maxTokens);
    assert Erased(whole, MapEvents(setFlag, kept)) == MapEvents(setFlag, Erased(whole, kept));
    if v.ring.None? {
      RebuiltIsSuffix(log, maxEvents, maxTokens);
    } else {
      UnchangedByFlag(whole, v.ring.value, eventId, flag);
    }
  }

  lemma UnchangedByFlag(whole: bool, ring: seq<ContextEvent>, eventId: string, flag: bool)
    ensures MapEvents(FlagSetter(eventId, flag), Erased(whole, ring)) == Erased(whole, ring)
       <==> forall e :: e in ring && e.eventId == eventId ==> e.isProtected == flag
  {
    var erased := Erased(whole, ring);
    var after := MapEvents(FlagSetter(eventId, flag), erased);
    if after == erased {
      forall e | e in ring && e.eventId == eventId
        ensures e.isProtected == flag
      {
        var i :| 0 <= i < |ring| && ring[i] == e;
        assert after[i] == erased[i];
      }
    }
  }

  lemma IndexedAgrees(whole: bool, v: ThreadView, eventId: string, at: Time, maxEvents: nat, maxTokens: nat)
    requires RingAgrees(whole, v, maxEvents, maxTokens)
    ensures RingAgrees(whole, Apply(v, Indexed(eventId, at), maxEvents, maxTokens), maxEvents, maxTokens)
  {
    var index := IndexSetter(eventId, at);
    var kept := FittingSuffix(RingViews(v.log, maxTokens), maxEvents, maxTokens);
    IndexThroughView(eventId, at, maxTokens);
    hide FittingSuffix, RingViews, RingView;
    ChangeThroughView(index, v.log, maxEvents, maxTokens);
    assert Erased(whole, MapEvents(index, kept)) == Erased(whole, kept);
    RebuiltIsSuffix(v.log, maxEvents, maxTokens);
    RebuiltIsSuffix(MapEvents(index, v.log), maxEvents, maxTokens);
  }

  // It does show for an event just recorded: the log has the new flag and the ring the old one.
  lemma OutsideFlagShows(whole: bool, event: ContextEvent, maxEvents: nat, maxTokens: nat)
    requires 1 <= maxEvents && event.tokenCount + 4 <= maxTokens
    ensures var ops := [Recorded(event, event.metadata), FlaggedOutside(event.eventId, !event.isProtected)];
            !RingAgrees(whole, Replay(ThreadView([], None), ops, maxEvents, maxTokens), maxEvents, maxTokens)
  {
    var start, recorded := ThreadView([], None), Recorded(event, event.metadata);
    var outside := FlaggedOutside(event.eventId, !event.isProtected);
    RebuiltIsSuffix([], maxEvents, maxTokens);
    RecordedAgrees(whole, start, event, event.metadata, maxEvents, maxTokens);
    var v := Apply(start, recorded, maxEvents, maxTokens);
    OnlyEventKept(event, maxEvents, maxTokens);
    OutsideFlagAgrees(whole, v, event.eventId, !event.isProtected, maxEvents, maxTokens);
    assert !Harmless(whole, v, outside);
    hide Apply, RingAgrees, FittingSuffix, RingView;
    assert [recorded, outside][1..] == [outside] && [outside][1..] == [];
    assert Replay(start, [recorded, outside], maxEvents, maxTokens) == Replay(v, [outside], maxEvents, maxTokens);
    assert Replay(v, [outside], maxEvents, maxTokens) == Apply(v, outside, maxEvents, maxTokens);
  }

  lemma OnlyEventKept(event: ContextEvent, maxEvents: nat, maxTokens: nat)
    requires 1 <= maxEvents && event.tokenCount + 4 <= maxTokens
    ensures var v := Apply(ThreadView([], None), Recorded(event, event.metadata), maxEvents, maxTokens);
            v.ring.Some? && event in v.ring.value
  {
    assert RingView(event, maxTokens) == event;
    assert Rebuilt([], maxEvents, maxTokens) == [];
    assert [] + [event] == [event] && RingTokens([event]) == event.tokenCount + 4;
    assert FittingSuffix([event], maxEvents, maxTokens) == [event];
  }

  // However harmless recording, protection changes, indexing and evictions interleave, a lease
  // finds the longest fitting suffix of the log (up to indexing times); so evicting the
  // state and rebuilding it from the log goes unnoticed.
  lemma {:induction false} EvictionIsInvisible(whole: bool, v: ThreadView, ops: seq<ThreadOp>, maxEvents: nat,
                                               maxTokens: nat)
    requires RingAgrees(whole, v, maxEvents, maxTokens) && AllHarmless(whole, v, ops, maxEvents, maxTokens)
    ensures var after := Replay(v, ops, maxEvents, maxTokens);
            && RingAgrees(whole, after, maxEvents, maxTokens)
            && Erased(whole, Leased(after.(ring := None), maxEvents, maxTokens))
               == Erased(whole, Leased(after, maxEvents, maxTokens))
    decreases |ops|
  {
    hide Erased, FittingSuffix, RingViews, LastRows, RingView;
    if ops == [] {
      RebuiltIsSuffix(v.log, maxEvents, maxTokens);
    } else {
      match ops[0] {
        case Recorded(event, stored) => RecordedAgrees(whole, v, event, stored, maxEvents, maxTokens);
        case Flagged(eventId, flag) => FlaggedAgrees(whole, v, eventId, flag, maxEvents, maxTokens);
        case FlaggedOutside(eventId, flag) => OutsideFlagAgrees(whole, v, eventId, flag, maxEvents, maxTokens);
        case Indexed(eventId, at) => IndexedAgrees(whole, v, eventId, at, maxEvents, maxTokens);
        case Evicted => RebuiltIsSuffix(v.log, maxEvents, maxTokens);
      }
      EvictionIsInvisible(whole, Apply(v, ops[0], maxEvents, maxTokens), ops[1..], maxEvents, maxTokens);
    }
  }
}
