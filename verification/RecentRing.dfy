// The recent-event ring: an in-memory suffix of a thread's durable log.

module RecentRing {
  import opened Results
  import opened Models
  import opened Collections
  import opened TextBudget
  import opened EventLog

  // An event too large for the whole ring is held as a marked, shortened view.
  function RingView(event: ContextEvent, maxTokens: int): ContextEvent {
    if event.tokenCount + 4 > maxTokens then
      var content := TruncateText(event.content, maxTokens - 4, EVENT_TRUNCATION_MARKER);
      event.(content := content, tokenCount := EstimateTokens(content))
    else event
  }

  function MapEvents(f: ContextEvent -> ContextEvent, events: seq<ContextEvent>): seq<ContextEvent> {
    seq(|events|, i requires 0 <= i < |events| => f(events[i]))
  }

  function RingViews(events: seq<ContextEvent>, maxTokens: int): seq<ContextEvent> {
    MapEvents((e: ContextEvent) => RingView(e, maxTokens), events)
  }

  function FlagSetter(eventId: string, flag: bool): ContextEvent -> ContextEvent {
    (e: ContextEvent) => if e.eventId == eventId then e.(isProtected := flag) else e
  }

  function RingTokens(events: seq<ContextEvent>): nat {
    if events == [] then 0 else events[0].tokenCount + 4 + RingTokens(events[1..])
  }

  predicate Fits(events: seq<ContextEvent>, maxEvents: nat, maxTokens: nat) {
    |events| <= maxEvents && RingTokens(events) <= maxTokens
  }

  // Drop from the front until both limits hold.
  function FittingSuffix(events: seq<ContextEvent>, maxEvents: nat, maxTokens: nat): seq<ContextEvent> {
    if Fits(events, maxEvents, maxTokens) then events else FittingSuffix(events[1..], maxEvents, maxTokens)
  }

  lemma {:induction false} RingTokensConcat(a: seq<ContextEvent>, b: seq<ContextEvent>)
    ensures RingTokens(a + b) == RingTokens(a) + RingTokens(b)
  {
    if a == [] {
      assert a + b == b;
    } else {
      RingTokensConcat(a[1..], b);
      assert (a + b)[1..] == a[1..] + b;
    }
  }

  // An event takes four tokens more than its text.
  lemma RingCost(events: seq<ContextEvent>, event: ContextEvent)
    ensures RingTokens([]) == 0 && RingTokens(events + [event]) == RingTokens(events) + event.tokenCount + 4
  {
    RingTokensConcat(events, [event]);
    assert [event][1..] == [];
    assert RingTokens([event]) == event.tokenCount + 4 + RingTokens([]);
  }

  // It is the longest suffix that fits: it fits, and no longer suffix does.
  lemma {:induction false} FittingSuffixIsLongest(events: seq<ContextEvent>, maxEvents: nat, maxTokens: nat)
    ensures var kept := FittingSuffix(events, maxEvents, maxTokens);
            && |kept| <= |events|
            && kept == events[|events| - |kept|..]
            && Fits(kept, maxEvents, maxTokens)
            && forall n :: 0 <= n < |events| - |kept| ==> !Fits(events[n..], maxEvents, maxTokens)
  {
    if !Fits(events, maxEvents, maxTokens) {
      FittingSuffixIsLongest(events[1..], maxEvents, maxTokens);
      var kept := FittingSuffix(events, maxEvents, maxTokens);
      forall n | 0 <= n < |events| - |kept|
        ensures !Fits(events[n..], maxEvents, maxTokens)
      {
        if n == 0 {
          assert events[0..] == events;
        } else {
          assert events[n..] == events[1..][n - 1..];
        }
      }
    }
  }

  // Keeping only the fitting suffix loses nothing that a later append would still keep.
  lemma {:induction false} SuffixThenAppend(a: seq<ContextEvent>, b: seq<ContextEvent>, maxEvents: nat, maxTokens: nat)
    ensures FittingSuffix(FittingSuffix(a, maxEvents, maxTokens) + b, maxEvents, maxTokens)
         == FittingSuffix(a + b, maxEvents, maxTokens)
  {
    if !Fits(a, maxEvents, maxTokens) {
      RingTokensConcat(a, b);
      assert (a + b)[1..] == a[1..] + b;
      SuffixThenAppend(a[1..], b, maxEvents, maxTokens);
    }
  }

  // Reading only the last maxEvents rows of the log is enough.
  lemma {:induction false} LastRowsSuffice(log: seq<ContextEvent>, maxEvents: nat, maxTokens: nat)
    ensures FittingSuffix(LastRows(log, maxEvents), maxEvents, maxTokens) == FittingSuffix(log, maxEvents, maxTokens)
  {
    if |log| > maxEvents {
      LastRowsSuffice(log[1..], maxEvents, maxTokens);
      assert LastRows(log[1..], maxEvents) == LastRows(log, maxEvents);
    }
  }

  // list_thread_events with a limit
  function LastRows(log: seq<ContextEvent>, limit: nat): seq<ContextEvent> {
    if |log| <= limit then log else log[|log| - limit..]
  }

  // A change that leaves the token counts alone commutes with taking the suffix.
  lemma {:induction false} SuffixOfMapped(f: ContextEvent -> ContextEvent, events: seq<ContextEvent>, maxEvents: nat,
                                          maxTokens: nat)
    requires forall e :: f(e).tokenCount == e.tokenCount
    ensures RingTokens(MapEvents(f, events)) == RingTokens(events)
    ensures FittingSuffix(MapEvents(f, events), maxEvents, maxTokens)
         == MapEvents(f, FittingSuffix(events, maxEvents, maxTokens))
  {
    if events != [] {
      SuffixOfMapped(f, events[1..], maxEvents, maxTokens);
      assert MapEvents(f, events)[1..] == MapEvents(f, events[1..]);
    }
  }

  ghost predicate DistinctIds(events: seq<ContextEvent>) {
    forall i, j :: 0 <= i < j < |events| ==> events[i].eventId != events[j].eventId
  }

  ghost function Ids(events: seq<ContextEvent>): set<string> {
    set e | e in events :: e.eventId
  }

  lemma DropFirstId(events: seq<ContextEvent>)
    requires events != [] && DistinctIds(events)
    ensures Ids(events[1..]) == Ids(events) - {events[0].eventId} && DistinctIds(events[1..])
    ensures forall e :: e in events[1..] ==> e in events
  {
    assert events == [events[0]] + events[1..];
  }

  lemma AddLastId(events: seq<ContextEvent>, event: ContextEvent)
    requires DistinctIds(events) && event.eventId !in Ids(events)
    ensures Ids(events + [event]) == Ids(events) + {event.eventId} && DistinctIds(events + [event])
    ensures forall e :: e in events + [event] ==> e in events || e == event
  {
    forall e | e in events
      ensures e.eventId in Ids(events)
    {
    }
  }

  lemma FlagSetterKeepsIds(events: seq<ContextEvent>, eventId: string, flag: bool)
    requires DistinctIds(events)
    ensures var changed := MapEvents(FlagSetter(eventId, flag), events);
            && Ids(changed) == Ids(events) && DistinctIds(changed)
            && forall e :: e in changed ==> exists before :: before in events && before.sequence == e.sequence
  {
    var changed := MapEvents(FlagSetter(eventId, flag), events);
    forall e | e in events
      ensures e.eventId in Ids(changed)
    {
      var i :| 0 <= i < |events| && events[i] == e;
      assert changed[i] in changed;
    }
  }

  // Ordered recent events bounded by count and estimated tokens.
  class RecentEventRing {
    const maxEvents: nat
    const maxTokens: nat
    var events: seq<ContextEvent>
    var ids: set<string>
    var tokens: nat
    var highestSequence: nat

    ghost predicate Valid()
      reads this
    {
      && 1 <= maxEvents && 64 <= maxTokens
      && Fits(events, maxEvents, maxTokens)
      && tokens == RingTokens(events)
      && ids == Ids(events)
      && DistinctIds(events)
      && forall e :: e in events ==> e.sequence <= highestSequence
    }

    constructor (maxEvents: int, maxTokens: int)
      ensures Valid() && events == [] && ids == {} && highestSequence == 0
      ensures this.maxEvents == Max(1, maxEvents) && this.maxTokens == Max(64, maxTokens)
    {
      this.maxEvents := Max(1, maxEvents);
      this.maxTokens := Max(64, maxTokens);
      events, ids, tokens, highestSequence := [], {}, 0, 0;
    }

    method Append(event: ContextEvent)
      requires Valid()
      modifies this
      ensures Valid()
      ensures event.eventId in old(ids) || event.sequence <= old(highestSequence) ==>
                events == old(events) && highestSequence == old(highestSequence)
      ensures event.eventId !in old(ids) && event.sequence > old(highestSequence) ==>
                && events == FittingSuffix(old(events) + [RingView(event, maxTokens)], maxEvents, maxTokens)
                && highestSequence == event.sequence
      ensures ids <= old(ids) + {event.eventId}
    {
      if event.eventId in ids || event.sequence <= highestSequence {
        return;
      }
      var projected := RingView(event, maxTokens);
      ghost var all := events + [projected];
      RingTokensConcat(events, [projected]);
      AddLastId(events, projected);
      events := events + [projected];
      ids := ids + {projected.eventId};
      highestSequence := event.sequence;
      tokens := tokens + projected.tokenCount + 4;
      while |events| > maxEvents || tokens > maxTokens
        invariant tokens == RingTokens(events) && ids == Ids(events) && DistinctIds(events)
        invariant highestSequence == event.sequence && ids <= old(ids) + {event.eventId}
        invariant forall e :: e in events ==> e.sequence <= highestSequence
        invariant FittingSuffix(events, maxEvents, maxTokens) == FittingSuffix(all, maxEvents, maxTokens)
        decreases |events|
      {
        var removed := events[0];
        DropFirstId(events);
        ids := ids - {removed.eventId};
        events := events[1..];
        tokens := tokens - (removed.tokenCount + 4);
      }
    }

    method SetProtected(eventId: string, flag: bool) returns (found: bool)
      requires Valid()
      modifies this`events
      ensures Valid()
      ensures events == MapEvents(FlagSetter(eventId, flag), old(events))
      ensures |events| == |old(events)|
      ensures forall i :: 0 <= i < |events| ==>
                var before := old(events)[i];
                events[i] == if before.eventId == eventId then before.(isProtected := flag) else before
      ensures found <==> eventId in ids
    {
      for i := 0 to |events|
        invariant events == old(events)
        invariant forall j :: 0 <= j < i ==> events[j].eventId != eventId
      {
        if events[i].eventId == eventId {
          FlagSetterKeepsIds(events, eventId, flag);
          SuffixOfMapped(FlagSetter(eventId, flag), events, maxEvents, maxTokens);
          events := events[i := events[i].(isProtected := flag)];
          assert events == MapEvents(FlagSetter(eventId, flag), old(events));
          return true;
        }
      }
      return false;
    }
  }
}
