// Reading a thread's durable log: keyset paging, newest first.

module EventLog {
  import opened Results
  import opened Models
  import opened Collections
  import opened TextBudget

  // A thread's log in sequence order.
  ghost predicate Ordered(log: seq<ContextEvent>) {
    forall i, j :: 0 <= i < j < |log| ==> log[i].sequence < log[j].sequence
  }

  ghost predicate Descending(events: seq<ContextEvent>) {
    forall i, j :: 0 <= i < j < |events| ==> events[i].sequence > events[j].sequence
  }

  // WHERE [protected = 1] [AND sequence < before], over events already newest first
  function Where(events: seq<ContextEvent>, protectedOnly: bool, before: Option<nat>): seq<ContextEvent> {
    if events == [] then []
    else
      var rest := Where(events[1..], protectedOnly, before);
      if (protectedOnly ==> events[0].isProtected) && (before.Some? ==> events[0].sequence < before.value)
      then [events[0]] + rest
      else rest
  }

  lemma {:induction false} WhereMembers(events: seq<ContextEvent>, protectedOnly: bool, before: Option<nat>)
    ensures forall e :: e in Where(events, protectedOnly, before) <==>
              e in events && (protectedOnly ==> e.isProtected) && (before.Some? ==> e.sequence < before.value)
  {
    if events != [] {
      WhereMembers(events[1..], protectedOnly, before);
      assert events == [events[0]] + events[1..];
    }
  }

  // ... ORDER BY sequence DESC LIMIT limit
  function SelectPage(log: seq<ContextEvent>, protectedOnly: bool, before: Option<nat>, limit: nat): seq<ContextEvent> {
    var rows := Where(Reverse(log), protectedOnly, before);
    if |rows| <= limit then rows else rows[..limit]
  }

  // Resuming below the last row of a page yields exactly the rows after that page.
  lemma {:induction false} ResumeBelow(events: seq<ContextEvent>, protectedOnly: bool, n: nat)
    requires Descending(events) && 0 < n <= |Where(events, protectedOnly, None)|
    ensures var all := Where(events, protectedOnly, None);
            Where(events, protectedOnly, Some(all[n - 1].sequence)) == all[n..]
  {
    hide Descending;
    var all := Where(events, protectedOnly, None);
    var bound := all[n - 1].sequence;
    var rest := Where(events[1..], protectedOnly, None);
    WhereMembers(events[1..], protectedOnly, None);
    LaterIsLower(events);
    if protectedOnly && !events[0].isProtected {
      ResumeBelow(events[1..], protectedOnly, n);
    } else if n == 1 {
      NothingAbove(events[1..], protectedOnly, bound);
      BehindFirst(events[0], rest, n);
    } else {
      BehindFirst(events[0], rest, n);
      assert rest[n - 2] in events[1..];
      ResumeBelow(events[1..], protectedOnly, n - 1);
    }
  }

  lemma BehindFirst<T>(x: T, rest: seq<T>, n: nat)
    requires 0 < n <= |rest| + 1
    ensures ([x] + rest)[n..] == rest[n - 1..]
    ensures n > 1 ==> ([x] + rest)[n - 1] == rest[n - 2]
  {
  }

  lemma LaterIsLower(events: seq<ContextEvent>)
    requires Descending(events) && events != []
    ensures Descending(events[1..]) && forall e :: e in events[1..] ==> e.sequence < events[0].sequence
  {
  }

  lemma {:induction false} NothingAbove(events: seq<ContextEvent>, protectedOnly: bool, bound: nat)
    requires forall e :: e in events ==> e.sequence < bound
    ensures Where(events, protectedOnly, Some(bound)) == Where(events, protectedOnly, None)
  {
    if events != [] {
      NothingAbove(events[1..], protectedOnly, bound);
    }
  }

  lemma {:induction false} WhereDescends(events: seq<ContextEvent>, protectedOnly: bool, before: Option<nat>)
    requires Descending(events)
    ensures Descending(Where(events, protectedOnly, before))
  {
    if events != [] {
      assert forall i :: 0 <= i < |events[1..]| ==> events[1..][i] == events[i + 1];
      WhereDescends(events[1..], protectedOnly, before);
      WhereMembers(events[1..], protectedOnly, before);
      assert forall e :: e in events[1..] ==> e.sequence < events[0].sequence;
    }
  }

  lemma ReverseDescends(log: seq<ContextEvent>)
    requires Ordered(log)
    ensures Descending(Reverse(log))
  {
  }

  // A page is newest first, and misses only what lies below its last row.
  lemma PageFacts(log: seq<ContextEvent>, protectedOnly: bool, before: Option<nat>, limit: nat)
    requires Ordered(log) && 0 < limit
    ensures var rows := SelectPage(log, protectedOnly, before, limit);
            && Descending(rows) && |rows| <= limit
            && (forall e :: e in rows ==>
                  e in log && (protectedOnly ==> e.isProtected) && (before.Some? ==> e.sequence < before.value))
            && (forall e :: && e in log && (protectedOnly ==> e.isProtected)
                            && (before.Some? ==> e.sequence < before.value) ==>
                  e in rows || (|rows| == limit && e.sequence < rows[limit - 1].sequence))
  {
    var all, rows := Where(Reverse(log), protectedOnly, before), SelectPage(log, protectedOnly, before, limit);
    hide Where, Reverse;
    WhereMembers(Reverse(log), protectedOnly, before);
    ReverseMembers(log);
    ReverseDescends(log);
    WhereDescends(Reverse(log), protectedOnly, before);
    hide Ordered;
    forall e | e in all
      ensures e in rows || (|rows| == limit && e.sequence < rows[limit - 1].sequence)
    {
      var i :| 0 <= i < |all| && all[i] == e;
      assert i < |rows| ==> rows[i] == e;
    }
  }

  // The log as a later page finds it: events may have been added, and flags or index times set.
  ghost predicate Continues(log: seq<ContextEvent>, later: seq<ContextEvent>) {
    && Ordered(later) && |log| <= |later|
    && forall i :: 0 <= i < |log| ==>
         later[i].(isProtected := log[i].isProtected, indexedAt := log[i].indexedAt) == log[i]
  }

  // Page p reads the log as `read(p)`.
  ghost predicate Growing(log: seq<ContextEvent>, read: nat -> seq<ContextEvent>) {
    forall p: nat :: |log| <= |read(p)| && Continues(log, read(p))
  }

  // No flag of the log changes.
  ghost predicate OnlyAppended(log: seq<ContextEvent>, read: nat -> seq<ContextEvent>) {
    forall p: nat :: log <= read(p)
  }

  ghost predicate FoundBy(read: nat -> seq<ContextEvent>, pages: nat, log: seq<ContextEvent>, protectedOnly: bool,
                          e: ContextEvent)
    requires Growing(log, read)
  {
    (protectedOnly ==> e.isProtected) && exists p: nat, i :: p < pages && 0 <= i < |log| && e == read(p)[i]
  }

  ghost predicate ProtectedThroughout(read: nat -> seq<ContextEvent>, pages: nat, log: seq<ContextEvent>, i: nat)
    requires i < |log| && Growing(log, read)
  {
    forall p: nat :: p < pages ==> read(p)[i].isProtected
  }

  // Only events of the log that one of the pages found with the flag.
  ghost predicate AllFound(read: nat -> seq<ContextEvent>, pages: nat, log: seq<ContextEvent>, protectedOnly: bool,
                           events: seq<ContextEvent>)
    requires Growing(log, read)
  {
    forall e :: e in events ==> FoundBy(read, pages, log, protectedOnly, e)
  }

  // All events of the log from `bound` up that every page found with the flag.
  ghost predicate Covers(read: nat -> seq<ContextEvent>, pages: nat, log: seq<ContextEvent>, protectedOnly: bool,
                         events: seq<ContextEvent>, bound: nat)
    requires Growing(log, read)
  {
    forall i :: 0 <= i < |log| && log[i].sequence >= bound
                && (protectedOnly ==> ProtectedThroughout(read, pages, log, i)) ==>
                  Holds(events, log[i].sequence)
  }

  ghost predicate Holds(events: seq<ContextEvent>, sequence: nat) {
    exists e :: e in events && e.sequence == sequence
  }

  // Newest first and none twice: only events of the log that some page found with the flag, and
  // all that every page found with it.
  ghost predicate Yielded(read: nat -> seq<ContextEvent>, pages: nat, log: seq<ContextEvent>, protectedOnly: bool,
                          events: seq<ContextEvent>)
    requires Growing(log, read)
  {
    && Descending(events) && AllFound(read, pages, log, protectedOnly, events)
    && Covers(read, pages, log, protectedOnly, events, 0)
  }

  // The same, down to where the pages have come.
  ghost predicate YieldedDownTo(read: nat -> seq<ContextEvent>, pages: nat, log: seq<ContextEvent>,
                                protectedOnly: bool, events: seq<ContextEvent>, before: Option<nat>)
    requires Growing(log, read)
  {
    && Descending(events) && AllFound(read, pages, log, protectedOnly, events)
    && match before
       case None => events == []
       case Some(bound) =>
         && Holds(log, bound) && (forall e :: e in events ==> e.sequence >= bound)
         && Covers(read, pages, log, protectedOnly, events, bound)
  }

  // A page of the log as it is by then holds only events of the log that the first page saw.
  lemma PageIsOfLog(log: seq<ContextEvent>, later: seq<ContextEvent>, before: Option<nat>, e: ContextEvent)
    returns (i: nat)
    requires Continues(log, later) && e in later && (before.None? ==> later == log)
    requires before.Some? ==> e.sequence < before.value && Holds(log, before.value)
    ensures i < |log| && later[i] == e && log[i].sequence == e.sequence
  {
    i :| 0 <= i < |later| && later[i] == e;
    if before.Some? {
      var bound :| bound in log && bound.sequence == before.value;
      var j :| 0 <= j < |log| && log[j] == bound;
      assert later[j].sequence == before.value;
    }
  }

  lemma FoundLater(read: nat -> seq<ContextEvent>, pages: nat, log: seq<ContextEvent>, protectedOnly: bool,
                   e: ContextEvent)
    requires Growing(log, read)
    requires FoundBy(read, pages, log, protectedOnly, e)
    ensures FoundBy(read, pages + 1, log, protectedOnly, e)
  {
    hide Continues;
    if exists p: nat, i :: p < pages && 0 <= i < |log| && e == read(p)[i] {
    }
  }

  lemma FoundNow(read: nat -> seq<ContextEvent>, page: nat, log: seq<ContextEvent>, protectedOnly: bool,
                 before: Option<nat>, e: ContextEvent)
    requires Growing(log, read) && (before.None? ==> read(page) == log)
    requires e in read(page) && (protectedOnly ==> e.isProtected)
    requires before.Some? ==> e.sequence < before.value && Holds(log, before.value)
    ensures FoundBy(read, page + 1, log, protectedOnly, e) && Holds(log, e.sequence)
  {
    var i := PageIsOfLog(log, read(page), before, e);
    assert read(page)[i] == e && log[i] in log;
  }

  lemma PageOf(log: seq<ContextEvent>, read: nat -> seq<ContextEvent>, page: nat, protectedOnly: bool,
               before: Option<nat>, limit: nat)
    requires Growing(log, read) && 0 < limit
    ensures var rows := SelectPage(read(page), protectedOnly, before, limit);
            && Descending(rows) && |rows| <= limit
            && forall e :: e in rows ==> e in read(page) && (before.Some? ==> e.sequence < before.value)
  {
    assert Continues(log, read(page));
    PageFacts(read(page), protectedOnly, before, limit);
  }

  // What a page adds was found by it.
  lemma PageIsFound(read: nat -> seq<ContextEvent>, page: nat, log: seq<ContextEvent>, protectedOnly: bool,
                    events: seq<ContextEvent>, before: Option<nat>, limit: nat)
    requires Growing(log, read) && 0 < limit && (before.None? ==> read(page) == log)
    requires AllFound(read, page, log, protectedOnly, events) && (before.Some? ==> Holds(log, before.value))
    ensures var rows := SelectPage(read(page), protectedOnly, before, limit);
            && AllFound(read, page + 1, log, protectedOnly, events + rows)
            && forall e :: e in rows ==> Holds(log, e.sequence)
  {
    var rows := SelectPage(read(page), protectedOnly, before, limit);
    assert Continues(log, read(page)) && |log| <= |read(page)|;
    PageFacts(read(page), protectedOnly, before, limit);
    hide SelectPage, Growing, Continues, FoundBy, Holds, Descending;
    forall e | e in rows
      ensures FoundBy(read, page + 1, log, protectedOnly, e) && Holds(log, e.sequence)
    {
      FoundNow(read, page, log, protectedOnly, before, e);
    }
    forall e | e in events
      ensures FoundBy(read, page + 1, log, protectedOnly, e)
    {
      FoundLater(read, page, log, protectedOnly, e);
    }
  }

  // One more page leaves nothing out above its last row.
  lemma PageCovers(read: nat -> seq<ContextEvent>, page: nat, log: seq<ContextEvent>, protectedOnly: bool,
                   events: seq<ContextEvent>, before: Option<nat>, limit: nat, bound: nat)
    requires Growing(log, read) && 0 < limit
    requires before.Some? ==> Covers(read, page, log, protectedOnly, events, before.value)
    requires var rows := SelectPage(read(page), protectedOnly, before, limit);
             |rows| == limit ==> bound >= rows[limit - 1].sequence
    ensures var rows := SelectPage(read(page), protectedOnly, before, limit);
            Covers(read, page + 1, log, protectedOnly, events + rows, bound)
  {
    var rows := SelectPage(read(page), protectedOnly, before, limit);
    assert Continues(log, read(page)) && |log| <= |read(page)|;
    PageFacts(read(page), protectedOnly, before, limit);
    hide SelectPage, Descending, Growing;
    forall i | && 0 <= i < |log| && log[i].sequence >= bound
               && (protectedOnly ==> ProtectedThroughout(read, page + 1, log, i))
      ensures Holds(events + rows, log[i].sequence)
    {
      assert protectedOnly ==> ProtectedThroughout(read, page, log, i);
      if before.Some? && log[i].sequence >= before.value {
        assert Holds(events, log[i].sequence);
        var e :| e in events && e.sequence == log[i].sequence;
        assert e in events + rows;
      } else {
        var e := read(page)[i];
        assert e in read(page) && e.sequence == log[i].sequence;
        assert e in rows && e in events + rows;
      }
    }
  }

  lemma PageDescends(events: seq<ContextEvent>, rows: seq<ContextEvent>, before: Option<nat>)
    requires Descending(events) && Descending(rows) && (before.None? ==> events == [])
    requires before.Some? ==> (forall e :: e in events ==> e.sequence >= before.value)
                              && (forall e :: e in rows ==> e.sequence < before.value)
    ensures Descending(events + rows)
    ensures rows != [] ==> forall e :: e in events + rows ==> e.sequence >= rows[|rows| - 1].sequence
  {
    if rows != [] {
      assert rows[|rows| - 1] in rows;
      forall e | e in events + rows
        ensures e.sequence >= rows[|rows| - 1].sequence
      {
        if e in rows {
          var i :| 0 <= i < |rows| && rows[i] == e;
        }
      }
    }
  }

  // One more page.
  lemma PageExtends(read: nat -> seq<ContextEvent>, page: nat, log: seq<ContextEvent>, protectedOnly: bool,
                    events: seq<ContextEvent>, before: Option<nat>, limit: nat)
    requires Growing(log, read) && 0 < limit && (before.None? ==> read(page) == log)
    requires YieldedDownTo(read, page, log, protectedOnly, events, before)
    ensures var rows := SelectPage(read(page), protectedOnly, before, limit);
            && (|rows| < limit ==> Yielded(read, page + 1, log, protectedOnly, events + rows))
            && (rows != [] ==>
                  YieldedDownTo(read, page + 1, log, protectedOnly, events + rows, Some(rows[|rows| - 1].sequence)))
  {
    hide SelectPage, Descending, AllFound, Covers, Holds, Growing, Continues, ProtectedThroughout;
    var rows := SelectPage(read(page), protectedOnly, before, limit);
    PageOf(log, read, page, protectedOnly, before, limit);
    PageDescends(events, rows, before);
    PageIsFound(read, page, log, protectedOnly, events, before, limit);
    if |rows| < limit {
      PageCovers(read, page, log, protectedOnly, events, before, limit, 0);
    }
    if rows != [] {
      assert rows[|rows| - 1] in rows;
      PageCovers(read, page, log, protectedOnly, events, before, limit, rows[|rows| - 1].sequence);
    }
  }

  lemma HasMember(events: seq<ContextEvent>)
    requires events != []
    ensures exists e :: e in events
  {
    assert events[0] in events;
  }

  lemma {:induction false} SameDescending(a: seq<ContextEvent>, b: seq<ContextEvent>)
    requires Descending(a) && Descending(b) && forall e :: e in a <==> e in b
    ensures a == b
  {
    if a != [] {
      HasMember(a);
    }
    if b != [] {
      HasMember(b);
    }
    if a != [] && b != [] {
      assert a[0] in b && b[0] in a;
      assert a[0] == b[0];
      assert a == [a[0]] + a[1..] && b == [b[0]] + b[1..];
      forall e
        ensures e in a[1..] <==> e in b[1..]
      {
        assert e in a[1..] ==> e in a && e.sequence < a[0].sequence;
        assert e in b[1..] ==> e in b && e.sequence < b[0].sequence;
      }
      SameDescending(a[1..], b[1..]);
    }
  }

  // Over a log that only grows, the pages join up to the listing the first of them began.
  lemma YieldedFromFixedLog(read: nat -> seq<ContextEvent>, pages: nat, log: seq<ContextEvent>, protectedOnly: bool,
                            events: seq<ContextEvent>)
    requires Growing(log, read) && Ordered(log) && Yielded(read, pages, log, protectedOnly, events)
    ensures OnlyAppended(log, read) ==> events == Where(Reverse(log), protectedOnly, None)
  {
    var all := Where(Reverse(log), protectedOnly, None);
    WhereMembers(Reverse(log), protectedOnly, None);
    ReverseMembers(log);
    if OnlyAppended(log, read) {
      WhereDescends(Reverse(log), protectedOnly, None);
      hide *;
      forall e
        ensures e in events <==> e in all
      {
        if e in events {
          FoundInFixedLog(read, pages, log, protectedOnly, events, e);
        }
        if e in all {
          FixedIsFound(read, pages, log, protectedOnly, events, e);
        }
      }
      SameDescending(events, all);
    }
  }

  lemma FixedIsFound(read: nat -> seq<ContextEvent>, pages: nat, log: seq<ContextEvent>, protectedOnly: bool,
                     events: seq<ContextEvent>, e: ContextEvent)
    requires Growing(log, read) && OnlyAppended(log, read) && Ordered(log)
    requires AllFound(read, pages, log, protectedOnly, events) && Covers(read, pages, log, protectedOnly, events, 0)
    requires e in log && (protectedOnly ==> e.isProtected)
    ensures e in events
  {
    var i :| 0 <= i < |log| && log[i] == e;
    if protectedOnly {
      FixedFlag(read, pages, log, i);
    }
    assert Holds(events, e.sequence);
    hide Growing, Ordered, AllFound, Covers;
    var found :| found in events && found.sequence == e.sequence;
    FoundInFixedLog(read, pages, log, protectedOnly, events, found);
    SameSequence(log, found, e);
  }

  lemma FoundInFixedLog(read: nat -> seq<ContextEvent>, pages: nat, log: seq<ContextEvent>, protectedOnly: bool,
                        events: seq<ContextEvent>, e: ContextEvent)
    requires Growing(log, read) && OnlyAppended(log, read)
    requires AllFound(read, pages, log, protectedOnly, events) && e in events
    ensures e in log && (protectedOnly ==> e.isProtected)
  {
    hide Continues;
    assert FoundBy(read, pages, log, protectedOnly, e);
    var p: nat, i :| p < pages && 0 <= i < |log| && e == read(p)[i];
    assert log <= read(p) && e == log[i];
  }

  lemma FixedFlag(read: nat -> seq<ContextEvent>, pages: nat, log: seq<ContextEvent>, i: nat)
    requires Growing(log, read) && OnlyAppended(log, read) && i < |log| && log[i].isProtected
    ensures ProtectedThroughout(read, pages, log, i)
  {
    hide Continues;
    forall p: nat
      ensures read(p)[i] == log[i]
    {
      assert log <= read(p);
    }
  }

  lemma SameSequence(log: seq<ContextEvent>, a: ContextEvent, b: ContextEvent)
    requires Ordered(log) && a in log && b in log && a.sequence == b.sequence
    ensures a == b
  {
  }

  lemma NothingYielded(read: nat -> seq<ContextEvent>, log: seq<ContextEvent>, protectedOnly: bool)
    requires Growing(log, read)
    ensures YieldedDownTo(read, 0, log, protectedOnly, [], None)
  {
  }

  // Page p reads the log as it is by then, `read(p)`: events may have been appended and flags
  // changed. Whatever the page size, no event is yielded twice, every event of the log the first
  // page saw that has the flag throughout is yielded, and none that never has it.
  method IterThreadEventsDescending(log: seq<ContextEvent>, read: nat -> seq<ContextEvent>, protectedOnly: bool,
                                    pageSize: int)
    returns (outcome: Result<seq<ContextEvent>, string>, ghost pages: nat)
    requires Ordered(log) && read(0) == log && Growing(log, read)
    ensures outcome.Err? <==> !(1 <= pageSize <= 1024)
    ensures outcome.Ok? ==> Yielded(read, pages, log, protectedOnly, outcome.value)
    ensures outcome.Ok? && OnlyAppended(log, read) ==>
              outcome.value == Where(Reverse(log), protectedOnly, None)
  {
    hide *;
    pages := 0;
    if !(1 <= pageSize <= 1024) {
      return Err("page_size must be between 1 and 1024"), 0;
    }
    NothingYielded(read, log, protectedOnly);
    var before: Option<nat> := None;
    var yielded := [];
    var page := 0;
    ghost var left := Left(log, before);
    while true
      invariant YieldedDownTo(read, page, log, protectedOnly, yielded, before)
      invariant before.None? ==> page == 0
      invariant left == Left(log, before)
      decreases left
    {
      var rows := SelectPage(read(page), protectedOnly, before, pageSize);
      PageExtends(read, page, log, protectedOnly, yielded, before, pageSize);
      pages := page + 1;
      if rows == [] {
        assert yielded + rows == yielded;
        break;
      }
      yielded := yielded + rows;
      if |rows| < pageSize {
        break;
      }
      PageIsLower(log, read, page, protectedOnly, before, pageSize);
      before := Some(rows[|rows| - 1].sequence);
      page := page + 1;
      left := Left(log, before);
    }
    outcome := Ok(yielded);
    YieldedFromFixedLog(read, pages, log, protectedOnly, yielded);
  }

  // How many more pages there can be.
  ghost function Left(log: seq<ContextEvent>, before: Option<nat>): nat {
    if before.Some? then before.value
    else if log == [] then 0
    else log[|log| - 1].sequence + 1
  }

  lemma PageIsLower(log: seq<ContextEvent>, read: nat -> seq<ContextEvent>, page: nat, protectedOnly: bool,
                    before: Option<nat>, limit: nat)
    requires Growing(log, read) && 0 < limit && (before.None? ==> read(page) == log)
    requires SelectPage(read(page), protectedOnly, before, limit) != []
    ensures var rows := SelectPage(read(page), protectedOnly, before, limit);
            Left(log, Some(rows[|rows| - 1].sequence)) < Left(log, before)
  {
    hide SelectPage, Growing, Descending;
    PageOf(log, read, page, protectedOnly, before, limit);
    var rows := SelectPage(read(page), protectedOnly, before, limit);
    var last := rows[|rows| - 1];
    assert last in rows;
    if before.None? {
      LogIsOrdered(log, read, page);
      assert last in log;
    }
  }

  lemma LogIsOrdered(log: seq<ContextEvent>, read: nat -> seq<ContextEvent>, page: nat)
    requires Growing(log, read) && read(page) == log
    ensures Ordered(log)
  {
    assert Continues(log, read(page));
  }
}
