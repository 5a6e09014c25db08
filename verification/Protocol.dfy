// The durable outbox protocol: every interleaving of appends, claims, workers,
// failures, quarantine, operator retries, protection changes and direct record
// writes, one transaction per step.

module Protocol {
  import opened Results
  import opened Models
  import opened Collections
  import opened Tables
  import opened Values

  // What a worker was handed when its claim was granted.
  datatype Grant = Grant(key: EventKey, attempts: nat)

  // The tables, every claim ever granted (a token is an index into `claims`), the
  // records workers have prepared, and the history the theorems speak about.
  datatype System = System(
    db: Database,
    claims: seq<Grant>,
    prepared: map<nat, ContextRecord>,
    completions: seq<EventKey>,
    appends: nat,
    retries: nat,
    failures: nat)

  datatype Step =
    | Append(key: EventKey, draft: Draft, now: Time)
    | Claim(owner: string, now: Time, limit: int, lease: Time, rows: seq<EventKey>)
    | Prepare(token: nat)
    | Complete(token: nat, now: Time)
    | Mark(token: nat, now: Time)
    | Fail(token: nat, now: Time, retryAfter: Time)
    | Release(token: nat)
    | ReleaseAll(owner: string)
    | Retry(key: EventKey, now: Time)
    | Protect(key: EventKey, flag: bool)
    | Write(record: ContextRecord)
    | Delete(keys: set<RecordKey>)

  const START := System(EMPTY_DATABASE, [], map[], [], 0, 0, 0)

  ghost predicate Enabled(s: System, step: Step) {
    match step
    case Claim(owner, now, limit, _, rows) => IsClaimSelection(s.db, owner, now, limit, rows)
    case Prepare(token) => token < |s.claims|
    case Complete(token, _) => token in s.prepared && token < |s.claims|
    case Mark(token, _) => token < |s.claims|
    case Fail(token, _, _) => token < |s.claims|
    case Release(token) => token < |s.claims|
    case _ => true
  }

  function NewClaims(db: Database, rows: seq<EventKey>): (claims: seq<Grant>)
    requires forall i :: 0 <= i < |rows| ==> rows[i] in db.outbox
    ensures |claims| == |rows|
  {
    seq(|rows|, i requires 0 <= i < |rows| => Grant(rows[i], db.outbox[rows[i]].attempts))
  }

  // A worker quarantines the event when this failure uses up the last attempt.
  predicate LastAttempt(claim: Grant, maxAttempts: nat) {
    claim.attempts + 1 >= maxAttempts
  }

  ghost function Next(s: System, step: Step, maxAttempts: nat): System
    requires Enabled(s, step)
  {
    match step
    case Append(key, draft, now) =>
      var t := AppendEvent(s.db, key, draft, now);
      if t.outcome.Ok? && key !in s.db.events then
        s.(db := t.db, appends := s.appends + 1)
      else
        s.(db := t.db)
    case Claim(owner, now, _, lease, rows) =>
      s.(db := s.db.(outbox := LeaseRows(s.db.outbox, rows, owner, now + MaxTime(1.0, lease), |s.claims|)),
         claims := s.claims + NewClaims(s.db, rows))
    case Prepare(token) =>
      var key := s.claims[token].key;
      if key in s.db.events && s.db.events[key].indexedAt.None? then
        s.(prepared := s.prepared[token := Projection(key, s.db.events[key])])
      else s
    case Complete(token, now) =>
      var key := s.claims[token].key;
      var t := CompleteClaim(s.db, key, s.prepared[token], token, now);
      s.(db := t.db, completions := if t.outcome.Ok? then s.completions + [key] else s.completions)
    case Mark(token, now) =>
      var key := s.claims[token].key;
      var t := MarkIndexed(s.db, key, token, now);
      s.(db := t.db, completions := if t.outcome.Ok? then s.completions + [key] else s.completions)
    case Fail(token, now, retryAfter) =>
      var claim := s.claims[token];
      var t := FailClaim(s.db, claim.key, token, now, retryAfter, LastAttempt(claim, maxAttempts));
      s.(db := t.db, failures := if t.outcome.Ok? then s.failures + 1 else s.failures)
    case Release(token) => s.(db := ReleaseClaim(s.db, s.claims[token].key, token))
    case ReleaseAll(owner) => s.(db := ReleaseOwner(s.db, owner))
    case Retry(key, now) =>
      s.(db := RetryFailed(s.db, key, now), retries := if Retryable(s.db, key) then s.retries + 1 else s.retries)
    case Protect(key, flag) => s.(db := SetProtected(s.db, key, flag).db)
    case Write(record) => s.(db := Upsert(s.db, record, None).db)
    case Delete(keys) => s.(db := DeleteRecords(s.db, keys))
  }

  // ---- Invariants ----

  ghost function OfThread(keys: set<EventKey>, thread: ThreadKey): set<EventKey> {
    set k | k in keys && k.thread == thread
  }

  // A thread's head is its number of events.
  ghost predicate CountInv(heads: map<ThreadKey, nat>, keys: set<EventKey>) {
    && (forall t :: t in heads ==> heads[t] == |OfThread(keys, t)|)
    && (forall k :: k in keys ==> k.thread in heads)
  }

  // A thread's events carry different sequences, from 1 up to its head.
  ghost predicate LogInv(heads: map<ThreadKey, nat>, events: map<EventKey, ContextEvent>) {
    && (forall k :: k in events ==>
          k.thread in heads && 1 <= events[k].sequence <= heads[k.thread] && events[k].eventId == k.eventId)
    && (forall j, k :: j in events && k in events && j.thread == k.thread && j != k ==>
          events[j].sequence != events[k].sequence)
  }

  ghost predicate RowInv(events: map<EventKey, ContextEvent>, outbox: map<EventKey, OutboxRow>, maxAttempts: nat) {
    && events.Keys == outbox.Keys
    && forall k :: k in outbox ==>
         && outbox[k].sequence == events[k].sequence
         && !(outbox[k].processedAt.Some? && outbox[k].terminalAt.Some?)
         && (outbox[k].processedAt.Some? <==> events[k].indexedAt.Some?)
         && (outbox[k].Active() ==> outbox[k].attempts < maxAttempts)
  }

  // A leased row is the active head of its thread, under a token granted for it.
  ghost predicate LeaseInv(outbox: map<EventKey, OutboxRow>, claims: seq<Grant>) {
    forall k :: k in outbox && outbox[k].lease.Some? ==>
      && outbox[k].Active()
      && IsThreadHead(outbox, k)
      && outbox[k].lease.value.token < |claims|
      && claims[outbox[k].lease.value.token] == Grant(k, outbox[k].attempts)
  }

  // A record with its protection flag blanked out.
  function UpToFlag(record: ContextRecord): ContextRecord {
    record.(metadata := record.metadata["protected" := JNull])
  }

  ghost predicate ReservedInv(events: map<EventKey, ContextEvent>) {
    forall j, k :: j in events && k in events && j != k ==> ReservedKey(j, events[j]) != ReservedKey(k, events[k])
  }

  // A record under a reserved identifier is its event's own projection.
  ghost predicate RecordInv(events: map<EventKey, ContextEvent>, records: map<RecordKey, ContextRecord>) {
    && ReservedInv(events)
    && (forall k :: k in events && ReservedKey(k, events[k]) in records ==>
          records[ReservedKey(k, events[k])] == Projection(k, events[k]))
  }

  ghost predicate PreparedInv(events: map<EventKey, ContextEvent>, claims: seq<Grant>,
                              prepared: map<nat, ContextRecord>) {
    && (forall i :: 0 <= i < |claims| ==> claims[i].key in events)
    && (forall token :: token in prepared ==>
          && token < |claims|
          && UpToFlag(prepared[token]) == UpToFlag(Projection(claims[token].key, events[claims[token].key])))
  }

  ghost predicate HistoryInv(outbox: map<EventKey, OutboxRow>, completions: seq<EventKey>) {
    && Distinct(completions)
    && (forall k :: k in completions <==> k in outbox && outbox[k].processedAt.Some?)
  }

  ghost function AttemptsLeft(row: OutboxRow, maxAttempts: nat): nat {
    if row.Active() && row.attempts < maxAttempts then maxAttempts - row.attempts else 0
  }

  ghost function Allowance(outbox: map<EventKey, OutboxRow>, maxAttempts: nat): map<EventKey, nat> {
    map k | k in outbox :: AttemptsLeft(outbox[k], maxAttempts)
  }

  // Failures so far, plus those the active rows may still spend, are paid for.
  ghost predicate FailureInv(s: System, maxAttempts: nat) {
    s.failures + Sum(Allowance(s.db.outbox, maxAttempts)) <= maxAttempts * (s.appends + s.retries)
  }

  ghost predicate Inv(s: System, maxAttempts: nat) {
    && CountInv(s.db.heads, s.db.events.Keys)
    && LogInv(s.db.heads, s.db.events)
    && RowInv(s.db.events, s.db.outbox, maxAttempts)
    && LeaseInv(s.db.outbox, s.claims)
    && RecordInv(s.db.events, s.db.records)
    && PreparedInv(s.db.events, s.claims, s.prepared)
    && HistoryInv(s.db.outbox, s.completions)
    && FailureInv(s, maxAttempts)
  }

  // ---- The event log ----

  // Everything about an event is fixed except its protection flag and its indexing time.
  ghost predicate SameLog(events: map<EventKey, ContextEvent>, events': map<EventKey, ContextEvent>) {
    && events'.Keys == events.Keys
    && forall k :: k in events ==>
         events'[k].(isProtected := events[k].isProtected, indexedAt := events[k].indexedAt) == events[k]
  }

  ghost predicate Appends(s: System, step: Step) {
    step.Append? && step.key !in s.db.events && AppendEvent(s.db, step.key, step.draft, step.now).outcome.Ok?
  }

  lemma RewriteEvent(events: map<EventKey, ContextEvent>, key: EventKey, flag: bool, at: Option<Time>)
    requires key in events
    ensures SameLog(events, events[key := events[key].(isProtected := flag, indexedAt := at)])
  {
  }

  lemma FinishKeepsLog(db: Database, key: EventKey, at: Time)
    requires key in db.outbox && key in db.events
    ensures SameLog(db.events, FinishRow(db, key, at).events)
  {
    var event := db.events[key];
    RewriteEvent(db.events, key, event.isProtected, if event.indexedAt.None? then Some(at) else event.indexedAt);
  }

  lemma OnlyAppendsExtendTheLog(s: System, step: Step, maxAttempts: nat)
    requires Enabled(s, step) && !Appends(s, step)
    ensures var db' := Next(s, step, maxAttempts).db;
            db'.heads == s.db.heads && SameLog(s.db.events, db'.events)
  {
    hide CompleteClaim, MarkIndexed, AppendEvent, Upsert;
    match step
    case Complete(token, now) =>
      var key := s.claims[token].key;
      var t := CompleteClaim(s.db, key, s.prepared[token], token, now);
      if t.db.events != s.db.events {
        FinishKeepsLog(s.db, key, now);
      }
    case Mark(token, now) =>
      var key := s.claims[token].key;
      if LiveClaim(s.db, key, token) && key in s.db.events {
        FinishKeepsLog(s.db, key, now);
      }
    case Protect(key, flag) =>
      if key in s.db.events {
        RewriteEvent(s.db.events, key, flag, s.db.events[key].indexedAt);
      }
    case _ =>
      assert Next(s, step, maxAttempts).db.events == s.db.events;
  }

  lemma InsertKeepsCounts(heads: map<ThreadKey, nat>, keys: set<EventKey>, key: EventKey)
    requires CountInv(heads, keys) && key !in keys
    ensures CountInv(heads[key.thread := (if key.thread in heads then heads[key.thread] else 0) + 1], keys + {key})
  {
    forall t
      ensures OfThread(keys + {key}, t) == if t == key.thread then OfThread(keys, t) + {key} else OfThread(keys, t)
    {
    }
    if key.thread !in heads {
      assert OfThread(keys, key.thread) == {};
    }
  }

  lemma InsertKeepsLog(heads: map<ThreadKey, nat>, events: map<EventKey, ContextEvent>, key: EventKey,
                       event: ContextEvent)
    requires LogInv(heads, events) && key !in events
    requires event.sequence == (if key.thread in heads then heads[key.thread] else 0) + 1
    requires event.eventId == key.eventId
    ensures LogInv(heads[key.thread := event.sequence], events[key := event])
  {
  }

  lemma SameLogKeepsLog(heads: map<ThreadKey, nat>, events: map<EventKey, ContextEvent>,
                        events': map<EventKey, ContextEvent>)
    requires LogInv(heads, events) && SameLog(events, events')
    ensures LogInv(heads, events')
  {
    forall k | k in events
      ensures events'[k].sequence == events[k].sequence && events'[k].eventId == events[k].eventId
    {
    }
  }

  lemma AppendExtendsTheLog(s: System, step: Step, maxAttempts: nat)
    requires Enabled(s, step) && Appends(s, step)
    ensures var db' := Next(s, step, maxAttempts).db;
            var event := NewEvent(step.key, step.draft, Recorded(s.db, step.key.thread) + 1, step.now);
            && db'.heads == s.db.heads[step.key.thread := event.sequence]
            && db'.events == s.db.events[step.key := event]
            && event.sequence == Recorded(s.db, step.key.thread) + 1 && event.eventId == step.key.eventId
  {
    hide CompleteClaim, MarkIndexed, Upsert, SetProtected, FailClaim, Writable, RoundTrip, Same, StoredMetadata,
      LinkedEvents;
  }

  lemma CountStep(s: System, step: Step, maxAttempts: nat)
    requires CountInv(s.db.heads, s.db.events.Keys) && Enabled(s, step)
    ensures var db' := Next(s, step, maxAttempts).db; CountInv(db'.heads, db'.events.Keys)
  {
    hide Next, AppendEvent, NewEvent, CountInv;
    if Appends(s, step) {
      AppendExtendsTheLog(s, step, maxAttempts);
      InsertKeepsCounts(s.db.heads, s.db.events.Keys, step.key);
      assert Next(s, step, maxAttempts).db.events.Keys == s.db.events.Keys + {step.key};
    } else {
      OnlyAppendsExtendTheLog(s, step, maxAttempts);
    }
  }

  lemma LogStep(s: System, step: Step, maxAttempts: nat)
    requires LogInv(s.db.heads, s.db.events) && Enabled(s, step)
    ensures var db' := Next(s, step, maxAttempts).db; LogInv(db'.heads, db'.events)
  {
    hide Next, LogInv, SameLog, AppendEvent, NewEvent;
    if Appends(s, step) {
      AppendExtendsTheLog(s, step, maxAttempts);
      var event := NewEvent(step.key, step.draft, Recorded(s.db, step.key.thread) + 1, step.now);
      InsertKeepsLog(s.db.heads, s.db.events, step.key, event);
    } else {
      OnlyAppendsExtendTheLog(s, step, maxAttempts);
      SameLogKeepsLog(s.db.heads, s.db.events, Next(s, step, maxAttempts).db.events);
    }
  }

  // ---- The outbox rows ----

  // Leasing and releasing leave everything else in a row alone.
  ghost predicate SameRows(outbox: map<EventKey, OutboxRow>, outbox': map<EventKey, OutboxRow>) {
    && outbox'.Keys == outbox.Keys
    && forall k :: k in outbox ==> outbox'[k].(lease := outbox[k].lease) == outbox[k]
  }

  lemma {:induction false} LeaseRowsEffect(outbox: map<EventKey, OutboxRow>, rows: seq<EventKey>, owner: string,
                                           until: Time, firstToken: nat)
    requires forall i :: 0 <= i < |rows| ==> rows[i] in outbox
    requires forall i, j :: 0 <= i < j < |rows| ==> rows[i] != rows[j]
    ensures var outbox' := LeaseRows(outbox, rows, owner, until, firstToken);
            && SameRows(outbox, outbox')
            && (forall k :: k in outbox && k !in rows ==> outbox'[k] == outbox[k])
            && (forall i :: 0 <= i < |rows| ==> outbox'[rows[i]].lease == Some(Lease(owner, until, firstToken + i)))
    decreases |rows|
  {
    if rows != [] {
      var outbox1 := outbox[rows[0] := outbox[rows[0]].(lease := Some(Lease(owner, until, firstToken)))];
      var outbox' := LeaseRows(outbox, rows, owner, until, firstToken);
      LeaseRowsEffect(outbox1, rows[1..], owner, until, firstToken + 1);
      assert rows[0] !in rows[1..];
      forall i | 0 <= i < |rows|
        ensures outbox'[rows[i]].lease == Some(Lease(owner, until, firstToken + i))
      {
        if i > 0 {
          assert rows[i] == rows[1..][i - 1];
        }
      }
      forall k | k in outbox && k !in rows
        ensures outbox'[k] == outbox[k]
      {
        assert k !in rows[1..];
      }
    }
  }

  lemma SameRowsKeepRows(events: map<EventKey, ContextEvent>, outbox: map<EventKey, OutboxRow>,
                         outbox': map<EventKey, OutboxRow>, maxAttempts: nat)
    requires RowInv(events, outbox, maxAttempts) && SameRows(outbox, outbox')
    ensures RowInv(events, outbox', maxAttempts)
  {
    forall k | k in outbox
      ensures && outbox'[k].sequence == outbox[k].sequence
              && outbox'[k].attempts == outbox[k].attempts
              && outbox'[k].processedAt == outbox[k].processedAt
              && outbox'[k].terminalAt == outbox[k].terminalAt
    {
    }
  }

  lemma SameLogKeepsRows(events: map<EventKey, ContextEvent>, events': map<EventKey, ContextEvent>,
                         outbox: map<EventKey, OutboxRow>, maxAttempts: nat)
    requires RowInv(events, outbox, maxAttempts) && events'.Keys == events.Keys
    requires forall k :: k in events ==> events'[k].sequence == events[k].sequence
    requires forall k :: k in events ==> events'[k].indexedAt == events[k].indexedAt
    ensures RowInv(events', outbox, maxAttempts)
  {
  }

  lemma FinishKeepsRows(db: Database, key: EventKey, at: Time, maxAttempts: nat)
    requires RowInv(db.events, db.outbox, maxAttempts) && key in db.outbox && db.outbox[key].Active()
    ensures var db' := FinishRow(db, key, at); RowInv(db'.events, db'.outbox, maxAttempts)
  {
  }

  ghost predicate RowOk(event: ContextEvent, row: OutboxRow, maxAttempts: nat) {
    && row.sequence == event.sequence
    && !(row.processedAt.Some? && row.terminalAt.Some?)
    && (row.processedAt.Some? <==> event.indexedAt.Some?)
    && (row.Active() ==> row.attempts < maxAttempts)
  }

  lemma RewriteKeepsRows(events: map<EventKey, ContextEvent>, outbox: map<EventKey, OutboxRow>, key: EventKey,
                         row: OutboxRow, maxAttempts: nat)
    requires RowInv(events, outbox, maxAttempts)
    requires key in events && RowOk(events[key], row, maxAttempts)
    ensures RowInv(events, outbox[key := row], maxAttempts)
  {
  }

  lemma InsertKeepsRows(db: Database, key: EventKey, draft: Draft, now: Time, maxAttempts: nat)
    requires RowInv(db.events, db.outbox, maxAttempts) && 0 < maxAttempts
    ensures var db' := AppendEvent(db, key, draft, now).db; RowInv(db'.events, db'.outbox, maxAttempts)
  {
    hide Writable, RoundTrip, Same, StoredMetadata, LinkedEvents;
  }

  lemma FailKeepsRows(db: Database, claim: Grant, token: nat, now: Time, retryAfter: Time, maxAttempts: nat)
    requires RowInv(db.events, db.outbox, maxAttempts)
    requires claim.key in db.outbox && db.outbox[claim.key].HeldBy(token) ==>
               db.outbox[claim.key].attempts == claim.attempts
    ensures var db' := FailClaim(db, claim.key, token, now, retryAfter, LastAttempt(claim, maxAttempts)).db;
            RowInv(db'.events, db'.outbox, maxAttempts)
  {
    var db' := FailClaim(db, claim.key, token, now, retryAfter, LastAttempt(claim, maxAttempts)).db;
    if db' != db {
      RewriteKeepsRows(db.events, db.outbox, claim.key, db'.outbox[claim.key], maxAttempts);
    }
  }

  lemma RetryKeepsRows(db: Database, key: EventKey, now: Time, maxAttempts: nat)
    requires RowInv(db.events, db.outbox, maxAttempts) && 0 < maxAttempts
    ensures RowInv(db.events, RetryFailed(db, key, now).outbox, maxAttempts)
  {
    if Retryable(db, key) {
      RewriteKeepsRows(db.events, db.outbox, key, RetryFailed(db, key, now).outbox[key], maxAttempts);
    }
  }

  lemma ReleasesKeepRows(db: Database, key: EventKey, token: nat, owner: string)
    ensures SameRows(db.outbox, ReleaseClaim(db, key, token).outbox)
    ensures SameRows(db.outbox, ReleaseOwner(db, owner).outbox)
  {
  }

  lemma ClaimKeepsRows(db: Database, owner: string, now: Time, limit: int, until: Time, rows: seq<EventKey>,
                       firstToken: nat)
    requires IsClaimSelection(db, owner, now, limit, rows)
    ensures SameRows(db.outbox, LeaseRows(db.outbox, rows, owner, until, firstToken))
  {
    LeaseRowsEffect(db.outbox, rows, owner, until, firstToken);
  }

  lemma WorkerRowStep(s: System, step: Step, maxAttempts: nat)
    requires step.Complete? || step.Mark? || step.Fail? || step.Release?
    requires RowInv(s.db.events, s.db.outbox, maxAttempts) && Enabled(s, step)
    requires LeaseInv(s.db.outbox, s.claims)
    ensures var db' := Next(s, step, maxAttempts).db; RowInv(db'.events, db'.outbox, maxAttempts)
  {
    hide CompleteClaim, MarkIndexed, FailClaim, ReleaseClaim, FinishRow, RowInv;
    var db' := Next(s, step, maxAttempts).db;
    match step
    case Complete(token, now) =>
      if db' != s.db {
        FinishKeepsRows(s.db, s.claims[token].key, now, maxAttempts);
      }
    case Mark(token, now) =>
      if db' != s.db {
        FinishKeepsRows(s.db, s.claims[token].key, now, maxAttempts);
      }
    case Fail(token, now, retryAfter) => FailKeepsRows(s.db, s.claims[token], token, now, retryAfter, maxAttempts);
    case Release(token) =>
      ReleasesKeepRows(s.db, s.claims[token].key, token, "");
      SameRowsKeepRows(s.db.events, s.db.outbox, db'.outbox, maxAttempts);
  }

  lemma RowStep(s: System, step: Step, maxAttempts: nat)
    requires RowInv(s.db.events, s.db.outbox, maxAttempts) && Enabled(s, step) && 0 < maxAttempts
    requires LeaseInv(s.db.outbox, s.claims)
    ensures var db' := Next(s, step, maxAttempts).db; RowInv(db'.events, db'.outbox, maxAttempts)
  {
    hide AppendEvent, Upsert, ReleaseOwner, RetryFailed, RowInv, LeaseInv, IsClaimSelection;
    var db' := Next(s, step, maxAttempts).db;
    match step
    case Append(key, draft, now) => InsertKeepsRows(s.db, key, draft, now, maxAttempts);
    case Claim(owner, now, limit, lease, rows) =>
      ClaimKeepsRows(s.db, owner, now, limit, now + MaxTime(1.0, lease), rows, |s.claims|);
      SameRowsKeepRows(s.db.events, s.db.outbox, db'.outbox, maxAttempts);
    case ReleaseAll(owner) =>
      ReleasesKeepRows(s.db, EventKey(ThreadKey("", ""), ""), 0, owner);
      SameRowsKeepRows(s.db.events, s.db.outbox, db'.outbox, maxAttempts);
    case Protect(key, flag) => SameLogKeepsRows(s.db.events, db'.events, s.db.outbox, maxAttempts);
    case Retry(key, now) => RetryKeepsRows(s.db, key, now, maxAttempts);
    case Prepare(_) =>
    case Write(_) =>
    case Delete(_) =>
    case _ => WorkerRowStep(s, step, maxAttempts);
  }

  // ---- The leases ----

  // Rewriting one row without a lease keeps every leased row a thread head, as long as
  // the rewrite does not wake a row up next to a leased one.
  lemma RewriteKeepsLeases(outbox: map<EventKey, OutboxRow>, claims: seq<Grant>, key: EventKey, row: OutboxRow)
    requires LeaseInv(outbox, claims) && key in outbox
    requires row.lease.None? && row.sequence == outbox[key].sequence
    requires row.Active() && !outbox[key].Active() ==>
               forall k :: k in outbox && k.thread == key.thread && k != key ==> outbox[k].lease.None?
    ensures LeaseInv(outbox[key := row], claims)
  {
    var outbox' := outbox[key := row];
    forall k | k in outbox' && outbox'[k].lease.Some?
      ensures IsThreadHead(outbox', k)
    {
      assert IsThreadHead(outbox, k);
    }
  }

  lemma InsertKeepsLeases(outbox: map<EventKey, OutboxRow>, claims: seq<Grant>, key: EventKey, row: OutboxRow)
    requires LeaseInv(outbox, claims) && key !in outbox && row.lease.None?
    requires forall k :: k in outbox && k.thread == key.thread ==> outbox[k].sequence < row.sequence
    ensures LeaseInv(outbox[key := row], claims)
  {
    var outbox' := outbox[key := row];
    forall k | k in outbox' && outbox'[k].lease.Some?
      ensures IsThreadHead(outbox', k)
    {
      assert IsThreadHead(outbox, k);
    }
  }

  lemma SameRowsSameHeads(outbox: map<EventKey, OutboxRow>, outbox': map<EventKey, OutboxRow>, key: EventKey)
    requires SameRows(outbox, outbox') && key in outbox && IsThreadHead(outbox, key)
    ensures IsThreadHead(outbox', key)
  {
  }

  lemma ClaimKeepsLeases(db: Database, claims: seq<Grant>, owner: string, now: Time, limit: int, until: Time,
                         rows: seq<EventKey>)
    requires LeaseInv(db.outbox, claims) && IsClaimSelection(db, owner, now, limit, rows)
    ensures LeaseInv(LeaseRows(db.outbox, rows, owner, until, |claims|), claims + NewClaims(db, rows))
  {
    hide LeaseRows, IsThreadHead, ComesFirst, IsClaimSelection;
    SelectedAreRows(db, owner, now, limit, rows);
    var outbox' := LeaseRows(db.outbox, rows, owner, until, |claims|);
    var claims' := claims + NewClaims(db, rows);
    ClaimKeepsRows(db, owner, now, limit, until, rows, |claims|);
    forall k | k in outbox' && outbox'[k].lease.Some?
      ensures outbox'[k].Active() && IsThreadHead(outbox', k)
      ensures outbox'[k].lease.value.token < |claims'|
      ensures claims'[outbox'[k].lease.value.token] == Grant(k, outbox'[k].attempts)
    {
      if k in rows {
        var i :| 0 <= i < |rows| && rows[i] == k;
        NewLease(db, claims, owner, now, limit, until, rows, i);
      } else {
        KeptLease(db, claims, owner, now, limit, until, rows, k);
        SameRowsSameHeads(db.outbox, outbox', k);
      }
    }
  }

  lemma SelectedAreRows(db: Database, owner: string, now: Time, limit: int, rows: seq<EventKey>)
    requires IsClaimSelection(db, owner, now, limit, rows)
    ensures forall i :: 0 <= i < |rows| ==> rows[i] in db.outbox
  {
    forall i | 0 <= i < |rows|
      ensures rows[i] in db.outbox
    {
      assert rows[i] in ClaimableKeys(db, owner, now);
    }
  }

  lemma NewLease(db: Database, claims: seq<Grant>, owner: string, now: Time, limit: int, until: Time,
                 rows: seq<EventKey>, i: nat)
    requires IsClaimSelection(db, owner, now, limit, rows) && i < |rows|
    ensures var outbox' := LeaseRows(db.outbox, rows, owner, until, |claims|);
            && rows[i] in outbox' && outbox'[rows[i]].Active() && IsThreadHead(outbox', rows[i])
            && outbox'[rows[i]].lease == Some(Lease(owner, until, |claims| + i))
            && (claims + NewClaims(db, rows))[|claims| + i] == Grant(rows[i], outbox'[rows[i]].attempts)
  {
    hide LeaseRows, IsThreadHead, ComesFirst;
    var k := rows[i];
    LeaseRowsEffect(db.outbox, rows, owner, until, |claims|);
    assert k in ClaimableKeys(db, owner, now);
    SameRowsSameHeads(db.outbox, LeaseRows(db.outbox, rows, owner, until, |claims|), k);
  }

  lemma KeptLease(db: Database, claims: seq<Grant>, owner: string, now: Time, limit: int, until: Time,
                  rows: seq<EventKey>, k: EventKey)
    requires IsClaimSelection(db, owner, now, limit, rows) && k in db.outbox && k !in rows
    ensures var outbox' := LeaseRows(db.outbox, rows, owner, until, |claims|);
            k in outbox' && outbox'[k] == db.outbox[k]
  {
    hide LeaseRows, IsThreadHead, ComesFirst;
    LeaseRowsEffect(db.outbox, rows, owner, until, |claims|);
  }

  // The only row this transaction may touch is `key`, which was active and loses its lease.
  ghost predicate SettlesRow(db: Database, db': Database, key: EventKey) {
    || db'.outbox == db.outbox
    || (&& key in db.outbox && key in db'.outbox
        && db'.outbox == db.outbox[key := db'.outbox[key]]
        && db'.outbox[key].lease.None?
        && db'.outbox[key].sequence == db.outbox[key].sequence
        && db.outbox[key].Active())
  }

  lemma SettlingKeepsLeases(db: Database, db': Database, key: EventKey, claims: seq<Grant>)
    requires LeaseInv(db.outbox, claims) && SettlesRow(db, db', key)
    ensures LeaseInv(db'.outbox, claims)
  {
    if db'.outbox != db.outbox {
      RewriteKeepsLeases(db.outbox, claims, key, db'.outbox[key]);
    }
  }

  lemma WorkersSettleTheirRow(s: System, step: Step, maxAttempts: nat)
    requires step.Complete? || step.Mark? || step.Fail? || step.Release?
    requires Enabled(s, step) && LeaseInv(s.db.outbox, s.claims)
    ensures var s' := Next(s, step, maxAttempts);
            s'.claims == s.claims && SettlesRow(s.db, s'.db, s.claims[step.token].key)
  {
    hide CompleteClaim, MarkIndexed;
  }

  lemma ReleaseAllKeepsLeases(db: Database, claims: seq<Grant>, owner: string)
    requires LeaseInv(db.outbox, claims)
    ensures LeaseInv(ReleaseOwner(db, owner).outbox, claims)
  {
    var outbox' := ReleaseOwner(db, owner).outbox;
    forall k | k in outbox' && outbox'[k].lease.Some?
      ensures IsThreadHead(outbox', k)
    {
      SameRowsSameHeads(db.outbox, outbox', k);
    }
  }

  lemma RetryKeepsLeases(db: Database, claims: seq<Grant>, key: EventKey, now: Time)
    requires LeaseInv(db.outbox, claims)
    ensures LeaseInv(RetryFailed(db, key, now).outbox, claims)
  {
    if Retryable(db, key) {
      RewriteKeepsLeases(db.outbox, claims, key, RetryFailed(db, key, now).outbox[key]);
    }
  }

  lemma AppendKeepsLeases(db: Database, claims: seq<Grant>, key: EventKey, draft: Draft, now: Time, maxAttempts: nat)
    requires LeaseInv(db.outbox, claims) && LogInv(db.heads, db.events) && RowInv(db.events, db.outbox, maxAttempts)
    ensures LeaseInv(AppendEvent(db, key, draft, now).db.outbox, claims)
  {
    var t := AppendEvent(db, key, draft, now);
    if t.outcome.Ok? && key !in db.events {
      InsertKeepsLeases(db.outbox, claims, key, t.db.outbox[key]);
    }
  }

  lemma LeaseStep(s: System, step: Step, maxAttempts: nat)
    requires LeaseInv(s.db.outbox, s.claims) && Enabled(s, step)
    requires LogInv(s.db.heads, s.db.events) && RowInv(s.db.events, s.db.outbox, maxAttempts)
    ensures var s' := Next(s, step, maxAttempts); LeaseInv(s'.db.outbox, s'.claims)
  {
    hide LeaseInv, LogInv, RowInv, AppendEvent, ReleaseOwner, RetryFailed, Upsert, IsClaimSelection;
    match step
    case Append(key, draft, now) => AppendKeepsLeases(s.db, s.claims, key, draft, now, maxAttempts);
    case Claim(owner, now, limit, lease, rows) =>
      ClaimKeepsLeases(s.db, s.claims, owner, now, limit, now + MaxTime(1.0, lease), rows);
    case Retry(key, now) => RetryKeepsLeases(s.db, s.claims, key, now);
    case ReleaseAll(owner) => ReleaseAllKeepsLeases(s.db, s.claims, owner);
    case Prepare(_) =>
    case Protect(_, _) =>
    case Write(_) =>
    case Delete(_) =>
    case _ =>
      WorkersSettleTheirRow(s, step, maxAttempts);
      SettlingKeepsLeases(s.db, Next(s, step, maxAttempts).db, s.claims[step.token].key, s.claims);
  }

  // ---- Records under reserved identifiers ----

  lemma SameLogKeepsReserved(events: map<EventKey, ContextEvent>, events': map<EventKey, ContextEvent>)
    requires ReservedInv(events) && SameLog(events, events')
    ensures ReservedInv(events')
  {
    forall k | k in events ensures ReservedKey(k, events'[k]) == ReservedKey(k, events[k]) {}
  }

  // The record a worker completes with becomes exactly the event's current projection.
  lemma CompletedRecord(key: EventKey, event: ContextEvent, record: ContextRecord)
    requires UpToFlag(record) == UpToFlag(Projection(key, event))
    ensures record.(metadata := record.metadata["protected" := JBool(event.isProtected)]) == Projection(key, event)
    ensures IsEventProjection(Projection(key, event), key)
  {
    assert record.metadata["protected" := JBool(event.isProtected)]
        == record.metadata["protected" := JNull]["protected" := JBool(event.isProtected)];
    assert Projection(key, event).metadata
        == Projection(key, event).metadata["protected" := JNull]["protected" := JBool(event.isProtected)];
  }

  lemma ReservedLinks(db: Database, key: EventKey)
    requires ReservedInv(db.events) && key in db.events
    ensures LinkedEvents(db, ReservedKey(key, db.events[key])) == {key}
  {
  }

  // A live claim with a prepared record passes every check: it is never refused as
  // somebody else's record, and it writes the event's current projection.
  lemma LiveCompletionSucceeds(s: System, token: nat, now: Time)
    requires RecordInv(s.db.events, s.db.records) && PreparedInv(s.db.events, s.claims, s.prepared)
    requires Enabled(s, Complete(token, now)) && LiveClaim(s.db, s.claims[token].key, token)
    ensures var key := s.claims[token].key;
            var event := s.db.events[key];
            var records := s.db.records[ReservedKey(key, event) := Projection(key, event)];
            CompleteClaim(s.db, key, s.prepared[token], token, now)
            == Txn(FinishRow(s.db, key, now).(records := records), Ok(Projection(key, event)))
  {
    var key := s.claims[token].key;
    var event := s.db.events[key];
    var record := s.prepared[token];
    CompletedRecord(key, event, record);
    ReservedLinks(s.db, key);
    assert UpToFlag(record).id == record.id && UpToFlag(record).namespace == record.namespace;
    assert record.id == event.recordId && record.namespace == key.thread.namespace;
    assert MayOverwrite(Projection(key, event), key);
  }

  lemma FinishKeepsRecords(db: Database, key: EventKey, at: Time)
    requires RecordInv(db.events, db.records) && key in db.events && key in db.outbox
    ensures RecordInv(FinishRow(db, key, at).events, db.records)
    ensures var event := db.events[key];
            RecordInv(FinishRow(db, key, at).events, db.records[ReservedKey(key, event) := Projection(key, event)])
  {
    var events' := FinishRow(db, key, at).events;
    FinishKeepsLog(db, key, at);
    SameLogKeepsReserved(db.events, events');
    forall k | k in events'
      ensures ReservedKey(k, events'[k]) == ReservedKey(k, db.events[k])
      ensures Projection(k, events'[k]) == Projection(k, db.events[k])
    {
    }
  }

  lemma ProtectKeepsRecords(db: Database, key: EventKey, flag: bool)
    requires RecordInv(db.events, db.records)
    ensures var db' := SetProtected(db, key, flag).db; RecordInv(db'.events, db'.records)
  {
    if key in db.events {
      var db' := SetProtected(db, key, flag).db;
      var event := db.events[key];
      RewriteEvent(db.events, key, flag, event.indexedAt);
      SameLogKeepsReserved(db.events, db'.events);
      CompletedRecord(key, event, Projection(key, event));
      assert Projection(key, event).metadata["protected" := JBool(flag)]
          == Projection(key, event.(isProtected := flag)).metadata;
      forall k | k in db'.events && ReservedKey(k, db'.events[k]) in db'.records
        ensures db'.records[ReservedKey(k, db'.events[k])] == Projection(k, db'.events[k])
      {
        assert ReservedKey(k, db'.events[k]) == ReservedKey(k, db.events[k]);
      }
    }
  }

  lemma AppendKeepsRecords(db: Database, key: EventKey, draft: Draft, now: Time)
    requires RecordInv(db.events, db.records)
    ensures var db' := AppendEvent(db, key, draft, now).db; RecordInv(db'.events, db'.records)
  {
    hide Same, RoundTrip, StoredMetadata, Writable, SameEvent, Projection;
    var rk := RecordKey(key.thread.namespace, draft.recordId);
    forall k | k in db.events
      ensures k in LinkedEvents(db, rk) <==> ReservedKey(k, db.events[k]) == rk
    {
    }
  }

  lemma WriteKeepsRecords(db: Database, record: ContextRecord)
    requires RecordInv(db.events, db.records)
    ensures RecordInv(db.events, Upsert(db, record, None).db.records)
  {
    forall k | k in db.events && ReservedKey(k, db.events[k]) == record.Key()
      ensures Upsert(db, record, None).db == db
    {
      assert k in LinkedEvents(db, record.Key());
    }
  }

  lemma RecordStep(s: System, step: Step, maxAttempts: nat)
    requires RecordInv(s.db.events, s.db.records) && PreparedInv(s.db.events, s.claims, s.prepared)
    requires Enabled(s, step)
    ensures var db' := Next(s, step, maxAttempts).db; RecordInv(db'.events, db'.records)
  {
    hide CompleteClaim, MarkIndexed, AppendEvent, Upsert, SetProtected, Projection, LeaseRows;
    match step
    case Append(key, draft, now) => AppendKeepsRecords(s.db, key, draft, now);
    case Complete(token, now) =>
      if LiveClaim(s.db, s.claims[token].key, token) {
        LiveCompletionSucceeds(s, token, now);
        FinishKeepsRecords(s.db, s.claims[token].key, now);
      }
    case Mark(token, now) =>
      if LiveClaim(s.db, s.claims[token].key, token) {
        FinishKeepsRecords(s.db, s.claims[token].key, now);
      }
    case Protect(key, flag) => ProtectKeepsRecords(s.db, key, flag);
    case Write(record) => WriteKeepsRecords(s.db, record);
    case _ =>
  }

  // ---- Prepared records ----

  lemma ProjectionUpToFlag(key: EventKey, event: ContextEvent, flag: bool, at: Option<Time>)
    ensures UpToFlag(Projection(key, event)) == UpToFlag(Projection(key, event.(isProtected := flag, indexedAt := at)))
  {
    assert Projection(key, event.(isProtected := flag, indexedAt := at)).metadata["protected" := JNull]
        == Projection(key, event).metadata["protected" := JNull];
  }

  lemma SameLogKeepsPrepared(events: map<EventKey, ContextEvent>, events': map<EventKey, ContextEvent>,
                             claims: seq<Grant>, prepared: map<nat, ContextRecord>)
    requires PreparedInv(events, claims, prepared)
    requires forall k :: k in events ==> k in events'
    requires forall k :: k in events ==>
               events'[k].(isProtected := events[k].isProtected, indexedAt := events[k].indexedAt) == events[k]
    ensures PreparedInv(events', claims, prepared)
  {
    forall token | token in prepared
      ensures UpToFlag(prepared[token]) == UpToFlag(Projection(claims[token].key, events'[claims[token].key]))
    {
      var k := claims[token].key;
      ProjectionUpToFlag(k, events[k], events'[k].isProtected, events'[k].indexedAt);
    }
  }

  lemma PreparedStep(s: System, step: Step, maxAttempts: nat)
    requires PreparedInv(s.db.events, s.claims, s.prepared) && Enabled(s, step)
    requires RowInv(s.db.events, s.db.outbox, maxAttempts)
    ensures var s' := Next(s, step, maxAttempts); PreparedInv(s'.db.events, s'.claims, s'.prepared)
  {
    hide CompleteClaim, MarkIndexed, AppendEvent, Upsert, SetProtected, Projection, LeaseRows, FailClaim, RetryFailed,
      ReleaseClaim, ReleaseOwner, IsClaimSelection;
    var s' := Next(s, step, maxAttempts);
    RecordedEventsStay(s, step, maxAttempts);
    SameLogKeepsPrepared(s.db.events, s'.db.events, s.claims, s.prepared);
    if step.Claim? {
      ClaimsAreEvents(s.db, step.owner, step.now, step.limit, step.rows);
    } else {
      hide NewClaims, RowInv;
    }
  }

  lemma RecordedEventsStay(s: System, step: Step, maxAttempts: nat)
    requires Enabled(s, step)
    ensures var events' := Next(s, step, maxAttempts).db.events;
            forall k :: k in s.db.events ==>
              k in events' &&
              events'[k].(isProtected := s.db.events[k].isProtected, indexedAt := s.db.events[k].indexedAt) ==
              s.db.events[k]
  {
    hide CompleteClaim, MarkIndexed, AppendEvent, Upsert, SetProtected, Projection, LeaseRows, FailClaim, RetryFailed,
      ReleaseClaim, ReleaseOwner, IsClaimSelection;
    if step.Append? {
      AppendKeepsEvents(s.db, step.key, step.draft, step.now);
    } else {
      OnlyAppendsExtendTheLog(s, step, maxAttempts);
    }
  }

  lemma ClaimsAreEvents(db: Database, owner: string, now: Time, limit: int, rows: seq<EventKey>)
    requires IsClaimSelection(db, owner, now, limit, rows) && db.outbox.Keys == db.events.Keys
    ensures forall i :: 0 <= i < |NewClaims(db, rows)| ==> NewClaims(db, rows)[i].key in db.events
  {
    forall i | 0 <= i < |rows|
      ensures rows[i] in db.events
    {
      assert rows[i] in ClaimableKeys(db, owner, now);
    }
  }

  lemma AppendKeepsEvents(db: Database, key: EventKey, draft: Draft, now: Time)
    ensures forall k :: k in db.events ==>
              var events' := AppendEvent(db, key, draft, now).db.events; k in events' && events'[k] == db.events[k]
  {
  }

  // ---- Completions and failures ----

  lemma FinishKeepsHistory(db: Database, key: EventKey, at: Time, completions: seq<EventKey>)
    requires HistoryInv(db.outbox, completions)
    requires key in db.outbox && key in db.events && db.outbox[key].Active()
    ensures HistoryInv(FinishRow(db, key, at).outbox, completions + [key])
  {
    assert forall k :: k in completions + [key] <==> k in completions || k == key;
  }

  // A change that processes no row and removes none.
  ghost predicate KeepsProcessed(outbox: map<EventKey, OutboxRow>, outbox': map<EventKey, OutboxRow>) {
    && (forall k :: k in outbox ==> k in outbox' && outbox'[k].processedAt == outbox[k].processedAt)
    && (forall k :: k in outbox' && k !in outbox ==> outbox'[k].processedAt.None?)
  }

  lemma SameHistory(outbox: map<EventKey, OutboxRow>, outbox': map<EventKey, OutboxRow>, completions: seq<EventKey>)
    requires HistoryInv(outbox, completions) && KeepsProcessed(outbox, outbox')
    ensures HistoryInv(outbox', completions)
  {
  }

  lemma OtherStepsProcessNothing(s: System, step: Step, maxAttempts: nat)
    requires Enabled(s, step) && !step.Claim? && !step.Complete? && !step.Mark? && s.db.events.Keys == s.db.outbox.Keys
    ensures var s' := Next(s, step, maxAttempts);
            s'.completions == s.completions && KeepsProcessed(s.db.outbox, s'.db.outbox)
  {
    hide CompleteClaim, MarkIndexed, Upsert, SetProtected, Projection, FinishRow, AppendEvent, LeaseRows, NewClaims,
      FailClaim, RetryFailed, ReleaseClaim, ReleaseOwner, KeepsProcessed, SameRows, Appends;
    match step
    case Append(key, draft, now) => AppendProcessesNothing(s.db, key, draft, now);
    case Fail(token, now, retryAfter) =>
      var claim := s.claims[token];
      FailProcessesNothing(s.db, claim.key, token, now, retryAfter, LastAttempt(claim, maxAttempts));
    case Release(token) =>
      ReleasesKeepRows(s.db, s.claims[token].key, token, "");
      SameRowsSameProcessed(s.db.outbox, Next(s, step, maxAttempts).db.outbox);
    case ReleaseAll(owner) =>
      ReleasesKeepRows(s.db, EventKey(ThreadKey("", ""), ""), 0, owner);
      SameRowsSameProcessed(s.db.outbox, Next(s, step, maxAttempts).db.outbox);
    case Retry(key, now) => RetryProcessesNothing(s.db, key, now);
    case _ => NothingProcessed(s.db.outbox);
  }

  lemma NothingProcessed(outbox: map<EventKey, OutboxRow>)
    ensures KeepsProcessed(outbox, outbox)
  {
  }

  lemma SameRowsSameProcessed(outbox: map<EventKey, OutboxRow>, outbox': map<EventKey, OutboxRow>)
    requires SameRows(outbox, outbox')
    ensures KeepsProcessed(outbox, outbox')
  {
    forall k | k in outbox
      ensures outbox'[k].processedAt == outbox[k].processedAt
    {
      assert outbox'[k].(lease := outbox[k].lease) == outbox[k];
    }
  }

  lemma FailProcessesNothing(db: Database, key: EventKey, token: nat, now: Time, retryAfter: Time, terminal: bool)
    ensures KeepsProcessed(db.outbox, FailClaim(db, key, token, now, retryAfter, terminal).db.outbox)
  {
  }

  lemma RetryProcessesNothing(db: Database, key: EventKey, now: Time)
    ensures KeepsProcessed(db.outbox, RetryFailed(db, key, now).outbox)
  {
  }

  lemma AppendProcessesNothing(db: Database, key: EventKey, draft: Draft, now: Time)
    requires db.events.Keys == db.outbox.Keys
    ensures KeepsProcessed(db.outbox, AppendEvent(db, key, draft, now).db.outbox)
  {
    hide LinkedEvents, Writable, Same, NewEvent;
  }

  lemma HistoryStep(s: System, step: Step, maxAttempts: nat)
    requires HistoryInv(s.db.outbox, s.completions) && Enabled(s, step)
    requires RowInv(s.db.events, s.db.outbox, maxAttempts)
    ensures var s' := Next(s, step, maxAttempts); HistoryInv(s'.db.outbox, s'.completions)
  {
    hide CompleteClaim, MarkIndexed, Upsert, Projection, IsClaimSelection, SetProtected, FinishRow, HistoryInv,
      AppendEvent, FailClaim, ReleaseClaim, ReleaseOwner, RetryFailed, KeepsProcessed, SameRows, LeaseRows;
    var s' := Next(s, step, maxAttempts);
    match step
    case Claim(owner, now, limit, lease, rows) =>
      ClaimKeepsRows(s.db, owner, now, limit, now + MaxTime(1.0, lease), rows, |s.claims|);
      SameRowsSameProcessed(s.db.outbox, s'.db.outbox);
      SameHistory(s.db.outbox, s'.db.outbox, s.completions);
    case Complete(token, now) =>
      if LiveClaim(s.db, s.claims[token].key, token) {
        FinishKeepsHistory(s.db, s.claims[token].key, now, s.completions);
      }
    case Mark(token, now) =>
      if LiveClaim(s.db, s.claims[token].key, token) {
        FinishKeepsHistory(s.db, s.claims[token].key, now, s.completions);
      }
    case _ =>
      OtherStepsProcessNothing(s, step, maxAttempts);
      SameHistory(s.db.outbox, s'.db.outbox, s.completions);
  }

  lemma RewriteAllowance(outbox: map<EventKey, OutboxRow>, key: EventKey, row: OutboxRow, maxAttempts: nat)
    ensures var before := if key in outbox then AttemptsLeft(outbox[key], maxAttempts) else 0;
            Sum(Allowance(outbox[key := row], maxAttempts)) + before
            == Sum(Allowance(outbox, maxAttempts)) + AttemptsLeft(row, maxAttempts)
  {
    SumUpdate(Allowance(outbox, maxAttempts), key, AttemptsLeft(row, maxAttempts));
    assert Allowance(outbox[key := row], maxAttempts)
        == Allowance(outbox, maxAttempts)[key := AttemptsLeft(row, maxAttempts)];
  }

  // Leasing or releasing rows changes neither their state nor their attempts.
  lemma SameAllowance(outbox: map<EventKey, OutboxRow>, outbox': map<EventKey, OutboxRow>, maxAttempts: nat)
    requires SameRows(outbox, outbox')
    ensures Sum(Allowance(outbox', maxAttempts)) == Sum(Allowance(outbox, maxAttempts))
  {
    forall k | k in outbox
      ensures AttemptsLeft(outbox'[k], maxAttempts) == AttemptsLeft(outbox[k], maxAttempts)
    {
      assert outbox'[k].attempts == outbox[k].attempts;
    }
    assert Allowance(outbox', maxAttempts) == Allowance(outbox, maxAttempts);
  }

  // A finished row needs no further attempts.
  lemma FinishAllowance(db: Database, key: EventKey, at: Time, maxAttempts: nat)
    requires key in db.outbox && key in db.events
    ensures Sum(Allowance(FinishRow(db, key, at).outbox, maxAttempts)) <= Sum(Allowance(db.outbox, maxAttempts))
  {
    RewriteAllowance(db.outbox, key, FinishRow(db, key, at).outbox[key], maxAttempts);
  }

  // A failure spends one of the attempts its row still had.
  lemma FailAllowance(db: Database, claim: Grant, token: nat, now: Time, retryAfter: Time, maxAttempts: nat)
    requires claim.key in db.outbox && db.outbox[claim.key].HeldBy(token)
    requires db.outbox[claim.key].Active() && db.outbox[claim.key].attempts == claim.attempts < maxAttempts
    ensures var outbox' := FailClaim(db, claim.key, token, now, retryAfter, LastAttempt(claim, maxAttempts)).db.outbox;
            Sum(Allowance(outbox', maxAttempts)) + 1 <= Sum(Allowance(db.outbox, maxAttempts))
  {
    var outbox' := FailClaim(db, claim.key, token, now, retryAfter, LastAttempt(claim, maxAttempts)).db.outbox;
    RewriteAllowance(db.outbox, claim.key, outbox'[claim.key], maxAttempts);
  }

  lemma AppendAllowance(db: Database, key: EventKey, draft: Draft, now: Time, maxAttempts: nat)
    requires db.events.Keys == db.outbox.Keys && key !in db.events && AppendEvent(db, key, draft, now).outcome.Ok?
    ensures Sum(Allowance(AppendEvent(db, key, draft, now).db.outbox, maxAttempts))
         == Sum(Allowance(db.outbox, maxAttempts)) + maxAttempts
  {
    RewriteAllowance(db.outbox, key, AppendEvent(db, key, draft, now).db.outbox[key], maxAttempts);
  }

  lemma RetryAllowance(db: Database, key: EventKey, now: Time, maxAttempts: nat)
    requires Retryable(db, key)
    ensures Sum(Allowance(RetryFailed(db, key, now).outbox, maxAttempts))
         == Sum(Allowance(db.outbox, maxAttempts)) + maxAttempts
  {
    RewriteAllowance(db.outbox, key, RetryFailed(db, key, now).outbox[key], maxAttempts);
  }

  // What failures have spent and rows may still spend.
  ghost function Spent(s: System, maxAttempts: nat): nat {
    s.failures + Sum(Allowance(s.db.outbox, maxAttempts))
  }

  // A failure moves one attempt from the rows' allowance to what is spent.
  lemma FailSpends(s: System, token: nat, now: Time, retryAfter: Time, maxAttempts: nat)
    requires Enabled(s, Fail(token, now, retryAfter))
    requires RowInv(s.db.events, s.db.outbox, maxAttempts) && LeaseInv(s.db.outbox, s.claims)
    ensures var s' := Next(s, Fail(token, now, retryAfter), maxAttempts);
            s'.appends == s.appends && s'.retries == s.retries && Spent(s', maxAttempts) <= Spent(s, maxAttempts)
  {
    hide Allowance, IsThreadHead;
    var s' := Next(s, Fail(token, now, retryAfter), maxAttempts);
    if s'.failures != s.failures {
      FailAllowance(s.db, s.claims[token], token, now, retryAfter, maxAttempts);
    }
  }

  // Finishing, releasing and leasing rows spends nothing.
  lemma WorkSpends(s: System, step: Step, maxAttempts: nat)
    requires Enabled(s, step)
    requires step.Claim? || step.Complete? || step.Mark? || step.Release? || step.ReleaseAll?
    requires RowInv(s.db.events, s.db.outbox, maxAttempts) && LeaseInv(s.db.outbox, s.claims)
    ensures var s' := Next(s, step, maxAttempts);
            s'.appends == s.appends && s'.retries == s.retries && Spent(s', maxAttempts) <= Spent(s, maxAttempts)
  {
    hide Upsert, ReleaseOwner, ReleaseClaim, Allowance, IsClaimSelection, IsThreadHead, Projection, NewClaims,
      LeaseRows;
    var s' := Next(s, step, maxAttempts);
    match step {
      case Claim(owner, now, limit, lease, rows) =>
        ClaimKeepsRows(s.db, owner, now, limit, now + MaxTime(1.0, lease), rows, |s.claims|);
        SameAllowance(s.db.outbox, s'.db.outbox, maxAttempts);
      case Complete(token, now) =>
        if s'.db != s.db {
          FinishAllowance(s.db, s.claims[token].key, now, maxAttempts);
        }
      case Mark(token, now) =>
        if s'.db != s.db {
          FinishAllowance(s.db, s.claims[token].key, now, maxAttempts);
        }
      case Release(token) =>
        ReleasesKeepRows(s.db, s.claims[token].key, token, "");
        SameAllowance(s.db.outbox, s'.db.outbox, maxAttempts);
      case ReleaseAll(owner) =>
        ReleasesKeepRows(s.db, EventKey(ThreadKey("", ""), ""), 0, owner);
        SameAllowance(s.db.outbox, s'.db.outbox, maxAttempts);
    }
  }

  // Only appends and operator retries pay in, maxAttempts at a time.
  lemma StepSpends(s: System, step: Step, maxAttempts: nat)
    requires Enabled(s, step)
    requires RowInv(s.db.events, s.db.outbox, maxAttempts) && LeaseInv(s.db.outbox, s.claims)
    ensures var s' := Next(s, step, maxAttempts);
            var paid := s'.appends + s'.retries - s.appends - s.retries;
            && 0 <= paid <= 1
            && Spent(s', maxAttempts) <= Spent(s, maxAttempts) + if paid == 1 then maxAttempts else 0
  {
    hide AppendEvent, Upsert, Allowance, SetProtected, IsClaimSelection, CompleteClaim, MarkIndexed, FailClaim,
      ReleaseClaim, ReleaseOwner, LeaseRows, LeaseInv;
    match step
    case Append(key, draft, now) =>
      if Appends(s, step) {
        AppendAllowance(s.db, key, draft, now, maxAttempts);
      }
    case Fail(token, now, retryAfter) => FailSpends(s, token, now, retryAfter, maxAttempts);
    case Retry(key, now) =>
      if Retryable(s.db, key) {
        RetryAllowance(s.db, key, now, maxAttempts);
      }
    case Prepare(_) =>
    case Protect(_, _) =>
    case Write(_) =>
    case Delete(_) =>
    case _ => WorkSpends(s, step, maxAttempts);
  }

  lemma FailureStep(s: System, step: Step, maxAttempts: nat)
    requires FailureInv(s, maxAttempts) && Enabled(s, step)
    requires RowInv(s.db.events, s.db.outbox, maxAttempts) && LeaseInv(s.db.outbox, s.claims)
    ensures FailureInv(Next(s, step, maxAttempts), maxAttempts)
  {
    hide Next, Enabled, RowInv, LeaseInv;
    StepSpends(s, step, maxAttempts);
    assert maxAttempts * (s.appends + s.retries + 1) == maxAttempts * (s.appends + s.retries) + maxAttempts;
  }

  // ---- One step, all invariants ----

  lemma StepKeepsInv(s: System, step: Step, maxAttempts: nat)
    requires Inv(s, maxAttempts) && Enabled(s, step) && 0 < maxAttempts
    ensures Inv(Next(s, step, maxAttempts), maxAttempts)
  {
    hide Next, CountInv, LogInv, RowInv, LeaseInv, RecordInv, PreparedInv, HistoryInv, FailureInv, Enabled;
    CountStep(s, step, maxAttempts);
    LogStep(s, step, maxAttempts);
    RowStep(s, step, maxAttempts);
    LeaseStep(s, step, maxAttempts);
    RecordStep(s, step, maxAttempts);
    PreparedStep(s, step, maxAttempts);
    HistoryStep(s, step, maxAttempts);
    FailureStep(s, step, maxAttempts);
  }
}
