// What a caller of the outbox can rely on, in the columns of its rows and the fields of its
// events and records.

module OutboxGuarantees {
  import opened Results
  import opened Models
  import opened Tables
  import opened Values
  import opened Protocol
  import opened ProtocolRuns

  // ---- Appending ----

  // A new event ID is accepted if and only if nothing in the namespace has its record ID and its
  // metadata can be written; it is then stored as drafted, next in its thread, with a pending row.
  lemma NewEventIsStored(s: System, key: EventKey, draft: Draft, now: Time, maxAttempts: nat)
    requires key !in s.db.events
    ensures var after := Next(s, Append(key, draft, now), maxAttempts).db;
            var accepted := AppendEvent(s.db, key, draft, now).outcome.Ok?;
            && (accepted <==>
                  && (forall k :: k in s.db.events && k.thread.namespace == key.thread.namespace ==>
                        s.db.events[k].recordId != draft.recordId)
                  && RecordKey(key.thread.namespace, draft.recordId) !in s.db.records
                  && Writable(PyDict(draft.metadata)))
            && (!accepted ==> after == s.db && key !in after.events)
            && (accepted ==>
                  var event := after.events[key];
                  && after.events == s.db.events[key := event]
                  && event.role == draft.role && event.content == draft.content && event.importance == draft.importance
                  && event.isProtected == draft.isProtected && event.tokenCount == draft.tokenCount
                  && event.recordId == draft.recordId && event.eventId == key.eventId
                  && event.createdAt == now && event.indexedAt == None
                  && JObject(event.metadata) == RoundTrip(PyDict(draft.metadata)))
            && (accepted ==>
                  var sequence := (if key.thread in s.db.heads then s.db.heads[key.thread] else 0) + 1;
                  && after.events[key].sequence == sequence && after.heads == s.db.heads[key.thread := sequence]
                  && after.outbox == s.db.outbox[key := OutboxRow(sequence, now, now, 0, None, None, None)]
                  && after.records == s.db.records)
  {
    hide RoundTrip, Writable;
    var linked := LinkedEvents(s.db, RecordKey(key.thread.namespace, draft.recordId));
    forall k | k in s.db.events && k.thread.namespace == key.thread.namespace && k !in linked
      ensures s.db.events[k].recordId != draft.recordId
    {
    }
    if Writable(PyDict(draft.metadata)) {
      StoredIsObject(draft.metadata);
    }
  }

  // An object that JSON cannot write, a date say, is refused with the whole event.
  lemma UnwritableIsRefused(db: Database, key: EventKey, draft: Draft, name: string, text: string, now: Time)
    requires key !in db.events && Text(name) in draft.metadata && draft.metadata[Text(name)] == PyObject(text, None)
    ensures AppendEvent(db, key, draft, now).outcome.Err? && AppendEvent(db, key, draft, now).db == db
  {
    assert !Writable(draft.metadata[Text(name)]);
  }

  // ---- Claiming ----

  // A claim takes only rows that are waiting, due and free to this owner, with nothing waiting
  // below them in their thread; in order of creation, then sequence.
  lemma ClaimTakesOldestHeads(db: Database, owner: string, now: Time, limit: int, rows: seq<EventKey>)
    requires IsClaimSelection(db, owner, now, limit, rows)
    ensures forall k :: k in rows ==>
              && k in db.outbox && db.outbox[k].processedAt.None? && db.outbox[k].terminalAt.None?
              && db.outbox[k].availableAt <= now
              && (db.outbox[k].lease.Some? ==>
                    db.outbox[k].lease.value.owner != owner && db.outbox[k].lease.value.until <= now)
              && forall j :: j in db.outbox && j.thread == k.thread && db.outbox[j].processedAt.None? ==>
                   (db.outbox[j].terminalAt.None? ==> db.outbox[k].sequence <= db.outbox[j].sequence)
    ensures |rows| <= (if limit < 1 then 1 else limit)
    ensures forall i, j :: 0 <= i < j < |rows| ==>
              && rows[i] != rows[j] && rows[i] in db.outbox && rows[j] in db.outbox
              && var a, b := db.outbox[rows[i]], db.outbox[rows[j]];
                 a.createdAt < b.createdAt || (a.createdAt == b.createdAt && a.sequence <= b.sequence)
  {
    var candidates := ClaimableKeys(db, owner, now);
    assert forall k :: k in rows ==> k in candidates;
    assert forall i :: 0 <= i < |rows| ==> rows[i] in rows;
  }

  // And such a row is left out only for want of room, in favour of none that comes later.
  lemma ClaimLeavesNoneOut(db: Database, owner: string, now: Time, limit: int, rows: seq<EventKey>, k: EventKey)
    requires IsClaimSelection(db, owner, now, limit, rows)
    requires k in db.outbox && k !in rows && db.outbox[k].processedAt.None? && db.outbox[k].terminalAt.None?
    requires db.outbox[k].availableAt <= now
    requires db.outbox[k].lease.Some? ==>
               db.outbox[k].lease.value.owner != owner && db.outbox[k].lease.value.until <= now
    requires forall j :: j in db.outbox && j.thread == k.thread && db.outbox[j].processedAt.None? ==>
               (db.outbox[j].terminalAt.None? ==> db.outbox[k].sequence <= db.outbox[j].sequence)
    ensures |rows| == if limit < 1 then 1 else limit
    ensures forall i :: 0 <= i < |rows| ==>
              && rows[i] in db.outbox
              && var a, b := db.outbox[rows[i]], db.outbox[k];
                 a.createdAt < b.createdAt || (a.createdAt == b.createdAt && a.sequence <= b.sequence)
  {
    assert k in ClaimableKeys(db, owner, now);
    AllTaken(rows, ClaimableKeys(db, owner, now));
  }

  // As many as there are candidates, and each a candidate, leaves none out.
  lemma {:induction false} AllTaken<T>(rows: seq<T>, candidates: set<T>)
    requires forall i :: 0 <= i < |rows| ==> rows[i] in candidates
    requires forall i, j :: 0 <= i < j < |rows| ==> rows[i] != rows[j]
    ensures |rows| >= |candidates| ==> forall k :: k in candidates ==> k in rows
    decreases |rows|
  {
    if rows == [] {
      assert |candidates| == 0 ==> candidates == {};
    } else {
      var last := |rows| - 1;
      AllTaken(rows[..last], candidates - {rows[last]});
      assert rows == rows[..last] + [rows[last]];
    }
  }

  // The rows taken are leased to the owner for the time asked, one second at least, each under
  // its own new token; nothing else changes.
  lemma ClaimLeasesWhatItTakes(s: System, owner: string, now: Time, limit: int, lease: Time, rows: seq<EventKey>,
                               maxAttempts: nat)
    requires Enabled(s, Claim(owner, now, limit, lease, rows))
    ensures var after := Next(s, Claim(owner, now, limit, lease, rows), maxAttempts);
            var until := now + if lease < 1.0 then 1.0 else lease;
            && after.db == s.db.(outbox := after.db.outbox) && after.db.outbox.Keys == s.db.outbox.Keys
            && |after.claims| == |s.claims| + |rows| && s.claims <= after.claims
            && (forall k :: k in s.db.outbox && k !in rows ==> after.db.outbox[k] == s.db.outbox[k])
            && forall i :: 0 <= i < |rows| ==>
                 && rows[i] in s.db.outbox
                 && after.claims[|s.claims| + i] == Grant(rows[i], s.db.outbox[rows[i]].attempts)
                 && after.db.outbox[rows[i]]
                    == s.db.outbox[rows[i]].(lease := Some(Lease(owner, until, |s.claims| + i)))
  {
    hide LeaseRows, IsClaimSelection, NewClaims;
    SelectedAreRows(s.db, owner, now, limit, rows);
    SelectedAreDistinct(s.db, owner, now, limit, rows);
    GrantsAppended(s.db, s.claims, rows);
    LeasedRows(s.db.outbox, rows, owner, now + MaxTime(1.0, lease), |s.claims|);
  }

  lemma GrantsAppended(db: Database, claims: seq<Grant>, rows: seq<EventKey>)
    requires forall i :: 0 <= i < |rows| ==> rows[i] in db.outbox
    ensures var after := claims + NewClaims(db, rows);
            && |after| == |claims| + |rows| && claims <= after
            && forall i :: 0 <= i < |rows| ==> after[|claims| + i] == Grant(rows[i], db.outbox[rows[i]].attempts)
  {
  }

  lemma SelectedAreDistinct(db: Database, owner: string, now: Time, limit: int, rows: seq<EventKey>)
    requires IsClaimSelection(db, owner, now, limit, rows)
    ensures forall i, j :: 0 <= i < j < |rows| ==> rows[i] != rows[j]
  {
  }

  lemma LeasedRows(outbox: map<EventKey, OutboxRow>, rows: seq<EventKey>, owner: string, until: Time, firstToken: nat)
    requires forall i :: 0 <= i < |rows| ==> rows[i] in outbox
    requires forall i, j :: 0 <= i < j < |rows| ==> rows[i] != rows[j]
    ensures var after := LeaseRows(outbox, rows, owner, until, firstToken);
            && after.Keys == outbox.Keys
            && (forall k :: k in outbox && k !in rows ==> after[k] == outbox[k])
            && forall i :: 0 <= i < |rows| ==>
                 after[rows[i]] == outbox[rows[i]].(lease := Some(Lease(owner, until, firstToken + i)))
  {
    hide LeaseRows;
    LeaseRowsEffect(outbox, rows, owner, until, firstToken);
    var after := LeaseRows(outbox, rows, owner, until, firstToken);
    forall i | 0 <= i < |rows|
      ensures after[rows[i]] == outbox[rows[i]].(lease := Some(Lease(owner, until, firstToken + i)))
    {
      assert after[rows[i]].(lease := outbox[rows[i]].lease) == outbox[rows[i]];
    }
  }

  // ---- Completing ----

  // In every reachable state a record under an event's identifier shows that event: its content
  // and not its role, its own numbers and metadata, the reserved fields beside them, and nobody
  // but its thread may see it.
  lemma ReservedRecordShowsItsEvent(steps: seq<Step>, maxAttempts: nat, key: EventKey)
    requires 0 < maxAttempts && ValidRun(START, steps, maxAttempts)
    requires var db := After(START, steps, maxAttempts).db;
             key in db.events && RecordKey(key.thread.namespace, db.events[key].recordId) in db.records
    ensures var db := After(START, steps, maxAttempts).db;
            var event := db.events[key];
            var record := db.records[RecordKey(key.thread.namespace, event.recordId)];
            && record.namespace == key.thread.namespace && record.id == event.recordId
            && record.text == event.content && record.source == "conversation:" + key.thread.session
            && record.importance == event.importance && record.tokenCount == event.tokenCount
            && record.expiresAt == None
            && record.scope == Thread && record.owner == Some(key.thread.session) && record.team == None
    ensures var db := After(START, steps, maxAttempts).db;
            var event := db.events[key];
            var metadata := db.records[RecordKey(key.thread.namespace, event.recordId)].metadata;
            var reserved := {"kind", "session_id", "role", "turn", "event_id", "protected"};
            && metadata.Keys == event.metadata.Keys + reserved
            && metadata["kind"] == JString("conversation") && metadata["session_id"] == JString(key.thread.session)
            && metadata["role"] == JString(event.role) && metadata["turn"] == JNumber(event.sequence as real)
            && metadata["event_id"] == JString(key.eventId) && metadata["protected"] == JBool(event.isProtected)
            && forall field :: field in event.metadata && field !in reserved ==>
                 metadata[field] == event.metadata[field]
  {
    hide Next, Enabled;
    ReservedRecordIsProjection(steps, maxAttempts, key);
  }

  // The token still leases the row of its claim.
  ghost predicate Holds(s: System, token: nat) {
    && token < |s.claims| && s.claims[token].key in s.db.outbox
    && s.db.outbox[s.claims[token].key].lease.Some?
    && s.db.outbox[s.claims[token].key].lease.value.token == token
  }

  // A worker that still holds its lease always completes: the row is processed, the event
  // indexed, the record stored with the event's content and its present protection, the event
  // added to the completions, and nothing else changes. A worker that does not changes nothing.
  lemma CompletionIsExact(steps: seq<Step>, maxAttempts: nat, token: nat, now: Time)
    requires 0 < maxAttempts && ValidRun(START, steps, maxAttempts)
    requires Enabled(After(START, steps, maxAttempts), Complete(token, now))
    ensures var s := After(START, steps, maxAttempts);
            var after := Next(s, Complete(token, now), maxAttempts);
            && (!Holds(s, token) ==> after == s)
            && (Holds(s, token) ==>
                  var key := s.claims[token].key;
                  && key in s.db.events && s.db.events[key].indexedAt == None
                  && Finished(s, after, key, now)
                  && var event := s.db.events[key];
                     var id := RecordKey(key.thread.namespace, event.recordId);
                     && id in after.db.records && after.db.records == s.db.records[id := after.db.records[id]]
                     && after.db.records[id].text == event.content && "protected" in after.db.records[id].metadata
                     && after.db.records[id].metadata["protected"] == JBool(event.isProtected))
  {
    hide Next, Enabled, CountInv, LogInv, ReservedInv, HistoryInv, FailureInv, MaxTime;
    ReachableInv(steps, maxAttempts);
    var s := After(START, steps, maxAttempts);
    CompletionStep(s, token, now, maxAttempts);
  }

  // Row, event and history change together.
  ghost predicate Finished(s: System, after: System, key: EventKey, now: Time) {
    && key in s.db.outbox && key in s.db.events
    && after == s.(db := after.db, completions := s.completions + [key])
    && after.db.heads == s.db.heads
    && after.db.outbox == s.db.outbox[key := s.db.outbox[key].(processedAt := Some(now), lease := None)]
    && after.db.events == s.db.events[key := s.db.events[key].(indexedAt := Some(now))]
  }

  lemma CompletionStep(s: System, token: nat, now: Time, maxAttempts: nat)
    requires RowInv(s.db.events, s.db.outbox, maxAttempts) && LeaseInv(s.db.outbox, s.claims)
    requires RecordInv(s.db.events, s.db.records) && PreparedInv(s.db.events, s.claims, s.prepared)
    requires Enabled(s, Complete(token, now))
    ensures var after := Next(s, Complete(token, now), maxAttempts);
            && (!Holds(s, token) ==> after == s)
            && (Holds(s, token) ==>
                  var key := s.claims[token].key;
                  var event := s.db.events[key];
                  && event.indexedAt == None && Finished(s, after, key, now)
                  && after.db.records
                     == s.db.records[RecordKey(key.thread.namespace, event.recordId) := Projection(key, event)])
  {
    hide Upsert, IsThreadHead, PreparedInv, RecordInv, Projection;
    if Holds(s, token) {
      assert LiveClaim(s.db, s.claims[token].key, token);
      LiveCompletionSucceeds(s, token, now);
    }
  }

  // A claim whose event is indexed already is finished the same way, without a record.
  lemma MarkIsExact(steps: seq<Step>, maxAttempts: nat, token: nat, now: Time)
    requires 0 < maxAttempts && ValidRun(START, steps, maxAttempts)
    requires Enabled(After(START, steps, maxAttempts), Mark(token, now))
    ensures var s := After(START, steps, maxAttempts);
            var after := Next(s, Mark(token, now), maxAttempts);
            if !Holds(s, token) then after == s
            else Finished(s, after, s.claims[token].key, now) && after.db.records == s.db.records
  {
    hide After, ValidRun, IsThreadHead, Allowance, CountInv, LogInv, ReservedInv, RecordInv, PreparedInv, HistoryInv,
      FailureInv;
    ReachableInv(steps, maxAttempts);
  }

  // ---- Failing, releasing, retrying ----

  // A failure costs one attempt and delays the row by what was asked, a hundredth of a second at
  // least; it quarantines the row exactly when no attempt is left. A worker that has lost its
  // lease changes nothing.
  lemma FailureIsExact(steps: seq<Step>, maxAttempts: nat, token: nat, now: Time, retryAfter: Time)
    requires 0 < maxAttempts && ValidRun(START, steps, maxAttempts)
    requires Enabled(After(START, steps, maxAttempts), Fail(token, now, retryAfter))
    ensures var s := After(START, steps, maxAttempts);
            var after := Next(s, Fail(token, now, retryAfter), maxAttempts);
            if !Holds(s, token) then after == s
            else
              var key := s.claims[token].key;
              var spent := s.db.outbox[key].attempts + 1;
              && after == s.(db := s.db.(outbox := after.db.outbox), failures := s.failures + 1)
              && after.db.outbox == s.db.outbox[key := s.db.outbox[key].(
                   attempts := spent,
                   availableAt := now + (if retryAfter < 0.01 then 0.01 else retryAfter),
                   terminalAt := if spent >= maxAttempts then Some(now) else None,
                   lease := None)]
  {
    hide After, ValidRun, IsThreadHead, Allowance, CountInv, LogInv, ReservedInv, RecordInv, PreparedInv, HistoryInv,
      FailureInv;
    ReachableInv(steps, maxAttempts);
  }

  // A release drops the lease of the row that is held, and of no other; an owner that leaves
  // drops all of its own.
  lemma ReleaseIsExact(steps: seq<Step>, maxAttempts: nat, token: nat, owner: string)
    requires 0 < maxAttempts && ValidRun(START, steps, maxAttempts)
    requires token < |After(START, steps, maxAttempts).claims|
    ensures var s := After(START, steps, maxAttempts);
            var one, all := Next(s, Release(token), maxAttempts), Next(s, ReleaseAll(owner), maxAttempts);
            && one == s.(db := s.db.(outbox := one.db.outbox)) && one.db.outbox.Keys == s.db.outbox.Keys
            && all == s.(db := s.db.(outbox := all.db.outbox)) && all.db.outbox.Keys == s.db.outbox.Keys
            && forall k :: k in s.db.outbox ==>
                 var row := s.db.outbox[k];
                 && one.db.outbox[k] == (if row.lease.Some? && row.lease.value.token == token then row.(lease := None)
                                         else row)
                 && all.db.outbox[k] == (if row.lease.Some? && row.lease.value.owner == owner then row.(lease := None)
                                         else row)
  {
    hide After, ValidRun, IsThreadHead, Allowance, CountInv, LogInv, ReservedInv, RecordInv, PreparedInv, HistoryInv,
      FailureInv;
    ReachableInv(steps, maxAttempts);
  }

  // An operator's retry starts a quarantined row afresh, unless another row of its thread is
  // leased; then, and for any row that is not quarantined, it changes nothing.
  lemma RetryIsExact(steps: seq<Step>, maxAttempts: nat, key: EventKey, now: Time)
    requires 0 < maxAttempts && ValidRun(START, steps, maxAttempts)
    ensures var s := After(START, steps, maxAttempts);
            var after := Next(s, Retry(key, now), maxAttempts);
            if && key in s.db.outbox && s.db.outbox[key].terminalAt.Some?
               && (forall k :: k in s.db.outbox && k.thread == key.thread && k != key ==> s.db.outbox[k].lease.None?)
            then
              after == s.(retries := s.retries + 1, db := s.db.(outbox := s.db.outbox[key :=
                s.db.outbox[key].(attempts := 0, availableAt := now, terminalAt := None, lease := None)]))
            else after == s
  {
    hide After, ValidRun, IsThreadHead, Allowance, CountInv, LogInv, ReservedInv, RecordInv, PreparedInv, HistoryInv,
      FailureInv;
    ReachableInv(steps, maxAttempts);
  }

  // ---- Flags and records ----

  // An event's flag changes only by a request for that event, and then to what it asks for.
  lemma FlagIsTheLastOneSet(s: System, step: Step, maxAttempts: nat, key: EventKey)
    requires Enabled(s, step) && key in s.db.events
    ensures key in Next(s, step, maxAttempts).db.events
    ensures Next(s, step, maxAttempts).db.events[key].isProtected ==
            if step.Protect? && step.key == key then step.flag else s.db.events[key].isProtected
  {
    hide Upsert, Projection, LeaseRows, IsClaimSelection;
  }

  // Records written directly are stored if and only if no event of the namespace reserves the
  // identifier and what is stored under it has the same boundary.
  lemma DirectWriteIsExact(s: System, record: ContextRecord, maxAttempts: nat)
    ensures var after := Next(s, Write(record), maxAttempts);
            var id := RecordKey(record.namespace, record.id);
            if && (forall k :: k in s.db.events && k.thread.namespace == record.namespace ==>
                     s.db.events[k].recordId != record.id)
               && (id in s.db.records ==>
                     var kept := s.db.records[id];
                     kept.scope == record.scope && kept.owner == record.owner && kept.team == record.team)
            then after == s.(db := s.db.(records := s.db.records[id := record]))
            else after == s
  {
    var linked := LinkedEvents(s.db, record.Key());
    forall k | k in s.db.events && k.thread.namespace == record.namespace && k !in linked
      ensures s.db.events[k].recordId != record.id
    {
    }
  }

  // On the indexer's path a stored record is overwritten only if it belongs to the event: by
  // its event ID, or, written before those were stored, by its session or its source.
  lemma OnlyOwnRecordsAreOverwritten(db: Database, record: ContextRecord, key: EventKey)
    requires record.Key() in db.records && Upsert(db, record, Some(key)).outcome.Ok?
    ensures var existing := db.records[record.Key()];
            var metadata := existing.metadata;
            && existing.scope == Thread && existing.owner == Some(key.thread.session) && existing.team == None
            && "kind" in metadata && metadata["kind"] == JString("conversation")
            && if "event_id" in metadata && metadata["event_id"] != JNull then
                 && metadata["event_id"] == JString(key.eventId)
                 && "session_id" in metadata && metadata["session_id"] == JString(key.thread.session)
               else
                 || ("session_id" in metadata && metadata["session_id"] == JString(key.thread.session))
                 || existing.source == "conversation:" + key.thread.session
  {
  }

  // What the indexer writes names its event, which alone reserves the identifier.
  lemma OnlyProjectionsAreWritten(db: Database, record: ContextRecord, key: EventKey)
    requires Upsert(db, record, Some(key)).outcome.Ok?
    ensures record.scope == Thread && record.owner == Some(key.thread.session) && record.team == None
    ensures var metadata := record.metadata;
            && "kind" in metadata && metadata["kind"] == JString("conversation")
            && "session_id" in metadata && metadata["session_id"] == JString(key.thread.session)
            && "event_id" in metadata && metadata["event_id"] == JString(key.eventId)
    ensures forall k :: k in db.events ==>
              (k.thread.namespace == record.namespace && db.events[k].recordId == record.id <==> k == key)
  {
    var linked := LinkedEvents(db, record.Key());
    assert key in linked;
    forall k | k in db.events
      ensures k.thread.namespace == record.namespace && db.events[k].recordId == record.id <==> k in linked
    {
    }
  }

  // A new flag reaches the stored record under the event's identifier if it is a projection of
  // that event, and no other.
  lemma FlagReachesItsProjection(db: Database, key: EventKey, flag: bool, id: RecordKey)
    requires key in db.events && id in db.records
    ensures var record, after := db.records[id], SetProtected(db, key, flag).db.records;
            var metadata := record.metadata;
            id in after
            && after[id] ==
                 if && id == RecordKey(key.thread.namespace, db.events[key].recordId)
                    && record.scope == Thread && record.owner == Some(key.thread.session) && record.team == None
                    && "kind" in metadata && metadata["kind"] == JString("conversation")
                    && "session_id" in metadata && metadata["session_id"] == JString(key.thread.session)
                    && "event_id" in metadata && metadata["event_id"] == JString(key.eventId)
                 then record.(metadata := metadata["protected" := JBool(flag)])
                 else record
  {
  }
}
