// The durable store as an object whose methods update its tables row by row. Every
// method is proved to perform exactly one transaction of module Tables.

module SqliteStore {
  import opened Results
  import opened Models
  import opened Tables
  import opened Values

  datatype OutboxClaim = OutboxClaim(key: EventKey, sequence: nat, attempts: nat, token: nat)

  // The first of the candidate rows in dispatch order.
  lemma {:induction false} FirstExists(outbox: map<EventKey, OutboxRow>, candidates: set<EventKey>)
    requires candidates != {} && forall k :: k in candidates ==> k in outbox
    ensures exists k :: k in candidates && forall j :: j in candidates ==> ComesFirst(outbox[k], outbox[j])
    decreases |candidates|
  {
    var c :| c in candidates;
    var rest := candidates - {c};
    if rest == {} {
      assert forall j :: j in candidates ==> j == c || j in rest;
      assert ComesFirst(outbox[c], outbox[c]);
    } else {
      FirstExists(outbox, rest);
      var r :| r in rest && forall j :: j in rest ==> ComesFirst(outbox[r], outbox[j]);
      var first := if ComesFirst(outbox[c], outbox[r]) then c else r;
      forall j | j in candidates
        ensures ComesFirst(outbox[first], outbox[j])
      {
        assert j == c || j in rest;
      }
    }
  }

  lemma ClaimableRowsExist(db: Database, owner: string, now: Time)
    ensures forall k :: k in ClaimableKeys(db, owner, now) ==> k in db.outbox
  {
  }

  class SQLiteStore {
    var heads: map<ThreadKey, nat>
    var events: map<EventKey, ContextEvent>
    var outbox: map<EventKey, OutboxRow>
    var records: map<RecordKey, ContextRecord>
    // Stands for uuid4: the next token nobody has seen.
    var nextToken: nat

    function Contents(): Database
      reads this
    {
      Database(heads, events, outbox, records)
    }

    constructor ()
      ensures Contents() == EMPTY_DATABASE && nextToken == 0
    {
      heads, events, outbox, records := map[], map[], map[], map[];
      nextToken := 0;
    }

    method AppendThreadEvent(key: EventKey, draft: Draft, now: Time) returns (outcome: Result<Receipt, StoreError>)
      modifies this
      ensures Txn(Contents(), outcome) == AppendEvent(old(Contents()), key, draft, now)
      ensures nextToken == old(nextToken)
    {
      hide Writable, Same, RoundTrip, StoredMetadata, LinkedEvents;
      if key in events {
        var event := events[key];
        if !SameEvent(event, draft) {
          return Err(EventIdReused);
        }
        return Ok(Receipt(event, ReadBack(event.metadata)));
      }
      var reserved := RecordKey(key.thread.namespace, draft.recordId);
      if LinkedEvents(Contents(), reserved) != {} {
        return Err(RecordIdTaken);
      }
      if reserved in records {
        return Err(RecordIdTaken);
      }
      if !Writable(PyDict(draft.metadata)) {
        return Err(MetadataNotWritable);
      }
      var sequence := 1;
      if key.thread in heads {
        sequence := heads[key.thread] + 1;
      }
      heads := heads[key.thread := sequence];
      var event := NewEvent(key, draft, sequence, now);
      events := events[key := event];
      outbox := outbox[key := OutboxRow(sequence, now, now, 0, None, None, None)];
      outcome := Ok(Receipt(event, Given(draft.metadata)));
    }

    method UpsertRecord(record: ContextRecord, identity: Option<EventKey>)
      returns (outcome: Result<ContextRecord, StoreError>)
      modifies this`records
      ensures Txn(Contents(), outcome) == Upsert(old(Contents()), record, identity)
    {
      var linked := LinkedEvents(Contents(), record.Key());
      match identity {
        case None =>
          if linked != {} {
            return Err(RecordIdReserved);
          }
        case Some(key) =>
          if linked != {key} || !IsEventProjection(record, key) {
            return Err(NotItsProjection);
          }
          if record.Key() in records && !MayOverwrite(records[record.Key()], key) {
            return Err(ProjectionCollides);
          }
      }
      if record.Key() in records && !records[record.Key()].SameVisibility(record) {
        return Err(VisibilityFixed);
      }
      records := records[record.Key() := record];
      outcome := Ok(record);
    }

    // SELECT ... ORDER BY created_at, sequence LIMIT ?
    method SelectThreadHeads(owner: string, now: Time, limit: int) returns (rows: seq<EventKey>)
      ensures IsClaimSelection(Contents(), owner, now, limit, rows)
    {
      hide ComesFirst, Claimable, ClaimableKeys;
      var candidates := ClaimableKeys(Contents(), owner, now);
      ClaimableRowsExist(Contents(), owner, now);
      var remaining := candidates;
      rows := [];
      while |rows| < Max(1, limit) && remaining != {}
        invariant remaining <= candidates
        invariant |rows| + |remaining| == |candidates| && |rows| <= Max(1, limit)
        invariant forall i :: 0 <= i < |rows| ==> rows[i] in candidates && rows[i] !in remaining
        invariant forall k :: k in candidates && k !in remaining ==> k in rows
        invariant forall i, j :: 0 <= i < j < |rows| ==> rows[i] != rows[j]
        invariant forall i, j :: 0 <= i < j < |rows| ==> ComesFirst(outbox[rows[i]], outbox[rows[j]])
        invariant forall i, k :: 0 <= i < |rows| && k in remaining ==> ComesFirst(outbox[rows[i]], outbox[k])
        decreases remaining
      {
        FirstExists(outbox, remaining);
        var row :| row in remaining && forall j :: j in remaining ==> ComesFirst(outbox[row], outbox[j]);
        rows := rows + [row];
        remaining := remaining - {row};
      }
      forall i, k | 0 <= i < |rows| && k in candidates && k !in rows
        ensures ComesFirst(outbox[rows[i]], outbox[k])
      {
        assert k in remaining;
      }
    }

    // Leases the eligible thread heads. The claims say what was leased, under fresh tokens.
    method ClaimOutboxEvents(owner: string, now: Time, limit: int, leaseSeconds: Time)
      returns (claims: seq<OutboxClaim>, ghost rows: seq<EventKey>)
      modifies this`outbox, this`nextToken
      ensures IsClaimSelection(old(Contents()), owner, now, limit, rows)
      ensures Contents() == old(Contents()).(outbox :=
                LeaseRows(old(outbox), rows, owner, now + MaxTime(1.0, leaseSeconds), old(nextToken)))
      ensures |claims| == |rows| && nextToken == old(nextToken) + |rows|
      ensures forall i :: 0 <= i < |rows| ==>
                var row := old(outbox)[rows[i]];
                claims[i] == OutboxClaim(rows[i], row.sequence, row.attempts, old(nextToken) + i)
    {
      hide IsThreadHead, ComesFirst;
      var leaseUntil := now + MaxTime(1.0, leaseSeconds);
      var selected := SelectThreadHeads(owner, now, limit);
      rows := selected;
      claims := [];
      for i := 0 to |selected|
        invariant |claims| == i && nextToken == old(nextToken) + i && outbox == old(outbox)
        invariant forall j :: 0 <= j < i ==>
          claims[j] == OutboxClaim(rows[j], outbox[rows[j]].sequence, outbox[rows[j]].attempts, old(nextToken) + j)
      {
        assert rows[i] in ClaimableKeys(old(Contents()), owner, now);
        var row := outbox[selected[i]];
        claims := claims + [OutboxClaim(selected[i], row.sequence, row.attempts, nextToken)];
        nextToken := nextToken + 1;
      }
      LeaseClaims(claims, owner, now, leaseUntil, rows, old(nextToken));
    }

    // One UPDATE per claim. It repeats the lease condition of the SELECT, which nothing
    // has changed since.
    method LeaseClaims(claims: seq<OutboxClaim>, owner: string, now: Time, leaseUntil: Time, ghost rows: seq<EventKey>,
                       ghost firstToken: nat)
      requires |claims| == |rows|
      requires forall i :: 0 <= i < |rows| ==> claims[i].key == rows[i] && claims[i].token == firstToken + i
      requires forall i :: 0 <= i < |rows| ==>
                 rows[i] in outbox && outbox[rows[i]].Active() && Leasable(outbox[rows[i]], owner, now)
      requires forall i, j :: 0 <= i < j < |rows| ==> rows[i] != rows[j]
      modifies this`outbox
      ensures outbox == LeaseRows(old(outbox), rows, owner, leaseUntil, firstToken)
    {
      for i := 0 to |claims|
        invariant outbox.Keys == old(outbox).Keys
        invariant forall j :: i <= j < |rows| ==> outbox[rows[j]] == old(outbox)[rows[j]]
        invariant LeaseRows(outbox, rows[i..], owner, leaseUntil, firstToken + i)
               == LeaseRows(old(outbox), rows, owner, leaseUntil, firstToken)
      {
        var row := outbox[claims[i].key];
        if row.Active() && Leasable(row, owner, now) {
          outbox := outbox[claims[i].key := row.(lease := Some(Lease(owner, leaseUntil, claims[i].token)))];
        }
        assert rows[i..][1..] == rows[i + 1..];
      }
    }

    method CompleteOutboxClaim(key: EventKey, record: ContextRecord, token: nat, now: Time)
      returns (outcome: Result<ContextRecord, StoreError>)
      modifies this
      ensures Txn(Contents(), outcome) == CompleteClaim(old(Contents()), key, record, token, now)
      ensures nextToken == old(nextToken)
    {
      if !LiveClaim(Contents(), key, token) || key !in events || record.namespace != key.thread.namespace {
        return Err(LeaseLost);
      }
      if events[key].recordId != record.id {
        return Err(NotItsProjection);
      }
      var current := record.(metadata := record.metadata["protected" := JBool(events[key].isProtected)]);
      outcome := UpsertRecord(current, Some(key));
      if outcome.Err? {
        return;
      }
      outbox := outbox[key := outbox[key].(processedAt := Some(now), lease := None)];
      if events[key].indexedAt.None? {
        events := events[key := events[key].(indexedAt := Some(now))];
      }
    }

    // With a token the outbox row comes first and must be held; without one it comes last.
    method MarkThreadEventIndexed(key: EventKey, token: Option<nat>, now: Time)
      returns (outcome: Result<(), StoreError>)
      modifies this`outbox, this`events
      ensures Txn(Contents(), outcome) ==
                if token.Some? then MarkIndexed(old(Contents()), key, token.value, now)
                else Txn(MarkUnfenced(old(Contents()), key, now), Ok(()))
    {
      if token.Some? {
        if !LiveClaim(Contents(), key, token.value) || key !in events {
          return Err(LeaseLost);
        }
        outbox := outbox[key := outbox[key].(processedAt := Some(now), lease := None)];
      }
      if key in events && events[key].indexedAt.None? {
        events := events[key := events[key].(indexedAt := Some(now))];
      }
      if token.None? && key in outbox {
        outbox := outbox[key := outbox[key].(processedAt := Some(now), lease := None)];
      }
      assert token.Some? ==> events == old(events)[key := events[key]];
      outcome := Ok(());
    }

    method ReleaseOutboxClaim(key: EventKey, token: nat) returns (released: bool)
      modifies this`outbox
      ensures Contents() == ReleaseClaim(old(Contents()), key, token)
      ensures released <==> key in old(outbox) && old(outbox)[key].HeldBy(token) && old(outbox)[key].processedAt.None?
    {
      released := key in outbox && outbox[key].HeldBy(token) && outbox[key].processedAt.None?;
      if released {
        outbox := outbox[key := outbox[key].(lease := None)];
      }
    }

    method ReleaseOutboxLeases(owner: string)
      modifies this`outbox
      ensures Contents() == ReleaseOwner(old(Contents()), owner)
    {
      var rest := outbox.Keys;
      ghost var released := ReleaseOwner(Contents(), owner).outbox;
      while rest != {}
        invariant rest <= outbox.Keys == old(outbox).Keys
        invariant forall k :: k in outbox ==> outbox[k] == if k in rest then old(outbox)[k] else released[k]
        decreases rest
      {
        var k :| k in rest;
        var row := outbox[k];
        if row.lease.Some? && row.lease.value.owner == owner && row.processedAt.None? {
          outbox := outbox[k := row.(lease := None)];
        }
        rest := rest - {k};
      }
      assert outbox == released;
    }

    method FailOutboxEvent(key: EventKey, token: Option<nat>, now: Time, retryAfter: Time, terminal: bool)
      returns (outcome: Result<(), StoreError>)
      modifies this`outbox
      ensures Txn(Contents(), outcome) ==
                if token.Some? then FailClaim(old(Contents()), key, token.value, now, retryAfter, terminal)
                else Txn(FailUnfenced(old(Contents()), key, now, retryAfter, terminal), Ok(()))
    {
      var found := key in outbox && outbox[key].processedAt.None? && (token.Some? ==> outbox[key].HeldBy(token.value));
      if found {
        var row := outbox[key];
        row := row.(attempts := row.attempts + 1);
        row := row.(availableAt := now + MaxTime(0.01, retryAfter));
        row := row.(terminalAt := if terminal then Some(now) else None);
        row := row.(lease := None);
        outbox := outbox[key := row];
      }
      if token.Some? && !found {
        return Err(LeaseLost);
      }
      outcome := Ok(());
    }

    method RetryFailedOutboxEvent(key: EventKey, now: Time) returns (retried: bool)
      modifies this`outbox
      ensures Contents() == RetryFailed(old(Contents()), key, now)
      ensures retried == Retryable(old(Contents()), key)
    {
      retried := Retryable(Contents(), key);
      if retried {
        outbox := outbox[key := outbox[key].(attempts := 0, availableAt := now, terminalAt := None, lease := None)];
      }
    }

    method SetThreadEventProtected(key: EventKey, flag: bool) returns (found: bool, persisted: Option<ContextRecord>)
      modifies this`events, this`records
      ensures Txn(Contents(), Ok(persisted)) == SetProtected(old(Contents()), key, flag)
      ensures found == (key in old(events))
    {
      if key !in events {
        return false, None;
      }
      var reserved := ReservedKey(key, events[key]);
      events := events[key := events[key].(isProtected := flag)];
      if reserved !in records {
        return true, None;
      }
      var record := records[reserved];
      if IsEventProjection(record, key) {
        record := record.(metadata := record.metadata["protected" := JBool(flag)]);
        records := records[reserved := record];
      }
      return true, Some(record);
    }
  }
}
