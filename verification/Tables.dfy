// The SQLite tables as values, and every durable transaction as a function from
// tables to tables. A transaction that raises is rolled back: it returns the tables
// it was given.

module Tables {
  import opened Results
  import opened Models
  import opened Values

  // A row of context_outbox. The three lease columns are only ever written together.
  datatype Lease = Lease(owner: string, until: Time, token: nat)

  datatype OutboxRow = OutboxRow(
    sequence: nat,
    createdAt: Time,
    availableAt: Time,
    attempts: nat,
    processedAt: Option<Time>,
    terminalAt: Option<Time>,
    lease: Option<Lease>)
  {
    // Neither processed nor quarantined.
    predicate Active() {
      processedAt.None? && terminalAt.None?
    }

    predicate HeldBy(token: nat) {
      lease.Some? && lease.value.token == token
    }
  }

  datatype Database = Database(
    heads: map<ThreadKey, nat>,
    events: map<EventKey, ContextEvent>,
    outbox: map<EventKey, OutboxRow>,
    records: map<RecordKey, ContextRecord>)

  datatype StoreError =
    | EventIdReused
    | MetadataNotWritable
    | RecordIdTaken
    | RecordIdReserved
    | NotItsProjection
    | ProjectionCollides
    | VisibilityFixed
    | LeaseLost

  datatype Txn<T> = Txn(db: Database, outcome: Result<T, StoreError>)

  const EMPTY_DATABASE := Database(map[], map[], map[], map[])

  // ---- Events and the records derived from them ----

  // An event as its caller asks for it.
  datatype Draft = Draft(
    role: string,
    content: string,
    metadata: Dict,
    importance: real,
    isProtected: bool,
    tokenCount: nat,
    recordId: string)

  function ReservedKey(key: EventKey, event: ContextEvent): RecordKey {
    RecordKey(key.thread.namespace, event.recordId)
  }

  // The record that the indexer derives from an event.
  function Projection(key: EventKey, event: ContextEvent): ContextRecord {
    ContextRecord(
      key.thread.namespace,
      event.recordId,
      event.content,
      event.metadata[
        "kind" := JString("conversation")][
        "session_id" := JString(key.thread.session)][
        "role" := JString(event.role)][
        "turn" := JNumber(event.sequence as real)][
        "event_id" := JString(key.eventId)][
        "protected" := JBool(event.isProtected)],
      "conversation:" + key.thread.session,
      event.importance,
      event.tokenCount,
      None,
      Thread,
      Some(key.thread.session),
      None)
  }

  predicate HasString(metadata: Metadata, field: string, value: string) {
    field in metadata && metadata[field] == JString(value)
  }

  predicate HasProvenance(metadata: Metadata, key: EventKey) {
    && HasString(metadata, "kind", "conversation")
    && HasString(metadata, "session_id", key.thread.session)
    && HasString(metadata, "event_id", key.eventId)
  }

  // A projection written before event identifiers were stored with it.
  predicate IsLegacyProjection(record: ContextRecord, key: EventKey) {
    && HasString(record.metadata, "kind", "conversation")
    && ("event_id" in record.metadata ==> record.metadata["event_id"] == JNull)
    && (HasString(record.metadata, "session_id", key.thread.session)
        || record.source == "conversation:" + key.thread.session)
  }

  predicate IsEventProjection(record: ContextRecord, key: EventKey) {
    && record.scope == Thread
    && record.owner == Some(key.thread.session)
    && record.team == None
    && HasProvenance(record.metadata, key)
  }

  function LinkedEvents(db: Database, rk: RecordKey): set<EventKey> {
    set k | k in db.events && ReservedKey(k, db.events[k]) == rk
  }

  // ---- Records ----

  // Writes one record; `identity` names the source event on the indexer's path.
  function Upsert(db: Database, record: ContextRecord, identity: Option<EventKey>): (t: Txn<ContextRecord>)
    ensures t.outcome.Err? ==> t.db == db
    ensures t.outcome.Ok? ==> t.outcome.value == record && t.db == db.(records := db.records[record.Key() := record])
    ensures identity.None? && t.outcome.Ok? ==> LinkedEvents(db, record.Key()) == {}
    ensures identity.Some? && t.outcome.Ok? ==>
              LinkedEvents(db, record.Key()) == {identity.value} && IsEventProjection(record, identity.value)
    ensures t.outcome.Ok? && record.Key() in db.records ==> db.records[record.Key()].SameVisibility(record)
  {
    var rk := record.Key();
    var linked := LinkedEvents(db, rk);
    if identity.None? && linked != {} then
      Txn(db, Err(RecordIdReserved))
    else if identity.Some? && (linked != {identity.value} || !IsEventProjection(record, identity.value)) then
      Txn(db, Err(NotItsProjection))
    else if identity.Some? && rk in db.records && !MayOverwrite(db.records[rk], identity.value) then
      Txn(db, Err(ProjectionCollides))
    else if rk in db.records && !db.records[rk].SameVisibility(record) then
      Txn(db, Err(VisibilityFixed))
    else
      Txn(db.(records := db.records[rk := record]), Ok(record))
  }

  predicate MayOverwrite(existing: ContextRecord, key: EventKey) {
    && existing.scope == Thread
    && existing.owner == Some(key.thread.session)
    && existing.team == None
    && (HasProvenance(existing.metadata, key) || IsLegacyProjection(existing, key))
  }

  function DeleteRecords(db: Database, keys: set<RecordKey>): Database {
    db.(records := db.records - keys)
  }

  // ---- The event log ----

  function Recorded(db: Database, thread: ThreadKey): nat {
    if thread in db.heads then db.heads[thread] else 0
  }

  predicate SameEvent(event: ContextEvent, draft: Draft) {
    && event.role == draft.role
    && event.content == draft.content
    && Same(JObject(event.metadata), PyDict(draft.metadata))
    && event.importance == draft.importance
    && event.isProtected == draft.isProtected
    && event.tokenCount == draft.tokenCount
    && event.recordId == draft.recordId
  }

  // Metadata is stored as JSON text.
  function NewEvent(key: EventKey, draft: Draft, sequence: nat, now: Time): ContextEvent
    requires Writable(PyDict(draft.metadata))
  {
    ContextEvent(key.eventId, sequence, draft.role, draft.content, StoredMetadata(draft.metadata), draft.importance,
                 draft.isProtected, draft.tokenCount, draft.recordId, now, None)
  }

  // What an append hands back: the event as stored and the metadata on the returned object,
  // which is the caller's own for a new event and what was read back for a repeated one.
  datatype Metas = Given(dict: Dict) | ReadBack(metadata: Metadata)

  datatype Receipt = Receipt(event: ContextEvent, metadata: Metas)

  function AppendEvent(db: Database, key: EventKey, draft: Draft, now: Time): (t: Txn<Receipt>)
    ensures t.outcome.Err? ==> t.db == db
    ensures key in db.events ==>
              var event := db.events[key];
              && t.db == db
              && (t.outcome.Ok? <==>
                    && draft.role == event.role && draft.content == event.content
                    && draft.importance == event.importance && draft.isProtected == event.isProtected
                    && draft.tokenCount == event.tokenCount && draft.recordId == event.recordId
                    && Same(JObject(event.metadata), PyDict(draft.metadata)))
              && t.outcome == if t.outcome.Ok? then Ok(Receipt(event, ReadBack(event.metadata))) else Err(EventIdReused)
    ensures t.outcome.Ok? && key !in db.events ==>
              && LinkedEvents(db, RecordKey(key.thread.namespace, draft.recordId)) == {}
              && RecordKey(key.thread.namespace, draft.recordId) !in db.records
              && Writable(PyDict(draft.metadata))
              && t.outcome.value.event == NewEvent(key, draft, Recorded(db, key.thread) + 1, now)
              && t.db.records == db.records
              && t.db.heads == db.heads[key.thread := Recorded(db, key.thread) + 1]
              && t.db.events == db.events[key := t.outcome.value.event]
              && key in t.db.outbox && t.db.outbox == db.outbox[key := t.db.outbox[key]]
              && t.db.outbox[key].sequence == Recorded(db, key.thread) + 1
              && t.db.outbox[key].Active() && t.db.outbox[key].attempts == 0 && t.db.outbox[key].lease.None?
              && t.db.outbox[key].createdAt == t.db.outbox[key].availableAt == now
  {
    var rk := RecordKey(key.thread.namespace, draft.recordId);
    if key in db.events then
      if SameEvent(db.events[key], draft) then Txn(db, Ok(Receipt(db.events[key], ReadBack(db.events[key].metadata))))
      else Txn(db, Err(EventIdReused))
    else if LinkedEvents(db, rk) != {} || rk in db.records then
      Txn(db, Err(RecordIdTaken))
    else if !Writable(PyDict(draft.metadata)) then
      Txn(db, Err(MetadataNotWritable))
    else
      var sequence := Recorded(db, key.thread) + 1;
      var event := NewEvent(key, draft, sequence, now);
      Txn(
        db.(heads := db.heads[key.thread := sequence],
            events := db.events[key := event],
            outbox := db.outbox[key := OutboxRow(sequence, now, now, 0, None, None, None)]),
        Ok(Receipt(event, Given(draft.metadata))))
  }

  function SetProtected(db: Database, key: EventKey, flag: bool): (t: Txn<Option<ContextRecord>>)
    ensures t.db == db.(events := t.db.events, records := t.db.records)
    ensures key !in db.events ==> t.db.events == db.events
    ensures key in db.events ==> t.db.events == db.events[key := db.events[key].(isProtected := flag)]
    ensures forall rk :: rk in db.records <==> rk in t.db.records
    ensures forall rk :: rk in db.records ==>
              var before, after := db.records[rk], t.db.records[rk];
              var own := key in db.events && rk == ReservedKey(key, db.events[key]) && IsEventProjection(before, key);
              && after.(metadata := before.metadata) == before
              && (!own ==> after == before)
              && (own ==> after.metadata == before.metadata["protected" := JBool(flag)])
  {
    if key !in db.events then
      Txn(db, Ok(None))
    else
      var event := db.events[key];
      var rk := ReservedKey(key, event);
      var db' := db.(events := db.events[key := event.(isProtected := flag)]);
      if rk !in db.records then
        Txn(db', Ok(None))
      else if !IsEventProjection(db.records[rk], key) then
        Txn(db', Ok(Some(db.records[rk])))
      else
        var record := db.records[rk];
        var synchronized := record.(metadata := record.metadata["protected" := JBool(flag)]);
        Txn(db'.(records := db.records[rk := synchronized]), Ok(Some(synchronized)))
  }

  // ---- The outbox ----

  // The thread has no active row below this one.
  predicate IsThreadHead(outbox: map<EventKey, OutboxRow>, key: EventKey)
    requires key in outbox
  {
    !exists k :: && k in outbox
                 && k.thread == key.thread
                 && outbox[k].Active()
                 && outbox[k].sequence < outbox[key].sequence
  }

  predicate Leasable(row: OutboxRow, owner: string, now: Time) {
    row.lease.None? || (row.lease.value.owner != owner && row.lease.value.until <= now)
  }

  predicate Claimable(db: Database, key: EventKey, owner: string, now: Time) {
    && key in db.outbox
    && db.outbox[key].Active()
    && db.outbox[key].availableAt <= now
    && Leasable(db.outbox[key], owner, now)
    && IsThreadHead(db.outbox, key)
  }

  // ORDER BY created_at, sequence
  predicate ComesFirst(a: OutboxRow, b: OutboxRow) {
    a.createdAt < b.createdAt || (a.createdAt == b.createdAt && a.sequence <= b.sequence)
  }

  function ClaimableKeys(db: Database, owner: string, now: Time): set<EventKey> {
    set k | k in db.outbox && Claimable(db, k, owner, now)
  }

  // What the claim query returns: the first `limit` claimable rows in dispatch order.
  ghost predicate IsClaimSelection(db: Database, owner: string, now: Time, limit: int, rows: seq<EventKey>) {
    var candidates := ClaimableKeys(db, owner, now);
    && (forall i :: 0 <= i < |rows| ==> rows[i] in candidates)
    && (forall i, j :: 0 <= i < j < |rows| ==> rows[i] != rows[j])
    && (forall i, j :: 0 <= i < j < |rows| ==> ComesFirst(db.outbox[rows[i]], db.outbox[rows[j]]))
    && (forall i, k :: 0 <= i < |rows| && k in candidates && k !in rows ==>
          ComesFirst(db.outbox[rows[i]], db.outbox[k]))
    && |rows| == Min(Max(1, limit), |candidates|)
  }

  // One UPDATE per claimed row; row i receives token firstToken + i.
  function LeaseRows(outbox: map<EventKey, OutboxRow>, rows: seq<EventKey>, owner: string, until: Time, firstToken: nat)
    : map<EventKey, OutboxRow>
    requires forall i :: 0 <= i < |rows| ==> rows[i] in outbox
  {
    if rows == [] then outbox
    else
      var row := outbox[rows[0]].(lease := Some(Lease(owner, until, firstToken)));
      LeaseRows(outbox[rows[0] := row], rows[1..], owner, until, firstToken + 1)
  }

  // The row a fenced update may touch: active and leased under this very token.
  predicate LiveClaim(db: Database, key: EventKey, token: nat) {
    key in db.outbox && db.outbox[key].Active() && db.outbox[key].HeldBy(token)
  }

  function FinishRow(db: Database, key: EventKey, at: Time): Database
    requires key in db.outbox && key in db.events
  {
    var event := db.events[key];
    db.(outbox := db.outbox[key := db.outbox[key].(processedAt := Some(at), lease := None)],
        events := db.events[key := event.(indexedAt := if event.indexedAt.None? then Some(at) else event.indexedAt)])
  }

  function CompleteClaim(db: Database, key: EventKey, record: ContextRecord, token: nat, now: Time)
    : (t: Txn<ContextRecord>)
    ensures t.outcome.Err? ==> t.db == db
    ensures t.outcome.Ok? ==>
              && LiveClaim(db, key, token)
              && key in db.events && db.events[key].recordId == record.id && key.thread.namespace == record.namespace
              && t.db == FinishRow(db, key, now).(records := db.records[record.Key() := t.outcome.value])
    ensures !(&& key in db.outbox && db.outbox[key].processedAt.None? && db.outbox[key].terminalAt.None?
              && db.outbox[key].lease.Some? && db.outbox[key].lease.value.token == token) ==>
              t.outcome == Err(LeaseLost)
  {
    if !LiveClaim(db, key, token) || key !in db.events || record.namespace != key.thread.namespace then
      Txn(db, Err(LeaseLost))
    else if db.events[key].recordId != record.id then
      Txn(db, Err(NotItsProjection))
    else
      var current := record.(metadata := record.metadata["protected" := JBool(db.events[key].isProtected)]);
      var written := Upsert(db, current, Some(key));
      if written.outcome.Err? then Txn(db, Err(written.outcome.error))
      else Txn(FinishRow(written.db, key, now), written.outcome)
  }

  // Completes a claim whose event is already indexed.
  function MarkIndexed(db: Database, key: EventKey, token: nat, now: Time): (t: Txn<()>)
    ensures t.outcome.Err? ==> t.db == db
    ensures t.outcome.Ok? ==> LiveClaim(db, key, token) && key in db.events && t.db == FinishRow(db, key, now)
    ensures t.outcome.Ok? <==>
              && key in db.events
              && key in db.outbox && db.outbox[key].processedAt.None? && db.outbox[key].terminalAt.None?
              && db.outbox[key].lease.Some? && db.outbox[key].lease.value.token == token
  {
    if !LiveClaim(db, key, token) || key !in db.events then Txn(db, Err(LeaseLost))
    else Txn(FinishRow(db, key, now), Ok(()))
  }

  // Without a token nothing is asked of the row.
  function MarkUnfenced(db: Database, key: EventKey, now: Time): (db': Database)
    ensures db' == db.(events := db'.events, outbox := db'.outbox)
    ensures db'.outbox.Keys == db.outbox.Keys && db'.events.Keys == db.events.Keys
    ensures forall k :: k in db.outbox ==>
              db'.outbox[k] == if k == key then db.outbox[k].(processedAt := Some(now), lease := None) else db.outbox[k]
    ensures forall k :: k in db.events ==>
              db'.events[k] == if k == key && db.events[k].indexedAt.None? then db.events[k].(indexedAt := Some(now))
                               else db.events[k]
  {
    var events :=
      if key in db.events && db.events[key].indexedAt.None? then
        db.events[key := db.events[key].(indexedAt := Some(now))]
      else db.events;
    var outbox :=
      if key in db.outbox then
        db.outbox[key := db.outbox[key].(processedAt := Some(now), lease := None)]
      else db.outbox;
    db.(events := events, outbox := outbox)
  }

  function MaxTime(a: Time, b: Time): Time {
    if a >= b then a else b
  }

  function FailClaim(db: Database, key: EventKey, token: nat, now: Time, retryAfter: Time, terminal: bool): (t: Txn<()>)
    ensures t.outcome.Err? ==> t.db == db
    ensures t.outcome.Ok? <==>
              && key in db.outbox && db.outbox[key].processedAt.None?
              && db.outbox[key].lease.Some? && db.outbox[key].lease.value.token == token
    ensures t.db == db.(outbox := t.db.outbox)
    ensures t.outcome.Ok? ==>
              && key in db.outbox && key in t.db.outbox
              && t.db == db.(outbox := db.outbox[key := t.db.outbox[key]])
              && t.db.outbox[key].sequence == db.outbox[key].sequence
              && t.db.outbox[key].processedAt == db.outbox[key].processedAt
              && t.db.outbox[key].createdAt == db.outbox[key].createdAt
              && t.db.outbox[key].attempts == db.outbox[key].attempts + 1
              && t.db.outbox[key].availableAt == now + MaxTime(0.01, retryAfter)
              && t.db.outbox[key].terminalAt == (if terminal then Some(now) else None)
              && t.db.outbox[key].lease.None?
  {
    if key in db.outbox && db.outbox[key].processedAt.None? && db.outbox[key].HeldBy(token) then
      var row := db.outbox[key];
      var failed := row.(
        attempts := row.attempts + 1,
        availableAt := now + MaxTime(0.01, retryAfter),
        terminalAt := if terminal then Some(now) else None,
        lease := None);
      Txn(db.(outbox := db.outbox[key := failed]), Ok(()))
    else
      Txn(db, Err(LeaseLost))
  }

  // Without a token any unprocessed row may be failed, whoever holds it and whether or not it
  // was quarantined.
  function FailUnfenced(db: Database, key: EventKey, now: Time, retryAfter: Time, terminal: bool): (db': Database)
    ensures db' == db.(outbox := db'.outbox) && db'.outbox.Keys == db.outbox.Keys
    ensures forall k :: k in db.outbox && (k != key || db.outbox[k].processedAt.Some?) ==>
              db'.outbox[k] == db.outbox[k]
    ensures key in db.outbox && db.outbox[key].processedAt.None? ==>
              && db'.outbox[key].lease.None? && db'.outbox[key].processedAt.None?
              && db'.outbox[key].attempts == db.outbox[key].attempts + 1
              && db'.outbox[key].terminalAt == (if terminal then Some(now) else None)
              && db'.outbox[key].availableAt == now + (if retryAfter < 0.01 then 0.01 else retryAfter)
              && db'.outbox[key].sequence == db.outbox[key].sequence
              && db'.outbox[key].createdAt == db.outbox[key].createdAt
  {
    if key in db.outbox && db.outbox[key].processedAt.None? then
      var row := db.outbox[key];
      var failed := row.(
        attempts := row.attempts + 1,
        availableAt := now + MaxTime(0.01, retryAfter),
        terminalAt := if terminal then Some(now) else None,
        lease := None);
      db.(outbox := db.outbox[key := failed])
    else
      db
  }

  function ReleaseClaim(db: Database, key: EventKey, token: nat): (db': Database)
    ensures db' == db.(outbox := db'.outbox) && db'.outbox.Keys == db.outbox.Keys
    ensures forall k :: k in db.outbox ==>
              var row := db.outbox[k];
              db'.outbox[k] == if k == key && row.processedAt.None? && row.lease.Some? && row.lease.value.token == token
                               then row.(lease := None) else row
  {
    if key in db.outbox && db.outbox[key].HeldBy(token) && db.outbox[key].processedAt.None? then
      db.(outbox := db.outbox[key := db.outbox[key].(lease := None)])
    else
      db
  }

  function ReleaseOwner(db: Database, owner: string): (db': Database)
    ensures db' == db.(outbox := db'.outbox) && db'.outbox.Keys == db.outbox.Keys
    ensures forall k :: k in db.outbox ==>
              && (db'.outbox[k] == db.outbox[k] || db'.outbox[k] == db.outbox[k].(lease := None))
              && (db'.outbox[k].lease.None? <==>
                    || db.outbox[k].lease.None?
                    || (db.outbox[k].lease.value.owner == owner && db.outbox[k].processedAt.None?))
  {
    db.(outbox := map k | k in db.outbox ::
      var row := db.outbox[k];
      if row.lease.Some? && row.lease.value.owner == owner && row.processedAt.None? then row.(lease := None)
      else row)
  }

  // A quarantined row may return to work only while no other row of its thread is leased.
  predicate Retryable(db: Database, key: EventKey) {
    && key in db.outbox
    && db.outbox[key].processedAt.None?
    && db.outbox[key].terminalAt.Some?
    && !exists k :: && k in db.outbox
                    && k.thread == key.thread
                    && db.outbox[k].lease.Some?
                    && k.eventId != key.eventId
  }

  function RetryFailed(db: Database, key: EventKey, now: Time): (db': Database)
    ensures db' == db.(outbox := db'.outbox) && db'.outbox.Keys == db.outbox.Keys
    ensures forall k :: k in db.outbox && k != key ==> db'.outbox[k] == db.outbox[k]
    ensures key in db.outbox && (db.outbox[key].processedAt.Some? || db.outbox[key].terminalAt.None?) ==> db' == db
    ensures (exists k :: k in db.outbox && k.thread == key.thread && k != key && db.outbox[k].lease.Some?) ==> db' == db
  {
    if Retryable(db, key) then
      var row := db.outbox[key];
      db.(outbox := db.outbox[key := row.(attempts := 0, availableAt := now, terminalAt := None, lease := None)])
    else
      db
  }

  // ---- Watermarks ----

  ghost function ProcessedRows(db: Database, thread: ThreadKey): set<EventKey> {
    set k | k in db.outbox && k.thread == thread && db.outbox[k].processedAt.Some?
  }

  ghost function PendingRows(db: Database, thread: ThreadKey): set<EventKey> {
    set k | k in db.outbox && k.thread == thread && db.outbox[k].Active()
  }

  ghost function FailedRows(db: Database, thread: ThreadKey): set<EventKey> {
    set k | k in db.outbox && k.thread == thread && db.outbox[k].terminalAt.Some?
  }

  // Sequences of the thread's events that are not indexed yet.
  function Unindexed(db: Database, thread: ThreadKey): set<nat> {
    set k | k in db.events && k.thread == thread && db.events[k].indexedAt.None? :: db.events[k].sequence
  }
}
