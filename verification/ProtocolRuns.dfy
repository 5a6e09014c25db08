// What holds over whole runs of the outbox protocol.

module ProtocolRuns {
  import opened Results
  import opened Models
  import opened Collections
  import opened Tables
  import opened Protocol
  import opened Values

  ghost predicate ValidRun(s: System, steps: seq<Step>, maxAttempts: nat)
    decreases |steps|
  {
    steps == [] || (Enabled(s, steps[0]) && ValidRun(Next(s, steps[0], maxAttempts), steps[1..], maxAttempts))
  }

  ghost function After(s: System, steps: seq<Step>, maxAttempts: nat): System
    requires ValidRun(s, steps, maxAttempts)
    decreases |steps|
  {
    if steps == [] then s else After(Next(s, steps[0], maxAttempts), steps[1..], maxAttempts)
  }

  lemma {:induction false} RunKeepsInv(s: System, steps: seq<Step>, maxAttempts: nat)
    requires Inv(s, maxAttempts) && 0 < maxAttempts && ValidRun(s, steps, maxAttempts)
    ensures Inv(After(s, steps, maxAttempts), maxAttempts)
    decreases |steps|
  {
    hide Inv, Next, Enabled;
    if steps != [] {
      StepKeepsInv(s, steps[0], maxAttempts);
      RunKeepsInv(Next(s, steps[0], maxAttempts), steps[1..], maxAttempts);
    }
  }

  lemma ReachableInv(steps: seq<Step>, maxAttempts: nat)
    requires 0 < maxAttempts && ValidRun(START, steps, maxAttempts)
    ensures Inv(After(START, steps, maxAttempts), maxAttempts)
  {
    hide Inv, Next, Enabled;
    StartInv(maxAttempts);
    RunKeepsInv(START, steps, maxAttempts);
  }

  lemma StartInv(maxAttempts: nat)
    ensures Inv(START, maxAttempts)
  {
    assert Allowance(START.db.outbox, maxAttempts) == map[];
    assert FailureInv(START, maxAttempts);
  }

  // ---- Claims ----

  // In every reachable state a thread has at most one leased row, and it is the lowest
  // row that is neither processed nor quarantined.
  lemma AtMostOneLiveClaim(steps: seq<Step>, maxAttempts: nat, key: EventKey, other: EventKey)
    requires 0 < maxAttempts && ValidRun(START, steps, maxAttempts)
    requires var outbox := After(START, steps, maxAttempts).db.outbox;
             && key in outbox && outbox[key].lease.Some?
             && other in outbox && other.thread == key.thread && other != key
    ensures var outbox := After(START, steps, maxAttempts).db.outbox;
            && outbox[other].lease.None?
            && outbox[key].Active()
            && (outbox[other].Active() ==> outbox[key].sequence < outbox[other].sequence)
  {
    ReachableInv(steps, maxAttempts);
    var s := After(START, steps, maxAttempts);
    assert IsThreadHead(s.db.outbox, key);
    assert s.db.events[key].sequence != s.db.events[other].sequence;
  }

  // An event completes at most once over a whole run.
  lemma CompletesAtMostOnce(steps: seq<Step>, maxAttempts: nat, i: nat, j: nat)
    requires 0 < maxAttempts && ValidRun(START, steps, maxAttempts)
    requires i < j < |After(START, steps, maxAttempts).completions|
    ensures var completions := After(START, steps, maxAttempts).completions; completions[i] != completions[j]
  {
    ReachableInv(steps, maxAttempts);
  }

  lemma OnlyLiveClaimsComplete(s: System, step: Step, maxAttempts: nat, key: EventKey)
    requires Enabled(s, step) && Next(s, step, maxAttempts).completions == s.completions + [key]
    ensures step.Complete? || step.Mark?
    ensures step.token < |s.claims| && s.claims[step.token].key == key
    ensures key in s.db.outbox && s.db.outbox[key].HeldBy(step.token)
  {
    hide CompleteClaim, MarkIndexed, AppendEvent, Upsert, SetProtected;
    assert (s.completions + [key])[|s.completions|] == key;
  }

  // When an event completes, everything below it in its thread is processed or quarantined.
  lemma CompletesInOrder(steps: seq<Step>, maxAttempts: nat, step: Step, key: EventKey, lower: EventKey)
    requires 0 < maxAttempts && ValidRun(START, steps, maxAttempts)
    requires var s := After(START, steps, maxAttempts);
             && Enabled(s, step)
             && Next(s, step, maxAttempts).completions == s.completions + [key]
             && key in s.db.outbox
             && lower in s.db.outbox && lower.thread == key.thread
             && s.db.outbox[lower].sequence < s.db.outbox[key].sequence
    ensures !After(START, steps, maxAttempts).db.outbox[lower].Active()
  {
    hide CompleteClaim, MarkIndexed, AppendEvent, Upsert, SetProtected, CountInv, LogInv, RowInv, ReservedInv,
      RecordInv, PreparedInv, HistoryInv, FailureInv;
    ReachableInv(steps, maxAttempts);
    var s := After(START, steps, maxAttempts);
    OnlyLiveClaimsComplete(s, step, maxAttempts, key);
    assert IsThreadHead(s.db.outbox, key);
  }

  // ---- Fencing ----

  // The token was granted but no row is leased under it any more.
  ghost predicate Superseded(s: System, token: nat) {
    token < |s.claims| && forall k :: k in s.db.outbox ==> !s.db.outbox[k].HeldBy(token)
  }

  ghost predicate OldOrFreshLease(s: System, outbox': map<EventKey, OutboxRow>, key: EventKey)
    requires key in outbox'
  {
    || outbox'[key].lease.None?
    || (key in s.db.outbox && s.db.outbox[key].lease == outbox'[key].lease)
    || |s.claims| <= outbox'[key].lease.value.token
  }

  // A step hands out no token twice.
  lemma TokensAreFresh(s: System, step: Step, maxAttempts: nat)
    requires Enabled(s, step)
    ensures var s' := Next(s, step, maxAttempts);
            |s.claims| <= |s'.claims| && forall k :: k in s'.db.outbox ==> OldOrFreshLease(s, s'.db.outbox, k)
  {
    hide CompleteClaim, MarkIndexed, Upsert, SetProtected, LeaseRows;
    match step
    case Claim(owner, now, limit, lease, rows) =>
      LeaseRowsEffect(s.db.outbox, rows, owner, now + MaxTime(1.0, lease), |s.claims|);
    case _ =>
  }

  lemma {:induction false} SupersededForever(s: System, steps: seq<Step>, maxAttempts: nat, token: nat)
    requires ValidRun(s, steps, maxAttempts) && Superseded(s, token)
    ensures Superseded(After(s, steps, maxAttempts), token)
    decreases |steps|
  {
    hide Next, Enabled;
    if steps != [] {
      TokensAreFresh(s, steps[0], maxAttempts);
      var s' := Next(s, steps[0], maxAttempts);
      assert forall k :: k in s'.db.outbox ==> OldOrFreshLease(s, s'.db.outbox, k);
      SupersededForever(s', steps[1..], maxAttempts, token);
    }
  }

  // Once a token is superseded, every later call that presents it changes no table,
  // however the run continues.
  lemma SupersededTokenChangesNothing(s: System, steps: seq<Step>, step: Step, maxAttempts: nat)
    requires ValidRun(s, steps, maxAttempts)
    requires step.Complete? || step.Mark? || step.Fail? || step.Release?
    requires Superseded(s, step.token) && Enabled(After(s, steps, maxAttempts), step)
    ensures Next(After(s, steps, maxAttempts), step, maxAttempts) == After(s, steps, maxAttempts)
  {
    hide Upsert, FinishRow;
    SupersededForever(s, steps, maxAttempts, step.token);
  }

  // ---- Who may claim next ----

  // Rewriting a row that stays where it is in its thread changes nobody's place in it.
  lemma SameHeads(outbox: map<EventKey, OutboxRow>, key: EventKey, row: OutboxRow)
    requires key in outbox && row.sequence == outbox[key].sequence
    ensures IsThreadHead(outbox[key := row], key) <==> IsThreadHead(outbox, key)
  {
    var after := outbox[key := row];
    assert forall k :: k in outbox && k != key ==> k in after && after[k] == outbox[k];
    if k :| k in outbox && k.thread == key.thread && outbox[k].Active() && outbox[k].sequence < outbox[key].sequence {
      assert after[k] == outbox[k];
    }
  }

  // A leased row is claimed again exactly when another owner finds the lease run out.
  lemma HeldUntilExpiry(steps: seq<Step>, maxAttempts: nat, key: EventKey, owner: string, now: Time)
    requires 0 < maxAttempts && ValidRun(START, steps, maxAttempts)
    requires var outbox := After(START, steps, maxAttempts).db.outbox; key in outbox && outbox[key].lease.Some?
    ensures var db := After(START, steps, maxAttempts).db;
            var lease := db.outbox[key].lease.value;
            Claimable(db, key, owner, now) <==>
              owner != lease.owner && lease.until <= now && db.outbox[key].availableAt <= now
  {
    hide Next, Enabled, CountInv, LogInv, RowInv, RecordInv, PreparedInv, HistoryInv, FailureInv, IsThreadHead;
    ReachableInv(steps, maxAttempts);
  }

  // A released claim is open to every owner at once.
  lemma ReleaseFreesHead(steps: seq<Step>, maxAttempts: nat, key: EventKey, token: nat, owner: string, now: Time)
    requires 0 < maxAttempts && ValidRun(START, steps, maxAttempts)
    requires LiveClaim(After(START, steps, maxAttempts).db, key, token)
    ensures var db := After(START, steps, maxAttempts).db;
            Claimable(ReleaseClaim(db, key, token), key, owner, now) <==> db.outbox[key].availableAt <= now
  {
    hide Next, Enabled, CountInv, LogInv, RowInv, RecordInv, PreparedInv, HistoryInv, FailureInv, IsThreadHead;
    ReachableInv(steps, maxAttempts);
    var db := After(START, steps, maxAttempts).db;
    SameHeads(db.outbox, key, db.outbox[key].(lease := None));
  }

  // A failed claim is open to every owner once its delay is over, unless it was quarantined.
  lemma FailureBacksOff(steps: seq<Step>, maxAttempts: nat, key: EventKey, token: nat, now: Time, retryAfter: Time,
                        terminal: bool, owner: string, later: Time)
    requires 0 < maxAttempts && ValidRun(START, steps, maxAttempts)
    requires LiveClaim(After(START, steps, maxAttempts).db, key, token)
    ensures var after := FailClaim(After(START, steps, maxAttempts).db, key, token, now, retryAfter, terminal).db;
            Claimable(after, key, owner, later) <==> !terminal && now + MaxTime(0.01, retryAfter) <= later
  {
    hide Next, Enabled, CountInv, LogInv, RowInv, RecordInv, PreparedInv, HistoryInv, FailureInv, IsThreadHead;
    ReachableInv(steps, maxAttempts);
    var db := After(START, steps, maxAttempts).db;
    SameHeads(db.outbox, key, FailClaim(db, key, token, now, retryAfter, terminal).db.outbox[key]);
  }

  // An operator retry opens a quarantined row at once, as soon as nothing below it is active.
  lemma RetryRevives(db: Database, key: EventKey, now: Time, owner: string, later: Time)
    requires Retryable(db, key)
    ensures Claimable(RetryFailed(db, key, now), key, owner, later) <==> now <= later && IsThreadHead(db.outbox, key)
  {
    hide IsThreadHead;
    SameHeads(db.outbox, key, RetryFailed(db, key, now).outbox[key]);
  }

  // ---- Records ----

  // A record under an event's reserved identifier is that event's own projection, with
  // the event's current protection flag.
  lemma ReservedRecordIsProjection(steps: seq<Step>, maxAttempts: nat, key: EventKey)
    requires 0 < maxAttempts && ValidRun(START, steps, maxAttempts)
    requires var db := After(START, steps, maxAttempts).db;
             key in db.events && ReservedKey(key, db.events[key]) in db.records
    ensures var db := After(START, steps, maxAttempts).db;
            var record := db.records[ReservedKey(key, db.events[key])];
            && record == Projection(key, db.events[key])
            && record.metadata["protected"] == JBool(db.events[key].isProtected)
  {
    ReachableInv(steps, maxAttempts);
  }

  // ---- Failures ----

  // An active row always has attempts left.
  lemma ActiveRowsHaveAttemptsLeft(steps: seq<Step>, maxAttempts: nat, key: EventKey)
    requires 0 < maxAttempts && ValidRun(START, steps, maxAttempts)
    requires var outbox := After(START, steps, maxAttempts).db.outbox; key in outbox && outbox[key].Active()
    ensures After(START, steps, maxAttempts).db.outbox[key].attempts < maxAttempts
  {
    hide Next, Enabled, CountInv, LogInv, LeaseInv, RecordInv, PreparedInv, HistoryInv, FailureInv;
    ReachableInv(steps, maxAttempts);
  }

  // Failures are bounded by the attempts that appends and operator retries pay for.
  lemma FailuresAreBounded(steps: seq<Step>, maxAttempts: nat)
    requires 0 < maxAttempts && ValidRun(START, steps, maxAttempts)
    ensures var s := After(START, steps, maxAttempts); s.failures <= maxAttempts * (s.appends + s.retries)
  {
    hide Next, Enabled, Allowance, CountInv, LogInv, RowInv, LeaseInv, RecordInv, PreparedInv, HistoryInv;
    ReachableInv(steps, maxAttempts);
  }

  // ---- Watermarks ----

  // The indexed watermark as the query computes it: one below the least unindexed sequence.
  ghost function IndexedThrough(db: Database, thread: ThreadKey): int {
    var missing := Unindexed(db, thread);
    if missing == {} then Recorded(db, thread) else Max(0, Least(missing) - 1)
  }

  ghost predicate IndexedAt(db: Database, thread: ThreadKey, sequence: int) {
    exists k :: k in db.events && k.thread == thread && db.events[k].sequence == sequence
          && db.events[k].indexedAt.Some?
  }

  // The sequences 1 .. n.
  ghost function UpTo(n: nat): (s: set<nat>)
    ensures |s| == n
    ensures forall i: nat :: i in s <==> 1 <= i <= n
  {
    if n == 0 then {} else UpTo(n - 1) + {n}
  }

  lemma {:induction false} SequenceImage(events: map<EventKey, ContextEvent>, keys: set<EventKey>)
    requires forall k :: k in keys ==> k in events
    requires forall j, k :: j in keys && k in keys && j != k ==> events[j].sequence != events[k].sequence
    ensures |set k | k in keys :: events[k].sequence| == |keys|
    decreases |keys|
  {
    if keys != {} {
      var k :| k in keys;
      SequenceImage(events, keys - {k});
      assert (set j | j in keys :: events[j].sequence)
            == (set j | j in keys - {k} :: events[j].sequence) + {events[k].sequence};
    }
  }

  lemma HeadCounts(heads: map<ThreadKey, nat>, keys: set<EventKey>, thread: ThreadKey)
    requires CountInv(heads, keys)
    ensures |OfThread(keys, thread)| == if thread in heads then heads[thread] else 0
  {
    if thread !in heads {
      assert OfThread(keys, thread) == {};
    }
  }

  lemma SubsetOfSameSize<T>(a: set<T>, b: set<T>)
    requires a <= b && |a| == |b|
    ensures a == b
  {
    assert |b - a| == 0;
  }

  ghost function Sequences(db: Database, thread: ThreadKey): set<nat> {
    set k | k in OfThread(db.events.Keys, thread) :: db.events[k].sequence
  }

  lemma DenseSequences(db: Database, thread: ThreadKey)
    requires CountInv(db.heads, db.events.Keys) && LogInv(db.heads, db.events)
    ensures Sequences(db, thread) == UpTo(Recorded(db, thread))
  {
    hide CountInv;
    var keys := OfThread(db.events.Keys, thread);
    HeadCounts(db.heads, db.events.Keys, thread);
    SequenceImage(db.events, keys);
    assert Sequences(db, thread) <= UpTo(Recorded(db, thread));
    SubsetOfSameSize(Sequences(db, thread), UpTo(Recorded(db, thread)));
  }

  // A thread's sequences are exactly 1 .. recorded_through.
  lemma SequencesAreDense(steps: seq<Step>, maxAttempts: nat, thread: ThreadKey)
    requires 0 < maxAttempts && ValidRun(START, steps, maxAttempts)
    ensures var db := After(START, steps, maxAttempts).db; Sequences(db, thread) == UpTo(Recorded(db, thread))
  {
    hide Next, Enabled, CountInv, LogInv, RowInv, LeaseInv, RecordInv, PreparedInv, HistoryInv, FailureInv;
    ReachableInv(steps, maxAttempts);
    DenseSequences(After(START, steps, maxAttempts).db, thread);
  }

  // The watermark is the length of the longest fully indexed prefix of the thread.
  lemma IndexedPrefix(steps: seq<Step>, maxAttempts: nat, thread: ThreadKey)
    requires 0 < maxAttempts && ValidRun(START, steps, maxAttempts)
    ensures var db := After(START, steps, maxAttempts).db;
            var through := IndexedThrough(db, thread);
            && 0 <= through <= Recorded(db, thread)
            && (forall n :: 1 <= n <= through ==> IndexedAt(db, thread, n))
            && (through < Recorded(db, thread) ==> !IndexedAt(db, thread, through + 1))
  {
    hide Next, Enabled, CountInv, LogInv, RowInv, LeaseInv, RecordInv, PreparedInv, HistoryInv, FailureInv,
          IndexedThrough, IndexedAt;
    ReachableInv(steps, maxAttempts);
    var db := After(START, steps, maxAttempts).db;
    PrefixOf(db, thread);
  }

  lemma PrefixOf(db: Database, thread: ThreadKey)
    requires CountInv(db.heads, db.events.Keys) && LogInv(db.heads, db.events)
    ensures var through := IndexedThrough(db, thread);
            && 0 <= through <= Recorded(db, thread)
            && (forall n :: 1 <= n <= through ==> IndexedAt(db, thread, n))
            && (through < Recorded(db, thread) ==> !IndexedAt(db, thread, through + 1))
  {
    var through := IndexedThrough(db, thread);
    var missing := Unindexed(db, thread);
    DenseSequences(db, thread);
    hide CountInv, LogInv;
    forall n: nat | 1 <= n <= through
      ensures IndexedAt(db, thread, n)
    {
      assert n in Sequences(db, thread);
      var k :| k in OfThread(db.events.Keys, thread) && db.events[k].sequence == n;
      assert db.events[k].indexedAt.None? ==> n in missing;
    }
  }

  // Every recorded event is processed, pending or failed, and only one of them.
  lemma EventsAreConserved(steps: seq<Step>, maxAttempts: nat, thread: ThreadKey)
    requires 0 < maxAttempts && ValidRun(START, steps, maxAttempts)
    ensures var db := After(START, steps, maxAttempts).db;
            |ProcessedRows(db, thread)| + |PendingRows(db, thread)| + |FailedRows(db, thread)| == Recorded(db, thread)
  {
    hide Next, Enabled, CountInv, LogInv, RowInv, LeaseInv, RecordInv, PreparedInv, HistoryInv, FailureInv;
    ReachableInv(steps, maxAttempts);
    RowsPartition(After(START, steps, maxAttempts).db, thread, maxAttempts);
  }

  lemma RowsPartition(db: Database, thread: ThreadKey, maxAttempts: nat)
    requires CountInv(db.heads, db.events.Keys) && RowInv(db.events, db.outbox, maxAttempts)
    ensures |ProcessedRows(db, thread)| + |PendingRows(db, thread)| + |FailedRows(db, thread)| == Recorded(db, thread)
  {
    hide CountInv;
    var all := OfThread(db.events.Keys, thread);
    HeadCounts(db.heads, db.events.Keys, thread);
    assert ProcessedRows(db, thread) + PendingRows(db, thread) + FailedRows(db, thread) == all;
    assert ProcessedRows(db, thread) !! PendingRows(db, thread) !! FailedRows(db, thread);
  }

  // Neither watermark ever moves back.
  lemma WatermarksNeverDecrease(steps: seq<Step>, step: Step, maxAttempts: nat, thread: ThreadKey)
    requires 0 < maxAttempts && ValidRun(START, steps, maxAttempts)
    requires Enabled(After(START, steps, maxAttempts), step)
    ensures var s := After(START, steps, maxAttempts);
            var s' := Next(s, step, maxAttempts);
            && Recorded(s.db, thread) <= Recorded(s'.db, thread)
            && IndexedThrough(s.db, thread) <= IndexedThrough(s'.db, thread)
  {
    hide Next, Enabled, IndexedAt, RowInv, LeaseInv, RecordInv, PreparedInv, HistoryInv, FailureInv, CountInv, LogInv;
    ReachableInv(steps, maxAttempts);
    var s := After(START, steps, maxAttempts);
    var s' := Next(s, step, maxAttempts);
    StepKeepsInv(s, step, maxAttempts);
    PrefixOf(s.db, thread);
    PrefixOf(s'.db, thread);
    IndexedStays(s, step, maxAttempts, thread);
  }

  lemma IndexedStays(s: System, step: Step, maxAttempts: nat, thread: ThreadKey)
    requires Enabled(s, step)
    ensures var s' := Next(s, step, maxAttempts);
            && Recorded(s.db, thread) <= Recorded(s'.db, thread)
            && (forall n :: IndexedAt(s.db, thread, n) ==> IndexedAt(s'.db, thread, n))
  {
    hide CompleteClaim, MarkIndexed, Upsert, SetProtected, FailClaim, RetryFailed, ReleaseClaim, ReleaseOwner,
      LeaseRows, NewClaims, Projection, AppendEvent, Same, RoundTrip, IsClaimSelection;
  }

  // ---- Retrying an append ----

  ghost predicate SameButFlags(a: ContextEvent, b: ContextEvent) {
    b == a.(isProtected := b.isProtected, indexedAt := b.indexedAt)
  }

  lemma EventStays(s: System, step: Step, maxAttempts: nat, key: EventKey)
    requires Enabled(s, step) && key in s.db.events
    ensures key in Next(s, step, maxAttempts).db.events
    ensures SameButFlags(s.db.events[key], Next(s, step, maxAttempts).db.events[key])
  {
    hide CompleteClaim, MarkIndexed, Upsert, SetProtected;
  }

  // A recorded event keeps everything but its protection and its index time, for ever.
  lemma {:induction false} EventsAreImmutable(s: System, run: seq<Step>, maxAttempts: nat, key: EventKey)
    requires ValidRun(s, run, maxAttempts) && key in s.db.events
    ensures key in After(s, run, maxAttempts).db.events
    ensures SameButFlags(s.db.events[key], After(s, run, maxAttempts).db.events[key])
    decreases |run|
  {
    hide Next, Enabled;
    if run != [] {
      EventStays(s, run[0], maxAttempts, key);
      EventsAreImmutable(Next(s, run[0], maxAttempts), run[1..], maxAttempts, key);
    }
  }

  // An event ID once recorded stands for its first draft, however much later it is appended
  // again: nothing changes, and the append is accepted if and only if it asks for the same role,
  // content, importance, token count and record ID, for the protection the event has by then,
  // and for metadata that compare equal with what JSON text kept of the first.
  lemma ReusedEventId(s: System, key: EventKey, draft: Draft, now: Time, run: seq<Step>, other: Draft, later: Time,
                      maxAttempts: nat)
    requires key !in s.db.events && AppendEvent(s.db, key, draft, now).outcome.Ok?
    requires ValidRun(Next(s, Append(key, draft, now), maxAttempts), run, maxAttempts)
    ensures var end := After(Next(s, Append(key, draft, now), maxAttempts), run, maxAttempts);
            var again := AppendEvent(end.db, key, other, later);
            && key in end.db.events && again.db == end.db
            && (again.outcome.Ok? <==>
                  && other.role == draft.role && other.content == draft.content
                  && other.importance == draft.importance && other.tokenCount == draft.tokenCount
                  && other.recordId == draft.recordId
                  && other.isProtected == end.db.events[key].isProtected
                  && Same(RoundTrip(PyDict(draft.metadata)), PyDict(other.metadata)))
            && (again.outcome.Err? ==> again.outcome == Err(EventIdReused))
  {
    hide RoundTrip, Same;
    EventsAreImmutable(Next(s, Append(key, draft, now), maxAttempts), run, maxAttempts, key);
    StoredIsObject(draft.metadata);
  }

  // Repeating an append, however much later, changes no table. It is accepted if and only if
  // the event's protection is still what was asked for when it was first recorded and the
  // metadata is of a kind that JSON text does not change.
  lemma RepeatedAppend(s: System, key: EventKey, draft: Draft, now: Time, run: seq<Step>, later: Time, maxAttempts: nat)
    requires key !in s.db.events && AppendEvent(s.db, key, draft, now).outcome.Ok?
    requires ValidRun(Next(s, Append(key, draft, now), maxAttempts), run, maxAttempts)
    ensures var end := After(Next(s, Append(key, draft, now), maxAttempts), run, maxAttempts);
            var again := AppendEvent(end.db, key, draft, later);
            && key in end.db.events && again.db == end.db
            && (again.outcome.Ok? <==>
                  end.db.events[key].isProtected == draft.isProtected && Matchable(PyDict(draft.metadata)))
  {
    hide RoundTrip, Same, Matchable, AppendEvent, After, ValidRun, Next;
    ReusedEventId(s, key, draft, now, run, draft, later, maxAttempts);
    AcceptedIsWritable(s.db, key, draft, now);
    SameAfterRoundTrip(PyDict(draft.metadata));
  }

  lemma AcceptedIsWritable(db: Database, key: EventKey, draft: Draft, now: Time)
    requires key !in db.events && AppendEvent(db, key, draft, now).outcome.Ok?
    ensures Writable(PyDict(draft.metadata))
  {
  }

  lemma StoredIsObject(given: Dict)
    requires Writable(PyDict(given))
    ensures JObject(StoredMetadata(given)) == RoundTrip(PyDict(given))
  {
  }

  // So the identical retry of an event that was released, or protected, in between is refused.
  lemma RetryAfterReleaseIsRefused(key: EventKey, draft: Draft, now: Time, later: Time, maxAttempts: nat)
    requires Matchable(PyDict(draft.metadata)) && Writable(PyDict(draft.metadata))
    ensures var recorded := Next(START, Append(key, draft, now), maxAttempts);
            var released := Next(recorded, Protect(key, !draft.isProtected), maxAttempts);
            && AppendEvent(recorded.db, key, draft, later).outcome.Ok?
            && AppendEvent(released.db, key, draft, later).outcome == Err(EventIdReused)
  {
    hide RoundTrip, Same, Matchable, Writable;
    SameAfterRoundTrip(PyDict(draft.metadata));
    StoredIsObject(draft.metadata);
  }

  // And so is the identical retry, at once and with nothing in between, of an event whose
  // metadata holds a tuple.
  lemma RetryWithTupleIsRefused(key: EventKey, draft: Draft, now: Time, later: Time, maxAttempts: nat)
    requires draft.metadata == map[Text("k") := PyTuple([PyNumber(1.0), PyNumber(2.0)])]
    ensures var recorded := Next(START, Append(key, draft, now), maxAttempts);
            && AppendEvent(START.db, key, draft, now).outcome.Ok?
            && AppendEvent(recorded.db, key, draft, later).outcome == Err(EventIdReused)
  {
    hide RoundTrip, Same;
    assert Writable(draft.metadata[Text("k")]);
    SameAfterRoundTrip(PyDict(draft.metadata));
    StoredIsObject(draft.metadata);
    assert !Matchable(draft.metadata[Text("k")]);
  }

  // ---- Calls without a token ----

  ghost predicate NeverBoth(outbox: map<EventKey, OutboxRow>) {
    forall k :: k in outbox ==> !(outbox[k].processedAt.Some? && outbox[k].terminalAt.Some?)
  }

  ghost predicate LeasedAreHeads(outbox: map<EventKey, OutboxRow>) {
    forall k :: k in outbox && outbox[k].lease.Some? ==> outbox[k].Active() && IsThreadHead(outbox, k)
  }

  // Marking an event indexed without a token leaves a row both processed and quarantined
  // exactly when it was quarantined.
  lemma UnfencedMarkKeepsApart(steps: seq<Step>, maxAttempts: nat, key: EventKey, now: Time)
    requires 0 < maxAttempts && ValidRun(START, steps, maxAttempts)
    ensures var db := After(START, steps, maxAttempts).db;
            NeverBoth(MarkUnfenced(db, key, now).outbox) <==> !(key in db.outbox && db.outbox[key].terminalAt.Some?)
  {
    hide Next, Enabled, CountInv, LogInv, LeaseInv, RecordInv, PreparedInv, HistoryInv, FailureInv;
    ReachableInv(steps, maxAttempts);
    var db := After(START, steps, maxAttempts).db;
    var after := MarkUnfenced(db, key, now).outbox;
    assert key in db.outbox ==> after[key].processedAt.Some? && after[key].terminalAt == db.outbox[key].terminalAt;
  }

  predicate Above(outbox: map<EventKey, OutboxRow>, k: EventKey, key: EventKey)
    requires k in outbox && key in outbox
  {
    k.thread == key.thread && outbox[k].sequence > outbox[key].sequence
  }

  // Failing an event without a token puts an active row below a leased one exactly when it
  // revives a quarantined row below one: the guard that the operator retry has is missing.
  lemma UnfencedFailKeepsHeads(steps: seq<Step>, maxAttempts: nat, key: EventKey, now: Time, retryAfter: Time,
                               terminal: bool)
    requires 0 < maxAttempts && ValidRun(START, steps, maxAttempts)
    ensures var db := After(START, steps, maxAttempts).db;
            LeasedAreHeads(FailUnfenced(db, key, now, retryAfter, terminal).outbox) <==>
            !(&& !terminal && key in db.outbox && db.outbox[key].terminalAt.Some?
              && exists k :: k in db.outbox && db.outbox[k].lease.Some? && Above(db.outbox, k, key))
  {
    hide Next, Enabled, CountInv, LogInv, RecordInv, PreparedInv, HistoryInv, FailureInv;
    ReachableInv(steps, maxAttempts);
    var db := After(START, steps, maxAttempts).db;
    FailedRowAndHeads(db, key, now, retryAfter, terminal);
  }

  lemma FailedRowAndHeads(db: Database, key: EventKey, now: Time, retryAfter: Time, terminal: bool)
    requires LeasedAreHeads(db.outbox) && NeverBoth(db.outbox)
    ensures LeasedAreHeads(FailUnfenced(db, key, now, retryAfter, terminal).outbox) <==>
            !(&& !terminal && key in db.outbox && db.outbox[key].terminalAt.Some?
              && exists k :: k in db.outbox && db.outbox[k].lease.Some? && Above(db.outbox, k, key))
  {
    var after := FailUnfenced(db, key, now, retryAfter, terminal).outbox;
    if key in db.outbox && db.outbox[key].processedAt.None? {
      forall k | k in after && after[k].lease.Some?
        ensures after[k] == db.outbox[k] && k != key
        ensures IsThreadHead(after, k) <==>
                  !(!terminal && db.outbox[key].terminalAt.Some? && Above(db.outbox, k, key))
      {
        assert IsThreadHead(db.outbox, k);
        if !terminal && Above(db.outbox, k, key) {
          assert after[key].Active() && after[key].sequence < after[k].sequence;
          assert !db.outbox[key].Active();
        } else {
          forall j | j in after && j.thread == k.thread && after[j].sequence < after[k].sequence
            ensures !after[j].Active()
          {
            assert j != key ==> after[j] == db.outbox[j];
          }
        }
      }
      if k :| k in db.outbox && db.outbox[k].lease.Some? && Above(db.outbox, k, key) {
        assert after[k] == db.outbox[k];
      }
    }
  }

  // ---- Runs in which those calls break the invariants ----

  lemma {:induction false} Extended(s: System, steps: seq<Step>, step: Step, maxAttempts: nat)
    requires ValidRun(s, steps, maxAttempts) && Enabled(After(s, steps, maxAttempts), step)
    ensures ValidRun(s, steps + [step], maxAttempts)
    ensures After(s, steps + [step], maxAttempts) == Next(After(s, steps, maxAttempts), step, maxAttempts)
    decreases |steps|
  {
    hide Enabled, Next;
    if steps == [] {
      assert steps + [step] == [step] && [step][1..] == [];
    } else {
      assert (steps + [step])[1..] == steps[1..] + [step];
      Extended(Next(s, steps[0], maxAttempts), steps[1..], step, maxAttempts);
    }
  }

  const NEW_ROW := OutboxRow(1, 0.0, 0.0, 0, None, None, None)

  // What the runs below need to know of a state.
  ghost predicate Looks(s: System, outbox: map<EventKey, OutboxRow>, claims: seq<Grant>) {
    && s.db.outbox == outbox && s.claims == claims && s.db.records == map[]
  }

  lemma FirstAppend(key: EventKey, draft: Draft)
    requires draft.metadata == map[]
    ensures Enabled(START, Append(key, draft, 0.0))
    ensures var s := Next(START, Append(key, draft, 0.0), 1);
            && Looks(s, map[key := NEW_ROW], []) && s.db.heads == map[key.thread := 1]
            && s.db.events.Keys == {key} && s.db.events[key].recordId == draft.recordId
  {
  }

  lemma SecondAppend(s: System, first: EventKey, key: EventKey, draft: Draft)
    requires draft.metadata == map[] && first.thread == key.thread && first != key
    requires Looks(s, map[first := NEW_ROW], []) && s.db.heads == map[key.thread := 1]
    requires s.db.events.Keys == {first} && s.db.events[first].recordId != draft.recordId
    ensures Enabled(s, Append(key, draft, 0.0))
    ensures Looks(Next(s, Append(key, draft, 0.0), 1), map[first := NEW_ROW, key := NEW_ROW.(sequence := 2)], [])
  {
    hide Writable, Same, RoundTrip, StoredMetadata;
    EmptyIsWritable();
    assert LinkedEvents(s.db, RecordKey(key.thread.namespace, draft.recordId)) == {};
  }

  lemma EmptyIsWritable()
    ensures Writable(PyDict(map[]))
  {
  }

  // The only claimable row is claimed.
  lemma OneClaim(s: System, outbox: map<EventKey, OutboxRow>, claims: seq<Grant>, key: EventKey)
    requires Looks(s, outbox, claims) && ClaimableKeys(s.db, "a", 0.0) == {key}
    ensures Enabled(s, Claim("a", 0.0, 1, 60.0, [key])) && key in outbox
    ensures Looks(Next(s, Claim("a", 0.0, 1, 60.0, [key]), 1),
                  outbox[key := outbox[key].(lease := Some(Lease("a", 60.0, |claims|)))],
                  claims + [Grant(key, outbox[key].attempts)])
  {
    assert key in ClaimableKeys(s.db, "a", 0.0);
    var leased := outbox[key := outbox[key].(lease := Some(Lease("a", 60.0, |claims|)))];
    assert LeaseRows(leased, [], "a", 60.0, |claims| + 1) == leased;
    assert [key][1..] == [];
    assert LeaseRows(outbox, [key], "a", 60.0, |claims|) == leased;
    assert NewClaims(s.db, [key]) == [Grant(key, outbox[key].attempts)];
  }

  // Its first failure quarantines it.
  lemma OneFailure(s: System, outbox: map<EventKey, OutboxRow>, claims: seq<Grant>, token: nat)
    requires Looks(s, outbox, claims) && token < |claims| && claims[token].key in outbox
    requires outbox[claims[token].key].Active() && outbox[claims[token].key].HeldBy(token)
    ensures Enabled(s, Fail(token, 0.0, 1.0))
    ensures var key := claims[token].key;
            var row := outbox[key];
            var failed :=
              row.(attempts := row.attempts + 1, availableAt := 1.0, terminalAt := Some(0.0), lease := None);
            Looks(Next(s, Fail(token, 0.0, 1.0), 1), outbox[key := failed], claims)
  {
  }

  // The lowest active row of one thread is all that can be claimed.
  lemma OnlyHead(s: System, outbox: map<EventKey, OutboxRow>, claims: seq<Grant>, key: EventKey)
    requires Looks(s, outbox, claims) && key in outbox
    requires outbox[key].Active() && outbox[key].lease.None? && outbox[key].availableAt <= 0.0
    requires forall k :: k in outbox && k != key ==>
               k.thread == key.thread && (!outbox[k].Active() || outbox[k].sequence > outbox[key].sequence)
    ensures ClaimableKeys(s.db, "a", 0.0) == {key}
  {
    forall k | k in outbox && k != key && outbox[k].Active()
      ensures !IsThreadHead(outbox, k)
    {
      assert key.thread == k.thread && outbox[key].Active() && outbox[key].sequence < outbox[k].sequence;
    }
    assert IsThreadHead(outbox, key);
  }

  lemma LooksOutbox(s: System, outbox: map<EventKey, OutboxRow>, claims: seq<Grant>)
    requires Looks(s, outbox, claims)
    ensures s.db.outbox == outbox
  {
  }

  const CLAIMED := NEW_ROW.(lease := Some(Lease("a", 60.0, 0)))
  const QUARANTINED := NEW_ROW.(attempts := 1, availableAt := 1.0, terminalAt := Some(0.0))

  // One event, claimed and quarantined, then marked indexed without a token: its row is both
  // processed and quarantined.
  lemma UnfencedMarkMixes(key: EventKey, draft: Draft, now: Time) returns (run: seq<Step>)
    requires draft.metadata == map[]
    ensures run == [Append(key, draft, 0.0), Claim("a", 0.0, 1, 60.0, [key]), Fail(0, 0.0, 1.0)]
    ensures ValidRun(START, run, 1) && !NeverBoth(MarkUnfenced(After(START, run, 1).db, key, now).outbox)
  {
    hide Next, Enabled, Looks;
    run := [];
    FirstAppend(key, draft);
    Extended(START, run, Append(key, draft, 0.0), 1);
    run := run + [Append(key, draft, 0.0)];
    OnlyHead(After(START, run, 1), map[key := NEW_ROW], [], key);
    OneClaim(After(START, run, 1), map[key := NEW_ROW], [], key);
    Extended(START, run, Claim("a", 0.0, 1, 60.0, [key]), 1);
    run := run + [Claim("a", 0.0, 1, 60.0, [key])];
    OneFailure(After(START, run, 1), map[key := CLAIMED], [Grant(key, 0)], 0);
    Extended(START, run, Fail(0, 0.0, 1.0), 1);
    run := run + [Fail(0, 0.0, 1.0)];
    LooksOutbox(After(START, run, 1), map[key := QUARANTINED], [Grant(key, 0)]);
    UnfencedMarkKeepsApart(run, 1, key, now);
  }

  // Two events of a thread: the first is quarantined, the second claimed, and then the first is
  // failed without a token. It is active again, below a leased row.
  lemma UnfencedFailBreaksHeads(first: EventKey, draft: Draft, second: EventKey, other: Draft, now: Time,
                                retryAfter: Time) returns (run: seq<Step>)
    requires draft.metadata == map[] && other.metadata == map[] && draft.recordId != other.recordId
    requires first.thread == second.thread && first != second
    ensures run == [Append(first, draft, 0.0), Append(second, other, 0.0), Claim("a", 0.0, 1, 60.0, [first]),
                    Fail(0, 0.0, 1.0), Claim("a", 0.0, 1, 60.0, [second])]
    ensures ValidRun(START, run, 1)
    ensures !LeasedAreHeads(FailUnfenced(After(START, run, 1).db, first, now, retryAfter, false).outbox)
  {
    hide Next, Enabled, Looks, After, ValidRun, FailUnfenced, LeasedAreHeads;
    var later := NEW_ROW.(sequence := 2);
    var both := map[first := NEW_ROW, second := later];
    var quarantined := map[first := QUARANTINED, second := later];
    run := TwoAppends(first, draft, second, other);
    OnlyHead(After(START, run, 1), both, [], first);
    OneClaim(After(START, run, 1), both, [], first);
    Extended(START, run, Claim("a", 0.0, 1, 60.0, [first]), 1);
    run := run + [Claim("a", 0.0, 1, 60.0, [first])];
    assert [] + [Grant(first, 0)] == [Grant(first, 0)];
    OneFailure(After(START, run, 1), both[first := CLAIMED], [Grant(first, 0)], 0);
    Extended(START, run, Fail(0, 0.0, 1.0), 1);
    run := run + [Fail(0, 0.0, 1.0)];
    assert both[first := CLAIMED][first := QUARANTINED] == quarantined;
    OnlyHead(After(START, run, 1), quarantined, [Grant(first, 0)], second);
    OneClaim(After(START, run, 1), quarantined, [Grant(first, 0)], second);
    Extended(START, run, Claim("a", 0.0, 1, 60.0, [second]), 1);
    run := run + [Claim("a", 0.0, 1, 60.0, [second])];
    LooksOutbox(After(START, run, 1), quarantined[second := later.(lease := Some(Lease("a", 60.0, 1)))],
                [Grant(first, 0)] + [Grant(second, 0)]);
    UnfencedFailKeepsHeads(run, 1, first, now, retryAfter, false);
    assert Above(After(START, run, 1).db.outbox, second, first);
  }

  lemma TwoAppends(first: EventKey, draft: Draft, second: EventKey, other: Draft) returns (run: seq<Step>)
    requires draft.metadata == map[] && other.metadata == map[] && draft.recordId != other.recordId
    requires first.thread == second.thread && first != second
    ensures run == [Append(first, draft, 0.0), Append(second, other, 0.0)] && ValidRun(START, run, 1)
    ensures Looks(After(START, run, 1), map[first := NEW_ROW, second := NEW_ROW.(sequence := 2)], [])
  {
    hide Next, Enabled, Looks;
    run := [];
    FirstAppend(first, draft);
    Extended(START, run, Append(first, draft, 0.0), 1);
    run := run + [Append(first, draft, 0.0)];
    SecondAppend(After(START, run, 1), first, second, other);
    Extended(START, run, Append(second, other, 0.0), 1);
    run := run + [Append(second, other, 0.0)];
  }
}
