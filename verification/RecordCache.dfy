// The record cache beside SQLite: operations interleave under a read/write gate and striped
// record locks, and RAM may drop entries at any moment.

module RecordCache {
  import opened Results
  import opened Models
  import opened Scopes
  import opened Gates

  // A stored record with the columns that the caches compare.
  datatype Row = Row(record: ContextRecord, updatedAt: Time, accessedAt: Time, contentHash: string)

  // Where a thread stands inside an operation; a thread outside has no phase.
  datatype Phase =
    | Reading(key: RecordKey)                    // through the gate, holding the record's lock
    | Fetched(key: RecordKey, row: Row)          // SQLite read, RAM not yet filled
    | Dirty(key: RecordKey, pending: Option<Row>)   // SQLite written, RAM not yet
    | Exclusive                                  // through the gate for a bulk mutation
    | Cleaning(gone: set<RecordKey>)             // rows deleted, RAM not yet
  {
    predicate Locks() {
      Reading? || Fetched? || Dirty?
    }

    predicate Unsettled(k: RecordKey) {
      (Dirty? && key == k) || (Cleaning? && k in gone)
    }
  }

  datatype Cache = Cache(
    store: map<RecordKey, Row>,
    ram: map<RecordKey, Row>,
    gate: Gate,
    threads: map<nat, Phase>,
    now: Time)

  datatype Step =
    | Enter(thread: nat, key: RecordKey)
    | Leave(thread: nat)
    | Upsert(thread: nat, row: Row)
    | Touch(thread: nat, at: Time)
    | Delete(thread: nat)
    | Forget(thread: nat)
    | SyncRam(thread: nat, evicted: set<RecordKey>)
    | Fetch(thread: nat)
    | FillRam(thread: nat, evicted: set<RecordKey>)
    | EnterBulk(thread: nat)
    | BulkDelete(thread: nat, gone: set<RecordKey>)
    | CleanRam(thread: nat, everything: bool)
    | LeaveBulk(thread: nat)
    | ExpireRow(key: RecordKey)
    | DropRam(evicted: set<RecordKey>)
    | Tick(at: Time)

  // The key under which RAM files a record.
  function RamKey(key: RecordKey): string {
    key.namespace + "\U{1F}" + key.id
  }

  // The separator first appears right after a validated namespace.
  lemma SeparatorAt(key: RecordKey, i: nat)
    requires ValidIdentifier(key.namespace) && i <= |key.namespace|
    ensures RamKey(key)[i] == '\U{1F}' <==> i == |key.namespace|
  {
    if i < |key.namespace| {
      assert RamKey(key)[i] == key.namespace[i] && key.namespace[i] in key.namespace;
    }
  }

  // A validated namespace has no control characters, so no two records share a RAM key,
  // whatever their identifiers contain.
  lemma RamKeyInjective(a: RecordKey, b: RecordKey)
    requires ValidIdentifier(a.namespace) && ValidIdentifier(b.namespace) && RamKey(a) == RamKey(b)
    ensures a == b
  {
    var m, n := |a.namespace|, |b.namespace|;
    SeparatorAt(a, Min(m, n));
    SeparatorAt(b, Min(m, n));
    assert a.namespace == RamKey(a)[..m] == RamKey(b)[..n] == b.namespace;
    assert a.id == RamKey(a)[m + 1..] == RamKey(b)[n + 1..] == b.id;
  }

  // ---- Steps; `slotOf` says which of the striped locks guards a record ----

  ghost predicate Free(s: Cache, slotOf: RecordKey -> nat, slot: nat) {
    forall t :: t in s.threads && s.threads[t].Locks() ==> slotOf(s.threads[t].key) != slot
  }

  ghost predicate Enabled(s: Cache, slotOf: RecordKey -> nat, step: Step) {
    match step
    case Enter(t, key) => t !in s.threads && s.gate.AdmitsReader(t) && Free(s, slotOf, slotOf(key))
    case Leave(t) => t in s.threads && s.threads[t].Reading?
    case Upsert(t, row) =>
      && t in s.threads && s.threads[t] == Reading(row.record.Key())
      && (row.record.Key() in s.store ==> s.store[row.record.Key()].record.SameVisibility(row.record))
    case Touch(t, _) => t in s.threads && s.threads[t].Reading? && s.threads[t].key in s.store
    case Delete(t) => t in s.threads && s.threads[t].Reading?
    case Forget(t) => t in s.threads && s.threads[t].Reading?
    case SyncRam(t, _) => t in s.threads && s.threads[t].Dirty?
    case Fetch(t) => t in s.threads && s.threads[t].Reading? && s.threads[t].key in s.store
    case FillRam(t, _) => t in s.threads && s.threads[t].Fetched?
    case EnterBulk(t) => t !in s.threads && s.gate.AdmitsWriter()
    case BulkDelete(t, _) => t in s.threads && s.threads[t].Exclusive?
    case CleanRam(t, _) => t in s.threads && s.threads[t].Cleaning?
    case LeaveBulk(t) => t in s.threads && s.threads[t].Exclusive?
    case ExpireRow(key) => key in s.store && s.store[key].record.Expired(s.now)
    case DropRam(_) => true
    case Tick(at) => s.now <= at
  }

  // Putting a row in RAM may evict any entries, even the one just put.
  function Put(ram: map<RecordKey, Row>, key: RecordKey, row: Option<Row>, evicted: set<RecordKey>)
    : map<RecordKey, Row>
  {
    (match row case Some(r) => ram[key := r] case None => ram - {key}) - evicted
  }

  function Next(s: Cache, step: Step): Cache
    requires exists slotOf :: Enabled(s, slotOf, step)
  {
    match step
    case Enter(t, key) => s.(gate := s.gate.Entered(t), threads := s.threads[t := Reading(key)])
    case Leave(t) => s.(gate := s.gate.Left(t), threads := s.threads - {t})
    case Upsert(t, row) =>
      s.(store := s.store[row.record.Key() := row], threads := s.threads[t := Dirty(row.record.Key(), Some(row))])
    case Touch(t, at) =>
      var key := s.threads[t].key;
      var row := s.store[key].(accessedAt := at);
      s.(store := s.store[key := row], threads := s.threads[t := Dirty(key, Some(row))])
    case Delete(t) =>
      var key := s.threads[t].key;
      s.(store := s.store - {key}, threads := s.threads[t := Dirty(key, None)])
    case Forget(t) => s.(threads := s.threads[t := Dirty(s.threads[t].key, None)])
    case SyncRam(t, evicted) =>
      var key := s.threads[t].key;
      s.(ram := Put(s.ram, key, s.threads[t].pending, evicted), threads := s.threads[t := Reading(key)])
    case Fetch(t) =>
      var key := s.threads[t].key;
      s.(threads := s.threads[t := Fetched(key, s.store[key])])
    case FillRam(t, evicted) =>
      var key := s.threads[t].key;
      s.(ram := Put(s.ram, key, Some(s.threads[t].row), evicted), threads := s.threads[t := Reading(key)])
    case EnterBulk(t) => s.(gate := s.gate.(writer := Some(t)), threads := s.threads[t := Exclusive])
    case BulkDelete(t, gone) => s.(store := s.store - gone, threads := s.threads[t := Cleaning(gone)])
    case CleanRam(t, everything) =>
      s.(ram := if everything then map[] else s.ram - s.threads[t].gone, threads := s.threads[t := Exclusive])
    case LeaveBulk(t) => s.(gate := s.gate.(writer := None), threads := s.threads - {t})
    case ExpireRow(key) => s.(store := s.store - {key})
    case DropRam(evicted) => s.(ram := s.ram - evicted)
    case Tick(at) => s.(now := at)
  }

  // ---- Invariants ----

  ghost predicate GateInv(gate: Gate, threads: map<nat, Phase>) {
    && gate.Exclusive()
    && (forall t :: t in gate.depth ==> t in threads && threads[t].Locks() && gate.depth[t] == 1)
    && (forall t :: t in threads && threads[t].Locks() ==> t in gate.depth)
    && (forall t :: t in threads && !threads[t].Locks() ==> gate.writer == Some(t))
    && (gate.writer.Some? ==> gate.writer.value in threads)
  }

  ghost predicate LockInv(threads: map<nat, Phase>, slotOf: RecordKey -> nat) {
    forall t, u :: t in threads && u in threads && t != u && threads[t].Locks() && threads[u].Locks() ==>
                     slotOf(threads[t].key) != slotOf(threads[u].key)
  }

  // No operation is between its SQLite write and its RAM update for this record.
  ghost predicate Settled(threads: map<nat, Phase>, k: RecordKey) {
    forall t :: t in threads ==> !threads[t].Unsettled(k)
  }

  ghost predicate Coherent(s: Cache) {
    forall k :: k in s.ram && Settled(s.threads, k) && !s.ram[k].record.Expired(s.now) ==>
                  k in s.store && s.store[k] == s.ram[k]
  }

  // A row read from SQLite under the record's lock stays current until it reaches RAM.
  ghost predicate PendingInv(s: Cache) {
    forall t :: t in s.threads ==>
      match s.threads[t]
      case Fetched(k, row) => row.record.Expired(s.now) || (k in s.store && s.store[k] == row)
      case Dirty(k, Some(row)) => row.record.Expired(s.now) || (k in s.store && s.store[k] == row)
      case _ => true
  }

  ghost predicate Inv(s: Cache, slotOf: RecordKey -> nat) {
    GateInv(s.gate, s.threads) && LockInv(s.threads, slotOf) && Coherent(s) && PendingInv(s)
  }

  predicate Start(s: Cache) {
    s.ram == map[] && s.threads == map[] && s.gate == Gate(map[], None)
  }

  lemma StartInv(s: Cache, slotOf: RecordKey -> nat)
    requires Start(s)
    ensures Inv(s, slotOf)
  {
  }

  lemma GateStep(s: Cache, slotOf: RecordKey -> nat, step: Step)
    requires GateInv(s.gate, s.threads) && Enabled(s, slotOf, step)
    ensures GateInv(Next(s, step).gate, Next(s, step).threads)
  {
    hide Put, Free;
    if step.Enter? || step.Leave? || step.EnterBulk? || step.LeaveBulk? {
      PassageKeepsGate(s, slotOf, step);
    } else {
      hide Gate.Entered, Gate.Left, Gate.Exclusive;
    }
  }

  lemma PassageKeepsGate(s: Cache, slotOf: RecordKey -> nat, step: Step)
    requires step.Enter? || step.Leave? || step.EnterBulk? || step.LeaveBulk?
    requires GateInv(s.gate, s.threads) && Enabled(s, slotOf, step)
    ensures GateInv(Next(s, step).gate, Next(s, step).threads)
  {
    hide Free;
  }

  lemma LockStep(s: Cache, slotOf: RecordKey -> nat, step: Step)
    requires LockInv(s.threads, slotOf) && Enabled(s, slotOf, step)
    ensures LockInv(Next(s, step).threads, slotOf)
  {
  }

  lemma PendingStep(s: Cache, slotOf: RecordKey -> nat, step: Step)
    requires LockInv(s.threads, slotOf) && GateInv(s.gate, s.threads) && PendingInv(s) && Enabled(s, slotOf, step)
    ensures PendingInv(Next(s, step))
  {
    hide Put, Free;
    if step.Upsert? || step.Touch? || step.Delete? {
      WriteKeepsPending(s, slotOf, step);
    } else if step.BulkDelete? {
      BulkKeepsPending(s, slotOf, step);
    } else {
      hide LockInv, GateInv;
    }
  }

  // No other thread holds the lock of the record that is written.
  lemma WriteKeepsPending(s: Cache, slotOf: RecordKey -> nat, step: Step)
    requires step.Upsert? || step.Touch? || step.Delete?
    requires LockInv(s.threads, slotOf) && PendingInv(s) && Enabled(s, slotOf, step)
    ensures PendingInv(Next(s, step))
  {
    hide Free;
    forall t | t in s.threads && t != step.thread && s.threads[t].Locks()
      ensures s.threads[t].key != s.threads[step.thread].key
    {
    }
  }

  // No other thread is inside.
  lemma BulkKeepsPending(s: Cache, slotOf: RecordKey -> nat, step: Step)
    requires step.BulkDelete?
    requires GateInv(s.gate, s.threads) && PendingInv(s) && Enabled(s, slotOf, step)
    ensures PendingInv(Next(s, step))
  {
    hide Free;
  }

  // A record that is settled after a step was settled before it, unless the step settled it.
  lemma SettledBefore(s: Cache, slotOf: RecordKey -> nat, step: Step, k: RecordKey)
    requires GateInv(s.gate, s.threads) && Enabled(s, slotOf, step) && Settled(Next(s, step).threads, k)
    ensures Settled(s.threads, k)
         || (step.SyncRam? && s.threads[step.thread].key == k)
         || (step.CleanRam? && k in s.threads[step.thread].gone)
  {
    var after := Next(s, step).threads;
    forall t | t in s.threads
      ensures !s.threads[t].Unsettled(k)
           || (step.SyncRam? && s.threads[step.thread].key == k)
           || (step.CleanRam? && k in s.threads[step.thread].gone)
    {
      assert t in after ==> !after[t].Unsettled(k);
    }
  }

  lemma CoherentStep(s: Cache, slotOf: RecordKey -> nat, step: Step)
    requires Inv(s, slotOf) && Enabled(s, slotOf, step)
    ensures Coherent(Next(s, step))
  {
    var after := Next(s, step);
    forall k | k in after.ram && Settled(after.threads, k) && !after.ram[k].record.Expired(after.now)
      ensures k in after.store && after.store[k] == after.ram[k]
    {
      SettledBefore(s, slotOf, step, k);
      StepAtKey(s, slotOf, step, k);
    }
  }

  lemma StepAtKey(s: Cache, slotOf: RecordKey -> nat, step: Step, k: RecordKey)
    requires Inv(s, slotOf) && Enabled(s, slotOf, step)
    requires k in Next(s, step).ram && Settled(Next(s, step).threads, k)
    requires !Next(s, step).ram[k].record.Expired(Next(s, step).now)
    requires Settled(s.threads, k)
         || (step.SyncRam? && s.threads[step.thread].key == k)
         || (step.CleanRam? && k in s.threads[step.thread].gone)
    ensures k in Next(s, step).store && Next(s, step).store[k] == Next(s, step).ram[k]
  {
    hide GateInv, LockInv;
    var after := Next(s, step);
    if step.Upsert? || step.Touch? || step.Delete? || step.Forget? || step.BulkDelete? {
      assert !after.threads[step.thread].Unsettled(k);
    }
  }

  lemma StepKeepsInv(s: Cache, slotOf: RecordKey -> nat, step: Step)
    requires Inv(s, slotOf) && Enabled(s, slotOf, step)
    ensures Inv(Next(s, step), slotOf)
  {
    hide GateInv, LockInv, Coherent, PendingInv;
    GateStep(s, slotOf, step);
    LockStep(s, slotOf, step);
    PendingStep(s, slotOf, step);
    CoherentStep(s, slotOf, step);
  }

  // ---- Runs ----

  ghost predicate ValidRun(s: Cache, slotOf: RecordKey -> nat, run: seq<Step>)
    decreases |run|
  {
    run == [] || (Enabled(s, slotOf, run[0]) && ValidRun(Next(s, run[0]), slotOf, run[1..]))
  }

  ghost function After(s: Cache, slotOf: RecordKey -> nat, run: seq<Step>): Cache
    requires ValidRun(s, slotOf, run)
    decreases |run|
  {
    if run == [] then s else After(Next(s, run[0]), slotOf, run[1..])
  }

  lemma {:induction false} RunKeepsInv(s: Cache, slotOf: RecordKey -> nat, run: seq<Step>)
    requires Inv(s, slotOf) && ValidRun(s, slotOf, run)
    ensures Inv(After(s, slotOf, run), slotOf)
    decreases |run|
  {
    if run != [] {
      StepKeepsInv(s, slotOf, run[0]);
      RunKeepsInv(Next(s, run[0]), slotOf, run[1..]);
    }
  }

  // ---- What a reader is given ----

  function GetVisible(store: map<RecordKey, Row>, key: RecordKey, selection: ScopeSelection, now: Time): Option<Row> {
    if key in store && selection.Allows(store[key].record)
          && !store[key].record.Expired(now) then Some(store[key]) else None
  }

  // RAM first, then SQLite. What Redis holds is compared with SQLite but never returned.
  function Get(s: Cache, key: RecordKey, selection: ScopeSelection): Option<Row> {
    if key in s.ram && !s.ram[key].record.Expired(s.now) && selection.Allows(s.ram[key].record) then Some(s.ram[key])
    else GetVisible(s.store, key, selection, s.now)
  }

  // Through every interleaving, a reader that holds the record's lock is given exactly what
  // SQLite shows it: RAM hits, misses and evictions make no difference, and nothing outside
  // the selection, expired or deleted is ever returned.
  lemma GetIsGetVisible(start: Cache, slotOf: RecordKey -> nat, run: seq<Step>, thread: nat, selection: ScopeSelection)
    requires Start(start) && ValidRun(start, slotOf, run)
    requires thread in After(start, slotOf, run).threads && After(start, slotOf, run).threads[thread].Reading?
    ensures var s := After(start, slotOf, run);
            var key := s.threads[thread].key;
            var found := Get(s, key, selection);
            && found == GetVisible(s.store, key, selection, s.now)
            && (found.Some? <==>
                  && key in s.store && selection.Allows(s.store[key].record)
                  && (s.store[key].record.expiresAt.Some? ==> s.now < s.store[key].record.expiresAt.value))
            && (found.Some? ==> found.value == s.store[key])
  {
    StartInv(start, slotOf);
    RunKeepsInv(start, slotOf, run);
    var s := After(start, slotOf, run);
    var key := s.threads[thread].key;
    ReaderSeesSettled(s, slotOf, thread);
  }

  // While a reader holds a record's lock nobody else is between the two writes of that record.
  lemma ReaderSeesSettled(s: Cache, slotOf: RecordKey -> nat, thread: nat)
    requires Inv(s, slotOf) && thread in s.threads && s.threads[thread].Reading?
    ensures Settled(s.threads, s.threads[thread].key)
  {
    hide Coherent, PendingInv;
  }

  // Once every thread is outside, RAM holds current rows only.
  lemma QuietRamIsCurrent(start: Cache, slotOf: RecordKey -> nat, run: seq<Step>, k: RecordKey)
    requires Start(start) && ValidRun(start, slotOf, run)
    ensures var s := After(start, slotOf, run);
            s.threads == map[] && k in s.ram && !s.ram[k].record.Expired(s.now) ==>
              k in s.store && s.store[k] == s.ram[k]
  {
    StartInv(start, slotOf);
    RunKeepsInv(start, slotOf, run);
  }

  // A record that stays stored keeps its visibility through any run.
  lemma {:induction false} VisibilityIsFixed(s: Cache, slotOf: RecordKey -> nat, run: seq<Step>, k: RecordKey)
    requires ValidRun(s, slotOf, run) && k in s.store && Lives(s, slotOf, run, k)
    ensures k in After(s, slotOf, run).store && After(s, slotOf, run).store[k].record.SameVisibility(s.store[k].record)
    decreases |run|
  {
    if run != [] {
      assert Next(s, run[0]).store[k].record.SameVisibility(s.store[k].record);
      VisibilityIsFixed(Next(s, run[0]), slotOf, run[1..], k);
    }
  }

  // The record is never deleted along the run.
  ghost predicate Lives(s: Cache, slotOf: RecordKey -> nat, run: seq<Step>, k: RecordKey)
    requires ValidRun(s, slotOf, run)
    decreases |run|
  {
    k in s.store && (run == [] || Lives(Next(s, run[0]), slotOf, run[1..], k))
  }
}
