// Opening, operating and closing a cache: what may still run when SQLite is closed.

module Lifecycle {
  import opened Results

  datatype Phase = Open | Closing | Closed

  // An outermost operation of one thread, and how deeply it has nested others inside it.
  datatype Operation = Operation(isStatus: bool, depth: nat)

  // Where the one close attempt that holds the close lock stands.
  datatype Closer =
    | Idle
    | Waiting                                        // for the operations to end
    | Drained                                        // sealed; the indexer is next
    | IndexerTried(indexerOk: bool)
    | RuntimeTried                                   // the runtime is drained; Redis is next
    | RedisTried
    | StoreTried
    | LockTried

  datatype Engine = Engine(
    lifecycle: Phase,
    isSealed: bool,
    active: map<nat, Operation>,
    closer: Closer,
    runtimeClosed: bool,
    schedulerStopped: bool,
    indexerWorkers: set<nat>,
    deskWorkers: set<nat>,
    shutdownComplete: bool,
    redisClosed: bool,
    storeClosed: bool,
    lockReleased: bool)

  datatype Step =
    | Admit(thread: nat, isStatus: bool)
    | Nest(thread: nat)
    | Leave(thread: nat)
    | StartIndexer(worker: nat)
    | StartDesk(worker: nat)
    | IndexerExit(worker: nat)
    | DeskExit(worker: nat)
    | BeginClose
    | OperationsDrained
    | OperationsTimedOut
    | CloseIndexer(ok: bool)
    | CloseDesks(ok: bool)
    | CloseRedis(ok: bool)
    | CloseStore(ok: bool)
    | ReleaseLock(ok: bool)
    | EndClose

  // The guards of the source; `ok` is what the attempt returned.
  predicate Enabled(s: Engine, step: Step) {
    match step
    case Admit(t, isStatus) =>
      t !in s.active && (s.lifecycle == Open || (isStatus && s.lifecycle == Closing && !s.isSealed))
    case Nest(t) => t in s.active
    case Leave(t) => t in s.active
    case StartIndexer(w) => !s.runtimeClosed && w !in s.indexerWorkers
    case StartDesk(w) => !s.schedulerStopped && w !in s.deskWorkers
    case IndexerExit(w) => w in s.indexerWorkers
    case DeskExit(w) => w in s.deskWorkers
    case BeginClose => s.closer == Idle && s.lifecycle != Closed
    case OperationsDrained => s.closer == Waiting && s.active == map[]
    case OperationsTimedOut => s.closer == Waiting
    case CloseIndexer(ok) => s.closer == Drained && (ok && !s.shutdownComplete ==> s.indexerWorkers == {})
    case CloseDesks(ok) => s.closer.IndexerTried? && (ok && !s.shutdownComplete ==> s.deskWorkers == {})
    case CloseRedis(_) => s.closer == RuntimeTried
    case CloseStore(_) => s.closer == RedisTried
    case ReleaseLock(_) => s.closer == StoreTried
    case EndClose => s.closer == LockTried
  }

  function Next(s: Engine, step: Step): Engine
    requires Enabled(s, step)
  {
    match step
    case Admit(t, isStatus) => s.(active := s.active[t := Operation(isStatus, 1)])
    case Nest(t) => s.(active := s.active[t := s.active[t].(depth := s.active[t].depth + 1)])
    case Leave(t) =>
      if s.active[t].depth > 1 then s.(active := s.active[t := s.active[t].(depth := s.active[t].depth - 1)])
      else s.(active := s.active - {t})
    case StartIndexer(w) => s.(indexerWorkers := s.indexerWorkers + {w})
    case StartDesk(w) => s.(deskWorkers := s.deskWorkers + {w})
    case IndexerExit(w) => s.(indexerWorkers := s.indexerWorkers - {w})
    case DeskExit(w) => s.(deskWorkers := s.deskWorkers - {w})
    case BeginClose => s.(lifecycle := Closing, isSealed := false, closer := Waiting)
    case OperationsDrained => s.(isSealed := true, closer := Drained)
    case OperationsTimedOut => s.(closer := Idle)
    case CloseIndexer(ok) =>
      // A runtime that is already shut down reports so at once.
      if s.shutdownComplete then s.(closer := IndexerTried(true))
      else s.(runtimeClosed := true, closer := IndexerTried(ok))
    case CloseDesks(ok) =>
      if s.shutdownComplete then s.(closer := RuntimeTried)
      else if s.closer.indexerOk && ok then
        s.(schedulerStopped := true, shutdownComplete := true, closer := RuntimeTried)
      else s.(schedulerStopped := true, isSealed := false, closer := Idle)
    case CloseRedis(ok) => s.(redisClosed := s.redisClosed || ok, closer := RedisTried)
    case CloseStore(ok) => s.(storeClosed := s.storeClosed || ok, closer := StoreTried)
    case ReleaseLock(ok) => s.(lockReleased := s.lockReleased || (s.storeClosed && ok), closer := LockTried)
    case EndClose =>
      if s.redisClosed && s.storeClosed && s.lockReleased then s.(lifecycle := Closed, closer := Idle)
      else s.(closer := Idle)
  }

  // ---- Invariant ----

  ghost predicate OnlyStatus(active: map<nat, Operation>) {
    forall t :: t in active ==> active[t].isStatus
  }

  ghost predicate Inv(s: Engine) {
    && (s.isSealed ==> s.active == map[] && s.lifecycle != Open)
    && (s.closer != Idle ==> s.lifecycle == Closing)
    && (s.closer != Idle && s.closer != Waiting ==> s.isSealed)
    && (s.lifecycle == Open ==> !s.runtimeClosed && !s.schedulerStopped)
    && (s.closer.IndexerTried? && !s.shutdownComplete ==>
          s.runtimeClosed && (s.closer.indexerOk ==> s.indexerWorkers == {}))
    && (s.closer == RuntimeTried || s.closer == RedisTried || s.closer == StoreTried || s.closer == LockTried ==>
          s.shutdownComplete)
    && (s.shutdownComplete ==>
          && s.runtimeClosed && s.schedulerStopped && s.indexerWorkers == {} && s.deskWorkers == {}
          && OnlyStatus(s.active) && s.lifecycle != Open)
    && (s.storeClosed ==> s.shutdownComplete)
    && (s.lockReleased ==> s.storeClosed)
    && (s.lifecycle == Closed ==> s.active == map[] && s.redisClosed && s.storeClosed && s.lockReleased)
  }

  predicate Start(s: Engine) {
    s == Engine(Open, false, map[], Idle, false, false, {}, {}, false, false, false, false)
  }

  lemma OperationKeepsInv(s: Engine, step: Step)
    requires Inv(s) && Enabled(s, step) && (step.Admit? || step.Nest? || step.Leave?)
    ensures Inv(Next(s, step))
  {
  }

  lemma BeginKeepsInv(s: Engine)
    requires Inv(s) && Enabled(s, BeginClose)
    ensures Inv(Next(s, BeginClose))
  {
    hide OnlyStatus;
  }

  lemma StepKeepsInv(s: Engine, step: Step)
    requires Inv(s) && Enabled(s, step)
    ensures Inv(Next(s, step))
  {
    if step.Admit? || step.Nest? || step.Leave? {
      OperationKeepsInv(s, step);
    } else {
      hide OnlyStatus;
      match step
      case BeginClose => BeginKeepsInv(s);
      case _ =>
    }
  }

  // ---- Runs ----

  ghost predicate ValidRun(s: Engine, run: seq<Step>)
    decreases |run|
  {
    run == [] || (Enabled(s, run[0]) && ValidRun(Next(s, run[0]), run[1..]))
  }

  ghost function After(s: Engine, run: seq<Step>): Engine
    requires ValidRun(s, run)
    decreases |run|
  {
    if run == [] then s else After(Next(s, run[0]), run[1..])
  }

  lemma {:induction false} RunKeepsInv(s: Engine, run: seq<Step>)
    requires Inv(s) && ValidRun(s, run)
    ensures Inv(After(s, run))
    decreases |run|
  {
    hide Inv;
    if run != [] {
      StepKeepsInv(s, run[0]);
      RunKeepsInv(Next(s, run[0]), run[1..]);
    }
  }

  lemma StepNeverReopens(s: Engine, step: Step)
    requires Enabled(s, step)
    ensures FurtherClosed(s, Next(s, step))
  {
    if step.Admit? || step.Nest? || step.Leave? || step.StartIndexer? || step.StartDesk? || step.IndexerExit?
       || step.DeskExit? {
      OthersCloseNothing(s, step);
    }
  }

  lemma OthersCloseNothing(s: Engine, step: Step)
    requires Enabled(s, step)
    requires || step.Admit? || step.Nest? || step.Leave? || step.StartIndexer? || step.StartDesk?
             || step.IndexerExit? || step.DeskExit?
    ensures FurtherClosed(s, Next(s, step))
  {
  }

  predicate FurtherClosed(s: Engine, later: Engine) {
    && (s.lifecycle != Open ==> later.lifecycle != Open)
    && (s.shutdownComplete ==> later.shutdownComplete)
    && (s.storeClosed ==> later.storeClosed)
    && (s.lockReleased ==> later.lockReleased)
  }

  // Once closing has begun the cache never opens again, and what was shut stays shut.
  lemma {:induction false} NeverReopens(s: Engine, run: seq<Step>)
    requires ValidRun(s, run)
    ensures FurtherClosed(s, After(s, run))
    decreases |run|
  {
    hide Next, Enabled;
    if run != [] {
      StepNeverReopens(s, run[0]);
      NeverReopens(Next(s, run[0]), run[1..]);
    }
  }

  // Over every sequence of admissions, timeouts, repeated close attempts and failing closes,
  // the step that closes SQLite finds no active operation and no runtime worker.
  lemma StoreClosesQuietly(start: Engine, run: seq<Step>, ok: bool)
    requires Start(start) && ValidRun(start, run) && Enabled(After(start, run), CloseStore(ok))
    ensures var s := After(start, run);
            s.active == map[] && s.shutdownComplete && s.indexerWorkers == {} && s.deskWorkers == {}
  {
    RunKeepsInv(start, run);
  }

  // The database lock is held for as long as SQLite is open.
  lemma LockOutlivesStore(start: Engine, run: seq<Step>)
    requires Start(start) && ValidRun(start, run)
    ensures After(start, run).lockReleased ==> After(start, run).storeClosed
  {
    RunKeepsInv(start, run);
  }

  // After any close has begun, no outermost ordinary operation is admitted any more, and none
  // is left once the runtime is shut down, so none ever meets a closed SQLite.
  lemma NoOrdinaryOperationAfterClose(start: Engine, before: seq<Step>, after: seq<Step>, thread: nat)
    requires Start(start) && ValidRun(start, before) && Enabled(After(start, before), BeginClose)
    requires ValidRun(Next(After(start, before), BeginClose), after)
    ensures var s := After(Next(After(start, before), BeginClose), after);
            && !Enabled(s, Admit(thread, false))
            && (s.storeClosed ==> OnlyStatus(s.active))
  {
    RunKeepsInv(start, before);
    StepKeepsInv(After(start, before), BeginClose);
    RunKeepsInv(Next(After(start, before), BeginClose), after);
    NeverReopens(Next(After(start, before), BeginClose), after);
  }

  // A closed cache is quiet for good.
  lemma ClosedIsFinal(start: Engine, run: seq<Step>, thread: nat, isStatus: bool)
    requires Start(start) && ValidRun(start, run) && After(start, run).lifecycle == Closed
    ensures var s := After(start, run);
            && s.active == map[] && s.storeClosed && s.lockReleased
            && !Enabled(s, Admit(thread, isStatus)) && !Enabled(s, BeginClose)
  {
    RunKeepsInv(start, run);
  }

  // ---- Status operations: the seal can be lifted again ----

  // While the seal holds, a closed SQLite has no active operation of any kind and admits none.
  lemma SealedStoreIsQuiet(start: Engine, run: seq<Step>)
    requires Start(start) && ValidRun(start, run)
    ensures var s := After(start, run);
            s.storeClosed && s.isSealed ==>
              s.active == map[] && forall thread, isStatus :: !Enabled(s, Admit(thread, isStatus))
  {
    RunKeepsInv(start, run);
  }

  // A status operation meets a closed SQLite exactly when a later close attempt has lifted the
  // seal: after SQLite is closed one is admitted if and only if the seal is off and closing
  // has not completed.
  lemma StatusAfterStoreClosed(start: Engine, run: seq<Step>, thread: nat)
    requires Start(start) && ValidRun(start, run)
    requires After(start, run).storeClosed && thread !in After(start, run).active
    ensures var s := After(start, run);
            Enabled(s, Admit(thread, true)) <==> !s.isSealed && s.lifecycle != Closed
  {
    RunKeepsInv(start, run);
  }

  // Such a run: SQLite closes, releasing the lock fails, and a second close begins.
  const SECOND_CLOSE: seq<Step> := [BeginClose, Admit(0, true)]

  const FIRST_CLOSE: seq<Step> :=
    [BeginClose, OperationsDrained, CloseIndexer(true), CloseDesks(true), CloseRedis(true), CloseStore(true),
     ReleaseLock(false), EndClose]

  lemma Prepend(s: Engine, run: seq<Step>, k: nat)
    requires k < |run| && Enabled(s, run[k]) && ValidRun(Next(s, run[k]), run[k + 1..])
    ensures ValidRun(s, run[k..]) && After(s, run[k..]) == After(Next(s, run[k]), run[k + 1..])
  {
    assert run[k..][1..] == run[k + 1..];
  }

  lemma {:induction false} ConcatRuns(s: Engine, a: seq<Step>, b: seq<Step>)
    requires ValidRun(s, a) && ValidRun(After(s, a), b)
    ensures ValidRun(s, a + b) && After(s, a + b) == After(After(s, a), b)
    decreases |a|
  {
    hide Next, Enabled;
    if a == [] {
      assert a + b == b;
    } else {
      assert (a + b)[0] == a[0] && (a + b)[1..] == a[1..] + b;
      ConcatRuns(Next(s, a[0]), a[1..], b);
    }
  }

  lemma NoStep(s: Engine)
    ensures ValidRun(s, []) && After(s, []) == s
  {
  }

  const FIRST_CLOSE_STATES: seq<Engine> :=
    [Engine(Open, false, map[], Idle, false, false, {}, {}, false, false, false, false),
     Engine(Closing, false, map[], Waiting, false, false, {}, {}, false, false, false, false),
     Engine(Closing, true, map[], Drained, false, false, {}, {}, false, false, false, false),
     Engine(Closing, true, map[], IndexerTried(true), true, false, {}, {}, false, false, false, false),
     Engine(Closing, true, map[], RuntimeTried, true, true, {}, {}, true, false, false, false),
     Engine(Closing, true, map[], RedisTried, true, true, {}, {}, true, true, false, false),
     Engine(Closing, true, map[], StoreTried, true, true, {}, {}, true, true, true, false),
     Engine(Closing, true, map[], LockTried, true, true, {}, {}, true, true, true, false),
     Engine(Closing, true, map[], Idle, true, true, {}, {}, true, true, true, false)]

  lemma FirstCloseStep(k: nat)
    requires k < 8
    ensures Enabled(FIRST_CLOSE_STATES[k], FIRST_CLOSE[k])
    ensures Next(FIRST_CLOSE_STATES[k], FIRST_CLOSE[k]) == FIRST_CLOSE_STATES[k + 1]
  {
    if k == 0 {} else if k == 1 {} else if k == 2 {} else if k == 3 {} else if k == 4 {} else if k == 5 {}
    else if k == 6 {} else { assert k == 7; }
  }

  // Closing as far as SQLite, with the lock still held and the seal still on.
  lemma {:induction false} FirstClose(k: nat)
    requires k <= 8
    ensures ValidRun(FIRST_CLOSE_STATES[k], FIRST_CLOSE[k..])
    ensures After(FIRST_CLOSE_STATES[k], FIRST_CLOSE[k..]) == FIRST_CLOSE_STATES[8]
    decreases 8 - k
  {
    hide Next, Enabled;
    if k == 8 {
      assert FIRST_CLOSE[8..] == [];
    } else {
      FirstCloseStep(k);
      FirstClose(k + 1);
      Prepend(FIRST_CLOSE_STATES[k], FIRST_CLOSE, k);
    }
  }

  lemma StatusMayMeetClosedStore(start: Engine)
    requires Start(start)
    ensures ValidRun(start, FIRST_CLOSE + SECOND_CLOSE)
    ensures var s := After(start, FIRST_CLOSE + SECOND_CLOSE);
            s.storeClosed && s.active == map[0 := Operation(true, 1)]
  {
    hide ValidRun, After;
    FirstClose(0);
    assert FIRST_CLOSE[0..] == FIRST_CLOSE;
    var s := After(start, FIRST_CLOSE);
    var s1 := Next(s, SECOND_CLOSE[0]);
    var s2 := Next(s1, SECOND_CLOSE[1]);
    assert SECOND_CLOSE[2..] == [] && SECOND_CLOSE[0..] == SECOND_CLOSE;
    NoStep(s2);
    Prepend(s1, SECOND_CLOSE, 1);
    Prepend(s, SECOND_CLOSE, 0);
    ConcatRuns(start, FIRST_CLOSE, SECOND_CLOSE);
  }
}
