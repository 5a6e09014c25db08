// The engine's own code for admitting operations and closing, each section under a lock
// proved to be exactly one or more steps of module Lifecycle.

module CacheEngine {
  import opened Results
  import opened Lifecycle

  // The steps that shutting the runtime down and closing the resources amount to.
  lemma RuntimeSteps(s: Engine, indexerOk: bool, desksOk: bool)
    requires Inv(s) && s.closer == Drained
    requires !s.shutdownComplete ==> (indexerOk ==> s.indexerWorkers == {}) && (desksOk ==> s.deskWorkers == {})
    ensures Enabled(s, CloseIndexer(indexerOk)) && Enabled(Next(s, CloseIndexer(indexerOk)), CloseDesks(desksOk))
    ensures var down := s.shutdownComplete || (indexerOk && desksOk);
            var end := Next(Next(s, CloseIndexer(indexerOk)), CloseDesks(desksOk));
            && Inv(end) && (down ==> s.indexerWorkers == {} && s.deskWorkers == {})
            && end == if s.shutdownComplete then s.(closer := RuntimeTried)
                      else if down then
                        s.(runtimeClosed := true, schedulerStopped := true, shutdownComplete := true,
                           closer := RuntimeTried)
                      else s.(runtimeClosed := true, schedulerStopped := true, isSealed := false, closer := Idle)
  {
    StepKeepsInv(s, CloseIndexer(indexerOk));
    StepKeepsInv(Next(s, CloseIndexer(indexerOk)), CloseDesks(desksOk));
    hide Inv;
  }

  lemma ResourceSteps(s: Engine, redisOk: bool, storeOk: bool, lockOk: bool)
    requires Inv(s) && s.closer == RuntimeTried
    ensures Enabled(s, CloseRedis(redisOk)) && Enabled(Next(s, CloseRedis(redisOk)), CloseStore(storeOk))
    ensures Enabled(Next(Next(s, CloseRedis(redisOk)), CloseStore(storeOk)), ReleaseLock(lockOk))
    ensures Enabled(Next(Next(Next(s, CloseRedis(redisOk)), CloseStore(storeOk)), ReleaseLock(lockOk)), EndClose)
    ensures var store := s.storeClosed || storeOk;
            var lock := s.lockReleased || (store && lockOk);
            var redis := s.redisClosed || redisOk;
            var closed := Next(Next(s, CloseRedis(redisOk)), CloseStore(storeOk));
            var end := Next(Next(closed, ReleaseLock(lockOk)), EndClose);
            && Inv(end) && s.lifecycle == Closing && (lock ==> store)
            && end == s.(redisClosed := redis, storeClosed := store, lockReleased := lock, closer := Idle,
                         lifecycle := if redis && store && lock then Closed else Closing)
  {
    StepKeepsInv(s, CloseRedis(redisOk));
    StepKeepsInv(Next(s, CloseRedis(redisOk)), CloseStore(storeOk));
    StepKeepsInv(Next(Next(s, CloseRedis(redisOk)), CloseStore(storeOk)), ReleaseLock(lockOk));
    StepKeepsInv(Next(Next(Next(s, CloseRedis(redisOk)), CloseStore(storeOk)), ReleaseLock(lockOk)), EndClose);
  }

  ghost predicate Inside(active: map<nat, Operation>) {
    forall t :: t in active ==> active[t].depth > 0
  }

  lemma MemberCount(active: map<nat, Operation>, thread: nat)
    requires thread in active
    ensures |active| > 0
  {
    assert active.Keys != {};
  }

  // What entering and leaving do to the operations inside.
  lemma AdmitCounts(s: Engine, thread: nat, isStatus: bool)
    requires Inv(s) && Inside(s.active) && Enabled(s, Admit(thread, isStatus))
    ensures var after := Next(s, Admit(thread, isStatus));
            && Inv(after) && Inside(after.active) && |after.active| == |s.active| + 1
            && after == s.(active := s.active[thread := Operation(isStatus, 1)])
  {
    StepKeepsInv(s, Admit(thread, isStatus));
    hide Inv;
    assert s.active[thread := Operation(isStatus, 1)].Keys == s.active.Keys + {thread};
  }

  lemma AdmitGuard(s: Engine, thread: nat, isStatus: bool)
    ensures Enabled(s, Admit(thread, isStatus)) <==>
            thread !in s.active && (s.lifecycle == Open || (isStatus && s.lifecycle == Closing && !s.isSealed))
    ensures thread in s.active ==> Enabled(s, Nest(thread))
  {
  }

  lemma NestCounts(s: Engine, thread: nat)
    requires Inv(s) && Inside(s.active) && thread in s.active
    ensures var after := Next(s, Nest(thread));
            && Inv(after) && Inside(after.active) && |after.active| == |s.active|
            && after == s.(active := s.active[thread := s.active[thread].(depth := s.active[thread].depth + 1)])
  {
    StepKeepsInv(s, Nest(thread));
    hide Inv;
    assert Next(s, Nest(thread)).active.Keys == s.active.Keys;
  }

  lemma LeaveCounts(s: Engine, thread: nat)
    requires Inv(s) && Inside(s.active) && thread in s.active
    ensures var after := Next(s, Leave(thread));
            var depth := s.active[thread].depth;
            && Inv(after) && Inside(after.active)
            && |after.active| == (if depth > 1 then |s.active| else |s.active| - 1)
            && after == s.(active := if depth > 1 then s.active[thread := s.active[thread].(depth := depth - 1)]
                                     else s.active - {thread})
  {
    StepKeepsInv(s, Leave(thread));
    hide Inv;
    var after := Next(s, Leave(thread));
    assert s.active[thread].depth > 1 ==> after.active.Keys == s.active.Keys;
    assert s.active[thread].depth == 1 ==> after.active.Keys == s.active.Keys - {thread};
  }

  class ContextCache {
    var lifecycle: Phase
    var operationsSealed: bool
    var activeOperations: nat
    var local: map<nat, Operation>          // thread-local: nesting depth, kind of the outermost
    var closer: Closer
    var runtimeClosed: bool
    var schedulerStopped: bool
    var indexerWorkers: set<nat>
    var deskWorkers: set<nat>
    var shutdownComplete: bool
    var redisClosed: bool
    var storeClosed: bool
    var databaseLockClosed: bool

    function View(): Engine
      reads this
    {
      Engine(lifecycle, operationsSealed, local, closer, runtimeClosed, schedulerStopped, indexerWorkers, deskWorkers,
        shutdownComplete, redisClosed, storeClosed, databaseLockClosed)
    }

    // The counter is the number of threads inside an outermost operation.
    ghost predicate Valid()
      reads this
    {
      Inv(View()) && activeOperations == |local| && Inside(local)
    }

    constructor ()
      ensures Valid() && Start(View())
    {
      lifecycle, operationsSealed, activeOperations, local, closer := Open, false, 0, map[], Idle;
      runtimeClosed, schedulerStopped, indexerWorkers, deskWorkers := false, false, {}, {};
      shutdownComplete, redisClosed, storeClosed, databaseLockClosed := false, false, false, false;
    }

    // Nested entries pass; an outermost one passes while the cache is open, and a status
    // operation also while it is closing and not sealed.
    method EnterOperation(thread: nat, allowClosing: bool) returns (admitted: bool)
      requires Valid()
      modifies this`activeOperations, this`local
      ensures Valid()
      ensures admitted <==> thread in old(local) || Enabled(old(View()), Admit(thread, allowClosing))
      ensures admitted <==>
                || thread in old(local) || lifecycle == Open
                || (allowClosing && lifecycle == Closing && !operationsSealed)
      ensures local == if !admitted then old(local)
                       else if thread in old(local) then
                         old(local)[thread := Operation(old(local)[thread].isStatus, old(local)[thread].depth + 1)]
                       else old(local)[thread := Operation(allowClosing, 1)]
      ensures View() == if !admitted then old(View())
                        else if thread in old(local) then Next(old(View()), Nest(thread))
                        else Next(old(View()), Admit(thread, allowClosing))
    {
      hide Inv, Next, Inside, Enabled;
      ghost var before := View();
      AdmitGuard(before, thread, allowClosing);
      if thread in local {
        NestCounts(before, thread);
        local := local[thread := local[thread].(depth := local[thread].depth + 1)];
        return true;
      }
      if !(lifecycle == Open || (allowClosing && lifecycle == Closing && !operationsSealed)) {
        return false;
      }
      AdmitCounts(before, thread, allowClosing);
      activeOperations := activeOperations + 1;
      local := local[thread := Operation(allowClosing, 1)];
      return true;
    }

    method LeaveOperation(thread: nat)
      requires Valid() && thread in local
      modifies this`activeOperations, this`local
      ensures Valid() && View() == Next(old(View()), Leave(thread))
    {
      hide Inv, Next, Inside;
      LeaveCounts(View(), thread);
      MemberCount(local, thread);
      if local[thread].depth > 1 {
        local := local[thread := local[thread].(depth := local[thread].depth - 1)];
      } else {
        local := local - {thread};
        activeOperations := activeOperations - 1;
      }
    }

    // Sealed exactly when the counter reached zero in time.
    method WaitForOperations() returns (drained: bool)
      requires Valid() && closer == Waiting
      modifies this`operationsSealed, this`closer
      ensures Valid() && (drained <==> local == map[]) && closer == (if drained then Drained else Idle)
      ensures View() == Next(old(View()), if drained then OperationsDrained else OperationsTimedOut)
    {
      ghost var before := View();
      drained := activeOperations == 0;
      StepKeepsInv(before, if drained then OperationsDrained else OperationsTimedOut);
      if drained {
        operationsSealed, closer := true, Drained;
      } else {
        closer := Idle;
      }
    }

    // The runtime stops its parts in sequence and remembers once all of them are down. A part
    // reports success only when its workers are gone.
    method CloseRuntime(indexerOk: bool, swapperOk: bool, schedulerOk: bool, threadStatesOk: bool)
      returns (drained: bool)
      requires Valid() && closer == Drained
      requires !shutdownComplete ==> (indexerOk ==> indexerWorkers == {}) && (schedulerOk ==> deskWorkers == {})
      modifies this`runtimeClosed, this`schedulerStopped, this`shutdownComplete, this`operationsSealed, this`closer
      ensures Valid() && drained == shutdownComplete
      ensures drained == (old(shutdownComplete) || (indexerOk && swapperOk && schedulerOk && threadStatesOk))
      ensures closer == if drained then RuntimeTried else Idle
      ensures drained ==> indexerWorkers == {} && deskWorkers == {}
      ensures var desksOk := swapperOk && schedulerOk && threadStatesOk;
              View() == Next(Next(old(View()), CloseIndexer(indexerOk)), CloseDesks(desksOk))
    {
      hide Next, Inv, Enabled;
      var desksOk := swapperOk && schedulerOk && threadStatesOk;
      RuntimeSteps(View(), indexerOk, desksOk);
      if shutdownComplete {
        closer := RuntimeTried;
        return true;
      }
      runtimeClosed, schedulerStopped := true, true;
      drained := indexerOk && desksOk;
      if drained {
        shutdownComplete, closer := true, RuntimeTried;
      } else {
        operationsSealed, closer := false, Idle;
      }
    }

    // Redis, then SQLite, then the lock, which is never released before SQLite is closed.
    // What an earlier attempt closed is not closed again.
    method CloseResources(redisOk: bool, storeOk: bool, lockOk: bool) returns (complete: bool)
      requires Valid() && closer == RuntimeTried
      modifies this`redisClosed, this`storeClosed, this`databaseLockClosed, this`lifecycle, this`closer
      ensures Valid() && (complete <==> redisClosed && storeClosed && databaseLockClosed)
      ensures (complete <==> lifecycle == Closed) && lifecycle != Open && closer == Idle
      ensures redisClosed == (old(redisClosed) || redisOk) && storeClosed == (old(storeClosed) || storeOk)
      ensures databaseLockClosed == (old(databaseLockClosed) || (storeClosed && lockOk))
      ensures databaseLockClosed ==> storeClosed
      ensures var closed := Next(Next(old(View()), CloseRedis(redisOk)), CloseStore(storeOk));
              View() == Next(Next(closed, ReleaseLock(lockOk)), EndClose)
    {
      hide Next, Inv, Enabled;
      ResourceSteps(View(), redisOk, storeOk, lockOk);
      if !redisClosed && redisOk {
        redisClosed := true;
      }
      if !storeClosed && storeOk {
        storeClosed := true;
      }
      if storeClosed && !databaseLockClosed && lockOk {
        databaseLockClosed := true;
      }
      complete := redisClosed && storeClosed && databaseLockClosed;
      if complete {
        lifecycle := Closed;
      }
      closer := Idle;
    }

    method StartClosing()
      requires Valid() && closer == Idle && lifecycle != Closed
      modifies this`lifecycle, this`operationsSealed, this`closer
      ensures Valid() && closer == Waiting && lifecycle == Closing && (databaseLockClosed ==> storeClosed)
      ensures View() == Next(old(View()), BeginClose)
    {
      StepKeepsInv(View(), BeginClose);
      lifecycle, operationsSealed, closer := Closing, false, Waiting;
    }

    // One close attempt, from the caller's side.
    method Close(indexerOk: bool, swapperOk: bool, schedulerOk: bool, threadStatesOk: bool, redisOk: bool,
                 storeOk: bool, lockOk: bool)
      returns (complete: bool)
      requires Valid() && closer == Idle
      requires (indexerOk ==> indexerWorkers == {}) && (schedulerOk ==> deskWorkers == {})
      modifies this
      ensures Valid() && closer == Idle
      ensures complete <==> lifecycle == Closed
      ensures storeClosed && !old(storeClosed) ==>
                old(local) == map[] && shutdownComplete && indexerWorkers == {} && deskWorkers == {}
      ensures databaseLockClosed ==> storeClosed
      ensures lifecycle != Open && local == old(local)
      ensures var down := old(shutdownComplete) || (indexerOk && swapperOk && schedulerOk && threadStatesOk);
              var reached := old(lifecycle) != Closed && old(local) == map[] && down;
              && redisClosed == (old(redisClosed) || (reached && redisOk))
              && storeClosed == (old(storeClosed) || (reached && storeOk))
              && databaseLockClosed == (old(databaseLockClosed) || (reached && storeClosed && lockOk))
              && (complete <==> old(lifecycle) == Closed
                                || (reached && redisClosed && storeClosed && databaseLockClosed))
    {
      hide Next, Enabled;
      if lifecycle == Closed {
        return true;
      }
      hide Inv;
      StartClosing();
      var drained := WaitForOperations();
      if !drained {
        return false;
      }
      var runtimeDrained := CloseRuntime(indexerOk, swapperOk, schedulerOk, threadStatesOk);
      if !runtimeDrained {
        return false;
      }
      complete := CloseResources(redisOk, storeOk, lockOk);
    }
  }
}
