// Periodic desk refreshes on a bounded pool of workers.

module Scheduler {
  import opened Results
  import opened Models
  import opened Collections

  // `nextRun` is None while it is infinite, that is, while a run of the watch is out.
  datatype Task = Task(generation: nat, interval: real, nextRun: Option<Time>)

  datatype Item = Item(key: ThreadKey, generation: nat)

  datatype ScheduleError = BadInterval | Closed | CapacityExhausted

  ghost function QueueKeys(queue: seq<Item>): set<ThreadKey> {
    set item | item in queue :: item.key
  }

  ghost function BusyKeys(busy: map<nat, Item>): set<ThreadKey> {
    set w | w in busy :: busy[w].key
  }

  // No key is out twice, queued or running.
  ghost predicate OneRunPerKey(queue: seq<Item>, busy: map<nat, Item>) {
    && (forall i, j :: 0 <= i < j < |queue| ==> queue[i].key != queue[j].key)
    && (forall v, w :: v in busy && w in busy && v != w ==> busy[v].key != busy[w].key)
    && (forall i, w :: 0 <= i < |queue| && w in busy ==> queue[i].key != busy[w].key)
  }

  ghost predicate Out(queue: seq<Item>, busy: map<nat, Item>, item: Item) {
    item in queue || exists w :: w in busy && busy[w] == item
  }

  // A watch waits without a time only while its own run is out.
  ghost predicate NoneLost(tasks: map<ThreadKey, Task>, queue: seq<Item>, busy: map<nat, Item>) {
    forall k :: k in tasks && tasks[k].nextRun.None? ==> Out(queue, busy, Item(k, tasks[k].generation))
  }

  // ---- Moving an item through the pool ----

  lemma Queued(queue: seq<Item>, busy: map<nat, Item>, item: Item)
    requires OneRunPerKey(queue, busy) && item.key !in QueueKeys(queue) + BusyKeys(busy)
    ensures OneRunPerKey(queue + [item], busy)
    ensures QueueKeys(queue + [item]) == QueueKeys(queue) + {item.key}
  {
    forall q | q in queue
      ensures q.key in QueueKeys(queue)
    {
    }
    forall w | w in busy
      ensures busy[w].key in BusyKeys(busy)
    {
    }
  }

  lemma Taken(queue: seq<Item>, busy: map<nat, Item>, w: nat)
    requires OneRunPerKey(queue, busy) && queue != [] && w !in busy
    ensures OneRunPerKey(queue[1..], busy[w := queue[0]])
    ensures QueueKeys(queue[1..]) + BusyKeys(busy[w := queue[0]]) == QueueKeys(queue) + BusyKeys(busy)
    ensures forall other :: Out(queue, busy, other) ==> Out(queue[1..], busy[w := queue[0]], other)
  {
    var after := busy[w := queue[0]];
    assert queue == [queue[0]] + queue[1..];
    assert after[w].key in BusyKeys(after);
    forall v | v in busy
      ensures busy[v].key in BusyKeys(after)
    {
      assert after[v] == busy[v];
    }
    forall other | Out(queue, busy, other)
      ensures Out(queue[1..], after, other)
    {
      if other == queue[0] {
        assert after[w] == other;
      } else if other !in queue {
        var v :| v in busy && busy[v] == other;
        assert after[v] == other;
      }
    }
  }

  lemma Returned(queue: seq<Item>, busy: map<nat, Item>, w: nat)
    requires OneRunPerKey(queue, busy) && w in busy
    ensures OneRunPerKey(queue, busy - {w})
    ensures QueueKeys(queue) + BusyKeys(busy - {w}) == QueueKeys(queue) + BusyKeys(busy) - {busy[w].key}
    ensures forall other :: Out(queue, busy, other) && other.key != busy[w].key ==> Out(queue, busy - {w}, other)
    ensures forall other :: Out(queue, busy, other) && other.key == busy[w].key ==> other == busy[w]
  {
    var after := busy - {w};
    forall v | v in busy && v != w
      ensures busy[v].key in BusyKeys(after)
    {
      assert after[v] == busy[v];
    }
    forall other | Out(queue, busy, other) && other.key != busy[w].key
      ensures Out(queue, after, other)
    {
      if other !in queue {
        var v :| v in busy && busy[v] == other;
        assert after[v] == other;
      }
    }
  }

  lemma Drained(queue: seq<Item>, busy: map<nat, Item>)
    requires OneRunPerKey(queue, busy) && queue != []
    ensures OneRunPerKey(queue[1..], busy)
    ensures QueueKeys(queue[1..]) + BusyKeys(busy) == QueueKeys(queue) + BusyKeys(busy) - {queue[0].key}
  {
    assert queue == [queue[0]] + queue[1..];
  }

  lemma {:induction false} QueueKeyCount(queue: seq<Item>, busy: map<nat, Item>)
    requires OneRunPerKey(queue, busy)
    ensures |QueueKeys(queue)| == |queue|
  {
    if queue != [] {
      assert queue == [queue[0]] + queue[1..];
      QueueKeyCount(queue[1..], busy);
      assert QueueKeys(queue) == {queue[0].key} + QueueKeys(queue[1..]);
    }
  }

  lemma QueueFits(queue: seq<Item>, busy: map<nat, Item>, inflight: set<ThreadKey>)
    requires OneRunPerKey(queue, busy) && inflight == QueueKeys(queue) + BusyKeys(busy)
    ensures |queue| <= |inflight|
  {
    QueueKeyCount(queue, busy);
    assert inflight == QueueKeys(queue) + (inflight - QueueKeys(queue));
  }

  // The keys out are exactly those queued or held by a worker, each once, and no more than
  // there are workers.
  ghost predicate PoolOk(work: seq<Item>, busy: map<nat, Item>, inflight: set<ThreadKey>, workerCount: nat) {
    OneRunPerKey(work, busy) && inflight == QueueKeys(work) + BusyKeys(busy) && |inflight| <= workerCount
  }

  lemma PoolQueued(work: seq<Item>, busy: map<nat, Item>, inflight: set<ThreadKey>, workerCount: nat, item: Item)
    requires PoolOk(work, busy, inflight, workerCount) && item.key !in inflight && |inflight| < workerCount
    ensures PoolOk(work + [item], busy, inflight + {item.key}, workerCount)
    ensures |work| < workerCount && |inflight + {item.key}| == |inflight| + 1
  {
    hide OneRunPerKey, QueueKeys, BusyKeys;
    QueueFits(work, busy, inflight);
    Queued(work, busy, item);
  }

  lemma PoolTaken(work: seq<Item>, busy: map<nat, Item>, inflight: set<ThreadKey>, workerCount: nat, w: nat)
    requires PoolOk(work, busy, inflight, workerCount) && work != [] && w !in busy
    ensures PoolOk(work[1..], busy[w := work[0]], inflight, workerCount)
  {
    Taken(work, busy, w);
    hide OneRunPerKey, QueueKeys, BusyKeys, Out;
  }

  lemma PoolReturned(work: seq<Item>, busy: map<nat, Item>, inflight: set<ThreadKey>, workerCount: nat, w: nat)
    requires PoolOk(work, busy, inflight, workerCount) && w in busy
    ensures PoolOk(work, busy - {w}, inflight - {busy[w].key}, workerCount)
  {
    Returned(work, busy, w);
    Smaller(inflight, busy[w].key);
    hide OneRunPerKey, QueueKeys, BusyKeys, Out;
  }

  lemma PoolDrained(work: seq<Item>, busy: map<nat, Item>, inflight: set<ThreadKey>, workerCount: nat)
    requires PoolOk(work, busy, inflight, workerCount) && work != []
    ensures PoolOk(work[1..], busy, inflight - {work[0].key}, workerCount)
  {
    Drained(work, busy);
    Smaller(inflight, work[0].key);
    hide OneRunPerKey, QueueKeys, BusyKeys, Out;
  }

  predicate Due(tasks: map<ThreadKey, Task>, inflight: set<ThreadKey>, key: ThreadKey, now: Time) {
    key in tasks && tasks[key].nextRun.Some? && tasks[key].nextRun.value <= now && key !in inflight
  }

  ghost function Launched(tasks: map<ThreadKey, Task>, keys: seq<ThreadKey>): map<ThreadKey, Task> {
    map k | k in tasks :: if k in keys then tasks[k].(nextRun := None) else tasks[k]
  }

  function KeySet(keys: seq<ThreadKey>): set<ThreadKey> {
    set k | k in keys
  }

  // The end of a run gives a new time to the generation that ran, if it is still scheduled.
  function Rescheduled(tasks: map<ThreadKey, Task>, item: Item, due: Time): map<ThreadKey, Task> {
    if item.key in tasks && tasks[item.key].generation == item.generation then
      tasks[item.key := tasks[item.key].(nextRun := Some(due))]
    else tasks
  }

  lemma NothingLaunched(tasks: map<ThreadKey, Task>)
    ensures Launched(tasks, []) == tasks && KeySet([]) == {}
  {
  }

  lemma NextLaunch(tasks: map<ThreadKey, Task>, ready: seq<ThreadKey>, i: nat, now: Time, inflight: set<ThreadKey>)
    requires i < |ready| && Distinct(ready) && Due(tasks, inflight, ready[i], now)
    ensures ready[i] in Launched(tasks, ready[..i]) && ready[i] !in ready[..i] && ready[i] !in inflight
    ensures var before := Launched(tasks, ready[..i]);
            before[ready[i] := before[ready[i]].(nextRun := None)] == Launched(tasks, ready[..i + 1])
    ensures ready[i] !in KeySet(ready[..i]) && KeySet(ready[..i + 1]) == KeySet(ready[..i]) + {ready[i]}
  {
    assert ready[..i + 1] == ready[..i] + [ready[i]];
  }

  // What launching and rescheduling do to each watch.
  lemma LaunchedColumns(tasks: map<ThreadKey, Task>, inflight: set<ThreadKey>, launched: seq<ThreadKey>, now: Time)
    requires forall k :: k in launched ==> Due(tasks, inflight, k, now)
    ensures var after, out := Launched(tasks, launched), inflight + KeySet(launched);
            && after.Keys == tasks.Keys && inflight <= out
            && (forall k :: k in out - inflight ==>
                  && k in tasks && tasks[k].nextRun.Some? && tasks[k].nextRun.value <= now
                  && after[k] == tasks[k].(nextRun := None))
            && (forall k :: k in tasks && k !in out - inflight ==> after[k] == tasks[k])
  {
  }

  lemma NoneLeftDue(tasks: map<ThreadKey, Task>, inflight: set<ThreadKey>, launched: seq<ThreadKey>, now: Time)
    ensures (forall k :: Due(tasks, inflight, k, now) ==> k in launched) ==>
              forall k :: k in tasks && k !in inflight + KeySet(launched) ==>
                (tasks[k].nextRun.Some? ==> now < tasks[k].nextRun.value)
  {
  }

  lemma RescheduledColumns(tasks: map<ThreadKey, Task>, item: Item, due: Time)
    ensures var after := Rescheduled(tasks, item, due);
            && after.Keys == tasks.Keys
            && (forall k :: k in tasks ==>
                  after[k] == if item.key == k && item.generation == tasks[k].generation then
                                tasks[k].(nextRun := Some(due))
                              else tasks[k])
            && after == if item.key in tasks && tasks[item.key].generation == item.generation then
                          tasks[item.key := tasks[item.key].(nextRun := Some(due))]
                        else tasks
  {
  }

  class DeskScheduler {
    const workerCount: nat
    const maxTasks: nat
    var tasks: map<ThreadKey, Task>
    var inflight: set<ThreadKey>
    var nextGeneration: nat
    var stopped: bool
    var work: seq<Item>               // the queue between coordinator and workers
    var busy: map<nat, Item>          // what each worker holds

    ghost predicate Valid()
      reads this
    {
      && 1 <= workerCount && |tasks| <= maxTasks
      && PoolOk(work, busy, inflight, workerCount)
      && (!stopped ==> NoneLost(tasks, work, busy))
    }

    constructor (workerCount: nat, maxTasks: nat)
      requires 1 <= workerCount && 1 <= maxTasks
      ensures Valid() && tasks == map[] && !stopped && inflight == {}
    {
      this.workerCount, this.maxTasks := workerCount, maxTasks;
      tasks, inflight, nextGeneration, stopped, work, busy := map[], {}, 0, false, [], map[];
    }

    // A watch is added or replaced; a run of the replaced one may still be out. `due` is the
    // current time plus a positive delay.
    method Schedule(key: ThreadKey, interval: real, due: Time) returns (outcome: Result<nat, ScheduleError>)
      requires Valid()
      modifies this`tasks, this`nextGeneration
      ensures Valid()
      ensures outcome.Err? ==> tasks == old(tasks) && nextGeneration == old(nextGeneration)
      ensures outcome == if interval <= 0.0 then Err(BadInterval)
                         else if stopped then Err(Closed)
                         else if key !in old(tasks) && |old(tasks)| >= maxTasks then Err(CapacityExhausted)
                         else Ok(old(nextGeneration) + 1)
      ensures outcome.Ok? ==>
                tasks == old(tasks)[key := Task(outcome.value, interval, Some(due))] && nextGeneration == outcome.value
    {
      if interval <= 0.0 {
        return Err(BadInterval);
      }
      if stopped {
        return Err(Closed);
      }
      if key !in tasks && |tasks| >= maxTasks {
        return Err(CapacityExhausted);
      }
      TaskCount(tasks, key, Task(nextGeneration + 1, interval, Some(due)));
      hide PoolOk, Out;
      nextGeneration := nextGeneration + 1;
      tasks := tasks[key := Task(nextGeneration, interval, Some(due))];
      return Ok(nextGeneration);
    }

    method Stop(key: ThreadKey) returns (removed: bool)
      requires Valid()
      modifies this`tasks
      ensures Valid() && removed == (key in old(tasks)) && tasks == old(tasks) - {key}
    {
      hide PoolOk, Out;
      removed := key in tasks;
      if removed {
        TaskRemoved(tasks, key);
      }
      tasks := tasks - {key};
    }

    // The watches that are due and not out, in the order they are kept.
    method Ready(order: seq<ThreadKey>, now: Time) returns (ready: seq<ThreadKey>)
      requires Valid() && Distinct(order) && forall k :: k in order <==> k in tasks
      ensures Distinct(ready)
      ensures forall k :: k in ready <==> Due(tasks, inflight, k, now)
      ensures forall k :: k in ready <==>
                k in tasks && tasks[k].nextRun.Some? && tasks[k].nextRun.value <= now && k !in inflight
    {
      ready := [];
      for i := 0 to |order|
        invariant Distinct(ready)
        invariant forall k :: k in ready <==> k in order[..i] && Due(tasks, inflight, k, now)
      {
        assert order[..i + 1] == order[..i] + [order[i]] && order[i] in order && order[i] !in order[..i];
        if Due(tasks, inflight, order[i], now) {
          ready := ready + [order[i]];
        }
      }
      assert order[..|order|] == order;
    }

    // Hands one due watch to the workers; the queue always has room for it.
    method Dispatch(key: ThreadKey) returns (full: bool)
      requires Valid() && !stopped && key in tasks && key !in inflight && |inflight| < workerCount
      modifies this`tasks, this`inflight, this`work
      ensures inflight == old(inflight) + {key} && |inflight| == |old(inflight)| + 1
      ensures work == old(work) + [Item(key, old(tasks)[key].generation)]
      ensures tasks == old(tasks)[key := old(tasks)[key].(nextRun := None)]
      ensures Valid() && !full
    {
      hide PoolOk, NoneLost;
      var item := Item(key, tasks[key].generation);
      Launch(tasks, work, busy, inflight, workerCount, key);
      inflight := inflight + {key};
      tasks := tasks[key := tasks[key].(nextRun := None)];
      if |work| >= workerCount {
        return true;
      }
      work := work + [item];
      return false;
    }

    // The first n due watches, one after the other.
    method DispatchFirst(ready: seq<ThreadKey>, n: nat, now: Time) returns (full: bool)
      requires Valid() && !stopped && Distinct(ready) && n <= |ready| && |inflight| + n <= workerCount
      requires forall k :: k in ready ==> Due(tasks, inflight, k, now)
      modifies this`tasks, this`inflight, this`work
      ensures Valid() && !full
      ensures tasks == Launched(old(tasks), ready[..n])
      ensures inflight == old(inflight) + KeySet(ready[..n]) && |inflight| == |old(inflight)| + n
    {
      hide PoolOk, NoneLost, Launched, Due, KeySet, Distinct, Valid;
      full := false;
      NothingLaunched(tasks);
      for i := 0 to n
        invariant Valid() && !full
        invariant tasks == Launched(old(tasks), ready[..i])
        invariant inflight == old(inflight) + KeySet(ready[..i]) && |inflight| == |old(inflight)| + i
      {
        NextLaunch(old(tasks), ready, i, now, old(inflight));
        full := Dispatch(ready[i]);
        if full {
          return;
        }
      }
    }

    // One pass of the coordinator: as many due watches as there are idle workers.
    method Coordinate(order: seq<ThreadKey>, now: Time) returns (full: bool, ghost launched: seq<ThreadKey>)
      requires Valid() && !stopped && Distinct(order) && forall k :: k in order <==> k in tasks
      modifies this`tasks, this`inflight, this`work
      ensures Valid() && !full
      ensures forall k :: k in launched ==> Due(old(tasks), old(inflight), k, now)
      ensures tasks == Launched(old(tasks), launched)
      ensures inflight == old(inflight) + KeySet(launched)
      ensures |inflight| < workerCount ==> forall k :: Due(old(tasks), old(inflight), k, now) ==> k in launched
      ensures tasks.Keys == old(tasks).Keys && old(inflight) <= inflight
      ensures forall k :: k in inflight - old(inflight) ==>
                && k in old(tasks) && old(tasks)[k].nextRun.Some? && old(tasks)[k].nextRun.value <= now
                && tasks[k] == old(tasks)[k].(nextRun := None)
      ensures forall k :: k in old(tasks) && k !in inflight - old(inflight) ==> tasks[k] == old(tasks)[k]
      ensures |inflight| < workerCount ==> forall k :: k in old(tasks) && k !in inflight ==>
                (old(tasks)[k].nextRun.Some? ==> now < old(tasks)[k].nextRun.value)
    {
      hide NoneLost, Launched, Due, KeySet, Distinct;
      var ready := Ready(order, now);
      var n := Min(Max(0, workerCount - |inflight|), |ready|);
      launched := ready[..n];
      assert forall k :: k in launched ==> k in ready;
      assert n == |ready| ==> launched == ready;
      full := DispatchFirst(ready, n, now);
      LaunchedColumns(old(tasks), old(inflight), launched, now);
      NoneLeftDue(old(tasks), old(inflight), launched, now);
    }

    method TakeWork(worker: nat)
      requires Valid() && work != [] && worker !in busy
      modifies this`work, this`busy
      ensures work == old(work)[1..] && busy == old(busy)[worker := old(work)[0]] && Valid()
    {
      hide PoolOk, NoneLost;
      PoolTaken(work, busy, inflight, workerCount, worker);
      NoneLostTaken(tasks, work, busy, inflight, workerCount, worker);
      work, busy := work[1..], busy[worker := work[0]];
    }

    // A worker that finds the scheduler stopped gives its item up.
    method GiveUp(worker: nat)
      requires Valid() && stopped && worker in busy
      modifies this`inflight, this`busy
      ensures busy == old(busy) - {worker} && inflight == old(inflight) - {old(busy)[worker].key} && Valid()
    {
      hide PoolOk, NoneLost;
      PoolReturned(work, busy, inflight, workerCount, worker);
      inflight, busy := inflight - {busy[worker].key}, busy - {worker};
    }

    // The end of a run, good or failed: only the generation that ran is given a new time.
    // A fatal error also stops the scheduler.
    method FinishRun(worker: nat, due: Time, fatal: bool)
      requires Valid() && worker in busy
      modifies this`tasks, this`inflight, this`busy, this`stopped
      ensures Valid() && stopped == (old(stopped) || fatal)
      ensures busy == old(busy) - {worker} && inflight == old(inflight) - {old(busy)[worker].key}
      ensures tasks == Rescheduled(old(tasks), old(busy)[worker], due)
      ensures tasks.Keys == old(tasks).Keys && forall k :: k in tasks ==>
                var item, task := old(busy)[worker], old(tasks)[k];
                tasks[k] == if item.key == k && item.generation == task.generation then task.(nextRun := Some(due))
                            else task
    {
      hide PoolOk, NoneLost, Rescheduled;
      var item := busy[worker];
      PoolReturned(work, busy, inflight, workerCount, worker);
      RescheduledIsKept(tasks, work, busy, inflight, workerCount, worker, due);
      RescheduledColumns(tasks, item, due);
      if item.key in tasks && tasks[item.key].generation == item.generation {
        tasks := tasks[item.key := tasks[item.key].(nextRun := Some(due))];
      }
      assert tasks == Rescheduled(old(tasks), item, due);
      stopped := stopped || fatal;
      inflight, busy := inflight - {item.key}, busy - {worker};
    }

    method BeginClose()
      requires Valid()
      modifies this`stopped, this`tasks
      ensures Valid() && stopped && tasks == map[]
    {
      hide PoolOk, NoneLost;
      stopped, tasks := true, map[];
    }

    // What was queued and never taken is dropped.
    method DrainQueue()
      requires Valid() && stopped
      modifies this`work, this`inflight
      ensures Valid() && work == [] && inflight == BusyKeys(busy)
    {
      hide NoneLost, PoolOk;
      while work != []
        invariant Valid() && stopped
        decreases |work|
      {
        PoolDrained(work, busy, inflight, workerCount);
        inflight, work := inflight - {work[0].key}, work[1..];
      }
      NothingQueued(busy, inflight, workerCount);
    }
  }

  lemma NothingQueued(busy: map<nat, Item>, inflight: set<ThreadKey>, workerCount: nat)
    requires PoolOk([], busy, inflight, workerCount)
    ensures inflight == BusyKeys(busy)
  {
  }

  lemma NoneLostTaken(tasks: map<ThreadKey, Task>, queue: seq<Item>, busy: map<nat, Item>, inflight: set<ThreadKey>,
                      workerCount: nat, w: nat)
    requires PoolOk(queue, busy, inflight, workerCount) && queue != [] && w !in busy
    ensures NoneLost(tasks, queue, busy) ==> NoneLost(tasks, queue[1..], busy[w := queue[0]])
  {
    Taken(queue, busy, w);
    hide OneRunPerKey, Out, BusyKeys, QueueKeys;
  }

  lemma TaskCount(tasks: map<ThreadKey, Task>, key: ThreadKey, task: Task)
    ensures |tasks[key := task]| == if key in tasks then |tasks| else |tasks| + 1
  {
    assert tasks[key := task].Keys == tasks.Keys + {key};
  }

  lemma TaskRemoved(tasks: map<ThreadKey, Task>, key: ThreadKey)
    requires key in tasks
    ensures |tasks - {key}| == |tasks| - 1
  {
    assert (tasks - {key}).Keys == tasks.Keys - {key};
  }

  lemma Smaller<T>(s: set<T>, x: T)
    ensures |s - {x}| <= |s|
  {
    assert x in s ==> s == (s - {x}) + {x};
  }

  // What launching a watch does to the pool.
  lemma Launch(tasks: map<ThreadKey, Task>, work: seq<Item>, busy: map<nat, Item>, inflight: set<ThreadKey>,
               workerCount: nat, key: ThreadKey)
    requires PoolOk(work, busy, inflight, workerCount) && NoneLost(tasks, work, busy)
    requires key in tasks && key !in inflight && |inflight| < workerCount
    ensures var item, after := Item(key, tasks[key].generation), tasks[key := tasks[key].(nextRun := None)];
            && PoolOk(work + [item], busy, inflight + {key}, workerCount) && NoneLost(after, work + [item], busy)
            && |after| == |tasks| && |work| < workerCount && |inflight + {key}| == |inflight| + 1
  {
    hide PoolOk, NoneLost;
    PoolQueued(work, busy, inflight, workerCount, Item(key, tasks[key].generation));
    Announced(tasks, work, busy, key);
    TaskCount(tasks, key, tasks[key].(nextRun := None));
  }

  lemma Announced(tasks: map<ThreadKey, Task>, queue: seq<Item>, busy: map<nat, Item>, key: ThreadKey)
    requires NoneLost(tasks, queue, busy) && key in tasks
    ensures NoneLost(tasks[key := tasks[key].(nextRun := None)], queue + [Item(key, tasks[key].generation)], busy)
  {
    var item := Item(key, tasks[key].generation);
    assert Out(queue + [item], busy, item);
    forall other | Out(queue, busy, other)
      ensures Out(queue + [item], busy, other)
    {
    }
  }

  // When a run ends, the watch it belongs to gets a time again; every other watch that waits
  // without one still has its own run out.
  lemma RescheduledIsKept(tasks: map<ThreadKey, Task>, queue: seq<Item>, busy: map<nat, Item>, inflight: set<ThreadKey>,
                          workerCount: nat, w: nat, due: Time)
    requires PoolOk(queue, busy, inflight, workerCount) && w in busy
    ensures NoneLost(tasks, queue, busy) ==> NoneLost(Rescheduled(tasks, busy[w], due), queue, busy - {w})
    ensures |Rescheduled(tasks, busy[w], due)| == |tasks|
  {
    hide OneRunPerKey, QueueKeys, BusyKeys, Out;
    Returned(queue, busy, w);
    if busy[w].key in tasks {
      TaskCount(tasks, busy[w].key, tasks[busy[w].key].(nextRun := Some(due)));
    }
    hide OneRunPerKey, Out;
  }
}
