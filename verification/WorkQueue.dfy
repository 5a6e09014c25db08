// The bounded queue between the outbox scanner and the indexing workers.

module WorkQueue {
  import opened Results
  import opened Models
  import opened Collections

  // A FIFO queue of distinct items; an item stays pending from offer to completion.
  class UniqueWorkQueue {
    const capacity: nat
    var queue: seq<nat>
    var pending: set<nat>

    ghost predicate Valid()
      reads this
    {
      && 0 < capacity
      && |queue| <= capacity
      && Distinct(queue)
      && forall x :: x in queue ==> x in pending
    }

    constructor (capacity: nat)
      requires 0 < capacity
      ensures Valid() && queue == [] && pending == {} && this.capacity == capacity
    {
      this.capacity := capacity;
      queue, pending := [], {};
    }

    function Available(): nat
      reads this
    {
      Max(0, capacity - |pending|)
    }

    method Offer(item: nat) returns (accepted: bool)
      requires Valid()
      modifies this
      ensures Valid()
      ensures accepted == (item in old(pending) || |old(queue)| < capacity)
      ensures pending == if accepted then old(pending) + {item} else old(pending)
      ensures queue == if accepted && item !in old(pending) then old(queue) + [item] else old(queue)
    {
      if item in pending {
        assert pending + {item} == pending;
        return true;
      }
      if |queue| >= capacity {
        return false;
      }
      queue := queue + [item];
      pending := pending + {item};
      return true;
    }

    method Get() returns (item: nat)
      requires Valid() && queue != []
      modifies this`queue
      ensures Valid()
      ensures old(queue) == [item] + queue && item !in queue
    {
      item := queue[0];
      queue := queue[1..];
    }

    method Complete(item: nat)
      requires Valid() && item !in queue
      modifies this`pending
      ensures Valid() && pending == old(pending) - {item}
    {
      pending := pending - {item};
    }
  }

  lemma NoMembers(claims: seq<nat>)
    ensures Members(claims[..0]) == {}
  {
  }

  lemma WorkWithinPending(work: UniqueWorkQueue)
    requires work.Valid()
    ensures |work.queue| <= |work.pending|
  {
    QueueWithinPending(work.queue, work.pending);
  }

  // One pass of the scanner over claims it has just been granted. At most `available`
  // were asked for, so the queue takes them all.
  method OfferClaims(work: UniqueWorkQueue, workers: nat, claims: seq<nat>) returns (overflow: bool)
    requires work.Valid() && Distinct(claims)
    requires |claims| <= Min(work.Available(), Max(0, workers - |work.pending|))
    requires forall c :: c in claims ==> c !in work.pending
    modifies work
    ensures work.Valid() && !overflow
    ensures work.queue == old(work.queue) + claims
    ensures work.pending == old(work.pending) + Members(claims)
    ensures |claims| > 0 ==> |work.pending| <= Min(workers, work.capacity)
  {
    hide Distinct, Members, UniqueWorkQueue.Valid;
    assert claims[..|claims|] == claims;
    NoMembers(claims);
    for i := 0 to |claims|
      invariant work.Valid()
      invariant work.queue == old(work.queue) + claims[..i]
      invariant work.pending == old(work.pending) + Members(claims[..i])
      invariant |work.pending| == |old(work.pending)| + i
    {
      WorkWithinPending(work);
      NextMember(claims, i);
      ConcatAssociates(old(work.queue), claims[..i], [claims[i]]);
      var accepted := work.Offer(claims[i]);
      if !accepted {
        return true;
      }
    }
    overflow := false;
  }

  lemma QueueWithinPending(queue: seq<nat>, pending: set<nat>)
    requires Distinct(queue) && forall x :: x in queue ==> x in pending
    ensures |queue| <= |pending|
  {
    DistinctCardinality(queue);
    SubsetSize((set x | x in queue), pending);
  }

  lemma {:induction false} SubsetSize<T>(a: set<T>, b: set<T>)
    requires a <= b
    ensures |a| <= |b|
  {
    assert b == a + (b - a);
  }

  // ---- The same pass while workers keep running ----

  // The scanner reads the queue's room and its pending count at two different moments.
  datatype Scan = Idle | SawRoom(room: nat) | Budgeted(budget: nat) | Offering(claims: seq<nat>)

  datatype Pool = Pool(capacity: nat, workers: nat, queue: seq<nat>, running: set<nat>, scan: Scan, granted: nat)
  {
    ghost function Pending(): set<nat> {
      (set x | x in queue) + running
    }
  }

  datatype PoolStep = SeeRoom | SeePending | Grant(count: nat) | OfferNext | EndScan | Take | Finish(item: nat)

  ghost predicate Enabled(p: Pool, step: PoolStep) {
    match step
    case SeeRoom => p.scan.Idle?
    case SeePending => p.scan.SawRoom?
    case Grant(count) => p.scan.Budgeted? && count <= p.scan.budget
    case OfferNext => p.scan.Offering? && p.scan.claims != []
    case EndScan => p.scan.Offering? && p.scan.claims == []
    case Take => p.queue != []
    case Finish(item) => item in p.running
  }

  // The offer that would raise "claimed outbox work exceeds queue capacity".
  ghost predicate Overflows(p: Pool, step: PoolStep)
    requires Enabled(p, step)
  {
    step.OfferNext? && p.scan.claims[0] !in p.Pending() && |p.queue| >= p.capacity
  }

  ghost function Next(p: Pool, step: PoolStep): Pool
    requires Enabled(p, step) && !Overflows(p, step)
  {
    match step
    case SeeRoom => p.(scan := SawRoom(Max(0, p.capacity - |p.Pending()|)))
    case SeePending => p.(scan := Budgeted(Min(p.scan.room, Max(0, p.workers - |p.Pending()|))))
    case Grant(count) => p.(scan := Offering(seq(count, i => p.granted + i)), granted := p.granted + count)
    case OfferNext =>
      p.(scan := Offering(p.scan.claims[1..]),
         queue := if p.scan.claims[0] in p.Pending() then p.queue else p.queue + [p.scan.claims[0]])
    case EndScan => p.(scan := Idle)
    case Take => p.(queue := p.queue[1..], running := p.running + {p.queue[0]})
    case Finish(item) => p.(running := p.running - {item})
  }

  ghost predicate Inv(p: Pool) {
    && 0 < p.capacity && 0 < p.workers
    && Distinct(p.queue)
    && (forall x :: x in p.queue ==> x !in p.running)
    && |p.Pending()| <= Min(p.workers, p.capacity)
    && match p.scan
       case Idle => true
       case SawRoom(room) => |p.Pending()| + room <= p.capacity
       case Budgeted(budget) => |p.Pending()| + budget <= Min(p.workers, p.capacity)
       case Offering(claims) => |p.Pending()| + |claims| <= Min(p.workers, p.capacity)
  }

  lemma OfferFits(p: Pool)
    requires Inv(p) && Enabled(p, OfferNext)
    ensures !Overflows(p, OfferNext) && Inv(Next(p, OfferNext))
  {
    QueueWithinPending(p.queue, p.Pending());
    var p' := Next(p, OfferNext);
    if p.scan.claims[0] in p.Pending() {
      assert p'.Pending() == p.Pending();
    } else {
      assert p'.Pending() == p.Pending() + {p.scan.claims[0]};
    }
  }

  lemma TakeMoves(p: Pool)
    requires Inv(p) && Enabled(p, Take)
    ensures Inv(Next(p, Take))
  {
    var p' := Next(p, Take);
    assert p.queue == [p.queue[0]] + p'.queue;
    assert p'.Pending() == p.Pending();
  }

  lemma FinishShrinks(p: Pool, item: nat)
    requires Inv(p) && Enabled(p, Finish(item))
    ensures Inv(Next(p, Finish(item)))
  {
    SubsetSize(Next(p, Finish(item)).Pending(), p.Pending());
  }

  lemma StepKeepsInv(p: Pool, step: PoolStep)
    requires Inv(p) && Enabled(p, step)
    ensures !Overflows(p, step) && Inv(Next(p, step))
  {
    match step
    case OfferNext => OfferFits(p);
    case Take => TakeMoves(p);
    case Finish(item) => FinishShrinks(p, item);
    case _ => assert Next(p, step).Pending() == p.Pending();
  }

  ghost predicate ValidRun(p: Pool, steps: seq<PoolStep>)
    decreases |steps|
  {
    steps == [] || (Enabled(p, steps[0]) && (Overflows(p, steps[0]) || ValidRun(Next(p, steps[0]), steps[1..])))
  }

  // No run ever reaches the overflow, and never more than min(workers, capacity) claims
  // are queued or running.
  lemma DispatchNeverOverflows(p: Pool, steps: seq<PoolStep>)
    requires 0 < p.capacity && 0 < p.workers && p.queue == [] && p.running == {} && p.scan == Idle
    requires ValidRun(p, steps)
    ensures Reaches(p, steps)
  {
    assert Inv(p) by {
      assert p.Pending() == {};
    }
    RunsStayWithin(p, steps);
  }

  // Every step of the run is taken without an overflow, from and to a pool within the bound.
  ghost predicate Reaches(p: Pool, steps: seq<PoolStep>)
    decreases |steps|
  {
    && |p.Pending()| <= Min(p.workers, p.capacity)
    && (steps == [] || (Enabled(p, steps[0]) && !Overflows(p, steps[0]) && Reaches(Next(p, steps[0]), steps[1..])))
  }

  lemma {:induction false} RunsStayWithin(p: Pool, steps: seq<PoolStep>)
    requires Inv(p) && ValidRun(p, steps)
    ensures Reaches(p, steps)
    decreases |steps|
  {
    if steps != [] {
      StepKeepsInv(p, steps[0]);
      RunsStayWithin(Next(p, steps[0]), steps[1..]);
    }
  }
}
