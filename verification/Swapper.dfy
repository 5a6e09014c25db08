// Reading desks: which refresh may publish, and how many desks are kept.

module Swapper {
  import opened Results
  import opened Models
  import opened Collections
  import opened Packing

  type Desk = WorkingSet

  predicate HoldsExpired(desk: Desk, now: Time) {
    exists h :: h in desk.hits && h.record.Expired(now)
  }

  // ---- Invariants ----

  ghost predicate DesksOk(desks: map<ThreadKey, Desk>, order: seq<ThreadKey>, access: map<ThreadKey, Time>) {
    && Distinct(order)
    && (forall k :: k in order <==> k in desks)
    && desks.Keys == access.Keys
  }

  // A generation that is remembered at all is the last one issued for its key.
  ghost predicate GenerationsOk(generations: map<ThreadKey, nat>, order: seq<ThreadKey>, issued: map<ThreadKey, nat>) {
    && Distinct(order)
    && (forall k :: k in order <==> k in generations)
    && (forall k :: k in generations ==> k in issued && issued[k] == generations[k])
  }

  // Leases count the refreshes in flight.
  ghost predicate LeasesOk(leases: map<ThreadKey, nat>, flights: map<nat, ThreadKey>) {
    && (forall k :: k in leases ==> leases[k] == |Fiber(flights, k)| > 0)
    && (forall g :: g in flights ==> flights[g] in leases)
  }

  ghost predicate IssuedOk(issued: map<ThreadKey, nat>, flights: map<nat, ThreadKey>, next: nat) {
    && (forall k :: k in issued ==> issued[k] <= next)
    && (forall g :: g in flights ==> g <= next && flights[g] in issued && g <= issued[flights[g]])
  }

  // While a refresh of a key is in flight its generation is not forgotten.
  ghost predicate FlightsKept(generations: map<ThreadKey, nat>, flights: map<nat, ThreadKey>) {
    forall g :: g in flights ==> flights[g] in generations
  }

  lemma DesksWithout(desks: map<ThreadKey, Desk>, order: seq<ThreadKey>, access: map<ThreadKey, Time>, key: ThreadKey)
    requires DesksOk(desks, order, access) && key in desks
    ensures DesksOk(desks - {key}, Without(order, key), access - {key}) && |Without(order, key)| == |order| - 1
  {
    WithoutMembers(order, key);
    WithoutDistinct(order, key);
  }

  lemma GenerationsWithout(generations: map<ThreadKey, nat>, order: seq<ThreadKey>, issued: map<ThreadKey, nat>,
                           key: ThreadKey)
    requires GenerationsOk(generations, order, issued)
    ensures GenerationsOk(generations - {key}, Without(order, key), issued) && |Without(order, key)| <= |order|
  {
    WithoutMembers(order, key);
    WithoutDistinct(order, key);
  }

  class ContextSwapper {
    const maxWorkingSets: nat
    const ttlSeconds: real
    var desks: map<ThreadKey, Desk>
    var deskOrder: seq<ThreadKey>             // least recently used first
    var access: map<ThreadKey, Time>
    var generations: map<ThreadKey, nat>
    var generationOrder: seq<ThreadKey>       // least recently issued first
    var leases: map<ThreadKey, nat>
    var nextGeneration: nat
    var tasks: set<ThreadKey>
    ghost var issued: map<ThreadKey, nat>     // the last generation ever issued for each key
    ghost var flights: map<nat, ThreadKey>    // refreshes begun and not yet finished

    ghost predicate Valid()
      reads this
    {
      && 1 <= maxWorkingSets
      && DesksOk(desks, deskOrder, access) && |deskOrder| <= maxWorkingSets
      && GenerationsOk(generations, generationOrder, issued)
      && LeasesOk(leases, flights) && IssuedOk(issued, flights, nextGeneration)
      && FlightsKept(generations, flights)
    }

    constructor (maxWorkingSets: nat, ttlSeconds: real)
      requires 1 <= maxWorkingSets && 0.0 < ttlSeconds
      ensures Valid() && desks == map[] && flights == map[] && issued == map[] && tasks == {}
    {
      this.maxWorkingSets, this.ttlSeconds := maxWorkingSets, ttlSeconds;
      desks, deskOrder, access := map[], [], map[];
      generations, generationOrder, leases, nextGeneration := map[], [], map[], 0;
      tasks, issued, flights := {}, map[], map[];
    }

    predicate Removable(key: ThreadKey)
      reads this`leases, this`tasks
    {
      key !in leases && key !in tasks
    }

    // A desk goes; its generation goes with it unless a refresh or a watch still needs it.
    method Discard(key: ThreadKey)
      requires Valid() && key in desks
      modifies this`desks, this`deskOrder, this`access, this`generations, this`generationOrder
      ensures Valid() && |deskOrder| == |old(deskOrder)| - 1
      ensures desks == old(desks) - {key} && access == old(access) - {key} && deskOrder == Without(old(deskOrder), key)
      ensures generations == old(generations) - Unneeded({key}, leases, tasks)
      ensures generationOrder == if Removable(key) then Without(old(generationOrder), key) else old(generationOrder)
      ensures |generationOrder| <= |old(generationOrder)|
    {
      DesksWithout(desks, deskOrder, access, key);
      GenerationsWithout(generations, generationOrder, issued, key);
      UnneededOne(generations, key, leases, tasks);
      FlightsWithout(generations, flights, leases, key);
      hide DesksOk, GenerationsOk, LeasesOk, IssuedOk, FlightsKept, Unneeded;
      desks, deskOrder, access := desks - {key}, Without(deskOrder, key), access - {key};
      if Removable(key) {
        generations, generationOrder := generations - {key}, Without(generationOrder, key);
      }
    }

    // Desks unused for the whole time to live go.
    method Prune(now: Time)
      requires Valid()
      modifies this`desks, this`deskOrder, this`access, this`generations, this`generationOrder
      ensures Valid() && |deskOrder| <= |old(deskOrder)| && |generationOrder| <= |old(generationOrder)|
      ensures var stale := Stale(old(deskOrder), old(access), now - ttlSeconds);
              && desks == old(desks) - stale && access == old(access) - stale
              && deskOrder == Excluding(old(deskOrder), stale)
              && generations == old(generations) - Unneeded(stale, leases, tasks)
      ensures forall k :: k in old(generations) && (k in leases || k in tasks) ==> k in generations
    {
      hide LeasesOk, IssuedOk, FlightsKept, GenerationsOk, DesksOk, Distinct, Stale, Unneeded, Excluding, Without;
      var cutoff := now - ttlSeconds;
      var before := deskOrder;
      ghost var stale: set<ThreadKey> := {};
      OrderIsStored(desks, deskOrder, access);
      StaleStart(before, access, cutoff, leases, tasks);
      assert Excluding(before, {}) == before by { ExcludingNone(before); }
      for i := 0 to |before|
        invariant Valid() && |deskOrder| <= |old(deskOrder)| && |generationOrder| <= |old(generationOrder)|
        invariant stale == Stale(before[..i], old(access), cutoff)
        invariant desks == old(desks) - stale && access == old(access) - stale
        invariant deskOrder == Excluding(before, stale)
        invariant generations == old(generations) - Unneeded(stale, leases, tasks)
      {
        var key := before[i];
        StaleStep(before, i, old(access), cutoff);
        if access[key] <= cutoff {
          Discard(key);
          ExcludingOneMore(before, stale, key);
          PruneStep(old(desks), old(access), old(generations), stale, key, leases, tasks);
          stale := stale + {key};
        }
      }
      assert before[..|before|] == before;
      NeededStay(stale, leases, tasks);
    }

    // ---- Refreshes ----

    // The first in order, so the one issued longest ago.
    method FirstRemovable() returns (found: Option<nat>)
      ensures found.Some? ==>
                && found.value < |generationOrder| && Removable(generationOrder[found.value])
                && forall j :: 0 <= j < found.value ==> !Removable(generationOrder[j])
      ensures found.None? ==> forall j :: 0 <= j < |generationOrder| ==> !Removable(generationOrder[j])
    {
      for i := 0 to |generationOrder|
        invariant forall j :: 0 <= j < i ==> !Removable(generationOrder[j])
      {
        if Removable(generationOrder[i]) {
          return Some(i);
        }
      }
      return None;
    }

    method ForgetKey(key: ThreadKey)
      requires Valid() && Removable(key) && key in generations
      modifies this`desks, this`deskOrder, this`access, this`generations, this`generationOrder
      ensures Valid() && desks == old(desks) - {key}
      ensures generations == old(generations) - {key} && generationOrder == Without(old(generationOrder), key)
      ensures |generationOrder| == |old(generationOrder)| - 1
    {
      hide LeasesOk, IssuedOk, FlightsKept, Unneeded, DesksOk, GenerationsOk, Without;
      RememberedIsOrdered(generations, generationOrder, issued, key);
      GenerationsWithout(generations, generationOrder, issued, key);
      FlightsWithout(generations, flights, leases, key);
      UnneededOne(generations, key, leases, tasks);
      if key in desks {
        Discard(key);
      } else {
        generations, generationOrder := generations - {key}, Without(generationOrder, key);
      }
    }

    ghost function Needed(): set<ThreadKey>
      reads this`leases, this`tasks
    {
      leases.Keys + tasks
    }

    // Room for one more remembered generation, or the certainty that none can be spared. The
    // generations issued longest ago go first, only unneeded ones, no more than have to, and
    // the desks of their keys with them.
    method MakeRoom(key: ThreadKey) returns (fits: bool)
      requires Valid() && key !in generations
      modifies this`desks, this`deskOrder, this`access, this`generations, this`generationOrder
      ensures Valid() && key !in generations
      ensures var excess := Max(0, |old(generationOrder)| + 1 - maxWorkingSets);
              generationOrder == DropFirst(old(generationOrder), Needed(), excess)
      ensures generations == old(generations) - (old(generations).Keys - Members(generationOrder))
      ensures desks == old(desks) - (old(generations).Keys - Members(generationOrder))
      ensures forall i, j :: 0 <= i < j < |old(generationOrder)| && old(generationOrder)[j] !in generationOrder ==>
                !Removable(old(generationOrder)[i]) || old(generationOrder)[i] !in generationOrder
      ensures forall k :: k in old(generations) && (k in leases || k in tasks) ==> k in generations
      ensures fits <==> |generationOrder| < maxWorkingSets
      ensures !fits ==> forall k :: k in generations ==> !Removable(k)
    {
      hide LeasesOk, IssuedOk, FlightsKept, DesksOk, GenerationsOk, DropFirst, Without, Members, Distinct;
      ghost var before, n := generationOrder, 0;
      NothingForgotten(generations, desks, generationOrder, issued, Needed());
      FirstAreDropped(before, Needed(), Max(0, |before| + 1 - maxWorkingSets));
      AllOrdered(generations, before, issued);
      while |generationOrder| >= maxWorkingSets
        invariant Valid() && key !in generations && n + |generationOrder| == |before|
        invariant n <= Max(0, |before| + 1 - maxWorkingSets)
        invariant generationOrder == DropFirst(before, Needed(), n)
        invariant generations == old(generations) - (old(generations).Keys - Members(generationOrder))
        invariant desks == old(desks) - (old(generations).Keys - Members(generationOrder))
        decreases |generationOrder|
      {
        var removable := FirstRemovable();
        if removable.None? {
          NothingMoreToDrop(before, Needed(), n, Max(0, |before| + 1 - maxWorkingSets));
          AllNeeded(generations, generationOrder, issued);
          return false;
        }
        DropOneMore(before, Needed(), n, removable.value);
        OneForgotten(old(generations), old(desks), generations, generationOrder, issued, removable.value);
        ForgetKey(generationOrder[removable.value]);
        n := n + 1;
      }
      return true;
    }

    // A new generation for the key, later than any issued before.
    method Issue(key: ThreadKey)
      requires Valid()
      modifies this`generations, this`generationOrder, this`nextGeneration, this`issued
      ensures Valid() && nextGeneration == old(nextGeneration) + 1
      ensures issued == old(issued)[key := nextGeneration] && key in generations
      ensures generations == old(generations)[key := nextGeneration]
      ensures nextGeneration !in flights
    {
      hide DesksOk, GenerationsOk, LeasesOk, IssuedOk, FlightsKept, Without;
      IssuedNext(generations, generationOrder, issued, flights, nextGeneration, key);
      nextGeneration := nextGeneration + 1;
      generations, generationOrder := generations[key := nextGeneration], Without(generationOrder, key) + [key];
      issued := issued[key := nextGeneration];
    }

    // Fails only when every remembered generation is needed; then nothing is issued.
    method BeginRefresh(key: ThreadKey, now: Time) returns (generation: Option<nat>)
      requires Valid()
      modifies this
      ensures Valid() && tasks == old(tasks)
      ensures generation.Some? ==>
                && generation.value == old(nextGeneration) + 1
                && issued == old(issued)[key := generation.value] && flights == old(flights)[generation.value := key]
      ensures generation.None? ==>
                && issued == old(issued) && flights == old(flights)
                && |generationOrder| >= maxWorkingSets && forall k :: k in generations ==> k in leases || k in tasks
      ensures forall k :: k in old(generations) && (k in old(leases) || k in tasks) ==> k in generations
    {
      hide DesksOk, GenerationsOk, Stale, Unneeded, Distinct, LeasesOk, IssuedOk, FlightsKept, Fiber, Without;
      Prune(now);
      if key !in generations {
        var fits := MakeRoom(key);
        if !fits {
          return None;
        }
      }
      Issue(key);
      Lease(key);
      return Some(nextGeneration);
    }

    // One more refresh of the key is in flight, under the generation just issued.
    method Lease(key: ThreadKey)
      requires Valid() && nextGeneration !in flights
      requires key in generations && key in issued && issued[key] == nextGeneration
      modifies this`leases, this`flights
      ensures Valid() && flights == old(flights)[nextGeneration := key]
    {
      TakeOff(generations, leases, issued, flights, nextGeneration, key);
      hide DesksOk, GenerationsOk, LeasesOk, IssuedOk, FlightsKept;
      leases := leases[key := (if key in leases then leases[key] else 0) + 1];
      flights := flights[nextGeneration := key];
    }

    method FinishRefresh(key: ThreadKey, ghost generation: nat)
      requires Valid() && generation in flights && flights[generation] == key
      modifies this`leases, this`flights
      ensures Valid() && flights == old(flights) - {generation}
    {
      Land(generations, leases, issued, flights, nextGeneration, generation);
      hide DesksOk, GenerationsOk, LeasesOk, IssuedOk, FlightsKept;
      var left := Max(0, (if key in leases then leases[key] else 0) - 1);
      if left > 0 {
        leases := leases[key := left];
      } else {
        leases := leases - {key};
      }
      flights := flights - {generation};
    }

    method StoreDesk(key: ThreadKey, desk: Desk, now: Time)
      requires Valid()
      modifies this`desks, this`deskOrder, this`access, this`generations, this`generationOrder
      ensures Valid() && key in desks && desks[key] == desk && access[key] == now
      ensures forall k :: k in desks && k != key ==> k in old(desks) && desks[k] == old(desks)[k]
      ensures var pruned := Excluding(old(deskOrder), Stale(old(deskOrder), old(access), now - ttlSeconds));
              var others := if key in pruned then Without(pruned, key)
                            else pruned[Max(0, |pruned| + 1 - maxWorkingSets)..];
              deskOrder == others + [key]
      ensures desks.Keys == Members(deskOrder)
    {
      hide GenerationsOk, LeasesOk, IssuedOk, FlightsKept, Stale, Unneeded, DesksOk, Without, Excluding, Members,
        Distinct;
      Prune(now);
      ghost var pruned := deskOrder;
      StoredIsOrdered(desks, deskOrder, access, key);
      if key !in desks {
        while |deskOrder| >= maxWorkingSets
          invariant Valid() && key !in desks && |deskOrder| <= |pruned| && deskOrder == pruned[|pruned| - |deskOrder|..]
          invariant forall k :: k in desks ==> k in old(desks) && desks[k] == old(desks)[k]
          invariant |deskOrder| == |pruned| || |deskOrder| >= maxWorkingSets - 1
          decreases |deskOrder|
        {
          OldestIsStored(desks, deskOrder, access);
          Discard(deskOrder[0]);
        }
        NotStored(desks, deskOrder, access, key);
      }
      DesksStored(desks, deskOrder, access, key, desk, now);
      desks, deskOrder, access := desks[key := desk], Without(deskOrder, key) + [key], access[key := now];
      OrderIsKeys(desks, deskOrder, access);
    }

    // The end of a refresh: its desk is stored exactly when nothing later was issued for the
    // key and the watch, if any, still permits it.
    method Publish(key: ThreadKey, generation: nat, desk: Desk, permitted: bool, now: Time) returns (published: bool)
      requires Valid() && generation in flights && flights[generation] == key
      modifies this`desks, this`deskOrder, this`access, this`generations, this`generationOrder
      ensures Valid() && |desks| <= maxWorkingSets
      ensures published <==> permitted && issued[key] == generation
      ensures published ==> key in desks && desks[key] == desk
      ensures !published ==> desks == old(desks)
      ensures published ==>
                LeastUsedWent(old(desks), old(deskOrder), old(access), now - ttlSeconds, key, desks, maxWorkingSets)
    {
      hide LeasesOk, IssuedOk, FlightsKept, GenerationsOk, DesksOk, LeastUsedWent, Stale, Excluding, Without, Members;
      LatestIsRemembered(generations, generationOrder, issued, flights, generation);
      DeskCount(desks, deskOrder, access);
      published := key in generations && generations[key] == generation && permitted;
      if published {
        StoreDesk(key, desk, now);
        DeskCount(desks, deskOrder, access);
        DeskStored(old(desks), old(deskOrder), old(access), now - ttlSeconds, key, desks, deskOrder, maxWorkingSets);
      }
    }

    // The time to live runs on a monotonic clock; records expire by the wall clock.
    method Get(key: ThreadKey, now: Time, wall: Time) returns (desk: Option<Desk>)
      requires Valid()
      modifies this`desks, this`deskOrder, this`access, this`generations, this`generationOrder
      ensures Valid()
      ensures desk.Some? <==>
                && key in old(desks) && old(access)[key] > now - ttlSeconds
                && forall h :: h in old(desks)[key].hits && h.record.expiresAt.Some? ==> wall < h.record.expiresAt.value
      ensures desk.Some? ==> desk.value == old(desks)[key] && key in desks && desks[key] == desk.value
    {
      hide GenerationsOk, LeasesOk, IssuedOk, FlightsKept, Unneeded, DesksOk, Without, HoldsExpired, Excluding, Stale;
      Prune(now);
      PruneKeeps(old(deskOrder), old(access), now - ttlSeconds, key);
      StoredIsOrdered(old(desks), old(deskOrder), old(access), key);
      if key !in desks {
        return None;
      }
      NothingExpired(desks[key], wall);
      if HoldsExpired(desks[key], wall) {
        DesksWithout(desks, deskOrder, access, key);
        desks, deskOrder, access := desks - {key}, Without(deskOrder, key), access - {key};
        return None;
      }
      DesksStored(desks, deskOrder, access, key, desks[key], now);
      assert desks[key := desks[key]] == desks;
      deskOrder, access := Without(deskOrder, key) + [key], access[key := now];
      return Some(desks[key]);
    }

    // ---- Watches ----

    method Watch(key: ThreadKey)
      requires Valid()
      modifies this`tasks
      ensures Valid() && tasks == old(tasks) + {key}
    {
      tasks := tasks + {key};
    }

    // A new focus, or the end of a watch, outdates every refresh already in flight.
    method ChangeFocus(key: ThreadKey) returns (watched: bool)
      requires Valid()
      modifies this`generations, this`generationOrder, this`nextGeneration, this`issued
      ensures Valid() && watched == (key in tasks)
      ensures issued == if watched then old(issued)[key := nextGeneration] else old(issued)
      ensures watched ==> forall g :: g in flights && flights[g] == key ==> issued[key] != g
    {
      watched := key in tasks;
      if watched {
        Issue(key);
      }
    }

    method StopWatch(key: ThreadKey) returns (watched: bool)
      requires Valid()
      modifies this`tasks, this`generations, this`generationOrder, this`nextGeneration, this`issued
      ensures Valid() && watched == (key in old(tasks)) && tasks == old(tasks) - {key}
      ensures issued == if watched then old(issued)[key := nextGeneration] else old(issued)
      ensures watched ==> forall g :: g in flights && flights[g] == key ==> issued[key] != g
    {
      watched := key in tasks;
      tasks := tasks - {key};
      if watched {
        Issue(key);
      }
    }
  }

  lemma NothingExpired(desk: Desk, wall: Time)
    ensures HoldsExpired(desk, wall) <==>
            !forall h :: h in desk.hits && h.record.expiresAt.Some? ==> wall < h.record.expiresAt.value
  {
    forall h | h in desk.hits && !HoldsExpired(desk, wall)
      ensures !h.record.Expired(wall)
    {
    }
  }

  // Of the other desks only those in use stay, unchanged; with one of them every one used later;
  // and one in use goes only where there is no room beside a desk that was not there.
  ghost predicate LeastUsedWent(desks: map<ThreadKey, Desk>, order: seq<ThreadKey>, access: map<ThreadKey, Time>,
                                cutoff: Time, key: ThreadKey, after: map<ThreadKey, Desk>, room: nat) {
    && (forall k :: k in order ==> k in access)
    && (forall k :: k in after && k != key ==>
          k in order && k in desks && after[k] == desks[k] && access[k] > cutoff)
    && (forall i, j :: 0 <= i < j < |order| && order[i] in after && order[i] != key && access[order[j]] > cutoff ==>
          order[j] in after)
    && (forall k :: k in order && access[k] > cutoff && k !in after ==>
          |after| == room && !(key in order && access[key] > cutoff))
  }

  lemma LatestIsRemembered(generations: map<ThreadKey, nat>, order: seq<ThreadKey>, issued: map<ThreadKey, nat>,
                           flights: map<nat, ThreadKey>, g: nat)
    requires GenerationsOk(generations, order, issued) && FlightsKept(generations, flights) && g in flights
    ensures var key := flights[g]; key in generations && key in issued && generations[key] == issued[key]
  {
  }

  lemma DeskStored(desks: map<ThreadKey, Desk>, order: seq<ThreadKey>, access: map<ThreadKey, Time>, cutoff: Time,
                   key: ThreadKey, after: map<ThreadKey, Desk>, afterOrder: seq<ThreadKey>, room: nat)
    requires DesksOk(desks, order, access) && 1 <= room
    requires after.Keys == Members(afterOrder) && |after| == |afterOrder|
    requires forall k :: k in after && k != key ==> k in desks && after[k] == desks[k]
    requires var live := Excluding(order, Stale(order, access, cutoff));
             var others := if key in live then Without(live, key) else live[Max(0, |live| + 1 - room)..];
             afterOrder == others + [key]
    ensures LeastUsedWent(desks, order, access, cutoff, key, after, room)
  {
    hide Excluding, Without;
    OldestGoFirst(order, Stale(order, access, cutoff), key, room, afterOrder);
    assert forall k :: k in after <==> k in afterOrder;
  }

  // What storing a desk pushes out: only desks that were used less recently than every other one
  // that stays, and only when there is no room for it otherwise.
  lemma OldestGoFirst(order: seq<ThreadKey>, stale: set<ThreadKey>, key: ThreadKey, room: nat, after: seq<ThreadKey>)
    requires Distinct(order) && 1 <= room
    requires var live := Excluding(order, stale);
             var others := if key in live then Without(live, key) else live[Max(0, |live| + 1 - room)..];
             after == others + [key]
    ensures forall k :: k in after && k != key ==> k in order && k !in stale
    ensures forall i, j :: 0 <= i < j < |order| && order[i] in after && order[i] != key && order[j] !in stale ==>
              order[j] in after
    ensures forall k :: k in order && k !in stale && k !in after ==> |after| == room && (key !in order || key in stale)
  {
    hide Excluding, Without, Keeps, Distinct;
    var live := Excluding(order, stale);
    var at := ExcludingInOrder(order, stale);
    LivePlaces(order, stale, live, at);
    WithoutMembers(live, key);
    if key !in live {
      NewestStay(order, stale, live, at, Max(0, |live| + 1 - room));
    }
    assert forall k :: k in after <==> k in after[..|after| - 1] || k == key;
  }

  // The last of the desks in use: with one of them, every one used later.
  lemma NewestStay(order: seq<ThreadKey>, stale: set<ThreadKey>, live: seq<ThreadKey>, at: seq<nat>, cut: nat)
    requires Distinct(order) && Keeps(order, NotIn(stale), live, at) && cut <= |live|
    ensures forall i, j :: 0 <= i < j < |order| && order[i] in live[cut..] && order[j] !in stale ==>
              order[j] in live[cut..]
    ensures forall k :: k in live[cut..] ==> k in live
    ensures cut == 0 ==> live[cut..] == live
  {
    hide NotIn;
    LivePlaces(order, stale, live, at);
    forall i, j | 0 <= i < j < |order| && order[i] in live[cut..] && order[j] !in stale
      ensures order[j] in live[cut..]
    {
      var p :| cut <= p < |live| && live[p] == order[i];
      assert j in at;
      var q :| 0 <= q < |at| && at[q] == j;
      assert at[p] == i;
      assert p < q;
      assert live[cut..][q - cut] == order[j];
    }
  }

  lemma LivePlaces(order: seq<ThreadKey>, stale: set<ThreadKey>, live: seq<ThreadKey>, at: seq<nat>)
    requires Distinct(order) && Keeps(order, NotIn(stale), live, at)
    ensures Ascending(at, |order|) && |at| == |live| && forall i :: 0 <= i < |at| ==> live[i] == order[at[i]]
    ensures forall j :: 0 <= j < |order| ==> (j in at <==> order[j] !in stale)
    ensures forall k :: k in live <==> k in order && k !in stale
  {
    assert forall j :: 0 <= j < |order| ==> (NotIn(stale)(order[j]) <==> j in at);
    forall k | k in order && k !in stale
      ensures k in live
    {
      var j :| 0 <= j < |order| && order[j] == k;
      var i :| 0 <= i < |at| && at[i] == j;
      assert live[i] == k;
    }
  }

  lemma DesksStored(desks: map<ThreadKey, Desk>, order: seq<ThreadKey>, access: map<ThreadKey, Time>, key: ThreadKey,
                    desk: Desk, now: Time)
    requires DesksOk(desks, order, access)
    ensures DesksOk(desks[key := desk], Without(order, key) + [key], access[key := now])
    ensures |Without(order, key) + [key]| == if key in desks then |order| else |order| + 1
  {
    WithoutMembers(order, key);
    WithoutDistinct(order, key);
  }

  lemma OldestIsStored(desks: map<ThreadKey, Desk>, order: seq<ThreadKey>, access: map<ThreadKey, Time>)
    requires DesksOk(desks, order, access) && order != []
    ensures order[0] in desks && Without(order, order[0]) == order[1..]
  {
    assert order[0] in order;
    WithoutMembers(order[1..], order[0]);
  }

  lemma NotStored(desks: map<ThreadKey, Desk>, order: seq<ThreadKey>, access: map<ThreadKey, Time>, key: ThreadKey)
    requires DesksOk(desks, order, access) && key !in desks
    ensures Without(order, key) == order
  {
    WithoutMembers(order, key);
  }

  lemma OrderIsKeys(desks: map<ThreadKey, Desk>, order: seq<ThreadKey>, access: map<ThreadKey, Time>)
    requires DesksOk(desks, order, access)
    ensures desks.Keys == Members(order)
  {
  }

  lemma RememberedIsOrdered(generations: map<ThreadKey, nat>, order: seq<ThreadKey>, issued: map<ThreadKey, nat>,
                            key: ThreadKey)
    requires GenerationsOk(generations, order, issued) && key in generations
    ensures |Without(order, key)| == |order| - 1
  {
    WithoutDistinct(order, key);
  }

  lemma AllNeeded(generations: map<ThreadKey, nat>, order: seq<ThreadKey>, issued: map<ThreadKey, nat>)
    requires GenerationsOk(generations, order, issued)
    ensures forall k :: k in generations ==> exists j :: 0 <= j < |order| && order[j] == k
  {
  }

  lemma AllOrdered(generations: map<ThreadKey, nat>, order: seq<ThreadKey>, issued: map<ThreadKey, nat>)
    requires GenerationsOk(generations, order, issued)
    ensures forall k :: k in order <==> k in generations
    ensures forall other: seq<ThreadKey> :: forall k :: k in Members(other) <==> k in other
  {
  }

  lemma NeededStay(gone: set<ThreadKey>, leases: map<ThreadKey, nat>, tasks: set<ThreadKey>)
    ensures forall k :: k in Unneeded(gone, leases, tasks) ==> k !in leases && k !in tasks
  {
  }

  lemma NothingForgotten(generations: map<ThreadKey, nat>, desks: map<ThreadKey, Desk>, order: seq<ThreadKey>,
                         issued: map<ThreadKey, nat>, needed: set<ThreadKey>)
    requires GenerationsOk(generations, order, issued)
    ensures Distinct(order) && DropFirst(order, needed, 0) == order
    ensures generations.Keys - Members(order) == {}
    ensures generations - {} == generations && desks - {} == desks
  {
  }

  // Forgetting one more key forgets its generation and its desk.
  lemma OneForgotten(oldGenerations: map<ThreadKey, nat>, oldDesks: map<ThreadKey, Desk>,
                     generations: map<ThreadKey, nat>, order: seq<ThreadKey>, issued: map<ThreadKey, nat>, j: nat)
    requires GenerationsOk(generations, order, issued) && j < |order| && generations.Keys <= oldGenerations.Keys
    ensures order[j] in generations
    ensures var gone := oldGenerations.Keys - Members(order);
            var more := oldGenerations.Keys - Members(Without(order, order[j]));
            && oldGenerations - gone - {order[j]} == oldGenerations - more
            && oldDesks - gone - {order[j]} == oldDesks - more
  {
    assert order[j] in order;
    WithoutMembers(order, order[j]);
    assert oldGenerations.Keys - Members(Without(order, order[j])) == oldGenerations.Keys - Members(order) + {order[j]};
  }

  lemma PruneKeeps(order: seq<ThreadKey>, access: map<ThreadKey, Time>, cutoff: Time, key: ThreadKey)
    ensures key in order && key in access ==> (key !in Stale(order, access, cutoff) <==> access[key] > cutoff)
  {
  }

  lemma OrderIsStored(desks: map<ThreadKey, Desk>, order: seq<ThreadKey>, access: map<ThreadKey, Time>)
    requires DesksOk(desks, order, access)
    ensures Distinct(order) && forall k :: k in order ==> k in desks && k in access
  {
  }

  lemma StoredIsOrdered(desks: map<ThreadKey, Desk>, order: seq<ThreadKey>, access: map<ThreadKey, Time>,
                        key: ThreadKey)
    requires DesksOk(desks, order, access)
    ensures key in desks <==> key in order
    ensures key in desks <==> key in access
  {
  }

  lemma DeskCount(desks: map<ThreadKey, Desk>, order: seq<ThreadKey>, access: map<ThreadKey, Time>)
    requires DesksOk(desks, order, access)
    ensures |desks| == |order|
  {
    DistinctCardinality(order);
    assert desks.Keys == set k | k in order;
  }

  lemma IssuedNext(generations: map<ThreadKey, nat>, order: seq<ThreadKey>, issued: map<ThreadKey, nat>,
                   flights: map<nat, ThreadKey>, next: nat, key: ThreadKey)
    requires GenerationsOk(generations, order, issued) && IssuedOk(issued, flights, next)
    requires FlightsKept(generations, flights)
    ensures GenerationsOk(generations[key := next + 1], Without(order, key) + [key], issued[key := next + 1])
    ensures IssuedOk(issued[key := next + 1], flights, next + 1) && FlightsKept(generations[key := next + 1], flights)
    ensures next + 1 !in flights
  {
    WithoutMembers(order, key);
    WithoutDistinct(order, key);
  }

  lemma TakeOff(generations: map<ThreadKey, nat>, leases: map<ThreadKey, nat>, issued: map<ThreadKey, nat>,
                flights: map<nat, ThreadKey>, g: nat, key: ThreadKey)
    requires LeasesOk(leases, flights) && IssuedOk(issued, flights, g) && FlightsKept(generations, flights)
    requires key in generations && key in issued && issued[key] == g && g !in flights
    ensures LeasesOk(leases[key := (if key in leases then leases[key] else 0) + 1], flights[g := key])
    ensures IssuedOk(issued, flights[g := key], g) && FlightsKept(generations, flights[g := key])
  {
    FiberAdded(flights, g, key);
    if key !in leases {
      assert Fiber(flights, key) == {};
    }
  }

  lemma Land(generations: map<ThreadKey, nat>, leases: map<ThreadKey, nat>, issued: map<ThreadKey, nat>,
             flights: map<nat, ThreadKey>, next: nat, g: nat)
    requires LeasesOk(leases, flights) && IssuedOk(issued, flights, next) && FlightsKept(generations, flights)
    requires g in flights
    ensures flights[g] in leases
    ensures var key := flights[g];
            LeasesOk(if leases[key] > 1 then leases[key := leases[key] - 1] else leases - {key}, flights - {g})
    ensures IssuedOk(issued, flights - {g}, next) && FlightsKept(generations, flights - {g})
  {
    FiberRemoved(flights, g);
    var key := flights[g];
    forall h | h in flights - {g} && flights[h] == key
      ensures leases[key] > 1
    {
      assert h in Fiber(flights - {g}, key);
    }
  }

  ghost function Stale(order: seq<ThreadKey>, access: map<ThreadKey, Time>, cutoff: Time): set<ThreadKey> {
    set k | k in order && k in access && access[k] <= cutoff
  }

  // The keys whose generations may be forgotten with their desks.
  ghost function Unneeded(keys: set<ThreadKey>, leases: map<ThreadKey, nat>, tasks: set<ThreadKey>): set<ThreadKey> {
    set k | k in keys && k !in leases && k !in tasks
  }

  lemma ExcludingNone(order: seq<ThreadKey>)
    ensures Excluding(order, {}) == order
  {
    if order != [] {
      ExcludingOneMore(order, {}, order[0]);
    }
  }

  lemma StaleStart(order: seq<ThreadKey>, access: map<ThreadKey, Time>, cutoff: Time, leases: map<ThreadKey, nat>,
                   tasks: set<ThreadKey>)
    ensures Stale(order[..0], access, cutoff) == {} && Unneeded({}, leases, tasks) == {}
  {
  }

  lemma StaleStep(order: seq<ThreadKey>, i: nat, access: map<ThreadKey, Time>, cutoff: Time)
    requires Distinct(order) && i < |order| && order[i] in access
    ensures order[i] in order && order[i] !in Stale(order[..i], access, cutoff)
    ensures Stale(order[..i + 1], access, cutoff)
         == Stale(order[..i], access, cutoff) + if access[order[i]] <= cutoff then {order[i]} else {}
  {
    assert order[..i + 1] == order[..i] + [order[i]];
  }

  lemma UnneededOne(generations: map<ThreadKey, nat>, key: ThreadKey, leases: map<ThreadKey, nat>,
                    tasks: set<ThreadKey>)
    ensures generations - Unneeded({key}, leases, tasks)
         == if key !in leases && key !in tasks then generations - {key} else generations
  {
  }

  lemma FlightsWithout(generations: map<ThreadKey, nat>, flights: map<nat, ThreadKey>, leases: map<ThreadKey, nat>,
                       key: ThreadKey)
    requires FlightsKept(generations, flights) && LeasesOk(leases, flights)
    ensures key !in leases ==> FlightsKept(generations - {key}, flights)
  {
  }

  lemma PruneStep(desks: map<ThreadKey, Desk>, access: map<ThreadKey, Time>, generations: map<ThreadKey, nat>,
                  stale: set<ThreadKey>, key: ThreadKey, leases: map<ThreadKey, nat>, tasks: set<ThreadKey>)
    ensures desks - stale - {key} == desks - (stale + {key})
    ensures access - stale - {key} == access - (stale + {key})
    ensures generations - Unneeded(stale, leases, tasks) - Unneeded({key}, leases, tasks)
         == generations - Unneeded(stale + {key}, leases, tasks)
  {
  }
}
