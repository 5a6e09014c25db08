// The registry of active threads: bounded, with states that outlive every lease on them.

module ThreadRegistry {
  import opened Results
  import opened Models
  import opened Collections

  // `state` identifies the shared state object, ring and lock together.
  datatype Entry = Entry(state: nat, lastAccess: Time, leases: nat)

  // ---- Invariants ----

  ghost predicate OrderOk(entries: map<ThreadKey, Entry>, order: seq<ThreadKey>) {
    Distinct(order) && forall k :: k in order <==> k in entries
  }

  // `held` maps each lease that is out to its thread, and `given` to the state it was given.
  ghost predicate LeasesOk(entries: map<ThreadKey, Entry>, held: map<nat, ThreadKey>, given: map<nat, nat>) {
    && held.Keys == given.Keys
    && (forall h :: h in held ==> held[h] in entries && entries[held[h]].state == given[h])
    && (forall k :: k in entries ==> entries[k].leases == |Fiber(held, k)|)
  }

  // No two threads share a state, and none is handed out again.
  ghost predicate StatesOk(entries: map<ThreadKey, Entry>, created: nat) {
    && (forall k :: k in entries ==> entries[k].state <= created)
    && (forall j, k :: j in entries && k in entries && j != k ==> entries[j].state != entries[k].state)
  }

  lemma StatesKept(entries: map<ThreadKey, Entry>, created: nat, key: ThreadKey)
    requires StatesOk(entries, created)
    ensures StatesOk(entries - {key}, created)
    ensures forall entry: Entry :: key in entries && entry.state == entries[key].state ==>
              StatesOk(entries[key := entry], created)
  {
  }

  lemma StateAdded(entries: map<ThreadKey, Entry>, created: nat, key: ThreadKey, entry: Entry)
    requires StatesOk(entries, created) && key !in entries && entry.state == created + 1
    ensures StatesOk(entries[key := entry], created + 1)
  {
  }

  lemma WithoutUnleased(entries: map<ThreadKey, Entry>, order: seq<ThreadKey>, held: map<nat, ThreadKey>,
                        given: map<nat, nat>, key: ThreadKey)
    requires OrderOk(entries, order) && LeasesOk(entries, held, given)
    requires key in entries && entries[key].leases == 0
    ensures OrderOk(entries - {key}, Without(order, key)) && LeasesOk(entries - {key}, held, given)
    ensures |Without(order, key)| == |order| - 1
  {
    WithoutMembers(order, key);
    WithoutDistinct(order, key);
    forall h | h in held
      ensures held[h] != key
    {
      assert h in Fiber(held, held[h]);
    }
  }

  lemma Moved(entries: map<ThreadKey, Entry>, order: seq<ThreadKey>, key: ThreadKey, entry: Entry)
    requires OrderOk(entries, order)
    ensures OrderOk(entries[key := entry], Without(order, key) + [key])
    ensures |Without(order, key) + [key]| == if key in entries then |order| else |order| + 1
  {
    WithoutMembers(order, key);
    WithoutDistinct(order, key);
  }

  lemma Taken(entries: map<ThreadKey, Entry>, held: map<nat, ThreadKey>, given: map<nat, nat>, key: ThreadKey,
              lease: nat, state: nat, now: Time)
    requires LeasesOk(entries, held, given) && lease !in held
    requires key in entries ==> entries[key].state == state
    ensures var leases := if key in entries then entries[key].leases else 0;
            LeasesOk(entries[key := Entry(state, now, leases + 1)], held[lease := key], given[lease := state])
  {
    FiberAdded(held, lease, key);
    if key !in entries {
      assert Fiber(held, key) == {};
    }
  }

  lemma HeldIsStored(entries: map<ThreadKey, Entry>, held: map<nat, ThreadKey>, given: map<nat, nat>, lease: nat)
    requires LeasesOk(entries, held, given) && lease in held
    ensures held[lease] in entries && lease in given
  {
  }

  lemma Returned(entries: map<ThreadKey, Entry>, held: map<nat, ThreadKey>, given: map<nat, nat>, lease: nat, now: Time)
    requires LeasesOk(entries, held, given) && lease in held
    ensures var entry := entries[held[lease]];
            && entry.leases >= 1
            && LeasesOk(entries[held[lease] := entry.(leases := entry.leases - 1, lastAccess := now)],
                  held - {lease}, given - {lease})
  {
    FiberRemoved(held, lease);
  }

  function Leased(entries: map<ThreadKey, Entry>): set<ThreadKey> {
    set k | k in entries && entries[k].leases > 0
  }

  lemma NothingDropped(entries: map<ThreadKey, Entry>, order: seq<ThreadKey>, keep: set<ThreadKey>)
    requires OrderOk(entries, order)
    ensures Distinct(order) && DropFirst(order, keep, 0) == order
    ensures entries - (entries.Keys - Members(order)) == entries
  {
    assert entries.Keys - Members(order) == {};
  }

  lemma OneDropped(entries: map<ThreadKey, Entry>, order: seq<ThreadKey>, i: nat)
    requires OrderOk(entries, order) && i < |order|
    ensures entries - (entries.Keys - Members(Without(order, order[i]))) == entries - {order[i]}
  {
    assert order[i] in order;
    WithoutMembers(order, order[i]);
    assert entries.Keys - Members(Without(order, order[i])) == {order[i]};
  }

  class ThreadStateRegistry {
    const maxEntries: nat
    const idleTtlSeconds: real
    var entries: map<ThreadKey, Entry>
    var order: seq<ThreadKey>               // least recently used first
    var created: nat
    ghost var held: map<nat, ThreadKey>
    ghost var given: map<nat, nat>

    ghost predicate Valid()
      reads this
    {
      && 1 <= maxEntries && |order| <= maxEntries
      && OrderOk(entries, order) && LeasesOk(entries, held, given) && StatesOk(entries, created)
    }

    constructor (maxEntries: nat, idleTtlSeconds: real)
      requires 1 <= maxEntries && 0.0 < idleTtlSeconds
      ensures Valid() && entries == map[] && held == map[]
    {
      this.maxEntries, this.idleTtlSeconds := maxEntries, idleTtlSeconds;
      entries, order, created, held, given := map[], [], 0, map[], map[];
    }

    method Drop(key: ThreadKey)
      requires Valid() && key in entries && entries[key].leases == 0
      modifies this`entries, this`order
      ensures Valid() && entries == old(entries) - {key} && order == Without(old(order), key)
      ensures |order| == |old(order)| - 1
    {
      hide OrderOk, LeasesOk, StatesOk, Without;
      WithoutUnleased(entries, order, held, given, key);
      StatesKept(entries, created, key);
      entries, order := entries - {key}, Without(order, key);
    }

    // Unleased threads that were idle for the whole time to live go, and only those.
    method Prune(now: Time)
      requires Valid()
      modifies this`entries, this`order
      ensures Valid() && |order| <= |old(order)|
      ensures forall k :: k in entries <==>
                k in old(entries) && (old(entries)[k].leases > 0 || old(entries)[k].lastAccess > now - idleTtlSeconds)
      ensures forall k :: k in entries ==> entries[k] == old(entries)[k]
    {
      var cutoff := now - idleTtlSeconds;
      var before := order;
      assert Distinct(before) && forall k :: k in before <==> k in old(entries);
      hide OrderOk, LeasesOk, StatesOk, Without;
      for i := 0 to |before|
        invariant Valid() && |order| <= |old(order)|
        invariant forall k :: k in entries ==> k in old(entries) && entries[k] == old(entries)[k]
        invariant forall j :: i <= j < |before| ==> before[j] in entries
        invariant forall j :: 0 <= j < i ==>
                    (before[j] in entries <==>
                       old(entries)[before[j]].leases > 0 || old(entries)[before[j]].lastAccess > cutoff)
      {
        var key := before[i];
        if entries[key].leases == 0 && entries[key].lastAccess <= cutoff {
          Drop(key);
        }
      }
    }

    method FirstUnleased() returns (found: Option<nat>)
      requires Valid()
      ensures found.Some? ==>
                && found.value < |order| && order[found.value] in entries && entries[order[found.value]].leases == 0
                && order[found.value] !in Leased(entries)
                && forall j :: 0 <= j < found.value ==> order[j] in Leased(entries)
      ensures found.None? ==> forall k :: k in entries ==> entries[k].leases > 0
      ensures found.None? ==> forall j :: 0 <= j < |order| ==> order[j] in Leased(entries)
    {
      assert forall i :: 0 <= i < |order| ==> order[i] in entries;
      assert forall k :: k in entries ==> k in order;
      hide LeasesOk, StatesOk, OrderOk;
      for i := 0 to |order|
        invariant forall j :: 0 <= j < i ==> entries[order[j]].leases > 0
      {
        if entries[order[i]].leases == 0 {
          return Some(i);
        }
      }
      return None;
    }

    // Frees one slot if none is free: the least recently used thread without a lease goes, and
    // no other.
    method MakeRoom() returns (fits: bool)
      requires Valid()
      modifies this`entries, this`order
      ensures Valid()
      ensures fits <==> |order| < maxEntries
      ensures !fits ==> |old(order)| >= maxEntries && forall k :: k in old(entries) ==> old(entries)[k].leases > 0
      ensures order == DropFirst(old(order), Leased(old(entries)), if |old(order)| < maxEntries then 0 else 1)
      ensures entries == old(entries) - (old(entries).Keys - Members(order))
    {
      hide OrderOk, LeasesOk, StatesOk, Without, Members, Distinct, Leased, DropFirst;
      NothingDropped(entries, order, Leased(entries));
      if |order| < maxEntries {
        return true;
      }
      var unleased := FirstUnleased();
      if unleased.None? {
        NothingMoreToDrop(order, Leased(entries), 0, 1);
        return false;
      }
      DropOneMore(order, Leased(entries), 0, unleased.value);
      OneDropped(entries, order, unleased.value);
      Drop(order[unleased.value]);
      return true;
    }

    // A lease is refused only when every slot holds a leased thread. All leases that are out
    // on one thread share one state.
    method Lease(key: ThreadKey, now: Time, ghost lease: nat) returns (state: Option<nat>)
      requires Valid() && lease !in held
      modifies this
      ensures Valid()
      ensures state.Some? ==>
                && held == old(held)[lease := key] && given == old(given)[lease := state.value]
                && forall h :: h in old(held) ==> (old(held)[h] == key <==> old(given)[h] == state.value)
      ensures state.None? ==>
                && held == old(held) && given == old(given)
                && |order| >= maxEntries && forall k :: k in entries ==> entries[k].leases > 0
    {
      hide OrderOk, LeasesOk, StatesOk, Without;
      Prune(now);
      if key !in entries {
        var fits := MakeRoom();
        if !fits {
          return None;
        }
        created := created + 1;
        state := Some(created);
        StateAdded(entries, created - 1, key, Entry(created, now, 1));
      } else {
        state := Some(entries[key].state);
        StatesKept(entries, created, key);
      }
      SameState(entries, held, given, key, state.value, created);
      Taken(entries, held, given, key, lease, state.value, now);
      var leases := if key in entries then entries[key].leases else 0;
      Moved(entries, order, key, Entry(state.value, now, leases + 1));
      entries := entries[key := Entry(state.value, now, leases + 1)];
      order := Without(order, key) + [key];
      held, given := held[lease := key], given[lease := state.value];
    }

    method EndLease(key: ThreadKey, now: Time, ghost lease: nat)
      requires Valid() && lease in held && held[lease] == key
      modifies this`entries, this`order, this`held, this`given
      ensures Valid() && held == old(held) - {lease} && given == old(given) - {lease}
    {
      hide OrderOk, LeasesOk, StatesOk, Without;
      Returned(entries, held, given, lease, now);
      StatesKept(entries, created, key);
      HeldIsStored(entries, held, given, lease);
      Moved(entries, order, key, entries[key].(leases := entries[key].leases - 1, lastAccess := now));
      var entry := entries[key];
      entries := entries[key := entry.(leases := Max(0, entry.leases - 1), lastAccess := now)];
      order := Without(order, key) + [key];
      held, given := held - {lease}, given - {lease};
    }
  }

  // A state just created, or the entry's own, is held through exactly the leases on the key.
  lemma SameState(entries: map<ThreadKey, Entry>, held: map<nat, ThreadKey>, given: map<nat, nat>, key: ThreadKey,
                  state: nat, created: nat)
    requires if key in entries then state == entries[key].state else created > 0 && state == created
    requires LeasesOk(entries, held, given) && StatesOk(entries, if key in entries then created else created - 1)
    ensures forall h :: h in held ==> (held[h] == key <==> given[h] == state)
  {
  }
}
