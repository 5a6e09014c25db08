// The record operations of one thread, as the engine runs them: SQLite, RAM and Redis in
// sequence, with a generation bump before and after every write.

module RecordTiers {
  import opened Results
  import opened Models
  import opened Collections
  import opened Scopes
  import opened RecordCache
  import opened QueryCache
  import opened Tables

  // Every unexpired entry of the tier is the stored row.
  ghost predicate Mirrors(tier: Rows, store: Rows, now: Time) {
    forall k :: k in tier && !tier[k].record.Expired(now) ==> k in store && store[k] == tier[k]
  }

  // What a bulk deletion takes.
  ghost function Doomed(store: Rows, namespace: string, source: string, selection: ScopeSelection): set<RecordKey> {
    set k | k in store && k.namespace == namespace && store[k].record.source == source
          && selection.Allows(store[k].record)
  }

  // The hits still stored as they were ranked, with their new access time.
  ghost function Kept(store: Rows, hits: seq<Row>, now: Time, at: Time): seq<Row> {
    if hits == [] then []
    else
      var rest := Kept(store, hits[1..], now, at);
      if Unchanged(store, hits[0], now) then [store[hits[0].record.Key()].(accessedAt := at)] + rest else rest
  }

  // Touching rows and dropping expired ones changes nothing about which hits are kept.
  lemma {:induction false} KeptIsStable(store: Rows, after: Rows, hits: seq<Row>, now: Time, at: Time)
    requires forall k :: k in after ==> k in store && after[k].(accessedAt := store[k].accessedAt) == store[k]
    requires forall k :: k in store && k !in after ==> store[k].record.Expired(now)
    ensures Kept(after, hits, now, at) == Kept(store, hits, now, at)
  {
    if hits != [] {
      KeptIsStable(store, after, hits[1..], now, at);
      var k := hits[0].record.Key();
      assert k in after ==> Plain(after[k]) == Plain(store[k]);
    }
  }

  lemma {:induction false} KeptSnoc(store: Rows, hits: seq<Row>, hit: Row, now: Time, at: Time)
    ensures Kept(store, hits + [hit], now, at) == Kept(store, hits, now, at) + Kept(store, [hit], now, at)
  {
    if hits == [] {
      assert hits + [hit] == [hit];
    } else {
      KeptSnoc(store, hits[1..], hit, now, at);
      assert (hits + [hit])[1..] == hits[1..] + [hit];
    }
  }

  function StillRanked(store: Rows, now: Time): Row -> bool {
    (hit: Row) => Unchanged(store, hit, now)
  }

  // The hits kept are those whose record is stored and not expired with the stamps and the
  // boundary it was ranked with; they stay in their order and get the new access time.
  lemma {:induction false} KeptInOrder(store: Rows, hits: seq<Row>, now: Time, at: Time)
    returns (still: seq<Row>, from: seq<nat>)
    ensures Keeps(hits, StillRanked(store, now), still, from)
    ensures |Kept(store, hits, now, at)| == |still|
    ensures forall i :: 0 <= i < |still| ==>
              var k := still[i].record.Key(); k in store && Kept(store, hits, now, at)[i] == store[k].(accessedAt := at)
  {
    hide Keeps, Unchanged;
    if hits == [] {
      still, from := [], [];
      NothingKept(hits, StillRanked(store, now));
    } else {
      var front, last := hits[..|hits| - 1], hits[|hits| - 1];
      still, from := KeptInOrder(store, front, now, at);
      KeepsOneMore(front, StillRanked(store, now), still, from, last);
      KeptSnoc(store, front, last, now, at);
      KeptOne(store, last, now, at);
      assert hits == front + [last];
      if Unchanged(store, last, now) {
        still, from := still + [last], from + [|front|];
      }
    }
  }

  lemma PublishedAreCurrent(store: Rows, hits: seq<Row>, now: Time, at: Time) returns (from: seq<nat>)
    ensures Ascending(from, |hits|) && |from| == |Kept(store, hits, now, at)|
    ensures forall i :: 0 <= i < |from| ==>
              var k := RecordKey(hits[from[i]].record.namespace, hits[from[i]].record.id);
              k in store && Kept(store, hits, now, at)[i] == store[k].(accessedAt := at)
    ensures forall j :: 0 <= j < |hits| ==>
              var k := RecordKey(hits[j].record.namespace, hits[j].record.id);
              (j in from <==>
                && k in store
                && (store[k].record.expiresAt.Some? ==> now < store[k].record.expiresAt.value)
                && store[k].updatedAt == hits[j].updatedAt && store[k].contentHash == hits[j].contentHash
                && store[k].record.scope == hits[j].record.scope && store[k].record.owner == hits[j].record.owner
                && store[k].record.team == hits[j].record.team)
  {
    hide Ascending, Kept;
    var still;
    still, from := KeptInOrder(store, hits, now, at);
    assert forall j :: 0 <= j < |hits| ==> (StillRanked(store, now)(hits[j]) <==> j in from);
  }

  class ContextCache {
    var store: Rows
    var ram: Rows
    var redis: Option<Rows>
    var queryRam: map<(nat, QueryKey), Answer>
    var localGeneration: nat

    ghost predicate Valid(now: Time)
      reads this
    {
      KeyedRows(store) && Mirrors(ram, store, now)
    }

    // A put may push any entries out of RAM, even the one just put.
    method PutRam(row: Row, evicted: set<RecordKey>)
      modifies this`ram
      ensures ram == old(ram)[row.record.Key() := row] - evicted
    {
      ram := ram[row.record.Key() := row] - evicted;
    }

    method PutRedis(row: Row)
      modifies this`redis
      ensures redis == if old(redis).Some? then Some(old(redis).value[row.record.Key() := row]) else None
    {
      if redis.Some? {
        redis := Some(redis.value[row.record.Key() := row]);
      }
    }

    method DropRedis(key: RecordKey)
      modifies this`redis
      ensures redis == if old(redis).Some? then Some(old(redis).value - {key}) else None
    {
      if redis.Some? {
        redis := Some(redis.value - {key});
      }
    }

    // `isReserved` says that a recorded event reserves the identifier.
    method PersistRecord(row: Row, isReserved: bool, evicted: set<RecordKey>, now: Time)
      returns (outcome: Result<Row, StoreError>)
      requires Valid(now)
      modifies this`store, this`ram, this`redis, this`localGeneration
      ensures Valid(now)
      ensures outcome.Ok? <==>
                && !isReserved
                && (row.record.Key() in old(store) ==>
                      old(store)[row.record.Key()].record.SameVisibility(row.record))
      ensures outcome.Ok? ==> outcome.value == row && store == old(store)[row.record.Key() := row]
      ensures outcome.Ok? ==>
                && ram == old(ram)[row.record.Key() := row] - evicted
                && redis == if old(redis).Some? then Some(old(redis).value[row.record.Key() := row]) else None
      ensures outcome.Ok? ==> localGeneration == old(localGeneration) + 2
      ensures outcome.Err? ==> store == old(store) && ram == old(ram) && localGeneration == old(localGeneration) + 1
    {
      localGeneration := localGeneration + 1;
      if isReserved {
        return Err(RecordIdReserved);
      }
      if row.record.Key() in store && !store[row.record.Key()].record.SameVisibility(row.record) {
        return Err(VisibilityFixed);
      }
      store := store[row.record.Key() := row];
      PutRam(row, evicted);
      PutRedis(row);
      localGeneration := localGeneration + 1;
      outcome := Ok(row);
    }

    // An expired row is removed by the read that finds it.
    method ReadVisible(key: RecordKey, selection: ScopeSelection, now: Time) returns (durable: Option<Row>)
      requires Valid(now)
      modifies this`store
      ensures Valid(now)
      ensures durable.Some? <==>
                && key in old(store) && selection.Allows(old(store)[key].record)
                && (old(store)[key].record.expiresAt.Some? ==> now < old(store)[key].record.expiresAt.value)
      ensures durable.Some? ==> durable.value == old(store)[key]
      ensures var gone := key in old(store) && selection.Allows(old(store)[key].record)
                          && old(store)[key].record.Expired(now);
              store == if gone then old(store) - {key} else old(store)
    {
      if key !in store || !selection.Allows(store[key].record) {
        return None;
      }
      if store[key].record.Expired(now) {
        store := store - {key};
        return None;
      }
      durable := Some(store[key]);
    }

    // RAM is tried first; what Redis holds is only ever compared with SQLite. `lapsed` are the
    // RAM entries whose time to live has run out.
    method Get(key: RecordKey, selection: ScopeSelection, lapsed: set<RecordKey>, evicted: set<RecordKey>, now: Time)
      returns (found: Option<Row>)
      requires Valid(now)
      modifies this`store, this`ram, this`redis, this`localGeneration
      ensures Valid(now) && localGeneration == old(localGeneration)
      ensures found.Some? <==>
                && key in old(store) && selection.Allows(old(store)[key].record)
                && (old(store)[key].record.expiresAt.Some? ==> now < old(store)[key].record.expiresAt.value)
      ensures found.Some? ==> found.value == old(store)[key]
      ensures forall k :: k in old(store) && !old(store)[k].record.Expired(now) ==>
                k in store && store[k] == old(store)[k]
      ensures forall k :: k in store ==> k in old(store) && store[k] == old(store)[k]
    {
      ram := ram - lapsed;
      if key in ram {
        var row := ram[key];
        if row.record.Key() == key && !row.record.Expired(now) && selection.Allows(row.record) {
          return Some(row);
        }
      }
      found := ReadVisible(key, selection, now);
      if redis.Some? && key in redis.value && (found.None? || redis.value[key] != found.value) {
        DropRedis(key);
      }
      if found.Some? {
        PutRam(found.value, evicted);
        PutRedis(found.value);
      }
    }

    method Delete(key: RecordKey, selection: ScopeSelection, now: Time) returns (deleted: bool)
      requires Valid(now)
      modifies this`store, this`ram, this`redis, this`localGeneration
      ensures Valid(now)
      ensures deleted <==>
                && key in old(store) && selection.Allows(old(store)[key].record)
                && (old(store)[key].record.expiresAt.Some? ==> now < old(store)[key].record.expiresAt.value)
      ensures var gone := key in old(store) && selection.Allows(old(store)[key].record);
              store == if gone then old(store) - {key} else old(store)
      ensures deleted ==>
                && ram == old(ram) - {key}
                && redis == if old(redis).Some? then Some(old(redis).value - {key}) else None
      ensures !deleted ==> ram == old(ram) && redis == old(redis)
      ensures localGeneration == old(localGeneration) + if deleted then 2 else 0
    {
      var visible := ReadVisible(key, selection, now);
      if visible.None? {
        return false;
      }
      localGeneration := localGeneration + 1;
      store := store - {key};
      ram := ram - {key};
      DropRedis(key);
      localGeneration := localGeneration + 1;
      return true;
    }

    // One record after the other leaves RAM; the second bump only if any was deleted.
    method DeleteSource(namespace: string, source: string, selection: ScopeSelection, now: Time) returns (count: nat)
      requires Valid(now)
      modifies this`store, this`ram, this`redis, this`localGeneration
      ensures Valid(now)
      ensures store == old(store) - Doomed(old(store), namespace, source, selection)
      ensures forall k :: k in store <==>
                && k in old(store)
                && !(k.namespace == namespace && old(store)[k].record.source == source
                     && selection.Allows(old(store)[k].record))
      ensures ram == old(ram) - Doomed(old(store), namespace, source, selection)
      ensures count == |Doomed(old(store), namespace, source, selection)|
      ensures localGeneration == old(localGeneration) + if count == 0 then 1 else 2
    {
      hide KeyedRows, Mirrors, ScopeSelection.Allows;
      localGeneration := localGeneration + 1;
      var ids := set k | k in store && k.namespace == namespace && store[k].record.source == source
                         && selection.Allows(store[k].record);
      BothWithout(ram, store, ids, now);
      store := store - ids;
      var rest := ids;
      while rest != {}
        invariant rest <= ids && ram == old(ram) - (ids - rest)
        invariant store == old(store) - ids && localGeneration == old(localGeneration) + 1
        decreases rest
      {
        var k :| k in rest;
        ram := ram - {k};
        DropRedis(k);
        rest := rest - {k};
        assert ids - rest == ids - (rest + {k}) + {k};
      }
      assert ids - rest == ids;
      if ids != {} {
        localGeneration := localGeneration + 1;
      }
      count := |ids|;
    }

    method PurgeExpired(now: Time) returns (purged: nat)
      requires Valid(now)
      modifies this`store, this`ram, this`queryRam, this`localGeneration
      ensures Valid(now)
      ensures forall k :: k in store <==> k in old(store) && !old(store)[k].record.Expired(now)
      ensures forall k :: k in store ==> store[k] == old(store)[k]
      ensures purged == |old(store).Keys - store.Keys|
      ensures if purged > 0 then ram == map[] && queryRam == map[] else unchanged(`ram) && unchanged(`queryRam)
      ensures localGeneration == old(localGeneration) + if store == old(store) then 1 else 2
    {
      hide KeyedRows, Mirrors;
      localGeneration := localGeneration + 1;
      var expired := set k | k in store && store[k].record.Expired(now);
      ExpiryKeepsTiers(ram, store, expired, now);
      store := store - expired;
      purged := |expired|;
      if purged > 0 {
        ram := map[];
        queryRam := map[];
        localGeneration := localGeneration + 1;
      }
    }

    // Ranked hits are re-read one by one; those that are no longer stored as ranked drop out,
    // the others get a new access time in every tier.
    method PublishRecords(hits: seq<Row>, evicted: set<RecordKey>, now: Time, at: Time) returns (published: seq<Row>)
      requires Valid(now)
      modifies this`store, this`ram, this`redis
      ensures Valid(now)
      ensures published == Kept(old(store), hits, now, at)
      ensures forall k :: k in store ==>
                k in old(store) && store[k].(accessedAt := old(store)[k].accessedAt) == old(store)[k]
      ensures forall k :: k in old(store) && k !in store ==> old(store)[k].record.Expired(now)
    {
      hide Kept, Unchanged;
      published := [];
      assert Kept(old(store), [], now, at) == [] by { NoneKept(store, now, at); }
      for i := 0 to |hits|
        invariant Valid(now)
        invariant published == Kept(old(store), hits[..i], now, at)
        invariant forall k :: k in store ==>
                    k in old(store) && store[k].(accessedAt := old(store)[k].accessedAt) == old(store)[k]
        invariant forall k :: k in old(store) && k !in store ==> old(store)[k].record.Expired(now)
      {
        var hit := hits[i];
        assert hits[..i + 1] == hits[..i] + [hit];
        KeptSnoc(old(store), hits[..i], hit, now, at);
        KeptIsStable(old(store), store, [hit], now, at);
        KeptOne(store, hit, now, at);
        var k := hit.record.Key();
        if k in store && store[k].record.Expired(now) {
          store := store - {k};
          continue;
        }
        if !Unchanged(store, hit, now) {
          continue;
        }
        var current := store[k].(accessedAt := at);
        store := store[k := current];
        PutRam(current, evicted);
        PutRedis(current);
        published := published + [current];
      }
      assert hits[..|hits|] == hits;
    }
  }

  lemma ExpiryKeepsTiers(ram: Rows, store: Rows, expired: set<RecordKey>, now: Time)
    requires KeyedRows(store) && Mirrors(ram, store, now)
    requires forall k :: k in expired ==> k in store && store[k].record.Expired(now)
    ensures KeyedRows(store - expired) && Mirrors(ram, store - expired, now) && Mirrors(map[], store - expired, now)
    ensures store.Keys - (store - expired).Keys == expired
    ensures expired == {} <==> store - expired == store
  {
    assert expired != {} ==> exists k :: k in store && k !in store - expired;
  }

  lemma BothWithout(ram: Rows, store: Rows, ids: set<RecordKey>, now: Time)
    requires KeyedRows(store) && Mirrors(ram, store, now)
    ensures KeyedRows(store - ids) && Mirrors(ram - ids, store - ids, now)
  {
  }

  lemma NoneKept(store: Rows, now: Time, at: Time)
    ensures Kept(store, [], now, at) == []
  {
  }

  lemma KeptOne(store: Rows, hit: Row, now: Time, at: Time)
    ensures var k := hit.record.Key();
            && (Unchanged(store, hit, now) ==> k in store && !store[k].record.Expired(now))
            && Kept(store, [hit], now, at) == if Unchanged(store, hit, now) then [store[k].(accessedAt := at)] else []
  {
  }
}
