// A least-recently-used cache bounded by bytes, with expiry.

module ByteLru {
  import opened Results
  import opened Models

  datatype Entry<V> = Entry(key: string, value: V, size: nat, expiresAt: Option<Time>)

  function Bytes<V>(items: seq<Entry<V>>): nat {
    if items == [] then 0 else items[0].size + Bytes(items[1..])
  }

  // The entries under any other key, in order.
  function Without<V>(items: seq<Entry<V>>, key: string): seq<Entry<V>> {
    if items == [] then []
    else if items[0].key == key then Without(items[1..], key)
    else [items[0]] + Without(items[1..], key)
  }

  function Lookup<V>(items: seq<Entry<V>>, key: string): Option<Entry<V>> {
    if items == [] then None
    else if items[0].key == key then Some(items[0])
    else Lookup(items[1..], key)
  }

  // Oldest entries go first, until the rest fits.
  function Evicted<V>(items: seq<Entry<V>>, maxBytes: nat): seq<Entry<V>> {
    if items == [] || Bytes(items) <= maxBytes then items else Evicted(items[1..], maxBytes)
  }

  ghost predicate UniqueKeys<V>(items: seq<Entry<V>>) {
    forall i, j :: 0 <= i < j < |items| ==> items[i].key != items[j].key
  }

  lemma {:induction false} BytesConcat<V>(a: seq<Entry<V>>, b: seq<Entry<V>>)
    ensures Bytes(a + b) == Bytes(a) + Bytes(b)
  {
    if a == [] {
      assert a + b == b;
    } else {
      BytesConcat(a[1..], b);
      assert (a + b)[1..] == a[1..] + b;
    }
  }

  lemma {:induction false} LookupIsMember<V>(items: seq<Entry<V>>, key: string)
    ensures Lookup(items, key).None? <==> forall e :: e in items ==> e.key != key
    ensures Lookup(items, key).Some? ==> Lookup(items, key).value in items && Lookup(items, key).value.key == key
  {
    if items != [] {
      LookupIsMember(items[1..], key);
      assert items == [items[0]] + items[1..];
    }
  }

  lemma {:induction false} WithoutMembers<V>(items: seq<Entry<V>>, key: string, e: Entry<V>)
    ensures e in Without(items, key) <==> e in items && e.key != key
  {
    if items != [] {
      WithoutMembers(items[1..], key, e);
      assert items == [items[0]] + items[1..];
    }
  }

  lemma {:induction false} WithoutUnique<V>(items: seq<Entry<V>>, key: string)
    requires UniqueKeys(items)
    ensures UniqueKeys(Without(items, key))
  {
    if items != [] {
      WithoutUnique(items[1..], key);
      forall e | e in Without(items[1..], key)
        ensures e.key != items[0].key
      {
        WithoutMembers(items[1..], key, e);
        assert e in items[1..];
      }
    }
  }

  lemma {:induction false} WithoutBytes<V>(items: seq<Entry<V>>, key: string)
    requires UniqueKeys(items)
    ensures Bytes(items) == Bytes(Without(items, key)) + match Lookup(items, key) case Some(e) => e.size case None => 0
  {
    if items != [] {
      WithoutBytes(items[1..], key);
      if items[0].key == key {
        LookupIsMember(items[1..], key);
        assert Lookup(items[1..], key).None?;
      }
    }
  }

  lemma {:induction false} WithoutLookup<V>(items: seq<Entry<V>>, key: string, k: string)
    ensures Lookup(Without(items, key), k) == if k == key then None else Lookup(items, k)
  {
    if items != [] {
      WithoutLookup(items[1..], key, k);
    }
  }

  // Removing a key takes away its bytes, its binding and nothing else.
  lemma WithoutKey<V>(items: seq<Entry<V>>, key: string)
    requires UniqueKeys(items)
    ensures var rest := Without(items, key);
            && UniqueKeys(rest)
            && (forall e :: e in rest ==> e in items && e.key != key)
            && Bytes(items) == Bytes(rest) + match Lookup(items, key) case Some(e) => e.size case None => 0
  {
    forall e | e in Without(items, key)
      ensures e in items && e.key != key
    {
      WithoutMembers(items, key, e);
    }
    WithoutUnique(items, key);
    WithoutBytes(items, key);
  }

  lemma AppendUnique<V>(items: seq<Entry<V>>, entry: Entry<V>)
    requires UniqueKeys(items) && forall e :: e in items ==> e.key != entry.key
    ensures UniqueKeys(items + [entry]) && Bytes(items + [entry]) == Bytes(items) + entry.size
  {
    BytesConcat(items, [entry]);
    assert Bytes([entry]) == entry.size;
  }

  lemma {:induction false} LookupAppended<V>(items: seq<Entry<V>>, entry: Entry<V>, k: string)
    ensures Lookup(items + [entry], k) ==
              if Lookup(items, k).Some? then Lookup(items, k) else if k == entry.key then Some(entry) else None
  {
    if items != [] {
      LookupAppended(items[1..], entry, k);
      assert (items + [entry])[1..] == items[1..] + [entry];
    }
  }

  // What is kept fits, it is a run of the newest entries, and one entry more would not fit.
  lemma {:induction false} EvictedIsLongest<V>(items: seq<Entry<V>>, maxBytes: nat)
    ensures var kept := Evicted(items, maxBytes);
            && |kept| <= |items| && kept == items[|items| - |kept|..]
            && Bytes(kept) <= maxBytes
            && (|kept| < |items| ==> Bytes(items[|items| - |kept| - 1..]) > maxBytes)
  {
    if items != [] && Bytes(items) > maxBytes {
      EvictedIsLongest(items[1..], maxBytes);
      var kept := Evicted(items, maxBytes);
      var n := |items| - |kept| - 1;
      assert kept == items[1..][n..] == items[n + 1..];
      if n > 0 {
        assert items[n..] == items[1..][n - 1..];
      } else {
        assert items[0..] == items;
      }
    } else {
      assert items[0..] == items;
    }
  }

  class ByteLRU<V> {
    const maxBytes: nat
    var bytes: int
    var items: seq<Entry<V>>       // an ordered dictionary, oldest first
    var hits: nat
    var misses: nat
    var evictions: nat

    ghost predicate Valid()
      reads this
    {
      UniqueKeys(items) && bytes == Bytes(items) && bytes <= maxBytes
    }

    constructor (maxBytes: nat)
      requires maxBytes > 0
      ensures Valid() && items == [] && this.maxBytes == maxBytes
    {
      this.maxBytes := maxBytes;
      bytes, items, hits, misses, evictions := 0, [], 0, 0, 0;
    }

    method Delete(key: string)
      requires Valid()
      modifies this`items, this`bytes
      ensures Valid() && items == Without(old(items), key)
    {
      WithoutKey(items, key);
      var entry := Lookup(items, key);
      if entry.Some? {
        items := Without(items, key);
        bytes := bytes - entry.value.size;
      } else {
        AbsentKey(items, key);
      }
    }

    // An expired entry is dropped; a live one becomes the newest.
    method Get(key: string, now: Time) returns (value: Option<V>)
      requires Valid()
      modifies this
      ensures Valid() && evictions == old(evictions)
      ensures var found := Lookup(old(items), key);
              if found.Some? && !(found.value.expiresAt.Some? && found.value.expiresAt.value <= now) then
                && value == Some(found.value.value)
                && items == Without(old(items), key) + [found.value]
                && hits == old(hits) + 1 && misses == old(misses)
              else
                && value == None && items == Without(old(items), key)
                && hits == old(hits) && misses == old(misses) + 1
    {
      var entry := Lookup(items, key);
      WithoutKey(items, key);
      if entry.None? {
        AbsentKey(items, key);
        misses := misses + 1;
        return None;
      }
      LookupIsMember(items, key);
      Delete(key);
      if entry.value.expiresAt.Some? && entry.value.expiresAt.value <= now {
        misses := misses + 1;
        return None;
      }
      AppendUnique(items, entry.value);
      items := items + [entry.value];
      bytes := bytes + entry.value.size;
      hits := hits + 1;
      value := Some(entry.value.value);
    }

    // A value too large for the whole cache only removes what its key held.
    method Put(key: string, value: V, size: nat, expiresAt: Option<Time>)
      requires Valid()
      modifies this
      ensures Valid() && hits == old(hits) && misses == old(misses)
      ensures items == if size > maxBytes then Without(old(items), key)
                       else Evicted(Without(old(items), key) + [Entry(key, value, size, expiresAt)], maxBytes)
      ensures evictions == old(evictions) + (if size > maxBytes then 0
                else |Without(old(items), key)| + 1 - |items|)
    {
      WithoutKey(items, key);
      Delete(key);
      if size > maxBytes {
        return;
      }
      ghost var all := items + [Entry(key, value, size, expiresAt)];
      AppendUnique(items, Entry(key, value, size, expiresAt));
      items := items + [Entry(key, value, size, expiresAt)];
      bytes := bytes + size;
      while bytes > maxBytes && items != []
        invariant UniqueKeys(items) && bytes == Bytes(items)
        invariant Evicted(items, maxBytes) == Evicted(all, maxBytes)
        invariant hits == old(hits) && misses == old(misses)
        invariant evictions == old(evictions) + |all| - |items|
        decreases |items|
      {
        bytes := bytes - items[0].size;
        items := items[1..];
        evictions := evictions + 1;
      }
    }

    method Clear()
      requires Valid()
      modifies this`items, this`bytes
      ensures Valid() && items == []
    {
      items, bytes := [], 0;
    }
  }

  lemma {:induction false} AbsentKey<V>(items: seq<Entry<V>>, key: string)
    requires Lookup(items, key).None?
    ensures Without(items, key) == items
  {
    if items != [] {
      AbsentKey(items[1..], key);
      assert items == [items[0]] + items[1..];
    }
  }

  // A value that fits is found right after it is stored, and no other key gains a value.
  lemma PutThenGet<V>(items: seq<Entry<V>>, entry: Entry<V>, maxBytes: nat, key: string)
    requires UniqueKeys(items) && entry.size <= maxBytes
    ensures var after := Evicted(Without(items, entry.key) + [entry], maxBytes);
            && Lookup(after, entry.key) == Some(entry)
            && (key != entry.key && Lookup(after, key).Some? ==> Lookup(after, key) == Lookup(items, key))
  {
    var rest := Without(items, entry.key);
    var all := rest + [entry];
    hide Evicted, Without;
    WithoutKey(items, entry.key);
    AppendUnique(rest, entry);
    EvictedIsLongest(all, maxBytes);
    var after := Evicted(all, maxBytes);
    assert all[|rest|..] == [entry] && Bytes([entry]) == entry.size;
    assert after != [] && after[|after| - 1] == entry;
    SuffixLookup(all, |all| - |after|, entry.key);
    SuffixLookup(all, |all| - |after|, key);
    LookupIsMember(after, entry.key);
    LookupAppended(rest, entry, key);
    WithoutLookup(items, entry.key, key);
    LookupAppended(rest, entry, entry.key);
    WithoutLookup(items, entry.key, entry.key);
  }

  lemma {:induction false} SuffixLookup<V>(items: seq<Entry<V>>, n: nat, key: string)
    requires n <= |items| && UniqueKeys(items)
    ensures Lookup(items[n..], key).Some? ==> Lookup(items, key) == Lookup(items[n..], key)
  {
    if n > 0 {
      SuffixLookup(items[1..], n - 1, key);
      assert items[1..][n - 1..] == items[n..];
      LookupIsMember(items[1..], key);
      if Lookup(items[1..], key).Some? {
        var i :| 0 <= i < |items[1..]| && items[1..][i] == Lookup(items[1..], key).value;
        assert items[i + 1].key == key;
      }
    } else {
      assert items[0..] == items;
    }
  }
}
