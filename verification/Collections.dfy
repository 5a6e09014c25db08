// Facts about finite collections that several components rely on.

module Collections {

  ghost function PickKey<K, V>(m: map<K, V>): K
    requires m != map[]
    ensures PickKey(m) in m
  {
    assert m.Keys != {};
    var k :| k in m; k
  }

  // The sum of a map's values.
  ghost function Sum<K>(m: map<K, nat>): nat
    decreases |m|
  {
    if m == map[] then 0
    else
      var k := PickKey(m);
      assert |m - {k}| < |m| by { assert (m - {k}).Keys == m.Keys - {k}; }
      m[k] + Sum(m - {k})
  }

  // Any key can be the one that is taken off first.
  lemma {:induction false} SumRemove<K>(m: map<K, nat>, k: K)
    requires k in m
    ensures Sum(m) == m[k] + Sum(m - {k})
    decreases |m|
  {
    var j := PickKey(m);
    if j != k {
      assert (m - {j}).Keys == m.Keys - {j};
      assert (m - {k}).Keys == m.Keys - {k};
      SumRemove(m - {j}, k);
      SumRemove(m - {k}, j);
      assert m - {j} - {k} == m - {k} - {j};
    }
  }

  lemma SumUpdate<K>(m: map<K, nat>, k: K, v: nat)
    ensures k in m ==> Sum(m[k := v]) + m[k] == Sum(m) + v
    ensures k !in m ==> Sum(m[k := v]) == Sum(m) + v
  {
    var n := m[k := v];
    SumRemove(n, k);
    if k in m {
      SumRemove(m, k);
      assert n - {k} == m - {k};
    } else {
      assert n - {k} == m;
    }
  }

  lemma ConcatAssociates<T>(a: seq<T>, b: seq<T>, c: seq<T>)
    ensures a + (b + c) == a + b + c
  {
  }

  ghost function Any<T>(s: set<T>): (x: T)
    requires s != {}
    ensures x in s
  {
    var x :| x in s;
    x
  }

  ghost predicate Distinct<T>(s: seq<T>) {
    forall i, j :: 0 <= i < j < |s| ==> s[i] != s[j]
  }

  function Members<T>(s: seq<T>): set<T> {
    set x | x in s
  }

  // The next entry of a duplicate-free sequence is a new member.
  lemma NextMember<T>(s: seq<T>, i: nat)
    requires Distinct(s) && i < |s|
    ensures s[i] in s && s[i] !in Members(s[..i]) && Members(s[..i + 1]) == Members(s[..i]) + {s[i]}
    ensures s[..i + 1] == s[..i] + [s[i]]
  {
  }

  // A duplicate-free sequence has as many entries as elements.
  lemma {:induction false} DistinctCardinality<T>(s: seq<T>)
    requires Distinct(s)
    ensures |set x | x in s| == |s|
  {
    if s != [] {
      var last := s[|s| - 1];
      var front := s[..|s| - 1];
      DistinctCardinality(front);
      assert s == front + [last];
      assert (set x | x in s) == (set x | x in front) + {last};
    }
  }

  // The least element of a non-empty finite set of naturals.
  ghost function Least(s: set<nat>): (m: nat)
    requires s != {}
    ensures m in s
    ensures forall x :: x in s ==> m <= x
  {
    var m :| m in s;
    var rest := s - {m};
    assert forall x :: x in s ==> x == m || x in rest;
    if rest == {} then m
    else
      var r := Least(rest);
      if m <= r then m else r
  }

  // A sequence without one value.
  function Without<T(==)>(s: seq<T>, x: T): seq<T> {
    if s == [] then []
    else if s[0] == x then Without(s[1..], x)
    else [s[0]] + Without(s[1..], x)
  }

  lemma {:induction false} WithoutMembers<T>(s: seq<T>, x: T)
    ensures forall y :: y in Without(s, x) <==> y in s && y != x
    ensures x !in s ==> Without(s, x) == s
    ensures |Without(s, x)| <= |s|
  {
    if s != [] {
      WithoutMembers(s[1..], x);
      assert s == [s[0]] + s[1..];
    }
  }

  lemma {:induction false} WithoutDistinct<T>(s: seq<T>, x: T)
    requires Distinct(s)
    ensures Distinct(Without(s, x))
    ensures x in s ==> |Without(s, x)| == |s| - 1
  {
    if s != [] {
      WithoutDistinct(s[1..], x);
      WithoutMembers(s[1..], x);
      var rest := Without(s[1..], x);
      forall i | 0 <= i < |rest|
        ensures rest[i] != s[0]
      {
        assert rest[i] in rest;
      }
    }
  }

  // A sequence without the values of a set.
  function Excluding<T(==)>(s: seq<T>, gone: set<T>): seq<T> {
    if s == [] then []
    else if s[0] in gone then Excluding(s[1..], gone)
    else [s[0]] + Excluding(s[1..], gone)
  }

  lemma {:induction false} ExcludingOneMore<T>(s: seq<T>, gone: set<T>, x: T)
    ensures Without(Excluding(s, gone), x) == Excluding(s, gone + {x})
    ensures Excluding(s, {}) == s
  {
    if s != [] {
      ExcludingOneMore(s[1..], gone, x);
    }
  }

  function NotIn<T(!new)>(gone: set<T>): T -> bool {
    (x: T) => x !in gone
  }

  lemma {:induction false} ExcludingSnoc<T>(s: seq<T>, gone: set<T>, x: T)
    ensures Excluding(s + [x], gone) == Excluding(s, gone) + if x in gone then [] else [x]
  {
    if s == [] {
      assert s + [x] == [x];
    } else {
      ExcludingSnoc(s[1..], gone, x);
      assert (s + [x])[1..] == s[1..] + [x];
    }
  }

  // What stays keeps its order.
  lemma {:induction false} ExcludingInOrder<T(!new)>(s: seq<T>, gone: set<T>) returns (at: seq<nat>)
    ensures Keeps(s, NotIn(gone), Excluding(s, gone), at)
  {
    hide Keeps;
    if s == [] {
      at := [];
      NothingKept(s, NotIn(gone));
    } else {
      var front, last := s[..|s| - 1], s[|s| - 1];
      at := ExcludingInOrder(front, gone);
      KeepsOneMore(front, NotIn(gone), Excluding(front, gone), at, last);
      ExcludingSnoc(front, gone, last);
      assert s == front + [last];
      if last in gone {
        assert Excluding(s, gone) == Excluding(front, gone) + [] == Excluding(front, gone);
      } else {
        at := at + [|front|];
      }
    }
  }

  // A sequence without its first n values outside `keep`.
  function DropFirst<T(==)>(s: seq<T>, keep: set<T>, n: nat): seq<T> {
    if n == 0 || s == [] then s
    else if s[0] in keep then [s[0]] + DropFirst(s[1..], keep, n)
    else DropFirst(s[1..], keep, n - 1)
  }

  // What goes is outside `keep`, with everything outside it that comes earlier, and is n values
  // or all of those.
  lemma {:induction false} FirstAreDropped<T>(s: seq<T>, keep: set<T>, n: nat)
    requires Distinct(s)
    ensures var rest := DropFirst(s, keep, n);
            && (forall x :: x in rest ==> x in s)
            && (forall i, j :: 0 <= i < j < |s| && s[j] !in rest ==> s[i] in keep || s[i] !in rest)
            && (forall x :: x in s && x !in rest ==> x !in keep)
            && |rest| <= |s| <= |rest| + n
            && (|s| < |rest| + n ==> forall x :: x in rest ==> x in keep)
  {
    if n > 0 && s != [] {
      var more := if s[0] in keep then n else n - 1;
      FirstAreDropped(s[1..], keep, more);
      var rest, tail := DropFirst(s, keep, n), DropFirst(s[1..], keep, more);
      assert rest == (if s[0] in keep then [s[0]] else []) + tail;
      forall i, j | 0 <= i < j < |s| && s[j] !in rest
        ensures s[i] in keep || s[i] !in rest
      {
        assert s[j] == s[1..][j - 1];
        if i > 0 {
          assert s[i] == s[1..][i - 1];
        }
      }
    }
  }

  lemma {:induction false} DropOneMore<T>(s: seq<T>, keep: set<T>, n: nat, j: nat)
    requires Distinct(s) && j < |DropFirst(s, keep, n)| && DropFirst(s, keep, n)[j] !in keep
    requires forall i :: 0 <= i < j ==> DropFirst(s, keep, n)[i] in keep
    ensures DropFirst(s, keep, n + 1) == Without(DropFirst(s, keep, n), DropFirst(s, keep, n)[j])
  {
    var cut := DropFirst(s, keep, n);
    if s[0] in keep {
      assert cut == [s[0]] + DropFirst(s[1..], keep, n);
      assert cut[0] in keep;
      assert forall i :: 0 <= i < j - 1 ==> DropFirst(s[1..], keep, n)[i] == cut[i + 1];
      DropOneMore(s[1..], keep, n, j - 1);
    } else if n > 0 {
      DropOneMore(s[1..], keep, n - 1, j);
    } else {
      assert j == 0;
      assert s[0] !in s[1..];
      WithoutMembers(s[1..], s[0]);
    }
  }

  lemma {:induction false} NothingMoreToDrop<T>(s: seq<T>, keep: set<T>, n: nat, m: nat)
    requires n <= m && forall i :: 0 <= i < |DropFirst(s, keep, n)| ==> DropFirst(s, keep, n)[i] in keep
    ensures DropFirst(s, keep, m) == DropFirst(s, keep, n)
  {
    if s != [] {
      var cut := DropFirst(s, keep, n);
      if s[0] in keep {
        assert cut == [s[0]] + DropFirst(s[1..], keep, n);
        assert forall i :: 0 <= i < |DropFirst(s[1..], keep, n)| ==> DropFirst(s[1..], keep, n)[i] == cut[i + 1];
        NothingMoreToDrop(s[1..], keep, n, m);
      } else if n > 0 {
        NothingMoreToDrop(s[1..], keep, n - 1, m - 1);
      }
    }
  }

  // Positions in a sequence of length n, from left to right.
  ghost predicate Ascending(at: seq<nat>, n: nat) {
    && (forall i, j :: 0 <= i < j < |at| ==> at[i] < at[j])
    && (forall i :: 0 <= i < |at| ==> at[i] < n)
  }

  // `kept` are the values that satisfy f, in their order: those at the positions `at`.
  ghost predicate Keeps<T(!new)>(s: seq<T>, f: T -> bool, kept: seq<T>, at: seq<nat>) {
    && Ascending(at, |s|) && |at| == |kept|
    && (forall i :: 0 <= i < |at| ==> kept[i] == s[at[i]])
    && (forall j :: 0 <= j < |s| ==> (f(s[j]) <==> j in at))
  }

  lemma NothingKept<T(!new)>(s: seq<T>, f: T -> bool)
    requires s == []
    ensures Keeps(s, f, [], [])
  {
  }

  lemma KeepsOneMore<T(!new)>(s: seq<T>, f: T -> bool, kept: seq<T>, at: seq<nat>, x: T)
    requires Keeps(s, f, kept, at)
    ensures if f(x) then Keeps(s + [x], f, kept + [x], at + [|s|]) else Keeps(s + [x], f, kept, at)
  {
    assert |s| !in at;
    if f(x) {
      forall j | 0 <= j < |s| + 1
        ensures j in at + [|s|] <==> j in at || j == |s|
      {
      }
    }
  }

  // The indices that a map sends to one value.
  ghost function Fiber<K>(m: map<nat, K>, k: K): set<nat> {
    set i | i in m && m[i] == k
  }

  lemma FiberAdded<K>(m: map<nat, K>, i: nat, k: K)
    requires i !in m
    ensures |Fiber(m[i := k], k)| == |Fiber(m, k)| + 1
    ensures forall other :: other != k ==> Fiber(m[i := k], other) == Fiber(m, other)
  {
    assert Fiber(m[i := k], k) == Fiber(m, k) + {i};
  }

  lemma FiberRemoved<K>(m: map<nat, K>, i: nat)
    requires i in m
    ensures |Fiber(m - {i}, m[i])| == |Fiber(m, m[i])| - 1
    ensures forall other :: other != m[i] ==> Fiber(m - {i}, other) == Fiber(m, other)
  {
    assert Fiber(m - {i}, m[i]) == Fiber(m, m[i]) - {i};
  }
}
