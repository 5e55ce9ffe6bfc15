/** Walking a map in an arbitrary order, sorting, and order statistics. */
module Ordering {

  /* ---- Walking the keys of a map ---- */

  ghost predicate NoDup<T(!new)>(s: seq<T>) {
    forall i, j :: 0 <= i < j < |s| ==> s[i] != s[j]
  }

  /** `ks` lists each element of `keys` once: one of the orders in which Go may range over
      a map with these keys. */
  ghost predicate IsOrderOf<T(!new)>(ks: seq<T>, keys: set<T>) {
    NoDup(ks) && (forall k :: k in ks <==> k in keys)
  }

  /** One order, chosen once and for all. */
  ghost function Order<T(!new)>(keys: set<T>): (ks: seq<T>)
    ensures IsOrderOf(ks, keys)
  {
    if keys == {} then []
    else var k :| k in keys; [k] + Order(keys - {k})
  }

  /** Extending a walk by a key that was not visited yet. */
  lemma OrderExtends<T(!new)>(ks: seq<T>, keys: set<T>, k: T)
    requires IsOrderOf(ks, keys) && k !in keys
    ensures IsOrderOf(ks + [k], keys + {k})
  {
  }

  function Lookup<K, V>(m: map<K, V>, ks: seq<K>): seq<V>
    requires forall k :: k in ks ==> k in m
  {
    seq(|ks|, i requires 0 <= i < |ks| => assert ks[i] in ks; m[ks[i]])
  }

  lemma LookupSnoc<K, V>(m: map<K, V>, ks: seq<K>, k: K)
    requires k in m && forall j :: j in ks ==> j in m
    ensures Lookup(m, ks + [k]) == Lookup(m, ks) + [m[k]]
  {
  }

  lemma {:induction false} OrderIsMultisetOfKeys<T(!new)>(ks: seq<T>, keys: set<T>)
    requires IsOrderOf(ks, keys)
    ensures multiset(ks) == multiset(keys)
    ensures |ks| == |keys|
  {
    if ks == [] {
      assert keys == {};
    } else {
      var rest := ks[1..];
      assert ks == [ks[0]] + rest;
      forall k ensures k in rest <==> k in keys - {ks[0]} {
        if k in rest { var i :| 0 <= i < |rest| && rest[i] == k; assert ks[i + 1] == k; }
      }
      OrderIsMultisetOfKeys(rest, keys - {ks[0]});
      assert keys == (keys - {ks[0]}) + {ks[0]};
    }
  }

  function Without<T>(s: seq<T>, j: nat): seq<T>
    requires j < |s|
  {
    s[..j] + s[j + 1..]
  }

  lemma WithoutHead<T>(s: seq<T>)
    requires s != []
    ensures Without(s, 0) == s[1..]
  {
  }

  lemma WithoutTail<T>(s: seq<T>, j: nat)
    requires 0 < j < |s|
    ensures s == [s[0]] + s[1..]
    ensures Without(s, j) == [s[0]] + Without(s[1..], j - 1)
  {
  }

  /** Two sequences with the same elements: the first element of one can be dropped from
      the other. */
  lemma SplitAt<T>(a: seq<T>, b: seq<T>) returns (j: nat)
    requires multiset(a) == multiset(b) && a != []
    ensures j < |b| && b[j] == a[0]
    ensures multiset(a[1..]) == multiset(Without(b, j))
  {
    assert a[0] in multiset(a);
    assert a[0] in b;
    j :| 0 <= j < |b| && b[j] == a[0];
    assert a == [a[0]] + a[1..];
    assert b == b[..j] + [b[j]] + b[j + 1..];
    assert multiset(a[1..]) == multiset(a) - multiset{a[0]};
  }

  lemma LookupWithout<K, V>(m: map<K, V>, b: seq<K>, j: nat)
    requires j < |b| && forall k :: k in b ==> k in m
    ensures forall k :: k in Without(b, j) ==> k in m
    ensures multiset(Lookup(m, b)) == multiset{m[b[j]]} + multiset(Lookup(m, Without(b, j)))
  {
    var u, v := Lookup(m, b[..j]), Lookup(m, b[j + 1..]);
    assert Lookup(m, Without(b, j)) == u + v;
    assert Lookup(m, b) == u + [m[b[j]]] + v;
  }

  lemma {:induction false} LookupPermutation<K, V>(m: map<K, V>, a: seq<K>, b: seq<K>)
    requires multiset(a) == multiset(b)
    requires forall k :: k in a ==> k in m
    requires forall k :: k in b ==> k in m
    ensures multiset(Lookup(m, a)) == multiset(Lookup(m, b))
  {
    if a == [] {
      assert |multiset(a)| == |multiset(b)|;
    } else {
      var j := SplitAt(a, b);
      LookupPermutation(m, a[1..], Without(b, j));
      assert Lookup(m, a) == [m[a[0]]] + Lookup(m, a[1..]);
      LookupWithout(m, b, j);
    }
  }

  /** The values met on two walks over the same map are the same multiset. */
  lemma WalksAgree<K(!new), V>(m: map<K, V>, a: seq<K>, b: seq<K>)
    requires IsOrderOf(a, m.Keys) && IsOrderOf(b, m.Keys)
    ensures multiset(Lookup(m, a)) == multiset(Lookup(m, b))
    ensures |a| == |b| == |m|
  {
    OrderIsMultisetOfKeys(a, m.Keys);
    OrderIsMultisetOfKeys(b, m.Keys);
    assert |m| == |m.Keys|;
    LookupPermutation(m, a, b);
  }

  /** The values of a map, along the chosen order. */
  ghost function Values<K(!new), V>(m: map<K, V>): (s: seq<V>)
    ensures |s| == |m|
  {
    OrderIsMultisetOfKeys(Order(m.Keys), m.Keys);
    assert |m| == |m.Keys|;
    Lookup(m, Order(m.Keys))
  }

  /* ---- The last of several ---- */

  /** Position `i` is the last one at which `k` stands. */
  ghost predicate IsLastAt<K(!new)>(keys: seq<K>, k: K, i: int) {
    0 <= i < |keys| && keys[i] == k && forall j :: i < j < |keys| ==> keys[j] != k
  }

  lemma LastAtSnoc<K(!new)>(front: seq<K>, x: K, k: K, i: int)
    ensures IsLastAt(front + [x], k, i) <==> if x == k then i == |front| else IsLastAt(front, k, i)
    ensures IsLastAt(front, k, i) ==> 0 <= i < |front|
  {
    var keys := front + [x];
    assert keys[|front|] == x;
    assert forall j :: 0 <= j < |front| ==> keys[j] == front[j];
  }

  /** A map built from a list, entry by entry, in which later entries overwrite earlier ones. */
  ghost predicate LastWins<K(!new), V(!new)>(m: map<K, V>, keys: seq<K>, values: seq<V>)
    requires |keys| == |values|
  {
    (forall k :: k in m <==> exists i :: IsLastAt(keys, k, i)) &&
    (forall k, i :: IsLastAt(keys, k, i) ==> k in m && m[k] == values[i])
  }

  lemma LastWinsSnoc<K(!new), V(!new)>(m: map<K, V>, keys: seq<K>, values: seq<V>, x: K, v: V)
    requires |keys| == |values| && LastWins(m, keys, values)
    ensures LastWins(m[x := v], keys + [x], values + [v])
  {
    var n := m[x := v];
    LastAtSnoc(keys, x, x, |keys|);
    forall k, i | IsLastAt(keys + [x], k, i) ensures k in n && n[k] == (values + [v])[i] {
      LastAtSnoc(keys, x, k, i);
    }
    forall k | k in n ensures exists i :: IsLastAt(keys + [x], k, i) {
      if k != x {
        var i :| IsLastAt(keys, k, i);
        LastAtSnoc(keys, x, k, i);
      }
    }
  }

  lemma NothingListed<K(!new), V(!new)>()
    ensures LastWins<K, V>(map[], [], [])
  {
  }

  /* ---- Sorting ---- */

  ghost predicate IsSorted(s: seq<int>) {
    forall i, j :: 0 <= i <= j < |s| ==> s[i] <= s[j]
  }

  function Insert(x: int, s: seq<int>): (r: seq<int>)
    ensures |r| == |s| + 1
  {
    if s == [] || x <= s[0] then [x] + s else [s[0]] + Insert(x, s[1..])
  }

  function Sorted(s: seq<int>): (r: seq<int>)
    ensures |r| == |s|
  {
    if s == [] then [] else Insert(s[0], Sorted(s[1..]))
  }

  lemma {:induction false} InsertElements(x: int, s: seq<int>)
    ensures multiset(Insert(x, s)) == multiset{x} + multiset(s)
  {
    if s == [] || x <= s[0] {
    } else {
      InsertElements(x, s[1..]);
      assert s == [s[0]] + s[1..];
    }
  }

  lemma {:induction false} InsertSorts(x: int, s: seq<int>)
    requires IsSorted(s)
    ensures IsSorted(Insert(x, s))
  {
    if s == [] || x <= s[0] {
    } else {
      var t := Insert(x, s[1..]);
      InsertSorts(x, s[1..]);
      InsertElements(x, s[1..]);
      forall i | 0 <= i < |t| ensures s[0] <= t[i] {
        assert t[i] in multiset(t);
        assert t[i] == x || t[i] in multiset(s[1..]);
      }
    }
  }

  lemma {:induction false} SortedSorts(s: seq<int>)
    ensures IsSorted(Sorted(s)) && multiset(Sorted(s)) == multiset(s)
  {
    if s == [] {
    } else {
      SortedSorts(s[1..]);
      InsertSorts(s[0], Sorted(s[1..]));
      InsertElements(s[0], Sorted(s[1..]));
      assert s == [s[0]] + s[1..];
    }
  }

  lemma HeadIsLeast(a: seq<int>, x: int)
    requires IsSorted(a) && x in a
    ensures a != [] && a[0] <= x
  {
  }

  lemma TailMultiset(a: seq<int>)
    requires a != []
    ensures multiset(a[1..]) == multiset(a) - multiset{a[0]}
    ensures a == [a[0]] + a[1..]
  {
    assert a == [a[0]] + a[1..];
  }

  lemma SameElements(a: seq<int>, b: seq<int>, x: int)
    requires multiset(a) == multiset(b) && x in a
    ensures x in b
  {
    assert x in multiset(a);
  }

  lemma SameHeads(a: seq<int>, b: seq<int>)
    requires IsSorted(a) && IsSorted(b) && multiset(a) == multiset(b) && a != []
    ensures b != [] && a[0] == b[0]
  {
    SameElements(a, b, a[0]);
    SameElements(b, a, b[0]);
    HeadIsLeast(a, b[0]);
    HeadIsLeast(b, a[0]);
  }

  lemma SameTails(a: seq<int>, b: seq<int>)
    requires multiset(a) == multiset(b) && a != [] && b != [] && a[0] == b[0]
    ensures multiset(a[1..]) == multiset(b[1..])
    ensures a[1..] == b[1..] ==> a == b
  {
    TailMultiset(a);
    TailMultiset(b);
  }

  lemma TailSorted(a: seq<int>)
    requires IsSorted(a) && a != []
    ensures IsSorted(a[1..])
  {
  }

  lemma {:induction false} SortedIsUnique(a: seq<int>, b: seq<int>)
    requires IsSorted(a) && IsSorted(b) && multiset(a) == multiset(b)
    ensures a == b
  {
    hide *;
    if a != [] {
      SameHeads(a, b);
      SameTails(a, b);
      TailSorted(a);
      TailSorted(b);
      SortedIsUnique(a[1..], b[1..]);
    } else {
      assert |multiset(a)| == |multiset(b)|;
    }
  }

  lemma SortedOfPermutation(a: seq<int>, b: seq<int>)
    requires multiset(a) == multiset(b)
    ensures Sorted(a) == Sorted(b)
  {
    SortedSorts(a);
    SortedSorts(b);
    SortedIsUnique(Sorted(a), Sorted(b));
  }

  /** An element of the sorted sequence is an element of the sequence. */
  lemma SortedMember(s: seq<int>, k: nat)
    requires k < |s|
    ensures Sorted(s)[k] in s
  {
    SortedSorts(s);
    assert Sorted(s)[k] in multiset(Sorted(s));
  }

  function Map(f: int -> int, s: seq<int>): seq<int> {
    seq(|s|, i requires 0 <= i < |s| => f(s[i]))
  }

  lemma {:induction false} MapPermutation(f: int -> int, a: seq<int>, b: seq<int>)
    requires multiset(a) == multiset(b)
    ensures multiset(Map(f, a)) == multiset(Map(f, b))
  {
    if a == [] {
      assert |multiset(a)| == |multiset(b)|;
    } else {
      var j := SplitAt(a, b);
      MapPermutation(f, a[1..], Without(b, j));
      assert Map(f, a) == [f(a[0])] + Map(f, a[1..]);
      assert Map(f, Without(b, j)) == Map(f, b[..j]) + Map(f, b[j + 1..]);
      assert Map(f, b) == Map(f, b[..j]) + [f(b[j])] + Map(f, b[j + 1..]);
    }
  }

  ghost predicate Within(s: seq<int>, lo: int, hi: int) {
    forall i :: 0 <= i < |s| ==> lo <= s[i] <= hi
  }

  ghost predicate Nondecreasing(f: int -> int, lo: int, hi: int) {
    forall x, y :: lo <= x <= y <= hi ==> f(x) <= f(y)
  }

  lemma SortedWithin(s: seq<int>, lo: int, hi: int)
    requires Within(s, lo, hi)
    ensures Within(Sorted(s), lo, hi)
  {
    forall k | 0 <= k < |Sorted(s)| ensures lo <= Sorted(s)[k] <= hi {
      SortedSorts(s);
      SortedMember(s, k);
      var j :| 0 <= j < |s| && s[j] == Sorted(s)[k];
    }
  }

  /** Sorting commutes with a nondecreasing map. */
  lemma SortedCommutes(f: int -> int, s: seq<int>, lo: int, hi: int)
    requires Within(s, lo, hi) && Nondecreasing(f, lo, hi)
    ensures Sorted(Map(f, s)) == Map(f, Sorted(s))
  {
    SortedSorts(s);
    SortedSorts(Map(f, s));
    MapPermutation(f, s, Sorted(s));
    var t := Sorted(s);
    SortedWithin(s, lo, hi);
    assert IsSorted(Map(f, t));
    SortedIsUnique(Sorted(Map(f, s)), Map(f, t));
  }

  /** sort.Slice with `<` on integers: the array is sorted in place. */
  method SortSlice(a: array<int>)
    modifies a
    ensures a[..] == Sorted(old(a[..]))
  {
    var t := Sorted(a[..]);
    SortedSorts(a[..]);
    forall i | 0 <= i < a.Length { a[i] := t[i]; }
  }
}
