/** Facts about sequences, multisets and orders of map iteration that several components share. */
module Sequences {
  import opened GoResult

  ghost predicate Distinct<T(!new)>(s: seq<T>) {
    forall i, j :: 0 <= i < j < |s| ==> s[i] != s[j]
  }

  function Count<T(==)>(s: seq<T>, x: T): nat {
    if s == [] then 0 else Count(s[..|s| - 1], x) + if s[|s| - 1] == x then 1 else 0
  }

  function Repeat<T>(x: T, n: nat): seq<T> {
    if n == 0 then [] else Repeat(x, n - 1) + [x]
  }

  /** The last element that satisfies `hit`. */
  function FindLast<T>(s: seq<T>, hit: T -> bool): Option<T> {
    if s == [] then None
    else if hit(s[|s| - 1]) then Some(s[|s| - 1])
    else FindLast(s[..|s| - 1], hit)
  }

  /** `i` is the last index whose element satisfies `hit`. */
  ghost predicate LastHit<T>(s: seq<T>, hit: T -> bool, i: int) {
    0 <= i < |s| && hit(s[i]) && forall j :: i < j < |s| ==> !hit(s[j])
  }

  lemma {:induction false} FindLastMeaning<T(!new)>(s: seq<T>, hit: T -> bool)
    ensures FindLast(s, hit).Some? <==> exists i :: 0 <= i < |s| && hit(s[i])
    ensures FindLast(s, hit).Some? ==> exists i :: LastHit(s, hit, i) && FindLast(s, hit) == Some(s[i])
    ensures forall i :: LastHit(s, hit, i) ==> FindLast(s, hit) == Some(s[i])
  {
    if s == [] {
    } else if hit(s[|s| - 1]) {
      assert LastHit(s, hit, |s| - 1);
    } else {
      var front := s[..|s| - 1];
      assert forall j :: 0 <= j < |front| ==> front[j] == s[j];
      FindLastMeaning(front, hit);
      forall i ensures LastHit(s, hit, i) <==> LastHit(front, hit, i) {
      }
    }
  }

  /** The integers below `n`, in order. */
  function UpTo(n: nat): seq<int> {
    if n == 0 then [] else UpTo(n - 1) + [n - 1]
  }

  lemma UpToNext(before: seq<int>, n: nat)
    ensures before + UpTo(n + 1) == before + UpTo(n) + [n]
  {
  }

  /** `r` lists the values of `m`, one per key, in some order: what a Go `range` over a map visits. */
  ghost predicate Enumerates<K(!new), V(!new)>(r: seq<V>, m: map<K, V>) {
    exists order: seq<K> :: EnumeratesAs(r, m, order)
  }

  ghost predicate EnumeratesAs<K(!new), V(!new)>(r: seq<V>, m: map<K, V>, order: seq<K>) {
    && Distinct(order)
    && |order| == |r|
    && (forall k :: k in order <==> k in m)
    && forall i :: 0 <= i < |r| ==> r[i] == m[order[i]]
  }

  lemma {:induction false} CountIsMultiplicity<T>(s: seq<T>, x: T)
    ensures Count(s, x) == multiset(s)[x]
  {
    if s == [] {
    } else {
      CountIsMultiplicity(s[..|s| - 1], x);
      assert s == s[..|s| - 1] + [s[|s| - 1]];
    }
  }

  lemma {:induction false} DistinctCount<T(!new)>(s: seq<T>, x: T)
    requires Distinct(s)
    ensures multiset(s)[x] == if x in s then 1 else 0
  {
    if s == [] {
    } else {
      var front, last := s[..|s| - 1], s[|s| - 1];
      DistinctCount(front, x);
      assert s == front + [last];
      assert last !in front;
    }
  }

  lemma DistinctConcat<T(!new)>(a: seq<T>, b: seq<T>)
    requires Distinct(a) && Distinct(b)
    requires forall x :: x in b ==> x !in a
    ensures Distinct(a + b)
  {
    forall i, j | 0 <= i < |a| <= j < |a + b| ensures (a + b)[i] != (a + b)[j] {
      assert b[j - |a|] in b;
    }
  }

  /** Two duplicate-free lists with the same elements are permutations of each other. */
  lemma SameElements<T(!new)>(a: seq<T>, b: seq<T>)
    requires Distinct(a) && Distinct(b)
    requires forall x :: x in a <==> x in b
    ensures multiset(a) == multiset(b)
  {
    forall x ensures multiset(a)[x] == multiset(b)[x] {
      DistinctCount(a, x);
      DistinctCount(b, x);
    }
  }

  lemma RemoveAt<T>(s: seq<T>, i: nat)
    requires i < |s|
    ensures multiset(s[..i] + s[i + 1..]) == multiset(s) - multiset{s[i]}
  {
    assert s == s[..i] + [s[i]] + s[i + 1..];
  }

  /** Permutations have the same length. */
  lemma PermutationLength<T>(a: seq<T>, b: seq<T>)
    requires multiset(a) == multiset(b)
    ensures |a| == |b|
  {
    assert |multiset(a)| == |a|;
    assert |multiset(b)| == |b|;
  }

  /** Takes the first element of one permutation out of the other. */
  lemma PermutationSplit<T>(a: seq<T>, b: seq<T>) returns (i: nat)
    requires a != [] && multiset(a) == multiset(b)
    ensures i < |b| && b[i] == a[0]
    ensures multiset(a[1..]) == multiset(b[..i] + b[i + 1..])
  {
    assert a[0] in multiset(b);
    i :| 0 <= i < |b| && b[i] == a[0];
    RemoveAt(b, i);
    assert a == [a[0]] + a[1..];
    assert multiset(a) == multiset{a[0]} + multiset(a[1..]);
  }

  lemma DropAt<K(!new), V(!new)>(a: seq<V>, m: map<K, V>, order: seq<K>, i: nat, restA: seq<V>, rest: seq<K>)
    requires EnumeratesAs(a, m, order) && i < |a|
    requires restA == a[..i] + a[i + 1..] && rest == order[..i] + order[i + 1..]
    ensures EnumeratesAs(restA, m - {order[i]}, rest)
  {
    forall k ensures k in rest <==> k in order && k != order[i] {
      if k in order && k != order[i] {
        var j :| 0 <= j < |order| && order[j] == k;
        assert rest[if j < i then j else j - 1] == k;
      }
    }
  }

  lemma PutBack<T>(a: seq<T>, i: nat, restA: seq<T>, b: seq<T>, j: nat, restB: seq<T>)
    requires i < |a| && j < |b| && a[i] == b[j]
    requires restA == a[..i] + a[i + 1..] && restB == b[..j] + b[j + 1..]
    requires multiset(restA) == multiset(restB)
    ensures multiset(a) == multiset(b)
  {
    assert a == a[..i] + [a[i]] + a[i + 1..];
    assert b == b[..j] + [b[j]] + b[j + 1..];
    assert multiset(a) == multiset(restA) + multiset{a[i]};
    assert multiset(b) == multiset(restB) + multiset{b[j]};
  }

  lemma SameKey<K(!new), V(!new)>(a: seq<V>, orderA: seq<K>, b: seq<V>, orderB: seq<K>, m: map<K, V>) returns (i: nat)
    requires EnumeratesAs(a, m, orderA) && EnumeratesAs(b, m, orderB) && a != []
    ensures i < |b| && orderB[i] == orderA[0] && b[i] == a[0]
  {
    assert orderA[0] in m;
    assert orderA[0] in orderB;
    i :| 0 <= i < |orderB| && orderB[i] == orderA[0];
  }

  lemma {:induction false} OrdersAgree<K(!new), V(!new)>(a: seq<V>, orderA: seq<K>, b: seq<V>, orderB: seq<K>,
                                                         m: map<K, V>)
    requires EnumeratesAs(a, m, orderA) && EnumeratesAs(b, m, orderB)
    ensures multiset(a) == multiset(b)
    decreases |a|
  {
    if a == [] {
      SameElements(orderA, orderB);
      PermutationLength(orderA, orderB);
    } else {
      var i := SameKey(a, orderA, b, orderB, m);
      var restA, restB := a[1..], b[..i] + b[i + 1..];
      var keysA, keysB := orderA[1..], orderB[..i] + orderB[i + 1..];
      DropAt(a, m, orderA, 0, restA, keysA);
      DropAt(b, m, orderB, i, restB, keysB);
      OrdersAgree(restA, keysA, restB, keysB, m - {orderA[0]});
      PutBack(a, 0, restA, b, i, restB);
    }
  }

  /** Two enumerations of one map are permutations of each other. */
  lemma EnumerationsAgree<K(!new), V(!new)>(a: seq<V>, b: seq<V>, m: map<K, V>)
    requires Enumerates(a, m) && Enumerates(b, m)
    ensures multiset(a) == multiset(b)
  {
    var orderA: seq<K> :| EnumeratesAs(a, m, orderA);
    var orderB: seq<K> :| EnumeratesAs(b, m, orderB);
    OrdersAgree(a, orderA, b, orderB, m);
  }
}
