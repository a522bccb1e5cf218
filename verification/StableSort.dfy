/** The library's stable sort by a text key, given by what makes it unique. */
module StableSort {
  import opened Names

  predicate NotAbove(a: string, b: string) {
    !Less(b, a)
  }

  ghost predicate SortedBy<T>(xs: seq<T>, key: T -> string) {
    forall i, j | 0 <= i < j < |xs| :: NotAbove(key(xs[i]), key(xs[j]))
  }

  /** The elements with one key, in order. */
  function WithKey<T>(xs: seq<T>, key: T -> string, k: string): seq<T> {
    if xs == [] then []
    else if key(xs[0]) == k then [xs[0]] + WithKey(xs[1..], key, k)
    else WithKey(xs[1..], key, k)
  }

  /** Puts x behind every element that is not above it. */
  function Insert<T>(xs: seq<T>, key: T -> string, x: T): seq<T> {
    if xs == [] then [x]
    else
      var n := |xs| - 1;
      if NotAbove(key(xs[n]), key(x)) then xs + [x]
      else Insert(xs[..n], key, x) + [xs[n]]
  }

  function Sort<T>(xs: seq<T>, key: T -> string): seq<T> {
    if xs == [] then []
    else
      var n := |xs| - 1;
      Insert(Sort(xs[..n], key), key, xs[n])
  }

  lemma NotAboveTransitive(a: string, b: string, c: string)
    requires NotAbove(a, b) && NotAbove(b, c)
    ensures NotAbove(a, c)
  {
    if Less(c, a) {
      LessTotal(a, b);
      LessTotal(b, c);
      if a == b || b == c {
      } else {
        LessTransitive(b, c, a);
        LessTransitive(a, b, a);
        LessIrreflexive(a);
      }
    }
  }

  lemma {:induction false} InsertIsSorted<T>(xs: seq<T>, key: T -> string, x: T)
    requires SortedBy(xs, key)
    ensures SortedBy(Insert(xs, key, x), key)
    ensures multiset(Insert(xs, key, x)) == multiset(xs) + multiset{x}
    decreases |xs|
  {
    if xs == [] {
    } else {
      var front, last := xs[..|xs| - 1], xs[|xs| - 1];
      assert xs == front + [last];
      if NotAbove(key(last), key(x)) {
        forall i | 0 <= i < |xs| ensures NotAbove(key(xs[i]), key(x)) {
          if i < |xs| - 1 { NotAboveTransitive(key(xs[i]), key(last), key(x)); }
        }
        SortedSnoc(xs, key, x);
      } else {
        InsertIsSorted(front, key, x);
        LessAsymmetric(key(x), key(last));
        forall i | 0 <= i < |Insert(front, key, x)| ensures NotAbove(key(Insert(front, key, x)[i]), key(last)) {
          ElementOfUnion(Insert(front, key, x), front, x, i);
        }
        SortedSnoc(Insert(front, key, x), key, last);
      }
    }
  }

  lemma SortedSnoc<T>(xs: seq<T>, key: T -> string, x: T)
    requires SortedBy(xs, key) && forall i | 0 <= i < |xs| :: NotAbove(key(xs[i]), key(x))
    ensures SortedBy(xs + [x], key)
  {
  }

  lemma ElementOfUnion<T>(a: seq<T>, b: seq<T>, x: T, i: nat)
    requires multiset(a) == multiset(b) + multiset{x} && i < |a|
    ensures a[i] == x || exists j :: 0 <= j < |b| && b[j] == a[i]
  {
    assert a[i] in multiset(a);
    assert a[i] == x || a[i] in multiset(b);
  }

  lemma LessAsymmetric(a: string, b: string)
    requires Less(a, b)
    ensures !Less(b, a)
  {
    if Less(b, a) {
      LessTransitive(a, b, a);
      LessIrreflexive(a);
    }
  }

  lemma {:induction false} SortIsSorted<T>(xs: seq<T>, key: T -> string)
    ensures SortedBy(Sort(xs, key), key)
    ensures multiset(Sort(xs, key)) == multiset(xs)
    decreases |xs|
  {
    if xs == [] {
    } else {
      var n := |xs| - 1;
      assert xs == xs[..n] + [xs[n]];
      SortIsSorted(xs[..n], key);
      InsertIsSorted(Sort(xs[..n], key), key, xs[n]);
    }
  }

  lemma {:induction false} WithKeyAppend<T>(a: seq<T>, b: seq<T>, key: T -> string, k: string)
    ensures WithKey(a + b, key, k) == WithKey(a, key, k) + WithKey(b, key, k)
  {
    if a == [] {
      assert a + b == b;
    } else {
      assert (a + b)[1..] == a[1..] + b;
      WithKeyAppend(a[1..], b, key, k);
    }
  }

  lemma WithKeyOne<T>(x: T, key: T -> string, k: string)
    ensures WithKey([x], key, k) == if key(x) == k then [x] else []
  {
    assert WithKey([x][1..], key, k) == [];
  }

  lemma {:induction false} InsertIsStable<T>(xs: seq<T>, key: T -> string, x: T, k: string)
    ensures WithKey(Insert(xs, key, x), key, k) == WithKey(xs + [x], key, k)
    decreases |xs|
  {
    if xs == [] {
      assert xs + [x] == [x];
    } else {
      var n := |xs| - 1;
      if !NotAbove(key(xs[n]), key(x)) {
        LessIrreflexive(key(x));
        InsertIsStable(xs[..n], key, x, k);
        WithKeyAppend(Insert(xs[..n], key, x), [xs[n]], key, k);
        WithKeyAppend(xs[..n], [x], key, k);
        WithKeyAppend(xs, [x], key, k);
        WithKeyAppend(xs[..n], [xs[n]], key, k);
        assert xs == xs[..n] + [xs[n]];
        WithKeyOne(x, key, k);
        WithKeyOne(xs[n], key, k);
      }
    }
  }

  /** Stability: elements with equal keys keep their order. */
  lemma {:induction false} SortIsStable<T>(xs: seq<T>, key: T -> string, k: string)
    ensures WithKey(Sort(xs, key), key, k) == WithKey(xs, key, k)
    decreases |xs|
  {
    if xs == [] {
    } else {
      var n := |xs| - 1;
      SortIsStable(xs[..n], key, k);
      InsertIsStable(Sort(xs[..n], key), key, xs[n], k);
      WithKeyAppend(Sort(xs[..n], key), [xs[n]], key, k);
      WithKeyAppend(xs[..n], [xs[n]], key, k);
      assert xs == xs[..n] + [xs[n]];
    }
  }

  lemma {:induction false} WithKeyHas<T>(xs: seq<T>, key: T -> string, x: T)
    ensures x in WithKey(xs, key, key(x)) <==> x in xs
  {
    if xs == [] {
    } else {
      WithKeyHas(xs[1..], key, x);
    }
  }

  ghost predicate KeyDetermines<T(!new)>(xs: seq<T>, key: T -> string) {
    forall x, y | x in xs && y in xs && key(x) == key(y) :: x == y
  }

  lemma HeadNotAbove<T>(xs: seq<T>, key: T -> string, x: T)
    requires SortedBy(xs, key) && x in xs
    ensures NotAbove(key(xs[0]), key(x))
  {
    var i :| 0 <= i < |xs| && xs[i] == x;
    LessIrreflexive(key(x));
  }

  /** Sorted lists of the same elements are the same, if equal keys mean equal
      elements. */
  lemma {:induction false} SortedUnique<T(!new)>(a: seq<T>, b: seq<T>, key: T -> string)
    requires SortedBy(a, key) && SortedBy(b, key) && multiset(a) == multiset(b) && KeyDetermines(a, key)
    ensures a == b
    decreases |a|
  {
    if a == [] {
      assert |multiset(b)| == 0;
    } else {
      assert |multiset(a)| > 0;
      SameLeast(a, b, key);
      MultisetOfTail(a);
      MultisetOfTail(b);
      SortedUnique(a[1..], b[1..], key);
    }
  }

  lemma SameLeast<T(!new)>(a: seq<T>, b: seq<T>, key: T -> string)
    requires SortedBy(a, key) && SortedBy(b, key) && multiset(a) == multiset(b) && KeyDetermines(a, key)
    requires a != [] && b != []
    ensures a[0] == b[0]
  {
    assert a[0] in multiset(b) && b[0] in multiset(a);
    SameHeadKey(a, b, key);
  }

  lemma MultisetOfTail<T>(a: seq<T>)
    requires a != []
    ensures a == [a[0]] + a[1..] && multiset(a[1..]) == multiset(a) - multiset{a[0]}
  {
    assert a == [a[0]] + a[1..];
  }

  lemma WithKeyHead<T>(xs: seq<T>, key: T -> string)
    requires xs != []
    ensures WithKey(xs, key, key(xs[0])) == [xs[0]] + WithKey(xs[1..], key, key(xs[0]))
  {
  }

  lemma ElementElsewhere<T>(a: seq<T>, b: seq<T>, key: T -> string, x: T)
    requires x in a && WithKey(a, key, key(x)) == WithKey(b, key, key(x))
    ensures x in b
  {
    WithKeyHas(a, key, x);
    WithKeyHas(b, key, x);
  }

  lemma SameHeadKey<T>(a: seq<T>, b: seq<T>, key: T -> string)
    requires SortedBy(a, key) && SortedBy(b, key) && a != [] && b != []
    requires a[0] in b && b[0] in a
    ensures key(a[0]) == key(b[0])
  {
    HeadNotAbove(a, key, b[0]);
    HeadNotAbove(b, key, a[0]);
    LessTotal(key(a[0]), key(b[0]));
  }

  lemma SameHead<T>(a: seq<T>, b: seq<T>, key: T -> string)
    requires SortedBy(a, key) && SortedBy(b, key) && a != [] && b != []
    requires WithKey(a, key, key(a[0])) == WithKey(b, key, key(a[0]))
    requires WithKey(a, key, key(b[0])) == WithKey(b, key, key(b[0]))
    ensures a[0] == b[0]
  {
    ElementElsewhere(a, b, key, a[0]);
    ElementElsewhere(b, a, key, b[0]);
    SameHeadKey(a, b, key);
    WithKeyHead(a, key);
    WithKeyHead(b, key);
    assert WithKey(a, key, key(a[0]))[0] == a[0];
  }

  lemma WithKeyTail<T>(a: seq<T>, key: T -> string, k: string)
    requires a != []
    ensures WithKey(a[1..], key, k) == if key(a[0]) == k then WithKey(a, key, k)[1..] else WithKey(a, key, k)
  {
  }

  /** There is only one sorted and stable arrangement: every stable sort agrees. */
  lemma {:induction false} StableSortUnique<T>(a: seq<T>, b: seq<T>, key: T -> string)
    requires SortedBy(a, key) && SortedBy(b, key)
    requires forall k :: WithKey(a, key, k) == WithKey(b, key, k)
    ensures a == b
    decreases |a|
  {
    if a != [] && b != [] {
      assert WithKey(a, key, key(a[0])) == WithKey(b, key, key(a[0]));
      assert WithKey(a, key, key(b[0])) == WithKey(b, key, key(b[0]));
      SameHead(a, b, key);
      forall k ensures WithKey(a[1..], key, k) == WithKey(b[1..], key, k) {
        WithKeyTail(a, key, k);
        WithKeyTail(b, key, k);
        assert WithKey(a, key, k) == WithKey(b, key, k);
      }
      StableSortUnique(a[1..], b[1..], key);
      assert a == [a[0]] + a[1..] && b == [b[0]] + b[1..];
    } else {
      NoneMissing(a, b, key);
      NoneMissing(b, a, key);
    }
  }

  lemma NoneMissing<T>(a: seq<T>, b: seq<T>, key: T -> string)
    requires forall k :: WithKey(a, key, k) == WithKey(b, key, k)
    ensures b == [] ==> a == []
  {
    if a != [] {
      WithKeyHead(a, key);
      assert WithKey(a, key, key(a[0])) == WithKey(b, key, key(a[0]));
    }
  }

  /** The last element of a list can be taken out of a rearrangement of it. */
  lemma RemoveLast<T>(a: seq<T>, b: seq<T>) returns (j: nat)
    requires a != [] && multiset(a) == multiset(b)
    ensures j < |b| && b[j] == a[|a| - 1]
    ensures multiset(b[..j] + b[j + 1..]) == multiset(a[..|a| - 1])
    ensures b == b[..j] + [b[j]] + b[j + 1..]
  {
    var x := a[|a| - 1];
    assert a == a[..|a| - 1] + [x];
    assert x in multiset(b);
    j :| 0 <= j < |b| && b[j] == x;
    assert b == b[..j] + [x] + b[j + 1..];
    assert multiset(b) == multiset(b[..j]) + multiset{x} + multiset(b[j + 1..]);
    assert multiset(a) == multiset(a[..|a| - 1]) + multiset{x};
    assert multiset(b[..j] + b[j + 1..]) == multiset(b) - multiset{x};
  }
}
