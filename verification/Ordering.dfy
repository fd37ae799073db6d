/** Lexicographic order, and lists sorted strictly by a key. */
module Ordering {

  type Key = seq<nat>

  predicate Less(a: Key, b: Key) {
    b != [] && (a == [] || a[0] < b[0] || (a[0] == b[0] && Less(a[1..], b[1..])))
  }

  lemma {:induction false} LessAsymmetric(a: Key, b: Key)
    requires Less(a, b)
    ensures a != b && !Less(b, a)
  {
    if a == [] || a[0] != b[0] {
    } else {
      LessAsymmetric(a[1..], b[1..]);
    }
  }

  lemma {:induction false} LessTransitive(a: Key, b: Key, c: Key)
    requires Less(a, b) && Less(b, c)
    ensures Less(a, c)
  {
    if a == [] || a[0] != b[0] || b[0] != c[0] {
    } else {
      LessTransitive(a[1..], b[1..], c[1..]);
    }
  }

  lemma {:induction false} LessTotal(a: Key, b: Key)
    ensures a == b || Less(a, b) || Less(b, a)
  {
    if a == [] || b == [] || a[0] != b[0] {
    } else {
      LessTotal(a[1..], b[1..]);
      assert a == [a[0]] + a[1..] && b == [b[0]] + b[1..];
    }
  }

  /** The keys rise strictly along the list. */
  ghost predicate SortedBy<T>(key: T -> Key, items: seq<T>) {
    forall i, j :: 0 <= i < j < |items| ==> Less(key(items[i]), key(items[j]))
  }

  lemma SortedTail<T>(key: T -> Key, items: seq<T>)
    requires SortedBy(key, items) && items != []
    ensures SortedBy(key, items[1..]) && items[0] !in items[1..]
    ensures forall x :: x in items[1..] <==> x in items && x != items[0]
  {
    var rest := items[1..];
    assert items == [items[0]] + rest;
    forall i | 0 <= i < |rest|
      ensures rest[i] != items[0]
    {
      assert rest[i] == items[i + 1];
      LessAsymmetric(key(items[0]), key(items[i + 1]));
    }
    forall i, j | 0 <= i < j < |rest|
      ensures Less(key(rest[i]), key(rest[j]))
    {
      assert rest[i] == items[i + 1] && rest[j] == items[j + 1];
    }
  }

  /** The head of a sorted list has the least key. */
  lemma HeadIsLeast<T>(key: T -> Key, items: seq<T>, x: T)
    requires SortedBy(key, items) && x in items && x != items[0]
    ensures Less(key(items[0]), key(x))
  {
    var i :| 0 <= i < |items| && items[i] == x;
  }

  /** A set has one sorted list: the order determines it. */
  lemma {:induction false} SortedUnique<T>(key: T -> Key, a: seq<T>, b: seq<T>)
    requires SortedBy(key, a) && SortedBy(key, b)
    requires forall x :: x in a <==> x in b
    ensures a == b
    decreases |a|
  {
    if a == [] {
      assert forall i :: 0 <= i < |b| ==> b[i] in a;
    } else {
      assert a[0] in b;
      assert b[0] in a;
      if a[0] != b[0] {
        HeadIsLeast(key, a, b[0]);
        HeadIsLeast(key, b, a[0]);
        LessAsymmetric(key(a[0]), key(b[0]));
      } else {
        SortedTail(key, a);
        SortedTail(key, b);
        SortedUnique(key, a[1..], b[1..]);
        assert a == [a[0]] + a[1..] && b == [b[0]] + b[1..];
      }
    }
  }

  ghost predicate DistinctKeys<T(!new)>(key: T -> Key, items: set<T>) {
    forall x, y :: x in items && y in items && key(x) == key(y) ==> x == y
  }

  /** Putting an item between smaller and larger ones keeps the list sorted. */
  lemma InsertedIsSorted<T(!new)>(key: T -> Key, items: seq<T>, k: nat, x: T)
    requires SortedBy(key, items) && k <= |items|
    requires forall i :: 0 <= i < k ==> Less(key(items[i]), key(x))
    requires forall i :: k <= i < |items| ==> Less(key(x), key(items[i]))
    ensures SortedBy(key, items[..k] + [x] + items[k..])
    ensures forall y :: y in items[..k] + [x] + items[k..] <==> y in items || y == x
  {
    var r := items[..k] + [x] + items[k..];
    forall i, j | 0 <= i < j < |r|
      ensures Less(key(r[i]), key(r[j]))
    {
      assert r[i] == if i < k then items[i] else if i == k then x else items[i - 1];
      assert r[j] == if j < k then items[j] else if j == k then x else items[j - 1];
    }
    assert items == items[..k] + items[k..];
  }

  /** The list with one more item, at its place. */
  method Insert<T(!new)>(key: T -> Key, items: seq<T>, x: T) returns (r: seq<T>)
    requires SortedBy(key, items)
    requires forall y :: y in items ==> key(y) != key(x)
    ensures SortedBy(key, r)
    ensures forall y :: y in r <==> y in items || y == x
  {
    var k := 0;
    while k < |items| && Less(key(items[k]), key(x))
      invariant 0 <= k <= |items|
      invariant forall i :: 0 <= i < k ==> Less(key(items[i]), key(x))
    {
      k := k + 1;
    }
    forall i | k <= i < |items|
      ensures Less(key(x), key(items[i]))
    {
      LessTotal(key(x), key(items[k]));
      if k < i {
        LessTransitive(key(x), key(items[k]), key(items[i]));
      }
    }
    InsertedIsSorted(key, items, k, x);
    r := items[..k] + [x] + items[k..];
  }

  /** Sorts a set whose members have distinct keys. */
  method Sort<T(==, !new)>(key: T -> Key, items: set<T>) returns (r: seq<T>)
    requires DistinctKeys(key, items)
    ensures SortedBy(key, r)
    ensures forall x :: x in r <==> x in items
  {
    r := [];
    var todo := items;
    while todo != {}
      invariant todo <= items
      invariant SortedBy(key, r)
      invariant forall x :: x in r <==> x in items && x !in todo
      decreases todo
    {
      var x :| x in todo;
      r := Insert(key, r, x);
      todo := todo - {x};
    }
  }

  lemma SortedAppend<T>(key: T -> Key, items: seq<T>, x: T)
    requires SortedBy(key, items)
    requires forall i :: 0 <= i < |items| ==> Less(key(items[i]), key(x))
    ensures SortedBy(key, items + [x])
  {
  }

  // ---- stable sorting --------------------------------------------------------------------

  /** The keys never fall along the list. */
  ghost predicate WeaklySortedBy<T>(key: T -> Key, items: seq<T>) {
    forall i, j :: 0 <= i < j < |items| ==> !Less(key(items[j]), key(items[i]))
  }

  /** The list with one more item, behind everything that is not greater. */
  function Placed<T>(key: T -> Key, items: seq<T>, x: T): (r: seq<T>)
    ensures multiset(r) == multiset(items) + multiset{x}
  {
    if items == [] || Less(key(x), key(items[0])) then [x] + items
    else
      assert items == [items[0]] + items[1..];
      [items[0]] + Placed(key, items[1..], x)
  }

  /** The list sorted by key, items of one key in their old order. */
  function StableSorted<T>(key: T -> Key, items: seq<T>): (r: seq<T>)
    ensures multiset(r) == multiset(items)
  {
    if items == [] then []
    else
      var n := |items| - 1;
      assert items == items[..n] + [items[n]];
      Placed(key, StableSorted(key, items[..n]), items[n])
  }

  lemma StableSortedMembers<T>(key: T -> Key, items: seq<T>, x: T)
    ensures x in StableSorted(key, items) <==> x in items
  {
    assert x in StableSorted(key, items) <==> x in multiset(StableSorted(key, items));
    assert x in items <==> x in multiset(items);
  }

  /** The items with this key, in their order. */
  function WithKey<T>(key: T -> Key, items: seq<T>, k: Key): seq<T> {
    if items == [] then []
    else (if key(items[0]) == k then [items[0]] else []) + WithKey(key, items[1..], k)
  }

  lemma {:induction false} WithKeyAppend<T>(key: T -> Key, items: seq<T>, x: T, k: Key)
    ensures WithKey(key, items + [x], k) == WithKey(key, items, k) + (if key(x) == k then [x] else [])
  {
    if items == [] {
      assert items + [x] == [x] && [x][1..] == [];
    } else {
      var head := if key(items[0]) == k then [items[0]] else [];
      var longer := items + [x];
      assert longer[0] == items[0] && longer[1..] == items[1..] + [x];
      WithKeyAppend(key, items[1..], x, k);
      assert WithKey(key, longer, k) == head + WithKey(key, longer[1..], k);
    }
  }

  lemma {:induction false} NoneWithKey<T>(key: T -> Key, items: seq<T>, k: Key)
    requires forall i :: 0 <= i < |items| ==> key(items[i]) != k
    ensures WithKey(key, items, k) == []
  {
    if items == [] {
    } else {
      NoneWithKey(key, items[1..], k);
    }
  }

  lemma {:induction false} PlacedIsStable<T>(key: T -> Key, items: seq<T>, x: T, k: Key)
    requires WeaklySortedBy(key, items)
    ensures WithKey(key, Placed(key, items, x), k) == WithKey(key, items, k) + (if key(x) == k then [x] else [])
  {
    if items == [] || Less(key(x), key(items[0])) {
      assert ([x] + items)[1..] == items;
      if key(x) == k {
        forall i | 0 <= i < |items|
          ensures key(items[i]) != k
        {
          LessAsymmetric(key(x), key(items[0]));
        }
        NoneWithKey(key, items, k);
      }
    } else {
      PlacedIsStable(key, items[1..], x, k);
      assert ([items[0]] + Placed(key, items[1..], x))[1..] == Placed(key, items[1..], x);
    }
  }

  lemma {:induction false} PlacedIsSorted<T>(key: T -> Key, items: seq<T>, x: T)
    requires WeaklySortedBy(key, items)
    ensures WeaklySortedBy(key, Placed(key, items, x))
  {
    var r := Placed(key, items, x);
    if items == [] {
    } else if Less(key(x), key(items[0])) {
      forall i | 0 <= i < |items|
        ensures !Less(key(items[i]), key(x))
      {
        if Less(key(items[i]), key(x)) {
          LessTransitive(key(items[i]), key(x), key(items[0]));
          LessAsymmetric(key(items[i]), key(items[0]));
        }
      }
    } else {
      var rest := Placed(key, items[1..], x);
      PlacedIsSorted(key, items[1..], x);
      forall i | 0 <= i < |rest|
        ensures !Less(key(rest[i]), key(items[0]))
      {
        assert rest[i] in multiset(rest);
        assert rest[i] == x || rest[i] in items[1..];
      }
    }
  }

  /** The result rises by key. */
  lemma {:induction false} StableSortedIsSorted<T>(key: T -> Key, items: seq<T>)
    ensures WeaklySortedBy(key, StableSorted(key, items))
    decreases |items|
  {
    if items == [] {
    } else {
      var n := |items| - 1;
      StableSortedIsSorted(key, items[..n]);
      PlacedIsSorted(key, StableSorted(key, items[..n]), items[n]);
    }
  }

  lemma SortedWithOneMore<T>(key: T -> Key, items: seq<T>, x: T)
    ensures StableSorted(key, items + [x]) == Placed(key, StableSorted(key, items), x)
  {
    assert (items + [x])[..|items|] == items;
  }

  /** The result keeps the order of items with one key. */
  lemma {:induction false} StableSortedIsStable<T>(key: T -> Key, items: seq<T>, k: Key)
    ensures WithKey(key, StableSorted(key, items), k) == WithKey(key, items, k)
    decreases |items|
  {
    if items == [] {
    } else {
      var n := |items| - 1;
      var init, last := items[..n], items[n];
      assert items == init + [last];
      StableSortedIsSorted(key, init);
      StableSortedIsStable(key, init, k);
      SortedWithOneMore(key, init, last);
      PlacedIsStable(key, StableSorted(key, init), last, k);
      WithKeyAppend(key, init, last, k);
    }
  }

  /** A string orders by its character codes. */
  function Codes(s: string): (k: Key)
    ensures |k| == |s|
    ensures forall i :: 0 <= i < |s| ==> k[i] == s[i] as nat
  {
    seq(|s|, i requires 0 <= i < |s| => s[i] as nat)
  }

  lemma CodesInjective(s: string, t: string)
    requires Codes(s) == Codes(t)
    ensures s == t
  {
    assert |s| == |t|;
    forall i | 0 <= i < |s|
      ensures s[i] == t[i]
    {
      assert Codes(s)[i] == Codes(t)[i];
    }
  }
}
