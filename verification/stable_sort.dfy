/** Python's `sorted(items, key=..., reverse=...)` on real-valued keys.  The
    sort is stable in both directions: with `reverse=True` the keys come out
    descending but items with equal keys keep their input order (it is not
    the ascending result reversed).  Each item is tagged with its key and
    its input position; the output order is then a strict total order on
    the tags, and `SortIsTheOrderedPermutation` shows the output is the one
    permutation of the input in that order. */
module StableSort {

  /** An item with its sort key and its position in the input. */
  datatype Keyed<T> = Keyed(key: real, pos: nat, item: T)

  /** `a` comes out before `b`: by key, descending when reversed, and by
      input position between equal keys. */
  predicate Before<T>(a: Keyed<T>, b: Keyed<T>, descending: bool) {
    if a.key == b.key then a.pos < b.pos
    else if descending then a.key > b.key
    else a.key < b.key
  }

  predicate Ordered<T>(s: seq<Keyed<T>>, descending: bool) {
    forall i, j :: 0 <= i < j < |s| ==> Before(s[i], s[j], descending)
  }

  /** No two tags share an input position. */
  predicate DistinctPositions<T>(s: seq<Keyed<T>>) {
    forall i, j :: 0 <= i < j < |s| ==> s[i].pos != s[j].pos
  }

  /** The items tagged with their keys and positions `from`, `from + 1`, ... */
  function Tag<T>(keys: seq<real>, items: seq<T>, from: nat): (r: seq<Keyed<T>>)
    requires |keys| == |items|
    ensures |r| == |items|
    ensures forall k :: 0 <= k < |r| ==> r[k] == Keyed(keys[k], from + k, items[k])
    decreases |items|
  {
    if |items| == 0 then []
    else [Keyed(keys[0], from, items[0])] + Tag(keys[1..], items[1..], from + 1)
  }

  function Items<T>(s: seq<Keyed<T>>): (r: seq<T>)
    ensures |r| == |s|
    ensures forall k :: 0 <= k < |s| ==> r[k] == s[k].item
  {
    if |s| == 0 then [] else [s[0].item] + Items(s[1..])
  }

  lemma TagItems<T>(keys: seq<real>, items: seq<T>, from: nat)
    requires |keys| == |items|
    ensures Items(Tag(keys, items, from)) == items
  {
  }

  // ---------------------------------------------------------------------------
  // Insertion sort on the tags
  // ---------------------------------------------------------------------------

  function Insert<T>(x: Keyed<T>, s: seq<Keyed<T>>, descending: bool): (r: seq<Keyed<T>>)
    ensures |r| == |s| + 1
  {
    if |s| == 0 || Before(x, s[0], descending) then [x] + s
    else [s[0]] + Insert(x, s[1..], descending)
  }

  function Sort<T>(s: seq<Keyed<T>>, descending: bool): (r: seq<Keyed<T>>)
    ensures |r| == |s|
  {
    if |s| == 0 then [] else Insert(s[0], Sort(s[1..], descending), descending)
  }

  /** Inserting adds exactly the one tag, and its item. */
  lemma {:induction false} InsertPermutes<T>(x: Keyed<T>, s: seq<Keyed<T>>, descending: bool)
    ensures multiset(Insert(x, s, descending)) == multiset(s) + multiset{x}
    decreases |s|
  {
    if |s| > 0 && !Before(x, s[0], descending) {
      InsertPermutes(x, s[1..], descending);
      assert s == [s[0]] + s[1..];
    }
  }

  lemma {:induction false} InsertPermutesItems<T>(x: Keyed<T>, s: seq<Keyed<T>>, descending: bool)
    ensures multiset(Items(Insert(x, s, descending))) == multiset(Items(s)) + multiset{x.item}
    decreases |s|
  {
    if |s| > 0 && !Before(x, s[0], descending) {
      var rest := Insert(x, s[1..], descending);
      InsertPermutesItems(x, s[1..], descending);
      assert Items(s) == [s[0].item] + Items(s[1..]);
      assert Items([s[0]] + rest) == [s[0].item] + Items(rest);
    } else {
      assert Items([x] + s) == [x.item] + Items(s);
    }
  }

  /** Sorting rearranges the tags, and so the items, without adding or
      dropping any. */
  lemma {:induction false} SortPermutes<T>(s: seq<Keyed<T>>, descending: bool)
    ensures multiset(Sort(s, descending)) == multiset(s)
    decreases |s|
  {
    if |s| > 0 {
      SortPermutes(s[1..], descending);
      InsertPermutes(s[0], Sort(s[1..], descending), descending);
      assert s == [s[0]] + s[1..];
    }
  }

  lemma {:induction false} SortPermutesItems<T>(s: seq<Keyed<T>>, descending: bool)
    ensures multiset(Items(Sort(s, descending))) == multiset(Items(s))
    decreases |s|
  {
    if |s| > 0 {
      SortPermutesItems(s[1..], descending);
      InsertPermutesItems(s[0], Sort(s[1..], descending), descending);
      assert Items(s) == [s[0].item] + Items(s[1..]);
    }
  }

  /** `sorted(items, key=..., reverse=descending)` with the keys given. */
  function SortedBy<T>(items: seq<T>, keys: seq<real>, descending: bool): (r: seq<T>)
    requires |keys| == |items|
    ensures |r| == |items|
    ensures multiset(r) == multiset(items)
  {
    TagItems(keys, items, 0);
    SortPermutesItems(Tag(keys, items, 0), descending);
    Items(Sort(Tag(keys, items, 0), descending))
  }

  // ---------------------------------------------------------------------------
  // The sort puts the tags in order
  // ---------------------------------------------------------------------------

  lemma BeforeTransitive<T>(a: Keyed<T>, b: Keyed<T>, c: Keyed<T>, descending: bool)
    requires Before(a, b, descending) && Before(b, c, descending)
    ensures Before(a, c, descending)
  {
  }

  lemma BeforeAsymmetric<T>(a: Keyed<T>, b: Keyed<T>, descending: bool)
    ensures !(Before(a, b, descending) && Before(b, a, descending))
  {
  }

  lemma {:induction false} InsertOrdered<T>(x: Keyed<T>, s: seq<Keyed<T>>, descending: bool)
    requires Ordered(s, descending)
    requires forall k :: 0 <= k < |s| ==> s[k].pos != x.pos
    ensures Ordered(Insert(x, s, descending), descending)
    decreases |s|
  {
    if |s| == 0 || Before(x, s[0], descending) {
      var r := [x] + s;
      forall i, j | 0 <= i < j < |r| ensures Before(r[i], r[j], descending) {
        if i == 0 && j > 1 {
          BeforeTransitive(x, s[0], s[j - 1], descending);
        }
      }
    } else {
      var tail := s[1..];
      InsertOrdered(x, tail, descending);
      HeadPrecedesInsert(x, s, descending);
      ConsOrdered(s[0], Insert(x, tail, descending), descending);
    }
  }

  /** When `x` goes after the head of `s`, the head precedes everything the
      insertion into the tail yields. */
  lemma HeadPrecedesInsert<T>(x: Keyed<T>, s: seq<Keyed<T>>, descending: bool)
    requires Ordered(s, descending) && |s| > 0 && !Before(x, s[0], descending)
    requires s[0].pos != x.pos
    ensures forall y :: y in Insert(x, s[1..], descending) ==> Before(s[0], y, descending)
  {
    var tail := s[1..];
    var rest := Insert(x, tail, descending);
    InsertPermutes(x, tail, descending);
    assert Before(s[0], x, descending);
    forall y | y in rest ensures Before(s[0], y, descending) {
      assert y in multiset(rest);
      if y != x {
        assert y in multiset(tail);
        var k :| 0 <= k < |tail| && tail[k] == y;
        assert s[k + 1] == y;
      }
    }
  }

  /** An ordered sequence stays ordered with a head that precedes all of it. */
  lemma ConsOrdered<T>(h: Keyed<T>, rest: seq<Keyed<T>>, descending: bool)
    requires Ordered(rest, descending)
    requires forall y :: y in rest ==> Before(h, y, descending)
    ensures Ordered([h] + rest, descending)
  {
    var r := [h] + rest;
    forall i, j | 0 <= i < j < |r| ensures Before(r[i], r[j], descending) {
      if i == 0 {
        assert r[j] == rest[j - 1] && rest[j - 1] in rest;
      } else {
        assert r[i] == rest[i - 1] && r[j] == rest[j - 1];
      }
    }
  }

  lemma {:induction false} SortOrdered<T>(s: seq<Keyed<T>>, descending: bool)
    requires DistinctPositions(s)
    ensures Ordered(Sort(s, descending), descending)
    decreases |s|
  {
    if |s| > 0 {
      var tail := s[1..];
      assert DistinctPositions(tail) by {
        forall i, j | 0 <= i < j < |tail| ensures tail[i].pos != tail[j].pos {
          assert tail[i] == s[i + 1] && tail[j] == s[j + 1];
        }
      }
      SortOrdered(tail, descending);
      var sorted := Sort(tail, descending);
      SortPermutes(tail, descending);
      forall k | 0 <= k < |sorted| ensures sorted[k].pos != s[0].pos {
        assert sorted[k] in multiset(tail);
        var m :| 0 <= m < |tail| && tail[m] == sorted[k];
        assert s[m + 1] == sorted[k];
      }
      InsertOrdered(s[0], sorted, descending);
    }
  }

  // ---------------------------------------------------------------------------
  // The order pins the output down
  // ---------------------------------------------------------------------------

  /** Two permutations of the same tags that are both in order are equal. */
  lemma {:induction false} OrderedPermutationUnique<T>(a: seq<Keyed<T>>, b: seq<Keyed<T>>, descending: bool)
    requires multiset(a) == multiset(b)
    requires Ordered(a, descending) && Ordered(b, descending)
    ensures a == b
    decreases |a|
  {
    assert |a| == |multiset(a)| == |multiset(b)| == |b|;
    if |a| > 0 {
      SameHead(a, b, descending);
      TailMultiset(a);
      TailMultiset(b);
      OrderedTail(a, descending);
      OrderedTail(b, descending);
      OrderedPermutationUnique(a[1..], b[1..], descending);
      assert a == [a[0]] + a[1..] && b == [b[0]] + b[1..];
    }
  }

  /** The first of an ordered sequence comes before every other element, so
      two orderings of the same tags start alike. */
  lemma SameHead<T>(a: seq<Keyed<T>>, b: seq<Keyed<T>>, descending: bool)
    requires |a| > 0 && |b| > 0 && multiset(a) == multiset(b)
    requires Ordered(a, descending) && Ordered(b, descending)
    ensures a[0] == b[0]
  {
    assert a[0] in multiset(b) && b[0] in multiset(a);
    var j :| 0 <= j < |b| && b[j] == a[0];
    var i :| 0 <= i < |a| && a[i] == b[0];
    assert j == 0 || Before(b[0], a[0], descending);
    assert i == 0 || Before(a[0], b[0], descending);
    BeforeAsymmetric(a[0], b[0], descending);
  }

  lemma TailMultiset<T>(a: seq<Keyed<T>>)
    requires |a| > 0
    ensures multiset(a[1..]) == multiset(a) - multiset{a[0]}
  {
    assert a == [a[0]] + a[1..];
  }

  lemma OrderedTail<T>(a: seq<Keyed<T>>, descending: bool)
    requires |a| > 0 && Ordered(a, descending)
    ensures Ordered(a[1..], descending)
  {
    forall i, j | 0 <= i < j < |a[1..]| ensures Before(a[1..][i], a[1..][j], descending) {
      assert a[1..][i] == a[i + 1] && a[1..][j] == a[j + 1];
    }
  }

  /** The sort of the tagged items is in order, and it is the only ordering
      of them that is: whatever arrangement of the same tags puts keys in
      the requested direction and equal keys in input order is the output. */
  lemma SortIsTheOrderedPermutation<T>(keys: seq<real>, items: seq<T>, descending: bool, other: seq<Keyed<T>>)
    requires |keys| == |items|
    requires multiset(other) == multiset(Tag(keys, items, 0)) && Ordered(other, descending)
    ensures Ordered(Sort(Tag(keys, items, 0), descending), descending)
    ensures Sort(Tag(keys, items, 0), descending) == other
    ensures SortedBy(items, keys, descending) == Items(other)
  {
    var t := Tag(keys, items, 0);
    SortOrdered(t, descending);
    SortPermutes(t, descending);
    OrderedPermutationUnique(Sort(t, descending), other, descending);
  }

  /** Ties keep their input order in both directions: two items with the
      same key come out as they went in, whether or not the sort is
      reversed. */
  lemma TiesKeepInputOrder<T>(a: T, b: T, key: real, descending: bool)
    ensures SortedBy([a, b], [key, key], descending) == [a, b]
  {
    var t := Tag([key, key], [a, b], 0);
    assert t == [Keyed(key, 0, a), Keyed(key, 1, b)];
    assert Ordered(t, descending);
    SortIsTheOrderedPermutation([key, key], [a, b], descending, t);
  }

  // ---------------------------------------------------------------------------
  // Keys that come from the items
  // ---------------------------------------------------------------------------

  /** `key(a)` comes no later than `key(b)` in the requested direction. */
  predicate KeyInOrder<T>(key: T -> real, a: T, b: T, descending: bool) {
    if descending then key(a) >= key(b) else key(a) <= key(b)
  }

  /** When each key is computed from its item, the sorted items have their
      keys in the requested direction: ascending, or descending when
      reversed. */
  lemma SortedByFollowsKey<T>(items: seq<T>, keys: seq<real>, descending: bool, key: T -> real)
    requires |keys| == |items|
    requires forall k :: 0 <= k < |items| ==> keys[k] == key(items[k])
    ensures var r := SortedBy(items, keys, descending);
      forall i, j :: 0 <= i < j < |r| ==> KeyInOrder(key, r[i], r[j], descending)
  {
    var t := Tag(keys, items, 0);
    var s := Sort(t, descending);
    assert DistinctPositions(t);
    SortOrdered(t, descending);
    SortPermutes(t, descending);
    forall k | 0 <= k < |s| ensures s[k].key == key(s[k].item) {
      assert s[k] in multiset(t);
      var m :| 0 <= m < |t| && t[m] == s[k];
    }
    var r := Items(s);
    forall i, j | 0 <= i < j < |r| ensures KeyInOrder(key, r[i], r[j], descending) {
      assert Before(s[i], s[j], descending);
    }
  }
}
