/** `Array.prototype.sort` with a comparator, modelled as a stable insertion sort.
    A comparator returns a negative number when its first argument goes first, a positive
    one when its second does, and 0 when they tie; a NaN result counts as 0. */
module Sorting {
  import opened Wrappers
  import Strings
  import Seqs

  /** Every element may precede every later one. */
  ghost predicate SortedBy<T>(s: seq<T>, cmp: (T, T) -> int) {
    forall i, j :: 0 <= i < j < |s| ==> cmp(s[i], s[j]) <= 0
  }

  /** On the elements of `xs`, `cmp` flips sign when its arguments are swapped. */
  ghost predicate AntisymmetricOn<T>(cmp: (T, T) -> int, xs: seq<T>) {
    forall a, b :: a in xs && b in xs ==> (cmp(a, b) < 0 <==> cmp(b, a) > 0)
  }

  /** On the elements of `xs`, `cmp(a, b) <= 0` is transitive. */
  ghost predicate TransitiveOn<T>(cmp: (T, T) -> int, xs: seq<T>) {
    forall a, b, c :: a in xs && b in xs && c in xs && cmp(a, b) <= 0 && cmp(b, c) <= 0
      ==> cmp(a, c) <= 0
  }

  /** What `Array.prototype.sort` demands of a comparator, on the elements of `xs`. */
  ghost predicate ConsistentOn<T>(cmp: (T, T) -> int, xs: seq<T>) {
    AntisymmetricOn(cmp, xs) && TransitiveOn(cmp, xs)
  }

  /** On the elements of `xs`, only equal elements tie. */
  ghost predicate StrictOn<T>(cmp: (T, T) -> int, xs: seq<T>) {
    forall a, b :: a in xs && b in xs && cmp(a, b) == 0 ==> a == b
  }

  /** Places `x` before the first element it may precede. */
  function Insert<T>(x: T, s: seq<T>, cmp: (T, T) -> int): (r: seq<T>)
    ensures multiset(r) == multiset(s) + multiset{x}
  {
    if |s| == 0 then [x]
    else if cmp(x, s[0]) <= 0 then [x] + s
    else
      assert s == [s[0]] + s[1..];
      [s[0]] + Insert(x, s[1..], cmp)
  }

  /** `s.slice().sort(cmp)`. Each element is inserted before the later elements it ties with,
      so tied elements keep their input order. */
  function SortBy<T>(s: seq<T>, cmp: (T, T) -> int): (r: seq<T>)
    ensures multiset(r) == multiset(s)
  {
    if |s| == 0 then []
    else
      assert s == [s[0]] + s[1..];
      Insert(s[0], SortBy(s[1..], cmp), cmp)
  }

  lemma {:induction false} InsertSorted<T>(x: T, s: seq<T>, cmp: (T, T) -> int, xs: seq<T>)
    requires ConsistentOn(cmp, xs)
    requires x in xs && forall i :: 0 <= i < |s| ==> s[i] in xs
    requires SortedBy(s, cmp)
    ensures SortedBy(Insert(x, s, cmp), cmp)
  {
    if |s| > 0 && cmp(x, s[0]) > 0 {
      InsertSorted(x, s[1..], cmp, xs);
      var r := Insert(x, s, cmp);
      var t := Insert(x, s[1..], cmp);
      assert r == [s[0]] + t;
      assert multiset(t) == multiset(s[1..]) + multiset{x};
      forall j | 0 < j < |r|
        ensures cmp(s[0], r[j]) <= 0
      {
        assert r[j] == t[j - 1];
        assert r[j] in multiset(t);
        if r[j] != x {
          assert r[j] in multiset(s[1..]);
          var k :| 0 <= k < |s[1..]| && s[1..][k] == r[j];
          assert cmp(s[0], s[k + 1]) <= 0;
        }
      }
    }
  }

  /** With a consistent comparator the sort's result is ordered. */
  lemma {:induction false} SortSorted<T>(s: seq<T>, cmp: (T, T) -> int, xs: seq<T>)
    requires ConsistentOn(cmp, xs)
    requires forall i :: 0 <= i < |s| ==> s[i] in xs
    ensures SortedBy(SortBy(s, cmp), cmp)
  {
    if |s| > 0 {
      SortSorted(s[1..], cmp, xs);
      var t := SortBy(s[1..], cmp);
      forall i | 0 <= i < |t|
        ensures t[i] in xs
      {
        assert t[i] in multiset(s[1..]);
      }
      InsertSorted(s[0], t, cmp, xs);
    }
  }

  /** Sorting an ordered sequence changes nothing: the sort is stable. */
  lemma {:induction false} SortOrdered<T>(s: seq<T>, cmp: (T, T) -> int)
    requires SortedBy(s, cmp)
    ensures SortBy(s, cmp) == s
  {
    if |s| > 0 {
      SortOrdered(s[1..], cmp);
      assert s == [s[0]] + s[1..];
    }
  }

  /** A comparator that ties everything leaves the input order untouched. */
  lemma TiesKeepOrder<T>(s: seq<T>, cmp: (T, T) -> int)
    requires forall i, j :: 0 <= i < j < |s| ==> cmp(s[i], s[j]) == 0
    ensures SortBy(s, cmp) == s
  {
    SortOrdered(s, cmp);
  }

  lemma MultisetTail<T>(a: seq<T>)
    requires |a| > 0
    ensures multiset(a[1..]) == multiset(a) - multiset{a[0]}
  {
    assert a == [a[0]] + a[1..];
  }

  lemma SortedTail<T>(a: seq<T>, cmp: (T, T) -> int)
    requires |a| > 0 && SortedBy(a, cmp)
    ensures SortedBy(a[1..], cmp)
  {
    forall i, j | 0 <= i < j < |a[1..]|
      ensures cmp(a[1..][i], a[1..][j]) <= 0
    {
      assert a[1..][i] == a[i + 1] && a[1..][j] == a[j + 1];
    }
  }

  /** Two ordered arrangements of the same elements start with the same element. */
  lemma SortedHeads<T>(a: seq<T>, b: seq<T>, cmp: (T, T) -> int, xs: seq<T>)
    requires AntisymmetricOn(cmp, xs) && StrictOn(cmp, xs)
    requires forall i :: 0 <= i < |a| ==> a[i] in xs
    requires |a| > 0 && multiset(a) == multiset(b)
    requires SortedBy(a, cmp) && SortedBy(b, cmp)
    ensures |b| > 0 && a[0] == b[0]
  {
    assert |b| == |multiset(b)| == |a|;
    var x, y := a[0], b[0];
    assert y in multiset(a) && x in multiset(b);
    var k :| 0 <= k < |a| && a[k] == y;
    var m :| 0 <= m < |b| && b[m] == x;
    assert x in xs && y in xs;
    assert x == y || cmp(x, y) <= 0;
    assert x == y || cmp(y, x) <= 0;
  }

  /** Two ordered arrangements of the same elements under a strict comparator coincide,
      so the result of the sort does not depend on how it is computed. */
  lemma {:induction false} SortedUnique<T>(a: seq<T>, b: seq<T>, cmp: (T, T) -> int, xs: seq<T>)
    requires AntisymmetricOn(cmp, xs) && StrictOn(cmp, xs)
    requires forall i :: 0 <= i < |a| ==> a[i] in xs
    requires multiset(a) == multiset(b)
    requires SortedBy(a, cmp) && SortedBy(b, cmp)
    ensures a == b
  {
    if |a| == 0 {
      assert |b| == |multiset(b)| == 0;
    } else {
      SortedHeads(a, b, cmp, xs);
      MultisetTail(a);
      MultisetTail(b);
      SortedTail(a, cmp);
      SortedTail(b, cmp);
      assert forall i :: 0 <= i < |a[1..]| ==> a[1..][i] == a[i + 1];
      SortedUnique(a[1..], b[1..], cmp, xs);
    }
  }

  /** The comparator `(a, b) => order * (key(a) - key(b))`, where a missing key is NaN. */
  function ByKey<T>(key: T -> Option<int>, order: int): (T, T) -> int {
    (a: T, b: T) =>
      if key(a).Some? && key(b).Some? then order * (key(a).value - key(b).value) else 0
  }

  /** The comparator `(a, b) => order * text(a).localeCompare(text(b))`. */
  function ByText<T>(text: T -> string, order: int): (T, T) -> int {
    (a: T, b: T) => order * Strings.Compare(text(a), text(b))
  }

  predicate IsOrder(order: int) {
    order == 1 || order == -1
  }

  /** `sortOrder === 'asc' ? 1 : -1`, the direction of the contacts and tasks lists:
      anything but `'asc'` sorts descending. */
  function Direction(sortOrder: string): (o: int)
    ensures IsOrder(o)
    ensures o == 1 <==> sortOrder == "asc"
  {
    if sortOrder == "asc" then 1 else -1
  }

  /** A sign-flipped key difference is consistent when every key is present. */
  lemma ByKeyConsistent<T>(key: T -> Option<int>, order: int, xs: seq<T>)
    requires IsOrder(order)
    requires forall i :: 0 <= i < |xs| ==> key(xs[i]).Some?
    ensures ConsistentOn(ByKey(key, order), xs)
  {
  }

  /** A sign-flipped text comparison is consistent on any elements. */
  lemma ByTextConsistent<T>(text: T -> string, order: int, xs: seq<T>)
    requires IsOrder(order)
    ensures ConsistentOn(ByText(text, order), xs)
  {
    var cmp := ByText(text, order);
    forall a, b | a in xs && b in xs
      ensures cmp(a, b) < 0 <==> cmp(b, a) > 0
    {
      Strings.CompareAntisymmetric(text(a), text(b));
    }
    forall a, b, c | a in xs && b in xs && c in xs && cmp(a, b) <= 0 && cmp(b, c) <= 0
      ensures cmp(a, c) <= 0
    {
      if order == 1 {
        Strings.CompareTransitive(text(a), text(b), text(c));
      } else {
        Strings.CompareAntisymmetric(text(a), text(b));
        Strings.CompareAntisymmetric(text(b), text(c));
        Strings.CompareAntisymmetric(text(a), text(c));
        Strings.CompareTransitive(text(c), text(b), text(a));
      }
    }
  }

  /** In a rearrangement of elements with pairwise distinct texts, two positions whose texts
      compare at most equal compare strictly. */
  lemma DistinctTextsStrict<T>(s: seq<T>, r: seq<T>, text: T -> string, i: int, j: int)
    requires forall a, b :: 0 <= a < b < |s| ==> text(s[a]) != text(s[b])
    requires multiset(r) == multiset(s)
    requires 0 <= i < j < |r|
    requires Strings.Compare(text(r[i]), text(r[j])) <= 0
    ensures Strings.Compare(text(r[i]), text(r[j])) < 0
  {
    assert Seqs.Distinct(s);
    assert r[i] in multiset(s) && r[j] in multiset(s);
    Seqs.MultisetIndex(s, r[i]);
    Seqs.MultisetIndex(s, r[j]);
    var a :| 0 <= a < |s| && s[a] == r[i];
    var b :| 0 <= b < |s| && s[b] == r[j];
    if a == b {
      Seqs.TwiceCounted(r, i, j);
      Seqs.DistinctOnce(s, r[i]);
    }
  }

  /** Sorting by a text that no two elements share puts the texts in strictly ascending order. */
  lemma SortByTextAscending<T>(s: seq<T>, text: T -> string)
    requires forall i, j :: 0 <= i < j < |s| ==> text(s[i]) != text(s[j])
    ensures forall i, j :: 0 <= i < j < |SortBy(s, ByText(text, 1))| ==>
      Strings.Compare(text(SortBy(s, ByText(text, 1))[i]), text(SortBy(s, ByText(text, 1))[j])) < 0
  {
    var cmp := ByText(text, 1);
    var r := SortBy(s, cmp);
    ByTextConsistent(text, 1, s);
    SortSorted(s, cmp, s);
    forall i, j | 0 <= i < j < |r|
      ensures Strings.Compare(text(r[i]), text(r[j])) < 0
    {
      assert cmp(r[i], r[j]) <= 0;
      DistinctTextsStrict(s, r, text, i, j);
    }
  }

  /** The present keys of `s` ascend for order 1 and descend for order -1. */
  ghost predicate KeysInOrder<T>(s: seq<T>, key: T -> Option<int>, order: int) {
    forall i, j :: 0 <= i < j < |s| && key(s[i]).Some? && key(s[j]).Some? ==>
      if order == 1 then key(s[i]).value <= key(s[j]).value
      else key(s[i]).value >= key(s[j]).value
  }

  /** What an ordered result means for the keys. */
  lemma ByKeyOrdered<T>(s: seq<T>, key: T -> Option<int>, order: int)
    requires IsOrder(order)
    requires SortedBy(s, ByKey(key, order))
    ensures KeysInOrder(s, key, order)
  {
    forall i, j | 0 <= i < j < |s| && key(s[i]).Some? && key(s[j]).Some?
      ensures if order == 1 then key(s[i]).value <= key(s[j]).value
              else key(s[i]).value >= key(s[j]).value
    {
      assert ByKey(key, order)(s[i], s[j]) <= 0;
    }
  }

  /** Sorting by a key every element has yields keys in the requested direction. */
  lemma SortByKeyOrdered<T>(s: seq<T>, key: T -> Option<int>, order: int)
    requires IsOrder(order)
    requires forall i :: 0 <= i < |s| ==> key(s[i]).Some?
    ensures KeysInOrder(SortBy(s, ByKey(key, order)), key, order)
  {
    ByKeyConsistent(key, order, s);
    SortSorted(s, ByKey(key, order), s);
    ByKeyOrdered(SortBy(s, ByKey(key, order)), key, order);
  }
}
