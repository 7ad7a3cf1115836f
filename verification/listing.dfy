/** The pattern every list page follows: `items.filter(keep).sort(cmp)`. */
module Listing {
  import opened Wrappers
  import Seqs
  import Sorting
  import Strings

  /** `s.filter(keep).sort(cmp)`: exactly the kept elements, each as often as in `s`. */
  function FilterSort<T(==,!new)>(s: seq<T>, keep: T -> bool, cmp: (T, T) -> int): (r: seq<T>)
    ensures forall x :: x in r <==> x in s && keep(x)
    ensures forall x :: keep(x) ==> multiset(r)[x] == multiset(s)[x]
    ensures multiset(r) <= multiset(s)
    ensures |r| == Seqs.Count(s, keep)
  {
    var kept := Seqs.Filter(s, keep);
    var r := Sorting.SortBy(kept, cmp);
    assert forall x :: x in r <==> x in kept by {
      forall x ensures x in r <==> x in kept {
        assert x in r <==> x in multiset(r);
        assert x in kept <==> x in multiset(kept);
      }
    }
    assert forall x :: x in kept <==> x in s && keep(x) by {
      forall x ensures x in kept <==> x in s && keep(x) {
        Seqs.FilterMember(s, keep, x);
      }
    }
    assert forall x :: keep(x) ==> multiset(kept)[x] == multiset(s)[x] by {
      forall x | keep(x) ensures multiset(kept)[x] == multiset(s)[x] {
        Seqs.FilterMultiplicity(s, keep, x);
      }
    }
    r
  }

  /** The texts of `s` ascend for order 1 and descend for order -1. */
  ghost predicate TextsInOrder<T>(s: seq<T>, text: T -> string, order: int) {
    forall i, j :: 0 <= i < j < |s| ==> order * Strings.Compare(text(s[i]), text(s[j])) <= 0
  }

  /** Sorting by a text puts the texts of the result in the requested direction. */
  lemma TextOrder<T(!new)>(s: seq<T>, keep: T -> bool, text: T -> string, order: int)
    requires Sorting.IsOrder(order)
    ensures TextsInOrder(FilterSort(s, keep, Sorting.ByText(text, order)), text, order)
  {
    var kept := Seqs.Filter(s, keep);
    Sorting.ByTextConsistent(text, order, kept);
    Sorting.SortSorted(kept, Sorting.ByText(text, order), kept);
  }

  /** Sorting by a numeric key that every kept element has puts the keys in the requested
      direction. */
  lemma KeyOrder<T(!new)>(s: seq<T>, keep: T -> bool, key: T -> Option<int>, order: int)
    requires Sorting.IsOrder(order)
    requires forall i :: 0 <= i < |s| && keep(s[i]) ==> key(s[i]).Some?
    ensures Sorting.KeysInOrder(FilterSort(s, keep, Sorting.ByKey(key, order)), key, order)
  {
    var kept := Seqs.Filter(s, keep);
    forall i | 0 <= i < |kept|
      ensures key(kept[i]).Some?
    {
      Seqs.FilterMember(s, keep, kept[i]);
    }
    Sorting.SortByKeyOrdered(kept, key, order);
  }

  /** A comparator that ties every pair of kept elements leaves them in list order. */
  lemma TiesKeepOrder<T(!new)>(s: seq<T>, keep: T -> bool, cmp: (T, T) -> int)
    requires forall a, b :: keep(a) && keep(b) ==> cmp(a, b) == 0
    ensures FilterSort(s, keep, cmp) == Seqs.Filter(s, keep)
    ensures Seqs.IsSubseq(FilterSort(s, keep, cmp), s)
  {
    var kept := Seqs.Filter(s, keep);
    Sorting.TiesKeepOrder(kept, cmp);
  }

  /** When every element is kept, the list is a rearrangement of all of them. */
  lemma KeepsAll<T(!new)>(s: seq<T>, keep: T -> bool, cmp: (T, T) -> int)
    requires forall i :: 0 <= i < |s| ==> keep(s[i])
    ensures multiset(FilterSort(s, keep, cmp)) == multiset(s)
  {
    Seqs.FilterAll(s, keep);
  }
}
