/** The list logic of src/pages/Interactions.jsx: search, type and status filters, and sort. */
module InteractionsPage {
  import opened Wrappers
  import Seqs
  import Strings
  import Sorting
  import Listing
  import opened Entities

  /** The `filters` state; `kind` is the `type` filter. */
  datatype Filters = Filters(kind: string, status: string, sortBy: string, sortOrder: string)

  /** The filters when the page opens: all types and statuses, newest date first. */
  function DefaultFilters(): (f: Filters)
    ensures f.kind == "all" && f.status == "all"
    ensures f.sortBy == "date" && f.sortOrder == "desc"
  {
    Filters("all", "all", "date", "desc")
  }

  /** `s?.toLowerCase().includes(term)`: an absent text matches nothing. */
  predicate TextMatches(s: Option<string>, lowerTerm: string) {
    s.Some? && Strings.Contains(Strings.Lower(s.value), lowerTerm)
  }

  /** The search box: the summary or the contact's name contain the term, ignoring case. */
  predicate MatchesSearch(x: Interaction, term: string) {
    TextMatches(x.summary, Strings.Lower(term)) || TextMatches(x.contactName, Strings.Lower(term))
  }

  /** A select filter: `'all'`, or exactly the chosen value. */
  predicate Selects(choice: string, v: string) {
    choice == "all" || v == choice
  }

  function Keeps(term: string, f: Filters): Interaction -> bool {
    (x: Interaction) => MatchesSearch(x, term) && Selects(f.kind, x.kind) && Selects(f.status, x.status)
  }

  /** `sortOrder === 'desc' ? -1 : 1`: anything but `'desc'` sorts ascending. */
  function Order(f: Filters): (o: int)
    ensures Sorting.IsOrder(o)
    ensures o == -1 <==> f.sortOrder == "desc"
  {
    if f.sortOrder == "desc" then -1 else 1
  }

  function Date(): Interaction -> Option<int> {
    (x: Interaction) => x.date
  }

  function Kind(): Interaction -> string {
    (x: Interaction) => x.kind
  }

  function Status(): Interaction -> string {
    (x: Interaction) => x.status
  }

  /** A sort key of the list compared with `localeCompare`. */
  predicate IsTextKey(sortBy: string) {
    sortBy == "type" || sortBy == "status"
  }

  function SortText(sortBy: string): Interaction -> string {
    if sortBy == "type" then Kind() else Status()
  }

  /** The comparator of the list; an unknown sort key makes every pair tie. */
  function Comparator(f: Filters): (Interaction, Interaction) -> int {
    if f.sortBy == "date" then Sorting.ByKey(Date(), Order(f))
    else if IsTextKey(f.sortBy) then Sorting.ByText(SortText(f.sortBy), Order(f))
    else (a: Interaction, b: Interaction) => 0
  }

  /** `filteredInteractions`: exactly the matching interactions, each as often as in the list,
      sorted by the chosen text in the chosen direction. */
  function FilteredInteractions(xs: seq<Interaction>, term: string, f: Filters): (r: seq<Interaction>)
    ensures forall x :: x in r <==>
      x in xs && MatchesSearch(x, term) && Selects(f.kind, x.kind) && Selects(f.status, x.status)
    ensures forall x :: Keeps(term, f)(x) ==> multiset(r)[x] == multiset(xs)[x]
    ensures |r| == Seqs.Count(xs, Keeps(term, f))
    ensures IsTextKey(f.sortBy) ==> Listing.TextsInOrder(r, SortText(f.sortBy), Order(f))
  {
    var r := Listing.FilterSort(xs, Keeps(term, f), Comparator(f));
    assert IsTextKey(f.sortBy) ==> Listing.TextsInOrder(r, SortText(f.sortBy), Order(f)) by {
      if IsTextKey(f.sortBy) {
        Listing.TextOrder(xs, Keeps(term, f), SortText(f.sortBy), Order(f));
      }
    }
    r
  }

  /** Sorting by date orders the dates in the chosen direction when every listed interaction
      has a valid date; with the default filters the newest comes first. */
  lemma SortedByDate(xs: seq<Interaction>, term: string, f: Filters)
    requires f.sortBy == "date"
    requires forall i :: 0 <= i < |xs| && Keeps(term, f)(xs[i]) ==> xs[i].date.Some?
    ensures Sorting.KeysInOrder(FilteredInteractions(xs, term, f), Date(), Order(f))
  {
    Listing.KeyOrder(xs, Keeps(term, f), Date(), Order(f));
  }

  /** An interaction without a summary or a contact name is never found, not even by the
      empty search. */
  lemma UnnamedNeverListed(xs: seq<Interaction>, term: string, f: Filters, x: Interaction)
    requires x.summary.None? && x.contactName.None?
    ensures x !in FilteredInteractions(xs, term, f)
  {
  }

  /** With an empty search and both selects on `'all'`, every interaction that has a summary
      or a contact name is listed, each as often as it is stored. */
  lemma EmptySearchListsNamed(xs: seq<Interaction>, f: Filters)
    requires f.kind == "all" && f.status == "all"
    requires forall i :: 0 <= i < |xs| ==> xs[i].summary.Some? || xs[i].contactName.Some?
    ensures multiset(FilteredInteractions(xs, "", f)) == multiset(xs)
  {
    forall i | 0 <= i < |xs|
      ensures Keeps("", f)(xs[i])
    {
      if xs[i].summary.Some? {
        Strings.ContainsEmpty(Strings.Lower(xs[i].summary.value));
      } else {
        Strings.ContainsEmpty(Strings.Lower(xs[i].contactName.value));
      }
    }
    Listing.KeepsAll(xs, Keeps("", f), Comparator(f));
  }

  /** A sort key the switch does not know leaves the matching interactions in list order. */
  lemma UnknownSortKeepsOrder(xs: seq<Interaction>, term: string, f: Filters)
    requires f.sortBy != "date" && !IsTextKey(f.sortBy)
    ensures Seqs.IsSubseq(FilteredInteractions(xs, term, f), xs)
  {
    Listing.TiesKeepOrder(xs, Keeps(term, f), Comparator(f));
  }
}
