/** The list logic of src/pages/Contacts.jsx: search, country filter and sort of the contact
    list, and the countries offered by the country filter. */
module ContactsPage {
  import opened Wrappers
  import Seqs
  import Strings
  import Sorting
  import Countries
  import Listing

  /** The fields of a contact the list reads; an absent `company` is `''`. */
  datatype Contact = Contact(name: string, email: string, phone: string, company: string)

  /** The `filters` state. */
  datatype Filters = Filters(country: string, sortBy: string, sortOrder: string)

  /** The region code the phone-number parser reports for a number, or `None` when it
      reports none or throws. */
  type Parser = string -> Option<string>

  /** The filters when the page opens: every country, by name, ascending. */
  function DefaultFilters(): (f: Filters)
    ensures f.country == "all" && f.sortBy == "name" && f.sortOrder == "asc"
  {
    Filters("all", "name", "asc")
  }

  /** `getCountryFromPhone` without the flag: the table entry for the parsed region, or
      nothing when the number does not parse or the region is not in the table. */
  function CountryFromPhone(parse: Parser, phone: string): (r: Option<Countries.Country>)
    ensures r.Some? <==> parse(phone).Some? && Countries.IsCode(parse(phone).value)
    ensures r.Some? ==> r == Countries.Lookup(parse(phone).value) && r.value.code == parse(phone).value
  {
    match parse(phone)
    case None => None
    case Some(code) => Countries.Lookup(code)
  }

  /** The search box: name, email or company contain the term ignoring case, or the phone
      contains it as typed. */
  predicate MatchesSearch(c: Contact, term: string) {
    var t := Strings.Lower(term);
    Strings.Contains(Strings.Lower(c.name), t)
    || Strings.Contains(Strings.Lower(c.email), t)
    || Strings.Contains(c.phone, term)
    || (c.company != "" && Strings.Contains(Strings.Lower(c.company), t))
  }

  /** The country filter: `'all'`, or the code of the country the phone resolves to. */
  predicate MatchesCountry(parse: Parser, c: Contact, country: string) {
    country == "all"
    || (CountryFromPhone(parse, c.phone).Some? && CountryFromPhone(parse, c.phone).value.code == country)
  }

  /** The predicate the list filter applies. */
  function Keeps(parse: Parser, term: string, f: Filters): Contact -> bool {
    (c: Contact) => MatchesSearch(c, term) && MatchesCountry(parse, c, f.country)
  }

  /** The direction of the list. */
  function Order(f: Filters): int {
    Sorting.Direction(f.sortOrder)
  }

  /** `getCountryFromPhone(phone)?.name || ''`. */
  function CountryName(parse: Parser, phone: string): (r: string)
    ensures CountryFromPhone(parse, phone).None? ==> r == ""
    ensures CountryFromPhone(parse, phone).Some? ==> r == CountryFromPhone(parse, phone).value.name
  {
    match CountryFromPhone(parse, phone)
    case None => ""
    case Some(c) => c.name
  }

  /** A sort key of the list is a text compared with `localeCompare`. */
  predicate IsTextKey(sortBy: string) {
    sortBy == "name" || sortBy == "email" || sortBy == "country"
  }

  /** The text a known sort key compares. */
  function SortText(parse: Parser, sortBy: string): Contact -> string {
    if sortBy == "name" then (c: Contact) => c.name
    else if sortBy == "email" then (c: Contact) => c.email
    else (c: Contact) => CountryName(parse, c.phone)
  }

  /** The comparator of the list; an unknown sort key makes every pair tie. */
  function Comparator(parse: Parser, f: Filters): (Contact, Contact) -> int {
    if IsTextKey(f.sortBy) then Sorting.ByText(SortText(parse, f.sortBy), Order(f))
    else (a: Contact, b: Contact) => 0
  }

  /** `filteredContacts`: exactly the matching contacts, each as often as in the list, sorted
      by the chosen text in the chosen direction. */
  function FilteredContacts(contacts: seq<Contact>, term: string, f: Filters, parse: Parser)
    : (r: seq<Contact>)
    ensures forall c :: c in r <==> c in contacts && MatchesSearch(c, term) && MatchesCountry(parse, c, f.country)
    ensures forall c :: Keeps(parse, term, f)(c) ==> multiset(r)[c] == multiset(contacts)[c]
    ensures multiset(r) <= multiset(contacts)
    ensures |r| == Seqs.Count(contacts, Keeps(parse, term, f))
    ensures IsTextKey(f.sortBy) ==> Listing.TextsInOrder(r, SortText(parse, f.sortBy), Order(f))
  {
    var r := Listing.FilterSort(contacts, Keeps(parse, term, f), Comparator(parse, f));
    assert IsTextKey(f.sortBy) ==> Listing.TextsInOrder(r, SortText(parse, f.sortBy), Order(f)) by {
      if IsTextKey(f.sortBy) {
        Listing.TextOrder(contacts, Keeps(parse, term, f), SortText(parse, f.sortBy), Order(f));
      }
    }
    r
  }

  /** `includes(t)` on a lower-cased text, for a term that contains `t`. */
  lemma LowerContains(s: string, term: string, t: string)
    requires Strings.Contains(Strings.Lower(s), Strings.Lower(term)) && Strings.Contains(term, t)
    ensures Strings.Contains(Strings.Lower(s), Strings.Lower(t))
  {
    Strings.ContainsLower(term, t);
    Strings.ContainsTransitive(Strings.Lower(s), Strings.Lower(term), Strings.Lower(t));
  }

  /** A contact found by a longer term is found by any part of it. */
  lemma SearchNarrows(c: Contact, term: string, t: string)
    requires Strings.Contains(term, t) && MatchesSearch(c, term)
    ensures MatchesSearch(c, t)
  {
    if Strings.Contains(Strings.Lower(c.name), Strings.Lower(term)) {
      LowerContains(c.name, term, t);
    } else if Strings.Contains(Strings.Lower(c.email), Strings.Lower(term)) {
      LowerContains(c.email, term, t);
    } else if Strings.Contains(c.phone, term) {
      Strings.ContainsTransitive(c.phone, term, t);
    } else {
      LowerContains(c.company, term, t);
    }
  }

  /** Typing more of a search term never lengthens the list. */
  lemma LongerTermFewerContacts(contacts: seq<Contact>, term: string, t: string, f: Filters, parse: Parser)
    requires Strings.Contains(term, t)
    ensures |FilteredContacts(contacts, term, f, parse)| <= |FilteredContacts(contacts, t, f, parse)|
  {
    forall i | 0 <= i < |contacts| && Keeps(parse, term, f)(contacts[i])
      ensures Keeps(parse, t, f)(contacts[i])
    {
      SearchNarrows(contacts[i], term, t);
    }
    Seqs.CountMonotonic(contacts, Keeps(parse, term, f), Keeps(parse, t, f));
  }

  /** With an empty search and the country filter on `'all'`, every contact is listed, each
      as often as it is stored. */
  lemma EmptySearchListsAll(contacts: seq<Contact>, f: Filters, parse: Parser)
    requires f.country == "all"
    ensures multiset(FilteredContacts(contacts, "", f, parse)) == multiset(contacts)
  {
    forall i | 0 <= i < |contacts|
      ensures Keeps(parse, "", f)(contacts[i])
    {
      Strings.ContainsEmpty(Strings.Lower(contacts[i].name));
    }
    Listing.KeepsAll(contacts, Keeps(parse, "", f), Comparator(parse, f));
  }

  /** A sort key the switch does not know leaves the matching contacts in list order. */
  lemma UnknownSortKeepsOrder(contacts: seq<Contact>, term: string, f: Filters, parse: Parser)
    requires !IsTextKey(f.sortBy)
    ensures FilteredContacts(contacts, term, f, parse) == Seqs.Filter(contacts, Keeps(parse, term, f))
    ensures Seqs.IsSubseq(FilteredContacts(contacts, term, f, parse), contacts)
  {
    Listing.TiesKeepOrder(contacts, Keeps(parse, term, f), Comparator(parse, f));
  }

  /** The `{ code, name }` entries offered by the country filter. */
  datatype CountryOption = CountryOption(code: string, name: string)

  /** The option a contact contributes: its resolved country's code and name. */
  function OptionOf(parse: Parser): Contact -> Option<CountryOption> {
    (c: Contact) =>
      match CountryFromPhone(parse, c.phone)
      case None => None
      case Some(k) => Some(CountryOption(k.code, k.name))
  }

  /** The options the contacts contribute, in list order: `map`, then `filter(Boolean)`. */
  function Options(contacts: seq<Contact>, option: Contact -> Option<CountryOption>): (r: seq<CountryOption>)
    ensures |r| == Seqs.Count(contacts, (c: Contact) => option(c).Some?)
    ensures forall k :: 0 <= k < |r| ==> exists i :: 0 <= i < |contacts| && option(contacts[i]) == Some(r[k])
  {
    if |contacts| == 0 then []
    else
      var rest := Options(contacts[1..], option);
      assert forall k :: 0 <= k < |rest| ==> exists i :: 0 <= i < |contacts| && option(contacts[i]) == Some(rest[k]) by {
        forall k | 0 <= k < |rest|
          ensures exists i :: 0 <= i < |contacts| && option(contacts[i]) == Some(rest[k])
        {
          var i :| 0 <= i < |contacts[1..]| && option(contacts[1..][i]) == Some(rest[k]);
          assert contacts[1..][i] == contacts[i + 1];
        }
      }
      match option(contacts[0])
      case None => rest
      case Some(o) => [o] + rest
  }

  /** The options of the country filter before sorting. */
  function Resolved(contacts: seq<Contact>, parse: Parser): seq<CountryOption> {
    Options(contacts, OptionOf(parse))
  }

  function ByOptionName(): (CountryOption, CountryOption) -> int {
    Sorting.ByText((o: CountryOption) => o.name, 1)
  }

  /** `uniqueCountries` as written: a `Set` of freshly built objects keeps every one of them,
      so each resolving contact contributes an option, then the options are sorted by name. */
  function UniqueCountriesAsWritten(contacts: seq<Contact>, parse: Parser): (r: seq<CountryOption>)
    ensures multiset(r) == multiset(Resolved(contacts, parse))
    ensures |r| == Seqs.Count(contacts, (c: Contact) => OptionOf(parse)(c).Some?)
    ensures forall i, j :: 0 <= i < j < |r| ==> Strings.Compare(r[i].name, r[j].name) <= 0
  {
    var s := Resolved(contacts, parse);
    assert |multiset(Sorting.SortBy(s, ByOptionName()))| == |multiset(s)|;
    Sorting.ByTextConsistent((o: CountryOption) => o.name, 1, s);
    Sorting.SortSorted(s, ByOptionName(), s);
    Sorting.SortBy(s, ByOptionName())
  }

  /** Two contacts contributing the same option contribute it twice. */
  lemma OptionsTwice(option: Contact -> Option<CountryOption>, a: Contact, b: Contact, o: CountryOption)
    requires option(a) == Some(o) && option(b) == Some(o)
    ensures Options([a, b], option) == [o, o]
  {
    assert [a, b][1..] == [b];
    assert [b][1..] == [];
  }

  /** Two contacts with United States numbers put United States in the filter twice. */
  lemma DuplicateOptions(parse: Parser, a: Contact, b: Contact)
    requires parse(a.phone) == Some("US") && parse(b.phone) == Some("US")
    ensures multiset(UniqueCountriesAsWritten([a, b], parse))[CountryOption("US", "United States")] == 2
  {
    var o := CountryOption("US", "United States");
    Countries.FindUS();
    assert OptionOf(parse)(a) == Some(o);
    assert OptionOf(parse)(b) == Some(o);
    OptionsTwice(OptionOf(parse), a, b, o);
  }

  /** The options with repeats removed, sorted by name: each resolving country once. */
  function UniqueCountries(contacts: seq<Contact>, parse: Parser): (r: seq<CountryOption>)
    ensures Seqs.Distinct(r)
    ensures forall o :: o in r <==> o in Resolved(contacts, parse)
    ensures forall i, j :: 0 <= i < j < |r| ==> Strings.Compare(r[i].name, r[j].name) <= 0
  {
    var s := Seqs.Dedup(Resolved(contacts, parse));
    var r := Sorting.SortBy(s, ByOptionName());
    Sorting.ByTextConsistent((o: CountryOption) => o.name, 1, s);
    Sorting.SortSorted(s, ByOptionName(), s);
    Seqs.DistinctPermutation(s, r);
    assert forall o :: o in r <==> o in s by {
      forall o ensures o in r <==> o in s {
        assert o in r <==> o in multiset(r);
        assert o in s <==> o in multiset(s);
      }
    }
    r
  }

  /** Without repeats every option of the filter stands for one country. */
  lemma UniqueCountriesOnce(contacts: seq<Contact>, parse: Parser, o: CountryOption)
    ensures multiset(UniqueCountries(contacts, parse))[o] == if o in Resolved(contacts, parse) then 1 else 0
  {
    var r := UniqueCountries(contacts, parse);
    Seqs.DistinctOnce(r, o);
  }
}
