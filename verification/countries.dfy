/** The static country list of src/data/countries.js: code, display name and dial code. */
module Countries {
  import opened Wrappers
  import Seqs
  import Strings
  import Sorting

  /** One entry of the list; `code` is an ISO 3166-1 alpha-2 code. */
  datatype Country = Country(code: string, name: string, dialCode: string)

  /** Entry `i` of the list as the module writes it, before sorting (0 <= i < 20; the last
      entry also answers for larger indices). */
  function Entry(i: int): Country {
    if i == 0 then Country("US", "United States", "+1")
    else if i == 1 then Country("GB", "United Kingdom", "+44")
    else if i == 2 then Country("IN", "India", "+91")
    else if i == 3 then Country("CN", "China", "+86")
    else if i == 4 then Country("JP", "Japan", "+81")
    else if i == 5 then Country("DE", "Germany", "+49")
    else if i == 6 then Country("FR", "France", "+33")
    else if i == 7 then Country("IT", "Italy", "+39")
    else if i == 8 then Country("BR", "Brazil", "+55")
    else if i == 9 then Country("RU", "Russia", "+7")
    else if i == 10 then Country("CA", "Canada", "+1")
    else if i == 11 then Country("AU", "Australia", "+61")
    else if i == 12 then Country("KR", "South Korea", "+82")
    else if i == 13 then Country("ES", "Spain", "+34")
    else if i == 14 then Country("MX", "Mexico", "+52")
    else if i == 15 then Country("ID", "Indonesia", "+62")
    else if i == 16 then Country("NL", "Netherlands", "+31")
    else if i == 17 then Country("SA", "Saudi Arabia", "+966")
    else if i == 18 then Country("TR", "Turkey", "+90")
    else Country("CH", "Switzerland", "+41")
  }

  /** The twenty entries in source order. */
  function Listed(): seq<Country> {
    seq(20, Entry)
  }

  /** `(a, b) => a.name.localeCompare(b.name)`. */
  function ByName(): (Country, Country) -> int {
    Sorting.ByText((c: Country) => c.name, 1)
  }

  /** The exported `countries`: the listed entries sorted once, at module load, by name. */
  function Table(): seq<Country> {
    Sorting.SortBy(Listed(), ByName())
  }

  /** `countries.find(c => c.code === code)`. */
  function Find(code: string): Option<Country> {
    Seqs.Find(Table(), HasCode(code))
  }

  /** The position in the list of the entry with the given code, read off the list. */
  function CodeIndex(code: string): (r: Option<nat>)
    ensures r.Some? ==> r.value < 20 && Entry(r.value).code == code
  {
    if code == "US" then Some(0)
    else if code == "GB" then Some(1)
    else if code == "IN" then Some(2)
    else if code == "CN" then Some(3)
    else if code == "JP" then Some(4)
    else if code == "DE" then Some(5)
    else if code == "FR" then Some(6)
    else if code == "IT" then Some(7)
    else if code == "BR" then Some(8)
    else if code == "RU" then Some(9)
    else if code == "CA" then Some(10)
    else if code == "AU" then Some(11)
    else if code == "KR" then Some(12)
    else if code == "ES" then Some(13)
    else if code == "MX" then Some(14)
    else if code == "ID" then Some(15)
    else if code == "NL" then Some(16)
    else if code == "SA" then Some(17)
    else if code == "TR" then Some(18)
    else if code == "CH" then Some(19)
    else None
  }

  /** The entry with the given code, looked up by position rather than by searching the
      sorted table; `FindLookup` proves the two agree, and the forms use this one. */
  function Lookup(code: string): (r: Option<Country>)
    ensures r.Some? ==> r.value.code == code
    ensures r.None? <==> CodeIndex(code).None?
  {
    match CodeIndex(code)
    case None => None
    case Some(i) => Some(Entry(i))
  }

  /** The code is one of the table's. */
  predicate IsCode(code: string) {
    Lookup(code).Some?
  }

  /** A dial code is `+` followed by one to three digits. */
  predicate WellFormedDial(d: string) {
    2 <= |d| <= 4 && d[0] == '+' && Strings.AllDigits(d[1..])
  }

  /** No two listed entries share a code. */
  lemma ListedCodesDistinct()
    ensures |Listed()| == 20
    ensures forall i, j :: 0 <= i < j < |Listed()| ==> Listed()[i].code != Listed()[j].code
  {
  }

  /** No two listed entries share a name. */
  lemma ListedNamesDistinct()
    ensures forall i, j :: 0 <= i < j < |Listed()| ==> Listed()[i].name != Listed()[j].name
  {
  }

  /** Every listed dial code is `+` and one to three digits. */
  lemma ListedDialsWellFormed()
    ensures forall i :: 0 <= i < |Listed()| ==> WellFormedDial(Listed()[i].dialCode)
  {
  }

  /** The listed entries are pairwise different. */
  lemma ListedDistinct()
    ensures Seqs.Distinct(Listed())
  {
    ListedCodesDistinct();
  }

  /** The shape of the dial codes: two to four characters, the only four-character one is
      `+966`, no three-character one is `+96`, and no two-character one shares its digit with
      the first digit of a longer one. */
  lemma ListedDialShapes()
    ensures forall i :: 0 <= i < |Listed()| ==> 2 <= |Listed()[i].dialCode| <= 4
    ensures forall i :: 0 <= i < |Listed()| && |Listed()[i].dialCode| == 4 ==>
      Listed()[i].dialCode == "+966"
    ensures forall i :: 0 <= i < |Listed()| && |Listed()[i].dialCode| == 3 ==>
      Listed()[i].dialCode != "+96"
    ensures forall i, j ::
              0 <= i < |Listed()| && 0 <= j < |Listed()| &&
              |Listed()[i].dialCode| == 2 && |Listed()[j].dialCode| > 2 ==>
                Listed()[i].dialCode[1] != Listed()[j].dialCode[1]
  {
  }

  /** No dial code of the list is a proper prefix of another one. */
  lemma ListedDialsPrefixFree()
    ensures forall i, j ::
              0 <= i < |Listed()| && 0 <= j < |Listed()| &&
              Strings.IsPrefix(Listed()[i].dialCode, Listed()[j].dialCode) ==>
                Listed()[i].dialCode == Listed()[j].dialCode
  {
    ListedDialShapes();
    forall i, j | 0 <= i < |Listed()| && 0 <= j < |Listed()|
        && Strings.IsPrefix(Listed()[i].dialCode, Listed()[j].dialCode)
      ensures Listed()[i].dialCode == Listed()[j].dialCode
    {
      var p, q := Listed()[i].dialCode, Listed()[j].dialCode;
      if |p| == |q| {
        assert q[..|p|] == q;
      }
    }
  }

  /** The table holds exactly the listed entries, each once. */
  lemma TableEntries()
    ensures multiset(Table()) == multiset(Listed())
    ensures |Table()| == 20
    ensures Seqs.Distinct(Table())
  {
    ListedCodesDistinct();
    ListedDistinct();
    assert |multiset(Listed())| == 20;
    Seqs.DistinctPermutation(Listed(), Table());
  }

  /** Each table entry is one of the listed entries. */
  lemma TableMember(k: int)
    requires 0 <= k < |Table()|
    ensures exists i :: 0 <= i < |Listed()| && Listed()[i] == Table()[k]
  {
    TableEntries();
    Seqs.MultisetIndex(Listed(), Table()[k]);
  }

  /** After module load the table is in ascending order of name. */
  lemma TableSortedByName()
    ensures forall i, j :: 0 <= i < j < |Table()| ==>
      Strings.Compare(Table()[i].name, Table()[j].name) < 0
  {
    ListedNamesDistinct();
    Sorting.SortByTextAscending(Listed(), (c: Country) => c.name);
  }

  /** The table has twenty entries with pairwise distinct codes. */
  lemma TableCodesDistinct()
    ensures |Table()| == 20
    ensures forall i, j :: 0 <= i < j < |Table()| ==> Table()[i].code != Table()[j].code
  {
    TableEntries();
    ListedCodesDistinct();
    forall i, j | 0 <= i < j < |Table()|
      ensures Table()[i].code != Table()[j].code
    {
      TableMember(i);
      TableMember(j);
      var a :| 0 <= a < |Listed()| && Listed()[a] == Table()[i];
      var b :| 0 <= b < |Listed()| && Listed()[b] == Table()[j];
      assert a != b;
    }
  }

  /** Every dial code in the table is `+` and one to three digits, and none is a proper
      prefix of another. */
  lemma TableDialCodes()
    ensures forall k :: 0 <= k < |Table()| ==> WellFormedDial(Table()[k].dialCode)
    ensures forall k, m ::
              0 <= k < |Table()| && 0 <= m < |Table()| &&
              Strings.IsPrefix(Table()[k].dialCode, Table()[m].dialCode) ==>
                Table()[k].dialCode == Table()[m].dialCode
  {
    ListedDialsWellFormed();
    ListedDialsPrefixFree();
    forall k | 0 <= k < |Table()|
      ensures WellFormedDial(Table()[k].dialCode)
    {
      TableMember(k);
    }
    forall k, m | 0 <= k < |Table()| && 0 <= m < |Table()|
      && Strings.IsPrefix(Table()[k].dialCode, Table()[m].dialCode)
      ensures Table()[k].dialCode == Table()[m].dialCode
    {
      TableMember(k);
      TableMember(m);
    }
  }

  /** The matcher of `find(c => c.code === code)`. */
  function HasCode(code: string): Country -> bool {
    (c: Country) => c.code == code
  }

  /** In any rearrangement of entries with distinct codes, lookup by the code of entry `i`
      returns entry `i`. */
  lemma FindByCode(xs: seq<Country>, ys: seq<Country>, code: string, i: int)
    requires multiset(xs) == multiset(ys)
    requires forall a, b :: 0 <= a < b < |xs| ==> xs[a].code != xs[b].code
    requires 0 <= i < |xs| && xs[i].code == code
    ensures Seqs.Find(ys, HasCode(code)) == Some(xs[i])
  {
    Seqs.FindUnique(xs, ys, HasCode(code), xs[i]);
  }

  /** Lookup by the code of a listed entry returns that entry. */
  lemma FindEntry(code: string, i: int)
    requires 0 <= i < |Listed()| && Listed()[i].code == code
    ensures Find(code) == Some(Listed()[i])
  {
    TableEntries();
    ListedCodesDistinct();
    FindByCode(Listed(), Table(), code, i);
  }

  /** Lookup by code finds the one listed entry with that code, or nothing. */
  lemma FindListed(code: string)
    ensures Find(code).Some? <==> exists i :: 0 <= i < |Listed()| && Listed()[i].code == code
    ensures forall i :: 0 <= i < |Listed()| && Listed()[i].code == code ==> Find(code) == Some(Listed()[i])
  {
    TableEntries();
    Seqs.FindPermutation(Listed(), Table(), HasCode(code));
    forall i | 0 <= i < |Listed()| && Listed()[i].code == code
      ensures Find(code) == Some(Listed()[i])
    {
      FindEntry(code, i);
    }
  }

  /** A code outside the list is the code of no listed entry. */
  lemma NoListedCode(code: string)
    requires CodeIndex(code).None?
    ensures forall i :: 0 <= i < |Listed()| ==> Listed()[i].code != code
  {
    forall i | 0 <= i < |Listed()|
      ensures Listed()[i].code != code
    {
      assert Listed()[i] == Entry(i);
    }
  }

  /** `countries.find` by code over the sorted table returns the entry with that code, or
      nothing for a code outside the list. */
  lemma FindLookup(code: string)
    ensures Find(code) == Lookup(code)
  {
    match CodeIndex(code)
    case None =>
      NoListedCode(code);
      TableEntries();
      Seqs.FindPermutation(Listed(), Table(), HasCode(code));
    case Some(k) =>
      assert Listed()[k] == Entry(k);
      FindEntry(code, k);
  }

  /** The form default `US` is the table's United States, dial code `+1`. */
  lemma FindUS()
    ensures Find("US") == Some(Country("US", "United States", "+1"))
  {
    FindEntry("US", 0);
  }

  /** `CA` is Canada, which shares the dial code `+1` with the United States. */
  lemma FindCA()
    ensures Find("CA") == Some(Country("CA", "Canada", "+1"))
  {
    FindEntry("CA", 10);
  }

  /** `US` and `CA` share `+1`: a dial code does not determine the country. */
  lemma SharedDialCode()
    ensures Find("US").Some? && Find("CA").Some?
    ensures Find("US").value.dialCode == Find("CA").value.dialCode == "+1"
    ensures Find("US").value != Find("CA").value
  {
    FindUS();
    FindCA();
  }
}
