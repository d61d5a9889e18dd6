/** The country dropdown of `src/components/form/CountryPicker.jsx`: the
    search filter over the country list, the lookup of the selected country,
    and the open flag and search text it keeps. */
module CountryPicker {

  import opened Wrappers
  import opened Text
  import opened Seqs

  /** An entry of the country list. */
  datatype Country = Country(name: string, nationality: string, dialCode: string, code: string)

  /** The `type` prop that makes the picker choose by nationality. */
  const NationalityKind: string := "nationality"

  /** A country is listed for `search` when the search occurs in its name or
      nationality, ignoring case, or literally in its dial code. */
  predicate MatchesSearch(c: Country, search: string)
  {
    || Includes(Lower(c.name), Lower(search))
    || Includes(Lower(c.nationality), Lower(search))
    || Includes(c.dialCode, search)
  }

  /** `filteredCountries`. */
  function FilteredCountries(countries: seq<Country>, search: string): (r: seq<Country>)
    ensures forall i :: 0 <= i < |r| ==> r[i] in countries && MatchesSearch(r[i], search)
    ensures forall i :: 0 <= i < |countries| && MatchesSearch(countries[i], search) ==> countries[i] in r
    ensures forall i :: 0 <= i < |countries| ==>
              multiset(r)[countries[i]] == if MatchesSearch(countries[i], search) then multiset(countries)[countries[i]] else 0
  {
    Filter(countries, (c: Country) => MatchesSearch(c, search))
  }

  /** The list shows countries in the order of the country list. */
  lemma FilteredKeepsOrder(countries: seq<Country>, search: string)
    ensures IsSubsequence(FilteredCountries(countries, search), countries)
  {
    FilterIsSubsequence(countries, (c: Country) => MatchesSearch(c, search));
  }

  /** With no search text every country is listed. */
  lemma EmptySearchListsAll(countries: seq<Country>)
    ensures FilteredCountries(countries, "") == countries
  {
    forall i | 0 <= i < |countries|
      ensures MatchesSearch(countries[i], "")
    {
      IncludesEmpty(countries[i].dialCode);
    }
    FilterKeepsAll(countries, (c: Country) => MatchesSearch(c, ""));
  }

  /** Typing more characters only narrows the list. */
  lemma LongerSearchNarrows(countries: seq<Country>, search: string, more: string)
    ensures IsSubsequence(FilteredCountries(countries, search + more), FilteredCountries(countries, search))
  {
    var longer := search + more;
    LowerPrefix(search, longer);
    forall i | 0 <= i < |countries| && MatchesSearch(countries[i], longer)
      ensures MatchesSearch(countries[i], search)
    {
      var c := countries[i];
      if Includes(Lower(c.name), Lower(longer)) {
        IncludesPrefix(Lower(c.name), Lower(search), Lower(longer));
      } else if Includes(Lower(c.nationality), Lower(longer)) {
        IncludesPrefix(Lower(c.nationality), Lower(search), Lower(longer));
      } else {
        IncludesPrefix(c.dialCode, search, longer);
      }
    }
    FilterNarrows(countries, (c: Country) => MatchesSearch(c, longer), (c: Country) => MatchesSearch(c, search));
  }

  /** Whether `c` is the country `value` names: by nationality for the
      nationality picker, by name otherwise. */
  predicate Names(c: Country, kind: string, value: string)
  {
    if kind == NationalityKind then c.nationality == value else c.name == value
  }

  /** `selectedCountry`: the first country `value` names. */
  function SelectedCountry(countries: seq<Country>, kind: string, value: string): (r: Option<Country>)
    ensures r.None? <==> forall i :: 0 <= i < |countries| ==> !Names(countries[i], kind, value)
    ensures r.Some? ==> exists i :: 0 <= i < |countries| && countries[i] == r.value
                                    && Names(countries[i], kind, value)
                                    && forall j :: 0 <= j < i ==> !Names(countries[j], kind, value)
  {
    Find(countries, (c: Country) => Names(c, kind, value))
  }

  /** Choosing a country from the list and passing its nationality (or name)
      back as the value shows that country as selected, provided no earlier
      country shares it. */
  lemma SelectThenShow(countries: seq<Country>, kind: string, i: int)
    requires 0 <= i < |countries|
    requires forall j :: 0 <= j < i ==>
               (if kind == NationalityKind then countries[j].nationality != countries[i].nationality
                else countries[j].name != countries[i].name)
    ensures SelectedCountry(countries, kind,
              if kind == NationalityKind then countries[i].nationality else countries[i].name)
            == Some(countries[i])
  {
    var value := if kind == NationalityKind then countries[i].nationality else countries[i].name;
    var r := SelectedCountry(countries, kind, value);
    assert Names(countries[i], kind, value);
    var k :| 0 <= k < |countries| && countries[k] == r.value && Names(countries[k], kind, value)
             && forall j :: 0 <= j < k ==> !Names(countries[j], kind, value);
    assert k == i;
  }

  /** The picker's state: the search text and whether the list is open. */
  class Picker {
    const countries: seq<Country>
    const kind: string
    var isOpen: bool
    var search: string

    constructor(countries: seq<Country>, kind: string)
      ensures this.countries == countries && this.kind == kind
      ensures !isOpen && search == ""
    {
      this.countries := countries;
      this.kind := kind;
      isOpen := false;
      search := "";
    }

    /** The countries the open list shows. */
    function Shown(): (r: seq<Country>)
      reads this
      ensures forall i :: 0 <= i < |r| ==> r[i] in countries && MatchesSearch(r[i], search)
      ensures forall i :: 0 <= i < |countries| && MatchesSearch(countries[i], search) ==> countries[i] in r
      ensures forall i :: 0 <= i < |countries| ==>
                multiset(r)[countries[i]] == if MatchesSearch(countries[i], search) then multiset(countries)[countries[i]] else 0
    {
      FilteredCountries(countries, search)
    }

    /** `handleSelect`: hand the country to `onChange`, close the list and
        clear the search. */
    method HandleSelect(country: Country) returns (chosen: Country)
      modifies this
      ensures chosen == country
      ensures !isOpen && search == ""
      ensures Shown() == countries
    {
      chosen := country;
      isOpen := false;
      search := "";
      EmptySearchListsAll(countries);
    }

    /** A click on the trigger. */
    method Toggle()
      modifies this
      ensures isOpen == !old(isOpen) && search == old(search)
    {
      isOpen := !isOpen;
    }

    /** Typing in the search box. */
    method SetSearch(text: string)
      modifies this
      ensures search == text && isOpen == old(isOpen)
    {
      search := text;
    }

    /** A mouse press outside the picker; the listener is always installed. */
    method ClickOutside()
      modifies this
      ensures !isOpen && search == old(search)
    {
      isOpen := false;
    }
  }
}
