/**
 * The server's Countries controller: the Countries table of the database context,
 * held as a map from id to row, together with the Cities table reduced to the
 * country each city belongs to. Reads are functions of that state; the three
 * mutating endpoints are methods that change the map and say exactly how.
 */
module Countries {
  import opened Wrappers

  /** A row of the Countries table. */
  datatype Country = Country(id: int, name: string, iso2: string, iso3: string)

  /** A row of the list projection: the country's columns and the number of its cities. */
  datatype CountryDto = CountryDto(id: int, name: string, iso2: string, iso3: string, totCities: nat)

  /** The HTTP outcomes the controller's actions produce. */
  datatype Response =
    | Ok(country: Country)                      // 200 with the stored row
    | Created(location: int, country: Country)  // 201; location is the id routed to GetCountry
    | NoContent                                 // 204
    | NotFound                                  // 404
    | BadRequest                                // 400

  type Table = map<int, Country>

  /** The Cities table as far as the projection needs it: city id to the id of its country. */
  type CityLinks = map<int, int>

  /** Every row is stored under its own primary key. */
  predicate Keyed(t: Table) {
    forall k :: k in t ==> t[k].id == k
  }

  /** The ids of the cities that belong to country `countryId`. */
  function CitiesOf(links: CityLinks, countryId: int): set<int> {
    set k | k in links && links[k] == countryId
  }

  /** Every city belongs to a stored country: the foreign key on the city's country id. */
  predicate LinksStored(links: CityLinks, t: Table) {
    forall c :: c in links ==> links[c] in t
  }

  /** The city relation once the cities of country `countryId` are deleted with it. */
  function WithoutCitiesOf(links: CityLinks, countryId: int): (r: CityLinks)
    ensures r.Keys == links.Keys - CitiesOf(links, countryId)
    ensures forall c :: c in r ==> r[c] == links[c] && r[c] != countryId
  {
    map c | c in links && links[c] != countryId :: links[c]
  }

  /** The navigation count `Cities.Count` of a country. */
  function CityCount(links: CityLinks, countryId: int): nat {
    |CitiesOf(links, countryId)|
  }

  // ---------------------------------------------------------------------------
  // Lower-casing. The source calls String.ToLower, whose result depends on the
  // culture; the model folds the ASCII letters A-Z and leaves every other
  // character as it is.

  function LowerChar(c: char): (r: char)
    ensures !('A' <= r <= 'Z')
    ensures !('A' <= c <= 'Z') ==> r == c
    ensures 'A' <= c <= 'Z' ==> 'a' <= r <= 'z' && r as int - c as int == 'a' as int - 'A' as int
  {
    if 'A' <= c <= 'Z' then (c as int - 'A' as int + 'a' as int) as char else c
  }

  /** Lower-cases a string character by character. */
  function Lower(s: string): (r: string)
    ensures |r| == |s|
    ensures forall i :: 0 <= i < |s| ==> r[i] == LowerChar(s[i])
  {
    if s == [] then [] else [LowerChar(s[0])] + Lower(s[1..])
  }

  lemma LowerIdempotent(s: string)
    ensures Lower(Lower(s)) == Lower(s)
  {
  }

  // ---------------------------------------------------------------------------
  // IsDupeField: the uniqueness check behind the client's async validators.

  /** The field names the check recognises. */
  const AllowedFields: set<string> := {"name", "iso2", "iso3"}

  /** What "country `c` already has value `v` in field `fieldName`" means. */
  predicate FieldMatches(fieldName: string, c: Country, v: string) {
    if fieldName == "name" then Lower(c.name) == Lower(v)
    else if fieldName == "iso2" then c.iso2 == v
    else if fieldName == "iso3" then c.iso3 == v
    else false
  }

  /** The value a country holds in an allowed field. */
  function FieldOf(c: Country, fieldName: string): string
    requires fieldName in AllowedFields
  {
    if fieldName == "name" then c.name else if fieldName == "iso2" then c.iso2 else c.iso3
  }

  /**
   * True when some country other than `countryId` already holds `fieldValue`:
   * the name compared after lower-casing, the ISO codes exactly. An empty value
   * and a field name outside the allow-list answer false.
   */
  function IsDupeField(t: Table, countryId: int, fieldName: string, fieldValue: string): (r: bool)
    ensures fieldValue == [] ==> !r
    ensures fieldName !in AllowedFields ==> !r
    ensures r <==> fieldValue != []
                   && exists k :: k in t && t[k].id != countryId && FieldMatches(fieldName, t[k], fieldValue)
  {
    if fieldValue == [] then false
    else if fieldName == "name" then
      exists k :: k in t && Lower(t[k].name) == Lower(fieldValue) && t[k].id != countryId
    else if fieldName == "iso2" then
      exists k :: k in t && t[k].iso2 == fieldValue && t[k].id != countryId
    else if fieldName == "iso3" then
      exists k :: k in t && t[k].iso3 == fieldValue && t[k].id != countryId
    else false
  }

  /** The row whose id is passed never counts: removing it changes no answer. */
  lemma DupeFieldIgnoresOwnRow(t: Table, countryId: int, fieldName: string, fieldValue: string)
    requires Keyed(t)
    ensures IsDupeField(t, countryId, fieldName, fieldValue)
            == IsDupeField(t - {countryId}, countryId, fieldName, fieldValue)
  {
    if IsDupeField(t, countryId, fieldName, fieldValue) {
      var k :| k in t && t[k].id != countryId && FieldMatches(fieldName, t[k], fieldValue);
      assert k in t - {countryId};
    }
  }

  /** Any other country's own non-empty value is reported as a duplicate. */
  lemma DupeFieldFindsOtherRow(t: Table, countryId: int, k: int, fieldName: string)
    requires Keyed(t) && k in t && k != countryId
    requires fieldName in AllowedFields && FieldOf(t[k], fieldName) != []
    ensures IsDupeField(t, countryId, fieldName, FieldOf(t[k], fieldName))
  {
  }

  /** The name check does not depend on the case of the value asked about. */
  lemma DupeNameIgnoresCase(t: Table, countryId: int, fieldValue: string)
    ensures IsDupeField(t, countryId, "name", fieldValue)
            == IsDupeField(t, countryId, "name", Lower(fieldValue))
  {
    LowerIdempotent(fieldValue);
  }

  /** A table holding only the asking country never reports a duplicate. */
  lemma DupeFieldAloneIsUnique(c: Country, fieldName: string, fieldValue: string)
    ensures !IsDupeField(map[c.id := c], c.id, fieldName, fieldValue)
  {
  }

  // ---------------------------------------------------------------------------
  // The city count of the projection.

  /** Adding a new city to a country raises that country's count by one and no other. */
  lemma CityCountAddCity(links: CityLinks, cityId: int, countryId: int, other: int)
    requires cityId !in links
    ensures CityCount(links[cityId := countryId], countryId) == CityCount(links, countryId) + 1
    ensures other != countryId ==> CityCount(links[cityId := countryId], other) == CityCount(links, other)
  {
    var after := links[cityId := countryId];
    assert CitiesOf(after, countryId) == CitiesOf(links, countryId) + {cityId};
    assert other != countryId ==> CitiesOf(after, other) == CitiesOf(links, other);
  }

  /** Removing a city lowers exactly its own country's count by one. */
  lemma CityCountRemoveCity(links: CityLinks, cityId: int, other: int)
    requires cityId in links
    ensures CityCount(links - {cityId}, links[cityId]) == CityCount(links, links[cityId]) - 1
    ensures other != links[cityId] ==> CityCount(links - {cityId}, other) == CityCount(links, other)
  {
    var after := links - {cityId};
    assert CitiesOf(links, links[cityId]) == CitiesOf(after, links[cityId]) + {cityId};
    assert other != links[cityId] ==> CitiesOf(after, other) == CitiesOf(links, other);
  }

  /** No country has more cities than the Cities table holds, and none has any when no city names it. */
  lemma CityCountBounds(links: CityLinks, countryId: int)
    ensures CityCount(links, countryId) <= |links|
    ensures CityCount(links, countryId) == 0 <==> forall k :: k in links ==> links[k] != countryId
  {
    SubsetCardinality(CitiesOf(links, countryId), links.Keys);
    if CityCount(links, countryId) == 0 {
      assert CitiesOf(links, countryId) == {};
      forall k | k in links ensures links[k] != countryId {
        assert k in CitiesOf(links, countryId) <==> links[k] == countryId;
      }
    }
    if forall k :: k in links ==> links[k] != countryId {
      assert CitiesOf(links, countryId) == {};
    }
  }

  /** A country that is not stored has no cities while the foreign key holds. */
  lemma UnstoredCountryHasNoCities(links: CityLinks, t: Table, countryId: int)
    requires LinksStored(links, t) && countryId !in t
    ensures CityCount(links, countryId) == 0
  {
    CityCountBounds(links, countryId);
  }

  /** Deleting a country together with its cities keeps the foreign key. */
  lemma CascadeKeepsLinksStored(links: CityLinks, t: Table, countryId: int)
    requires LinksStored(links, t)
    ensures LinksStored(WithoutCitiesOf(links, countryId), t - {countryId})
    ensures CityCount(WithoutCitiesOf(links, countryId), countryId) == 0
  {
  }

  lemma {:induction false} SubsetCardinality<T>(a: set<T>, b: set<T>)
    requires a <= b
    ensures |a| <= |b|
  {
    if a != {} {
      var x :| x in a;
      SubsetCardinality(a - {x}, b - {x});
    }
  }

  // ---------------------------------------------------------------------------

  /**
   * The controller over its database context. `countries` is the Countries
   * table, `cityCountry` the Cities table reduced to each city's country, and
   * `nextId` the table's identity counter: the key the next insert receives.
   */
  class CountriesController {
    var countries: Table
    var cityCountry: CityLinks
    var nextId: int

    ghost predicate Valid()
      reads this
    {
      && Keyed(countries)
      && LinksStored(cityCountry, countries)
      && 1 <= nextId
      && forall k :: k in countries ==> 1 <= k < nextId
    }

    constructor (seed: Table, links: CityLinks, next: int)
      requires Keyed(seed) && LinksStored(links, seed)
      requires 1 <= next && forall k :: k in seed ==> 1 <= k < next
      ensures Valid()
      ensures countries == seed && cityCountry == links && nextId == next
    {
      countries := seed;
      cityCountry := links;
      nextId := next;
    }

    /**
     * GET api/Countries, as far as this controller defines it: the projection
     * of every row to its DTO. Paging, sorting and filtering are applied to
     * this projection by a builder that is not part of this model.
     */
    function GetCountries(): (r: map<int, CountryDto>)
      reads this
      ensures r.Keys == countries.Keys
      ensures forall k :: k in r ==>
                && r[k].id == countries[k].id
                && r[k].name == countries[k].name
                && r[k].iso2 == countries[k].iso2
                && r[k].iso3 == countries[k].iso3
                && r[k].totCities == |set c | c in cityCountry && cityCountry[c] == countries[k].id|
    {
      map k | k in countries ::
        var c := countries[k];
        CountryDto(c.id, c.name, c.iso2, c.iso3, CityCount(cityCountry, c.id))
    }

    /** FindAsync: the row stored under primary key `id`, if any. */
    function Find(id: int): (r: Option<Country>)
      reads this
      ensures r.Some? <==> id in countries
      ensures r.Some? ==> r.value == countries[id]
    {
      if id in countries then Some(countries[id]) else None
    }

    /** GET api/Countries/{id}. */
    function GetCountry(id: int): (r: Response)
      reads this
      ensures r == NotFound <==> id !in countries
      ensures r != NotFound ==> r == Ok(countries[id])
    {
      match Find(id)
      case None => NotFound
      case Some(country) => Ok(country)
    }

    /** Whether any row carries id `id` in its Id column. */
    function CountryExists(id: int): (r: bool)
      reads this
      requires Valid()
      ensures r <==> id in countries
    {
      exists k :: k in countries && countries[k].id == id
    }

    /**
     * PUT api/Countries/{id}. A path id that differs from the body's id is a
     * bad request. Otherwise the body replaces the stored row; when no row has
     * that id the save affects nothing, and the existence re-check answers
     * NotFound.
     */
    method PutCountry(id: int, country: Country) returns (r: Response)
      requires Valid()
      modifies this
      ensures Valid()
      ensures id != country.id ==> r == BadRequest && countries == old(countries)
      ensures id == country.id && id !in old(countries) ==> r == NotFound && countries == old(countries)
      ensures id == country.id && id in old(countries) ==>
                r == NoContent && countries == old(countries)[id := country]
      ensures cityCountry == old(cityCountry) && nextId == old(nextId)
    {
      if id != country.id {
        return BadRequest;
      }
      if id in countries {
        countries := countries[id := country];
        r := NoContent;
      } else {
        assert !CountryExists(id);
        r := NotFound;
      }
    }

    /**
     * POST api/Countries. The row is inserted under the next identity value,
     * whatever id the body carried, and returned with that id.
     */
    method PostCountry(country: Country) returns (r: Response)
      requires Valid()
      modifies this
      ensures Valid()
      ensures r.Created? && r.location == r.country.id && r.country == country.(id := r.location)
      ensures r.location !in old(countries)
      ensures countries == old(countries)[r.location := r.country]
      ensures |countries| == |old(countries)| + 1
      ensures CityCount(cityCountry, r.location) == 0
      ensures cityCountry == old(cityCountry) && nextId > old(nextId)
    {
      UnstoredCountryHasNoCities(cityCountry, countries, nextId);
      var stored := country.(id := nextId);
      countries := countries[nextId := stored];
      nextId := nextId + 1;
      r := Created(stored.id, stored);
    }

    /**
     * DELETE api/Countries/{id}. The country's cities go with it, as a required
     * foreign key cascades by default.
     */
    method DeleteCountry(id: int) returns (r: Response)
      requires Valid()
      modifies this
      ensures Valid()
      ensures id !in old(countries) ==> r == NotFound && countries == old(countries) && cityCountry == old(cityCountry)
      ensures id in old(countries) ==>
                && r == NoContent
                && countries == old(countries) - {id}
                && cityCountry == WithoutCitiesOf(old(cityCountry), id)
      ensures forall k :: k in countries ==> CityCount(cityCountry, k) == CityCount(old(cityCountry), k)
      ensures nextId == old(nextId)
    {
      var found := Find(id);
      if found.None? {
        return NotFound;
      }
      var before := cityCountry;
      countries := countries - {found.value.id};
      CascadeKeepsLinksStored(cityCountry, old(countries), id);
      cityCountry := WithoutCitiesOf(cityCountry, id);
      forall k | k in countries ensures CityCount(cityCountry, k) == CityCount(before, k) {
        assert CitiesOf(cityCountry, k) == CitiesOf(before, k);
      }
      r := NoContent;
    }

    /** POST api/Countries/IsDupeField, against the current table. */
    function IsDupeFieldNow(countryId: int, fieldName: string, fieldValue: string): (r: bool)
      reads this
      requires Valid()
      ensures r <==> fieldValue != [] && exists k :: k in countries && k != countryId
                                                    && FieldMatches(fieldName, countries[k], fieldValue)
    {
      IsDupeField(countries, countryId, fieldName, fieldValue)
    }
  }
}
