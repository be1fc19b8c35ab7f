# WorldCities: countries controller, city edit form and countries grid

A Dafny model of three pieces of the WorldCities application, a countries and
cities reference-data web app with an ASP.NET Core API and an Angular client.

- **Countries controller** (`Countries`, `countries_controller.dfy`). The
  database context is a class, `CountriesController`, with three fields:
  - the Countries table, as a map from primary key to row;
  - the Cities table reduced to each city's country id;
  - the table's identity counter.

  The read-only actions are functions of this state: the list projection
  (`GetCountries`), `GetCountry`, `CountryExists` and `IsDupeField`. The
  mutating actions (`PutCountry`, `PostCountry`, `DeleteCountry`) are methods.
  Each one states the HTTP outcome and the whole new table. The uniqueness
  check `IsDupeField` is also a pure function over a table, with lemmas:
  - the asking country's own row never counts;
  - any other row's own value is reported;
  - the name comparison ignores case.
- **City edit form** (`CityEdit`, `city_edit.dfy`).
  - The lat/lon validator `^[-]?[0-9]+(\.[0-9]{1,4})?$` is modelled as a
    character-by-character matcher (`MatchesCoordinate`). A lemma proves that
    it accepts exactly the language of a declarative reading of the pattern
    (`CoordinateText`).
  - Add or edit mode is chosen from the route's id.
  - The city sent to the duplicate check is built from the form, and the check's
    boolean answer is mapped to a form error.
  - The submit modifies the loaded city and puts it, or posts a new one. The
    city sent to the duplicate check is proved to be the one that is submitted.
- **Countries grid** (`CountriesGrid`, `countries_component.dfy`).
  - The request arguments are derived from the paginator event, the sort
    header and the filter text. The country service that turns them into a
    query string is not part of this model. Under the assumption that it
    leaves out the null filter arguments (`QueryString`), they are proved to
    give the same query string as the file's earlier variant, `getData1`.
  - `loadData` always requests the first page of ten rows.
  - The success handler copies the page payload into the paginator and the
    table.

`wrappers.dfy` holds the `Option` type that stands for the source's null and
undefined values.

The model follows the code in two places a reader might not expect:
- `IsDupeField` ignores case only for `name`. `iso2` and `iso3` are compared
  exactly.
- An update of an absent id answers NotFound. The conflict that the existence
  re-check re-throws cannot arise in a model with no concurrent writers.

## Model

| member | source | states |
|---|---|---|
| `Countries.LowerChar` | WorldCities.Server/Controllers/CountriesController.cs:150 | the lower-cased character is never an upper-case ASCII letter; A-Z map to a-z, everything else is unchanged |
| `Countries.Lower` | WorldCities.Server/Controllers/CountriesController.cs:150 | lower-casing keeps the length and folds each character independently |
| `Countries.LowerIdempotent` | WorldCities.Server/Controllers/CountriesController.cs:150 | lower-casing twice is the same as lower-casing once |
| `Countries.IsDupeField` | WorldCities.Server/Controllers/CountriesController.cs:138-160 | false for an empty value and for any field name other than name, iso2 and iso3; otherwise true iff some row whose Id differs from countryId matches the value (name after lower-casing both sides, iso2/iso3 exactly) |
| `Countries.DupeFieldIgnoresOwnRow` | WorldCities.Server/Controllers/CountriesController.cs:148-156 | removing the row of the asking country from the table never changes the answer |
| `Countries.DupeFieldFindsOtherRow` | WorldCities.Server/Controllers/CountriesController.cs:148-156 | the non-empty value of any other country's name, iso2 or iso3 is reported as a duplicate |
| `Countries.DupeNameIgnoresCase` | WorldCities.Server/Controllers/CountriesController.cs:148-150 | the name check gives the same answer for a value and for its lower-cased form |
| `Countries.DupeFieldAloneIsUnique` | WorldCities.Server/Controllers/CountriesController.cs:148-156 | a table that holds only the asking country reports no duplicate for any field or value |
| `Countries.CityCountAddCity` | WorldCities.Server/Controllers/CountriesController.cs:46 | adding a new city to a country raises that country's TotCities by one and leaves every other country's count alone |
| `Countries.CityCountRemoveCity` | WorldCities.Server/Controllers/CountriesController.cs:46 | removing a city lowers its own country's TotCities by one and leaves every other count alone |
| `Countries.WithoutCitiesOf` | WorldCities.Server/Controllers/CountriesController.cs:125-126 | the cities left after a cascading delete are exactly those of other countries, each still linked to its own country |
| `Countries.UnstoredCountryHasNoCities` | WorldCities.Server/Controllers/CountriesController.cs:46 | while every city belongs to a stored country, a country that is not stored has TotCities 0 |
| `Countries.CascadeKeepsLinksStored` | WorldCities.Server/Controllers/CountriesController.cs:125-126 | removing a country with its cities keeps every remaining city linked to a stored country, and the removed id has no cities left |
| `Countries.CityCountBounds` | WorldCities.Server/Controllers/CountriesController.cs:46 | TotCities never exceeds the number of cities, and is 0 iff no city refers to the country |
| `Countries.CountriesController.constructor` | WorldCities.Server/Controllers/CountriesController.cs:22-25 | the controller starts over a given keyed table, a city relation in which every city belongs to a stored country, and an identity counter above every key; `Valid` holds |
| `Countries.CountriesController.GetCountries` | WorldCities.Server/Controllers/CountriesController.cs:40-47 | one DTO per stored country, with Id, Name, ISO2 and ISO3 unchanged and TotCities the number of cities whose country is that Id |
| `Countries.CountriesController.Find` | WorldCities.Server/Controllers/CountriesController.cs:60 | a row is found iff its key is stored, and it is that stored row |
| `Countries.CountriesController.GetCountry` | WorldCities.Server/Controllers/CountriesController.cs:58-68 | NotFound iff no country has that id; otherwise 200 with exactly the stored country |
| `Countries.CountriesController.CountryExists` | WorldCities.Server/Controllers/CountriesController.cs:131-134 | some row carries the id iff the id is a key of the table |
| `Countries.CountriesController.PutCountry` | WorldCities.Server/Controllers/CountriesController.cs:74-100 | id mismatch gives BadRequest with the table unchanged; an absent id gives NotFound with the table unchanged; otherwise only that entry is replaced and the answer is NoContent |
| `Countries.CountriesController.PostCountry` | WorldCities.Server/Controllers/CountriesController.cs:106-112 | exactly one entry is added, under an id not previously in the table, and the answer is Created with the country carrying that new id; the new country has TotCities 0; `Valid` is kept |
| `Countries.CountriesController.DeleteCountry` | WorldCities.Server/Controllers/CountriesController.cs:117-129 | an absent id gives NotFound with both tables unchanged; otherwise exactly that entry is removed together with its cities (cascade), all other rows and cities stay, every remaining country keeps its TotCities, `Valid` is kept, and the answer is NoContent |
| `Countries.CountriesController.IsDupeFieldNow` | WorldCities.Server/Controllers/CountriesController.cs:138-160 | the endpoint over the controller's table: true iff the value is non-empty and a row under another key matches it |
| `CityEdit.MatchesCoordinate` | worldcities.client/src/app/cities/city-edit.component.ts:59-60 | the pattern test on a lat/lon text; a matching text is non-empty and starts with a minus or a digit (the full language is `MatchesCoordinateIff`) |
| `CityEdit.MatchesCoordinateIff` | worldcities.client/src/app/cities/city-edit.component.ts:59-60 | the lat/lon matcher accepts exactly: an optional single leading minus, one or more ASCII digits, then optionally a point and 1 to 4 digits |
| `CityEdit.RejectsTrailingPoint` | worldcities.client/src/app/cities/city-edit.component.ts:59-60 | any text ending in a point is rejected |
| `CityEdit.RejectsLongFraction` | worldcities.client/src/app/cities/city-edit.component.ts:59-60 | more than four fractional digits are rejected, with or without a sign |
| `CityEdit.RejectsLeadingPlus` | worldcities.client/src/app/cities/city-edit.component.ts:59-60 | any text starting with a plus sign is rejected |
| `CityEdit.AcceptsDecimal` | worldcities.client/src/app/cities/city-edit.component.ts:59-60 | any digit string is accepted, and so is one followed by a point and 1 to 4 digits, signed or not |
| `CityEdit.CoordinateControlErrors` | worldcities.client/src/app/cities/city-edit.component.ts:59-60 | the required error is raised exactly for the empty text; the pattern error exactly for a non-empty text outside the pattern's language |
| `CityEdit.CoordinateControlValid` | worldcities.client/src/app/cities/city-edit.component.ts:59-60 | a lat/lon control has no error iff its text is in the pattern's language (so the empty text is invalid) |
| `CityEdit.DecimalValue` | worldcities.client/src/app/cities/city-edit.component.ts:115 | the number a digit string spells, as `+idParam` reads it; its partner is `NatToDecimal` |
| `CityEdit.DecimalValueZero` | worldcities.client/src/app/cities/city-edit.component.ts:115-116 | a digit string reads as 0 iff all its digits are 0 |
| `CityEdit.NatToDecimal` | worldcities.client/src/app/cities/city-edit.component.ts:122 | the decimal text of an id, as a city's edit route spells it: non-empty and made of digits |
| `CityEdit.DecimalValueOfNatToDecimal` | worldcities.client/src/app/cities/city-edit.component.ts:115 | reading the decimal text of any n gives back n |
| `CityEdit.ToNumber` | worldcities.client/src/app/cities/city-edit.component.ts:115 | a number results exactly for digit strings, and it is non-negative |
| `CityEdit.RouteId` | worldcities.client/src/app/cities/city-edit.component.ts:114-115 | an absent or empty route parameter gives id 0 |
| `CityEdit.RouteIdOfDecimal` | worldcities.client/src/app/cities/city-edit.component.ts:114-116 | the route carrying the decimal text of id n gives the component id n, and edit mode iff n is not 0 |
| `CityEdit.IsEditMode` | worldcities.client/src/app/cities/city-edit.component.ts:116 | the truthiness of `this.id` (tested again at lines 168, 175 and 216): a number other than 0; undefined and NaN are falsy |
| `CityEdit.EditModeIff` | worldcities.client/src/app/cities/city-edit.component.ts:114-116 | edit mode is chosen iff the route parameter is a digit string with a digit other than 0 |
| `CityEdit.EditTitle` | worldcities.client/src/app/cities/city-edit.component.ts:125 | the edit title is "Edit - " followed by the city's name |
| `CityEdit.TitleTellsMode` | worldcities.client/src/app/cities/city-edit.component.ts:125-136 | the edit title never equals "Create a new City", and different names give different edit titles |
| `CityEdit.CountryIdNumber` | worldcities.client/src/app/cities/city-edit.component.ts:173 | the selected country id is used as is, and the empty selection gives 0 |
| `CityEdit.DupeCandidate` | worldcities.client/src/app/cities/city-edit.component.ts:215-220 | the candidate carries the form's name, lat, lon and country id; its id is non-zero iff in edit mode, and is then the component's id |
| `CityEdit.DupeErrors` | worldcities.client/src/app/cities/city-edit.component.ts:225-226 | a true result gives the error `{isDupeCity: true}`; false gives no error |
| `CityEdit.WithFormValues` | worldcities.client/src/app/cities/city-edit.component.ts:170-173 | the city carries the form's four values and keeps its id |
| `CityEdit.Submission` | worldcities.client/src/app/cities/city-edit.component.ts:167-210 | put iff in edit mode with a city loaded, keeping the loaded id; post iff in add mode, with a fresh city; nothing in edit mode before the city arrives; the city sent carries the form's values |
| `CityEdit.CandidateIsSubmitted` | worldcities.client/src/app/cities/city-edit.component.ts:167-226 | when the loaded city is the one the route named, the duplicate check is asked about exactly the city that is then submitted |
| `CityEdit.CityEditComponent.constructor` | worldcities.client/src/app/cities/city-edit.component.ts:56-62 | the form starts empty, with no id, title or city |
| `CityEdit.CityEditComponent.LoadData` | worldcities.client/src/app/cities/city-edit.component.ts:108-138 | the id is taken from the route; edit mode requests that city and leaves the title until it arrives; add mode sets the title "Create a new City" |
| `CityEdit.CityEditComponent.OnCityFetched` | worldcities.client/src/app/cities/city-edit.component.ts:123-129 | the fetched city is stored, the title becomes "Edit - " + its name, and its values are patched into the form |
| `CityEdit.CityEditComponent.OnSubmit` | worldcities.client/src/app/cities/city-edit.component.ts:167-210 | sends Submission of the state; in edit mode the loaded city itself now holds the form's values; nothing else changes |
| `CountriesGrid.HasQuery` | worldcities.client/src/app/countries/countries.component.ts:63-69 | the truthiness of `this.filterQuery` (also at line 99): defined and not empty |
| `CountriesGrid.GetData` | worldcities.client/src/app/countries/countries.component.ts:54-77 | page index and size come from the event; sort column and order come from the sort header when there is one, else "name" and "asc"; the filter column is "name" exactly when the filter text is non-empty, else null; the filter text is sent unchanged when non-empty, else null |
| `CountriesGrid.FilterArgumentsPaired` | worldcities.client/src/app/countries/countries.component.ts:63-69 | a request carries a filter column iff it carries a filter text, and that text is never empty |
| `CountriesGrid.GetData1Params` | worldcities.client/src/app/countries/countries.component.ts:88-103 | the earlier variant always sets the four paging and sorting keys, and sets the two filter keys only when there is a filter text |
| `CountriesGrid.QueryString` | worldcities.client/src/app/countries/countries.component.ts:71-77 | an assumption about the country service these lines call, which is not part of this model: the six arguments become query keys, and the two filter keys appear exactly when the corresponding argument is not null |
| `CountriesGrid.GetDataAgreesWithGetData1` | worldcities.client/src/app/countries/countries.component.ts:54-103 | under the `QueryString` assumption, getData's arguments give exactly the query string that getData1 builds |
| `CountriesGrid.Paginator.constructor` | worldcities.client/src/app/countries/countries.component.ts:31 | the paginator starts with the given length, page index and page size |
| `CountriesGrid.CountriesComponent.constructor` | worldcities.client/src/app/countries/countries.component.ts:25-38 | the component starts with the given sort header and paginator, no filter text and no rows |
| `CountriesGrid.CountriesComponent.LoadData` | worldcities.client/src/app/countries/countries.component.ts:46-52 | stores the query as the filter text and requests page index 0 with page size 10 |
| `CountriesGrid.CountriesComponent.OnData` | worldcities.client/src/app/countries/countries.component.ts:79-84 | the paginator's length, page index and page size equal the payload's totalCount, pageIndex and pageSize; the table's data is exactly the payload's data |

## Left out

- Paging, sorting and filtering of the list. The generic builder that
  GetCountries hands its projection to (`ApiResult<T>.CreateAsync`) is not part
  of this model, so `GetCountries` models only the projection.
- The projection is a map keyed by id. The order of the rows is the builder's
  business.
- Entity Framework mechanics: change tracking, `AsNoTracking`, `SaveChangesAsync`
  and the entry state. Only their deterministic outcome on the table is kept.
- The re-throw of the concurrency exception in `PutCountry` (a concurrent writer
  removing or changing the row) is not modelled. The model has one writer.
- `PostCountry`: the key comes from the table's identity counter. A body that
  already carries a non-zero id, which the database would refuse to insert, is
  not modelled: the incoming id is ignored.
- `DeleteCountry` deletes the country's cities with it, the default for a
  required foreign key. The entity configuration is not part of this model; a
  configuration that refuses the delete or clears the link instead is not
  modelled.
- Role checks (`[Authorize(Roles = ...)]`), routing, Swagger, logging and the rest
  of Program.cs: framework plumbing.
- `Countries.Lower`: does not model the culture-specific `ToLower`; it folds the
  ASCII letters A-Z only. The collation of the database that evaluates the
  comparison is not modelled either.
- Null strings on the server: `fieldValue` is never null in the model, so
  `IsNullOrEmpty` becomes "is empty".
- `CityEdit.ToNumber`: does not model JavaScript's full `+` conversion of the
  route parameter. Only digit strings give a number; every other text counts as
  NaN, although JavaScript would read forms such as " 7", "-5", "1e3" or "0x1F"
  as non-zero numbers. For such a route the source is in edit mode: it fetches
  that id and its submit sends nothing until a city arrives. The model is in add
  mode instead, and its submit posts a new city.
- `CountriesGrid.QueryString`: the country service that `getData` calls is not
  part of this model. It is assumed to send the four paging and sorting
  arguments always and `filterColumn`/`filterQuery` only when they are not
  null; `GetDataAgreesWithGetData1` rests on that assumption.
- Numeric conversion of lat and lon (`+value`, a floating-point number that may
  be NaN). The model keeps their text and checks only the pattern.
- `loadCountries` (a fixed request for the country list bound to the select) and
  the activity log are not modelled.
- Asynchrony: HTTP services, observables and subscriptions, and the
  duplicate-check validator's pending state and cancellation are not modelled.
  The fetch in `loadData` is split into `LoadData`, which returns the id to
  fetch, and `OnCityFetched`, the response handler. The duplicate check's
  answer is an input to `DupeErrors`.
- Router navigation after a successful submit, error logging, and
  `MatTableDataSource` beyond the rows it holds.
- The city's `countryName` and the other display-only fields of the client's
  types.
- `CitiesComponent` and its spec file: one GET assigned to a field, and
  widget-level tests.
