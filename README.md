# WorldCities: the seed import and the edit-form validators

WorldCities keeps a table of countries and a table of cities. Data reaches it by
two write paths.

- **The bulk import.** `GET api/Seed/Import` reads a worksheet of cities. It adds
  only the countries and cities the store does not already hold.
  - Phase 1 covers countries. A country is new when no stored or already-staged
    country has the same name, compared case-insensitively. All new countries
    are saved in one batch.
  - Phase 2 covers cities. A city is new when no stored city has the same
    (Name, Lat, Lon, CountryId) tuple. Each row's CountryId is resolved through
    the phase-1 dictionary. All new cities are saved in one batch.
  - Each phase saves only if it staged something. The import returns both
    counters.
- **The edit forms.** The Angular city and country edit forms check a record's
  shape before it is submitted: required fields, the coordinate pattern, and the
  ISO 3166-1 alpha-2 and alpha-3 code shapes. They also ask the server whether
  the record would duplicate another one. That request excludes the id of the
  record being edited, or 0 when a record is being created.

The project has these modules:

| module | file | what it holds |
|---|---|---|
| `Wrappers` | wrappers.dfy | `Option` and `Result` |
| `Text` | text.dfy | ASCII character classes, and the case fold behind `StringComparer.OrdinalIgnoreCase` |
| `Models` | models.dfy | `Country`, `City`, the store and its invariants; decimal(7,4) coordinates as integers scaled by 10^4; the `Cities` navigation; one batched save (`Commit`) |
| `Persistence` | db_context.dfy | class `DbContext`, the stand-in for the Entity Framework context: persisted tables, added-but-unsaved entities, `SaveChanges` |
| `SeedSpec` | seed_spec.dfy | the import as a function of the store, the worksheet and the environment (`ImportSpec`), with its properties as lemmas |
| `Seed` | seed_controller.dfy | class `SeedController` with the imperative `Import`: two loops, the two dictionaries, the counters and the conditional saves, proved to leave the context exactly as `ImportSpec` says |
| `Forms` | forms.dfy | the parts of Angular reactive forms both components use: `required`, `pattern`, the mapped duplicate answer, the route id |
| `CityEdit` | city_edit.dfy | the coordinate pattern, the city form's controls, the `isDupeCity` request |
| `CountryEdit` | country_edit.dfy | the ISO code patterns, the country form's controls, the per-field `isDupeField` request |

Exceptions become `Failure` values of `ImportError`:

- `NotAllowed`: the environment is not Development.
- `NoDimension`: the worksheet is empty, so it has no `Dimension`.
- `DuplicateCountryName`: the country `ToDictionary` meets a repeated key.
- `DuplicateCityKey`: the city `ToDictionary` meets a repeated key. This happens after phase 1 has already saved.
- `CoordinateOutOfRange`: the phase-2 `SaveChangesAsync` (`SeedController.cs:133`) meets a staged
  city whose Lat or Lon does not fit the decimal(7,4) columns (`City.cs:25-32`). The database
  rejects the whole batch, so no city is written, but phase 1 has already saved its countries.
  The phase-1 save holds no city and cannot fail this way. Every other save is taken to succeed.

A worksheet is a sequence of already-parsed rows. Row 1 is the header, at index 0.

Two consequences of the code are worth stating:

- **Repeated new cities.** Phase 2 never adds the cities it stages to the city
  dictionary (`SeedController.cs:111-127`), so two identical new rows in one
  worksheet are both added, and the next run over that worksheet throws at the
  city `ToDictionary` (`SeedController.cs:88-94`).
- **Idempotence.** A second run over the same worksheet adds nothing only when
  the first run left no repeated city tuple behind (`ImportTwiceAddsNothing`);
  `RepeatedNewCityBreaksRerun` is the two-row worksheet for which it fails.

## Model

| member | source | states |
|---|---|---|
| Text.FoldEqualIffEqualsIgnoreCase | WorldCities/WorldCitiesAPI/Controllers/SeedController.cs:50-52 | two names are the same dictionary key exactly when they are equal character by character ignoring ASCII case |
| Text.FoldIdempotent | WorldCities/WorldCitiesAPI/Controllers/SeedController.cs:50-52 | the dictionary key keeps the length, is already a key of itself, and holds no lower-case ASCII letter |
| Models.Decimal74Bounds | WorldCities/WorldCitiesAPI/Data/Models/City.cs:25-32 | a value stored in a decimal(7,4) Lat or Lon column has magnitude below 1000 |
| Models.NoStoredIdIsZero | WorldCities/WorldCitiesAPI/Data/Models/City.cs:10-15 | in a valid store no country or city has Id 0, so the 0 a create form sends never excludes a real record |
| Models.CitiesOf | WorldCities/WorldCitiesAPI/Data/Models/Country.cs:34-38 | a country's Cities collection holds exactly the stored cities whose CountryId is its Id |
| Models.EveryCityHasOneCountry | WorldCities/WorldCitiesAPI/Data/Models/City.cs:34-38 | in a valid store every city is in the Cities collection of one stored country, and of only one |
| Models.CommitKeepsCoordinatesFit | WorldCities/WorldCitiesAPI/Data/Models/City.cs:25-32 | a save whose added cities fit decimal(7,4) keeps the whole city table fitting it |
| Models.CommitKeepsStoreValid | WorldCities/WorldCitiesAPI/Data/Models/City.cs:10-38 | a batched save keeps both primary keys unique and every CountryId pointing at a stored country, provided the added cities reference countries that exist after the save |
| Persistence.DbContext.AddCountry | WorldCities/WorldCitiesAPI/Controllers/SeedController.cs:76 | adding a country appends it to the added entities and writes nothing |
| Persistence.DbContext.AddCity | WorldCities/WorldCitiesAPI/Controllers/SeedController.cs:127 | adding a city appends it to the added entities and writes nothing |
| Persistence.DbContext.SaveChanges | WorldCities/WorldCitiesAPI/Controllers/SeedController.cs:132-133 | a save succeeds exactly when every added city fits decimal(7,4); it then appends every added entity with consecutive identity ids, empties the added lists and counts one write, and otherwise changes nothing and leaves the entities pending |
| SeedSpec.StagedCountriesAreNew | WorldCities/WorldCitiesAPI/Controllers/SeedController.cs:55-81 | phase 1 stages exactly one country for each row name that is not already stored, compared ignoring case, and no two staged names are equal ignoring case |
| SeedSpec.StagedCountriesCount | WorldCities/WorldCitiesAPI/Controllers/SeedController.cs:55-81 | the number of staged countries is the number of case-insensitively distinct row names absent from the store |
| SeedSpec.DistinctNamesCount | WorldCities/WorldCitiesAPI/Controllers/SeedController.cs:76-80 | a list of countries with case-insensitively distinct names has as many keys as entries |
| SeedSpec.SameNameIgnoringCaseAddsNothing | WorldCities/WorldCitiesAPI/Controllers/SeedController.cs:50-65 | a row whose name equals a stored country's name, or an earlier row's name, ignoring case, creates no country |
| SeedSpec.FirstRowWith | WorldCities/WorldCitiesAPI/Controllers/SeedController.cs:55-81 | the first row naming a given key: it names the key and no earlier row does |
| SeedSpec.StagedCountriesFromFirstRows | WorldCities/WorldCitiesAPI/Controllers/SeedController.cs:67-78 | each staged country carries the name, ISO2 and ISO3 of the first row that names it, and Id 0 |
| SeedSpec.NameIndexContents | WorldCities/WorldCitiesAPI/Controllers/SeedController.cs:50-52 | the country dictionary has one key per stored name, and each key maps to the country with that name |
| SeedSpec.CityIndexContents | WorldCities/WorldCitiesAPI/Controllers/SeedController.cs:88-94 | the city dictionary has one key per stored tuple, and each key maps to the city with that tuple |
| SeedSpec.StagedCitiesExact | WorldCities/WorldCitiesAPI/Controllers/SeedController.cs:97-130 | each tuple is staged as many times as rows carry it when it is absent from the snapshot, and never when it is present |
| SeedSpec.RepeatedNewRowStagedTwice | WorldCities/WorldCitiesAPI/Controllers/SeedController.cs:111-127 | two identical rows with a tuple absent from the snapshot stage two cities, because the snapshot is not extended |
| SeedSpec.StagedCitiesFromRows | WorldCities/WorldCitiesAPI/Controllers/SeedController.cs:101-125 | every staged city is built from a row whose tuple was absent, with that row's name and coordinates and the Id of its country |
| SeedSpec.StagedCitiesCount | WorldCities/WorldCitiesAPI/Controllers/SeedController.cs:97-130 | the number of staged cities is the number of rows whose tuple is absent from the snapshot |
| SeedSpec.StagedCitiesEmpty | WorldCities/WorldCitiesAPI/Controllers/SeedController.cs:110-116 | when every row's tuple is in the snapshot nothing is staged |
| SeedSpec.PhaseOneResolvesEveryRow | WorldCities/WorldCitiesAPI/Controllers/SeedController.cs:55-108 | after phase 1 the names are still distinct ignoring case, the keys are the stored names plus the row names, and every row's country name is a key, so the lookup at line 108 cannot fail |
| SeedSpec.ImportSucceeds | WorldCities/WorldCitiesAPI/Controllers/SeedController.cs:26-139 | a successful run stores exactly the phase-1 countries and the phase-2 cities, reports their numbers, advances the identities by them and saves once per non-empty phase |
| SeedSpec.ImportCounts | WorldCities/WorldCitiesAPI/Controllers/SeedController.cs:45-139 | the counters equal the new distinct names and the rows with absent tuples; stored rows are unchanged prefixes; a phase that staged nothing does not save; afterwards every row's name and tuple are stored |
| SeedSpec.RowsStoredAfterRun | WorldCities/WorldCitiesAPI/Controllers/SeedController.cs:97-133 | after phase 2 every row's tuple is among the stored cities |
| SeedSpec.ImportKeepsStoreValid | WorldCities/WorldCitiesAPI/Controllers/SeedController.cs:84-133 | any run, failed or not, keeps the primary keys unique and every CountryId valid, and keeps names distinct ignoring case |
| SeedSpec.ImportKeepsCoordinatesFit | WorldCities/WorldCitiesAPI/Controllers/SeedController.cs:101-133 | whatever the worksheet holds, the city table still fits decimal(7,4) after any run; when every row fits, the run does not fail at the city save |
| SeedSpec.StagedCitiesReferenceStore | WorldCities/WorldCitiesAPI/Controllers/SeedController.cs:108-124 | every staged city's CountryId is the Id of a country of the store phase 2 resolved against |
| SeedSpec.PhaseTwoKeepsStoreValid | WorldCities/WorldCitiesAPI/Controllers/SeedController.cs:132-133 | the phase-2 save keeps the store valid and leaves the countries alone |
| SeedSpec.ImportTwiceAddsNothing | WorldCities/WorldCitiesAPI/Controllers/SeedController.cs:55-139 | a second run over the same worksheet reports 0 countries and 0 cities, saves nothing and changes nothing, when the first run left no repeated tuple |
| SeedSpec.ImportFailures | WorldCities/WorldCitiesAPI/Controllers/SeedController.cs:28-133 | when each of the five errors occurs, if and only if; the first three write nothing, and a repeated city tuple or an out-of-range coordinate fails after phase 1 has saved, with the cities unchanged |
| SeedSpec.StagedCitiesFit | WorldCities/WorldCitiesAPI/Controllers/SeedController.cs:101-124 | rows whose Lat and Lon fit decimal(7,4) stage only cities that fit it |
| SeedSpec.OutOfRangeCityFailsAfterPhaseOne | WorldCities/WorldCitiesAPI/Controllers/SeedController.cs:84-133 | over an empty store, a row with Lat 1000.0000 saves its country in phase 1 and then fails at the city save, which writes nothing |
| SeedSpec.RepeatedParisStaging | WorldCities/WorldCitiesAPI/Controllers/SeedController.cs:88-127 | over an empty store, two identical Paris rows stage France once and Paris twice |
| SeedSpec.RepeatedParisFirstRun | WorldCities/WorldCitiesAPI/Controllers/SeedController.cs:88-136 | the first run over that worksheet reports 1 country and 2 cities and stores two cities with the same tuple |
| SeedSpec.RepeatedNewCityBreaksRerun | WorldCities/WorldCitiesAPI/Controllers/SeedController.cs:88-127 | a worksheet holding one new city twice reports 1 country and 2 cities, and the next run over it fails at the city dictionary |
| Seed.ToCountryDictionary | WorldCities/WorldCitiesAPI/Controllers/SeedController.cs:50-52 | building the case-insensitive dictionary yields the name index when the stored names are distinct, and fails otherwise |
| Seed.ToCityDictionary | WorldCities/WorldCitiesAPI/Controllers/SeedController.cs:88-94 | building the tuple dictionary yields the tuple index when the stored tuples are distinct, and fails otherwise |
| Seed.LoadedDictionary | WorldCities/WorldCitiesAPI/Controllers/SeedController.cs:50-52 | the dictionary built from the stored countries holds exactly their keys, each mapped to its stored country |
| Seed.SkipKeepsDictionary | WorldCities/WorldCitiesAPI/Controllers/SeedController.cs:63-65 | a row whose name is a key leaves the dictionary's facts true for one more row |
| Seed.AddExtendsDictionary | WorldCities/WorldCitiesAPI/Controllers/SeedController.cs:76-78 | a new name enters the dictionary pointing at the country just added, so later rows with that name are skipped |
| Seed.DictionaryResolves | WorldCities/WorldCitiesAPI/Controllers/SeedController.cs:108 | after the phase-1 save every entry, loaded or added, yields the Id the store files under its key |
| Seed.SeedController.ImportCities | WorldCities/WorldCitiesAPI/Controllers/SeedController.cs:88-139 | from the city dictionary on, a call leaves the store, the result and the saves exactly as `CityPhase` describes: a repeated stored tuple fails, a staged city outside decimal(7,4) fails at the save, leaving exactly the staged batch (`PhaseTwoCities`) pending, and otherwise the staged cities are saved and counted |
| Seed.SeedController.StageCountries | WorldCities/WorldCitiesAPI/Controllers/SeedController.cs:55-81 | the first loop adds to the context exactly the countries phase 1 stages, counts them, and writes nothing |
| Seed.SeedController.StageCities | WorldCities/WorldCitiesAPI/Controllers/SeedController.cs:97-130 | the second loop adds to the context exactly the cities phase 2 stages, counts them, and writes nothing |
| Seed.SeedController.Import | WorldCities/WorldCitiesAPI/Controllers/SeedController.cs:26-140 | a call leaves the store, the result and the number of saves exactly as `ImportSpec` describes; nothing is left pending, except after `CoordinateOutOfRange`, when the pending cities are exactly the rejected batch `PhaseTwoCities` |
| Forms.SettledValid | WorldCities/WorldCities/src/app/countries/country-edit.component.ts:113-122 | a control with an asynchronous validator is valid exactly when its synchronous validators pass and the answer is false, and a true answer leaves only the validator's key; each country control is an instance, used by `CountryEdit.CountryFormValid` |
| CityEdit.LeadingDigits | WorldCities/WorldCities/src/app/cities/city-edit.component.ts:44 | the `[0-9]+` run is all digits and stops at the first character that is not a digit |
| CityEdit.CoordinatePatternExact | WorldCities/WorldCities/src/app/cities/city-edit.component.ts:42-49 | the matcher accepts a Lat or Lon text exactly when the pattern does: an optional '-', one or more digits, then optionally '.' and one to four digits |
| CityEdit.CoordinateShape | WorldCities/WorldCities/src/app/cities/city-edit.component.ts:44 | an accepted coordinate starts with '-' or a digit, ends with a digit and has at most four digits after a '.', so a leading '+', a trailing '.' and five fraction digits are rejected |
| CityEdit.CoordinateControl | WorldCities/WorldCities/src/app/cities/city-edit.component.ts:42-49 | a Lat or Lon control is valid exactly when its text matches the pattern; an empty one reports only "required" |
| CityEdit.CityFormValid | WorldCities/WorldCities/src/app/cities/city-edit.component.ts:40-50 | all four controls pass exactly when name and countryId are filled in and both coordinates match the pattern |
| CityEdit.DupeCityCandidate | WorldCities/WorldCities/src/app/cities/city-edit.component.ts:121-128 | the group validator asks exactly when every control is valid, with the route id (0 when creating) and the form's four natural-key fields |
| CityEdit.CityFormSettledValid | WorldCities/WorldCities/src/app/cities/city-edit.component.ts:40-51 | the form settles valid exactly when name and country are filled in, both coordinates match the pattern and the duplicate check answers false; a true answer leaves only isDupeCity |
| CountryEdit.FieldNameRoundTrip | WorldCities/WorldCities/src/app/countries/country-edit.component.ts:43-57 | each control's duplicate check names its own field, "name", "iso2" or "iso3", and the three names are distinct |
| CountryEdit.SyncErrorsExact | WorldCities/WorldCities/src/app/countries/country-edit.component.ts:41-56 | name passes when filled in; iso2 and iso3 pass exactly when they hold two or three ASCII letters; empty text reports only "required" |
| CountryEdit.ExcludeIdsAgree | WorldCities/WorldCities/src/app/countries/country-edit.component.ts:117 | `this.id ?? 0` and the city form's `(this.id) ? this.id : 0` send the same id, which is 0 exactly when the id is unset or 0 |
| CountryEdit.DupeFieldRequestShape | WorldCities/WorldCities/src/app/countries/country-edit.component.ts:113-119 | a control asks exactly when its synchronous validators pass, about its own field and value, excluding the route id (0 when creating) |
| CountryEdit.CountryFormValid | WorldCities/WorldCities/src/app/countries/country-edit.component.ts:40-59 | the form is valid exactly when name is filled in, iso2 and iso3 have the ISO shapes and no duplicate check answers true |

## Left out

- Reading the worksheet is not modelled: the file path, EPPlus, `GetValue<T>` and cell types. The worksheet is a sequence of parsed rows, with Lat and Lon already at four decimals. Rounding of extra precision on save is not modelled.
- `_env.IsDevelopment()` is a boolean field of the controller. The `SecurityException` is the `NotAllowed` failure.
- Entity Framework internals are left out: tracking, `AsNoTracking`, async/await, SQL.
  - Ids come from an identity counter per table. A batch receives consecutive ids in the order its entities were added.
  - The Id read at line 108 for a just-saved country is the id its save gave it.
- `StringComparer.OrdinalIgnoreCase` is modelled on ASCII letters only. Full Unicode upper-casing is not modelled.
- Names and codes are Dafny strings, which are never null, so "non-null" holds by construction.
- The store does not check that ISO2 and ISO3 have the ISO 3166-1 shape; only the country form does (`IsIsoCode`). The import copies whatever the worksheet holds.
- The JSON result is the `Counts` value.
- Database failures other than a coordinate outside decimal(7,4) are not modelled (a lost connection, a string too long for its column): those saves are taken to succeed. Identity values that a rejected batch may consume are not modelled; a rejected save leaves the identities as they were.
- Concurrent imports and races between the snapshots and the saves are not modelled. The model is one sequential run.
- Angular and RxJS plumbing is left out: `loadData`, `loadCountries`, `onSubmit`, HTTP put/post, navigation, logging, debouncing and the observable itself. The server's duplicate-check endpoints are not part of this model; only the request each form builds and the mapping of its answer are.
- The JavaScript `+value` conversion to a floating-point number is left out.
  - The route parameter is given already converted (`Option<int>`, where None is an absent or empty parameter). NaN does not arise.
  - CityEdit.DupeCityCandidate: the candidate carries the Lat, Lon and countryId control texts rather than the numbers `+` would make of them.
- Control values are the text typed. A control patched with a number from the server, or a country picked from the select, is represented by its text.
- The coordinate pattern bounds the number of fraction digits but not the magnitude. The model does not relate form text to the decimal(7,4) column.
- cities.component.ts is not part of this model: it only lists cities.
- SeedSpec.ImportTwiceAddsNothing: it requires that the first run left no repeated city tuple. The code does not guarantee idempotence otherwise; `SeedSpec.RepeatedNewCityBreaksRerun` shows the failing case.
