/**
 * SeedController.Import (WorldCitiesAPI/Controllers/SeedController.cs): the
 * two-phase bulk import, step by step, over the DbContext stand-in. Each loop
 * is proved to stage exactly what SeedSpec says, so that a whole call leaves
 * the context in the state ImportSpec describes.
 */
module Seed {
  import opened Wrappers
  import opened Text
  import opened Models
  import opened Persistence
  import opened SeedSpec

  /**
   * A value of the country dictionary: a stored country read without tracking,
   * or a handle on the country added to the context in the given position,
   * whose Id is the one SaveChanges gives that entity.
   */
  datatype Entry = Loaded(country: Country) | Added(slot: nat)

  /**
   * ToDictionary(x => x.Name, StringComparer.OrdinalIgnoreCase) over the stored
   * countries; None where ToDictionary throws on a repeated key.
   */
  method ToCountryDictionary(countries: seq<Country>) returns (r: Option<map<string, Country>>)
    ensures CountryNamesDistinct(countries) ==> r == Some(NameIndex(countries))
    ensures !CountryNamesDistinct(countries) ==> r == None
  {
    var d: map<string, Country> := map[];
    var i := 0;
    while i < |countries|
      invariant 0 <= i <= |countries|
      invariant CountryNamesDistinct(countries[..i])
      invariant d == NameIndex(countries[..i])
    {
      var key := Fold(countries[i].name);
      if key in d {
        RepeatedCountryName(countries, i);
        return None;
      }
      ExtendNameIndex(countries, i);
      d := d[key := countries[i]];
      i := i + 1;
    }
    assert countries[..i] == countries;
    return Some(d);
  }

  /** A slice that grows by one element at its end. */
  lemma SliceSnoc<T>(xs: seq<T>, lo: nat, hi: nat)
    requires lo < hi <= |xs|
    ensures xs[lo..hi] == xs[lo..hi - 1] + [xs[hi - 1]]
  {
  }

  /** A name already in the dictionary of the first i countries repeats a key. */
  lemma RepeatedCountryName(cs: seq<Country>, i: nat)
    requires i < |cs| && CountryNamesDistinct(cs[..i])
    requires Fold(cs[i].name) in NameIndex(cs[..i])
    ensures !CountryNamesDistinct(cs)
  {
    NameIndexContents(cs[..i]);
    var j :| 0 <= j < i && Fold(cs[..i][j].name) == Fold(cs[i].name);
    assert cs[..i][j] == cs[j];
  }

  /** A name not yet in the dictionary of the first i countries extends it by one entry. */
  lemma ExtendNameIndex(cs: seq<Country>, i: nat)
    requires i < |cs| && CountryNamesDistinct(cs[..i])
    requires Fold(cs[i].name) !in NameIndex(cs[..i])
    ensures CountryNamesDistinct(cs[..i + 1])
    ensures NameIndex(cs[..i + 1]) == NameIndex(cs[..i])[Fold(cs[i].name) := cs[i]]
  {
    var prefix := cs[..i];
    var xs := prefix + [cs[i]];
    assert cs[..i + 1] == xs;
    NameIndexContents(prefix);
    forall a, b | 0 <= a < b < |xs| ensures Fold(xs[a].name) != Fold(xs[b].name) {
      assert xs[a] == prefix[a];
      if b < i {
        assert xs[b] == prefix[b];
      } else {
        assert Fold(prefix[a].name) in CountryKeys(prefix);
      }
    }
    NameIndexSnoc(prefix, cs[i]);
  }

  lemma RepeatedCityKey(cs: seq<City>, i: nat)
    requires i < |cs| && CityKeysDistinct(cs[..i])
    requires KeyOf(cs[i]) in CityIndex(cs[..i])
    ensures !CityKeysDistinct(cs)
  {
    CityIndexContents(cs[..i]);
    var j :| 0 <= j < i && KeyOf(cs[..i][j]) == KeyOf(cs[i]);
    assert cs[..i][j] == cs[j];
  }

  lemma ExtendCityIndex(cs: seq<City>, i: nat)
    requires i < |cs| && CityKeysDistinct(cs[..i])
    requires KeyOf(cs[i]) !in CityIndex(cs[..i])
    ensures CityKeysDistinct(cs[..i + 1])
    ensures CityIndex(cs[..i + 1]) == CityIndex(cs[..i])[KeyOf(cs[i]) := cs[i]]
  {
    var prefix := cs[..i];
    var xs := prefix + [cs[i]];
    assert cs[..i + 1] == xs;
    CityIndexContents(prefix);
    forall a, b | 0 <= a < b < |xs| ensures KeyOf(xs[a]) != KeyOf(xs[b]) {
      assert xs[a] == prefix[a];
      if b < i {
        assert xs[b] == prefix[b];
      } else {
        assert KeyOf(prefix[a]) in CityKeys(prefix);
      }
    }
    CityIndexSnoc(prefix, cs[i]);
  }

  /**
   * ToDictionary(x => (Name, Lat, Lon, CountryId)) over the stored cities; None
   * where ToDictionary throws on a repeated key.
   */
  method ToCityDictionary(cities: seq<City>) returns (r: Option<map<CityKey, City>>)
    ensures CityKeysDistinct(cities) ==> r == Some(CityIndex(cities))
    ensures !CityKeysDistinct(cities) ==> r == None
  {
    var d: map<CityKey, City> := map[];
    var i := 0;
    while i < |cities|
      invariant 0 <= i <= |cities|
      invariant CityKeysDistinct(cities[..i])
      invariant d == CityIndex(cities[..i])
    {
      var key := KeyOf(cities[i]);
      if key in d {
        RepeatedCityKey(cities, i);
        return None;
      }
      ExtendCityIndex(cities, i);
      d := d[key := cities[i]];
      i := i + 1;
    }
    assert cities[..i] == cities;
    return Some(d);
  }

  /** The Id an entry yields once phase 1 is saved (line 108). */
  function EntryId(e: Entry, countries: seq<Country>, firstSaved: nat): int
    requires e.Added? ==> firstSaved + e.slot < |countries|
  {
    match e
    case Loaded(c) => c.id
    case Added(slot) => countries[firstSaved + slot].id
  }

  /** The dictionary as phase 1 leaves it, before the save. */
  ghost predicate PhaseOneDictionary(
    countriesByName: map<string, Entry>, stored: seq<Country>, rows: seq<Row>, added: seq<Country>)
    requires CountryNamesDistinct(stored)
  {
    && countriesByName.Keys == CountryKeys(stored) + RowKeys(rows)
    && (forall k :: k in countriesByName && countriesByName[k].Loaded? ==>
          k in NameIndex(stored) && countriesByName[k].country == NameIndex(stored)[k])
    && (forall k :: k in countriesByName && countriesByName[k].Added? ==>
          countriesByName[k].slot < |added| && Fold(added[countriesByName[k].slot].name) == k)
  }

  /** The dictionary built from the stored countries (line 53) before any row is read. */
  lemma LoadedDictionary(stored: seq<Country>)
    requires CountryNamesDistinct(stored)
    ensures PhaseOneDictionary(map k | k in NameIndex(stored) :: Loaded(NameIndex(stored)[k]), stored, [], [])
  {
    NameIndexContents(stored);
    assert RowKeys([]) == {};
  }

  lemma StagedCountriesStep(seen: seq<Row>, row: Row, known: set<string>)
    ensures StagedCountries(seen + [row], known) ==
      if Fold(row.countryName) in known + RowKeys(seen) then StagedCountries(seen, known)
      else StagedCountries(seen, known) + [NewCountry(row)]
  {
    assert (seen + [row])[..|seen|] == seen;
  }

  /** One more row of phase 2: its city is staged unless its tuple is in the snapshot. */
  lemma StagedCitiesStep(rows: seq<Row>, m: nat, snapshot: set<CityKey>, index: map<string, Country>)
    requires m < |rows| && Resolvable(rows, index)
    ensures Resolvable(rows[..m], index) && Resolvable(rows[..m + 1], index)
    ensures StagedCities(rows[..m + 1], snapshot, index) ==
      if RowCityKey(rows[m], index) in snapshot then StagedCities(rows[..m], snapshot, index)
      else StagedCities(rows[..m], snapshot, index) + [NewCity(rows[m], index[Fold(rows[m].countryName)].id)]
  {
    assert rows[..m + 1][..m] == rows[..m];
    assert forall i :: 0 <= i < m + 1 ==> rows[..m + 1][i] == rows[i];
  }

  /** A row whose country is a key already leaves the dictionary as it is. */
  lemma SkipKeepsDictionary(
    countriesByName: map<string, Entry>, stored: seq<Country>, seen: seq<Row>, row: Row, added: seq<Country>)
    requires CountryNamesDistinct(stored)
    requires PhaseOneDictionary(countriesByName, stored, seen, added)
    requires Fold(row.countryName) in countriesByName
    ensures PhaseOneDictionary(countriesByName, stored, seen + [row], added)
  {
    RowKeysSnoc(seen, row);
  }

  /** A row with a new country adds one entry pointing at the newly staged slot. */
  lemma AddExtendsDictionary(
    countriesByName: map<string, Entry>, stored: seq<Country>, seen: seq<Row>, row: Row, added: seq<Country>)
    requires CountryNamesDistinct(stored)
    requires PhaseOneDictionary(countriesByName, stored, seen, added)
    requires Fold(row.countryName) !in countriesByName
    ensures PhaseOneDictionary(
      countriesByName[Fold(row.countryName) := Added(|added|)], stored, seen + [row], added + [NewCountry(row)])
  {
    RowKeysSnoc(seen, row);
    var added' := added + [NewCountry(row)];
    forall k | k in countriesByName && countriesByName[k].Added?
      ensures added'[countriesByName[k].slot] == added[countriesByName[k].slot]
    {
    }
  }

  /** A loaded entry keeps its stored country once the new countries follow it. */
  lemma LoadedEntryResolves(stored: seq<Country>, identity: int, rows: seq<Row>, k: string)
    requires CountryNamesDistinct(stored) && k in CountryKeys(stored)
    ensures CountryNamesDistinct(PhaseOneCountries(stored, identity, rows))
    ensures k in NameIndex(stored) && k in NameIndex(PhaseOneCountries(stored, identity, rows))
    ensures NameIndex(PhaseOneCountries(stored, identity, rows))[k] == NameIndex(stored)[k]
  {
    PhaseOneResolvesEveryRow(stored, identity, rows);
    NameIndexPrefix(stored, AssignCountryIds(StagedCountries(rows, CountryKeys(stored)), identity), k);
  }

  /** The country added in a given position is the one saved in that position after the stored ones. */
  lemma AddedEntryResolves(stored: seq<Country>, identity: int, rows: seq<Row>, slot: nat)
    requires CountryNamesDistinct(stored)
    requires slot < |StagedCountries(rows, CountryKeys(stored))|
    ensures
      var all := PhaseOneCountries(stored, identity, rows);
      var k := Fold(StagedCountries(rows, CountryKeys(stored))[slot].name);
      && CountryNamesDistinct(all)
      && |stored| + slot < |all|
      && k in NameIndex(all)
      && NameIndex(all)[k] == all[|stored| + slot]
  {
    var staged := StagedCountries(rows, CountryKeys(stored));
    var all := PhaseOneCountries(stored, identity, rows);
    PhaseOneResolvesEveryRow(stored, identity, rows);
    NameIndexContents(all);
    assert all[|stored| + slot] == staged[slot].(id := identity + slot);
  }

  /**
   * After the save, every entry yields the Id of the country the store files
   * under its key, so the lookup at line 108 agrees with NameIndex.
   */
  lemma DictionaryResolves(
    countriesByName: map<string, Entry>, stored: seq<Country>, identity: int, rows: seq<Row>, firstSaved: nat)
    requires CountryNamesDistinct(stored) && firstSaved == |stored|
    requires PhaseOneDictionary(countriesByName, stored, rows, StagedCountries(rows, CountryKeys(stored)))
    ensures
      var all := PhaseOneCountries(stored, identity, rows);
      && CountryNamesDistinct(all)
      && RowKeys(rows) <= countriesByName.Keys
      && forall k :: k in countriesByName ==>
           && k in NameIndex(all)
           && (countriesByName[k].Added? ==> firstSaved + countriesByName[k].slot < |all|)
           && EntryId(countriesByName[k], all, firstSaved) == NameIndex(all)[k].id
  {
    var all := PhaseOneCountries(stored, identity, rows);
    PhaseOneResolvesEveryRow(stored, identity, rows);
    NameIndexContents(stored);
    forall k | k in countriesByName
      ensures k in NameIndex(all)
      ensures countriesByName[k].Added? ==> firstSaved + countriesByName[k].slot < |all|
      ensures countriesByName[k].Added? ==> EntryId(countriesByName[k], all, firstSaved) == NameIndex(all)[k].id
      ensures countriesByName[k].Loaded? ==> EntryId(countriesByName[k], all, firstSaved) == NameIndex(all)[k].id
    {
      match countriesByName[k]
      case Loaded(c) =>
        LoadedEntryResolves(stored, identity, rows, k);
      case Added(slot) =>
        AddedEntryResolves(stored, identity, rows, slot);
    }
  }

  class SeedController {
    const context: DbContext
    /** _env.IsDevelopment() */
    const isDevelopment: bool

    constructor (context: DbContext, isDevelopment: bool)
      ensures this.context == context && this.isDevelopment == isDevelopment
    {
      this.context := context;
      this.isDevelopment := isDevelopment;
    }

    /**
     * GET api/Seed/Import over a worksheet whose row 1 is the header. The
     * context is the request's own, so nothing is pending when the call starts.
     */
    method Import(sheet: seq<Row>) returns (r: Result<Counts, ImportError>)
      requires context.addedCountries == [] && context.addedCities == []
      modifies context
      ensures
        var run := ImportSpec(old(context.Persisted()), sheet, isDevelopment);
        && context.Persisted() == run.store
        && r == run.result
        && context.saves == old(context.saves) + run.saves
      ensures context.addedCountries == []
      ensures r != Failure(CoordinateOutOfRange) ==> context.addedCities == []
      ensures r == Failure(CoordinateOutOfRange) ==> !CoordinatesFit(context.addedCities)
      ensures r == Failure(CoordinateOutOfRange) ==> context.addedCities == PhaseTwoCities(old(context.Persisted()), sheet[1..])
    {
      ghost var s := context.Persisted();
      if !isDevelopment {
        return Failure(NotAllowed);
      }
      if |sheet| == 0 {
        return Failure(NoDimension);
      }
      ghost var rows := sheet[1..];

      // Phase 1: countries.
      var stored := ToCountryDictionary(context.countries);
      if stored.None? {
        return Failure(DuplicateCountryName);
      }
      var countriesByName: map<string, Entry> := map k | k in stored.value :: Loaded(stored.value[k]);
      LoadedDictionary(s.countries);
      var numberOfCountriesAdded;
      countriesByName, numberOfCountriesAdded := StageCountries(sheet, countriesByName);
      ghost var staged := context.addedCountries;

      var firstSaved := |context.countries|;
      if numberOfCountriesAdded > 0 {
        // no city is pending, so this batch holds no coordinate to reject
        var saved := context.SaveChanges();
        assert saved;
      }
      PhaseOneStore(s, rows);
      assert context.Persisted() == PhaseOne(s, rows);
      DictionaryResolves(countriesByName, s.countries, s.countryIdentity, rows, firstSaved);

      // Phase 2: cities.
      r := ImportCities(sheet, countriesByName, firstSaved, numberOfCountriesAdded, s);
      ImportSpecPhases(s, sheet);
    }

    /**
     * Lines 88-139: the city dictionary, the second loop and the second save,
     * over the store phase 1 left behind.
     */
    method ImportCities(
      sheet: seq<Row>, countriesByName: map<string, Entry>, firstSaved: nat,
      numberOfCountriesAdded: nat, ghost s: Store)
      returns (r: Result<Counts, ImportError>)
      requires |sheet| >= 1 && CountryNamesDistinct(s.countries)
      requires context.addedCountries == [] && context.addedCities == []
      requires context.Persisted() == PhaseOne(s, sheet[1..])
      requires RowKeys(sheet[1..]) <= countriesByName.Keys
      requires forall k :: k in countriesByName ==>
        && k in NameIndex(context.countries)
        && (countriesByName[k].Added? ==> firstSaved + countriesByName[k].slot < |context.countries|)
        && EntryId(countriesByName[k], context.countries, firstSaved) == NameIndex(context.countries)[k].id
      modifies context
      ensures
        var run := CityPhase(s, sheet[1..], numberOfCountriesAdded);
        && context.Persisted() == run.store
        && r == run.result
        && context.saves == old(context.saves) + run.saves
      ensures context.addedCountries == []
      ensures r != Failure(CoordinateOutOfRange) ==> context.addedCities == []
      ensures r == Failure(CoordinateOutOfRange) ==> !CoordinatesFit(context.addedCities)
      ensures r == Failure(CoordinateOutOfRange) ==> context.addedCities == PhaseTwoCities(s, sheet[1..])
    {
      ghost var rows := sheet[1..];
      PhaseOneStore(s, rows);
      PhaseOneResolvesEveryRow(s.countries, s.countryIdentity, rows);
      var snapshot := ToCityDictionary(context.cities);
      if snapshot.None? {
        return Failure(DuplicateCityKey);
      }
      var cities := snapshot.value;
      CityIndexContents(context.cities);
      ghost var s1 := context.Persisted();
      var numberOfCitiesAdded :=
        StageCities(sheet, countriesByName, firstSaved, context.countries, cities, NameIndex(s1.countries), CityKeys(s1.cities));

      assert context.addedCities == PhaseTwoCities(s, rows);
      if numberOfCitiesAdded > 0 {
        var saved := context.SaveChanges();
        if !saved {
          return Failure(CoordinateOutOfRange);
        }
      }
      PhaseTwoStore(s1, rows);
      return Success(Counts(numberOfCountriesAdded, numberOfCitiesAdded));
    }

    /** The loop of lines 55-81: stage each row's country unless its name is a key already. */
    method StageCountries(sheet: seq<Row>, loaded: map<string, Entry>)
      returns (countriesByName: map<string, Entry>, numberOfCountriesAdded: nat)
      requires |sheet| >= 1 && context.addedCountries == []
      requires CountryNamesDistinct(context.countries)
      requires PhaseOneDictionary(loaded, context.countries, [], [])
      modifies context
      ensures context.Persisted() == old(context.Persisted())
      ensures context.addedCities == old(context.addedCities) && context.saves == old(context.saves)
      ensures context.addedCountries == StagedCountries(sheet[1..], CountryKeys(context.countries))
      ensures numberOfCountriesAdded == |context.addedCountries|
      ensures PhaseOneDictionary(countriesByName, context.countries, sheet[1..], context.addedCountries)
    {
      ghost var stored := context.countries;
      ghost var known := CountryKeys(stored);
      countriesByName := loaded;
      numberOfCountriesAdded := 0;
      var nEndRow := |sheet|;
      var nRow := 2;
      ghost var seen: seq<Row> := [];
      while nRow <= nEndRow
        invariant 2 <= nRow <= nEndRow + 1
        invariant seen == sheet[1..nRow - 1]
        invariant context.Persisted() == old(context.Persisted())
        invariant context.addedCities == old(context.addedCities) && context.saves == old(context.saves)
        invariant context.countries == stored
        invariant context.addedCountries == StagedCountries(seen, known)
        invariant numberOfCountriesAdded == |context.addedCountries|
        invariant PhaseOneDictionary(countriesByName, stored, seen, context.addedCountries)
      {
        var row := sheet[nRow - 1];
        SliceSnoc(sheet, 1, nRow);
        StagedCountriesStep(seen, row, known);
        var countryName, iso2, iso3 := row.countryName, row.iso2, row.iso3;

        // skip the country if its name is a key already
        if Fold(countryName) in countriesByName {
          SkipKeepsDictionary(countriesByName, stored, seen, row, context.addedCountries);
          seen := seen + [row];
          nRow := nRow + 1;
          continue;
        }

        var country := Country(0, countryName, iso2, iso3);
        AddExtendsDictionary(countriesByName, stored, seen, row, context.addedCountries);
        countriesByName := countriesByName[Fold(countryName) := Added(|context.addedCountries|)];
        context.AddCountry(country);
        numberOfCountriesAdded := numberOfCountriesAdded + 1;
        seen := seen + [row];
        nRow := nRow + 1;
      }
      assert seen == sheet[1..];
    }

    /**
     * The loop of lines 97-130: stage each row's city unless its tuple is in the
     * snapshot. The countries are the store after phase 1, index is the name
     * index over them and snapshot the stored tuples.
     */
    method StageCities(
      sheet: seq<Row>, countriesByName: map<string, Entry>, firstSaved: nat,
      countries: seq<Country>, cities: map<CityKey, City>,
      ghost index: map<string, Country>, ghost snapshot: set<CityKey>)
      returns (numberOfCitiesAdded: nat)
      requires |sheet| >= 1 && context.addedCities == []
      requires RowKeys(sheet[1..]) <= countriesByName.Keys
      requires forall k :: k in countriesByName ==>
        && k in index
        && (countriesByName[k].Added? ==> firstSaved + countriesByName[k].slot < |countries|)
        && EntryId(countriesByName[k], countries, firstSaved) == index[k].id
      requires cities.Keys == snapshot
      modifies context
      ensures context.Persisted() == old(context.Persisted())
      ensures context.addedCountries == old(context.addedCountries) && context.saves == old(context.saves)
      ensures Resolvable(sheet[1..], index)
      ensures context.addedCities == StagedCities(sheet[1..], snapshot, index)
      ensures numberOfCitiesAdded == |context.addedCities|
    {
      ghost var rows := sheet[1..];
      forall i | 0 <= i < |rows| ensures Fold(rows[i].countryName) in index {
        assert Fold(rows[i].countryName) in RowKeys(rows);
      }
      numberOfCitiesAdded := 0;
      assert rows[..0] == [];
      var nEndRow := |sheet|;
      var nRow := 2;
      while nRow <= nEndRow
        invariant 2 <= nRow <= nEndRow + 1
        invariant context.Persisted() == old(context.Persisted())
        invariant context.addedCountries == old(context.addedCountries) && context.saves == old(context.saves)
        invariant Resolvable(rows[..nRow - 2], index)
        invariant context.addedCities == StagedCities(rows[..nRow - 2], snapshot, index)
        invariant numberOfCitiesAdded == |context.addedCities|
      {
        var row := sheet[nRow - 1];
        assert row == rows[nRow - 2];
        StagedCitiesStep(rows, nRow - 2, snapshot, index);
        var name, nameAscii, lat, lon, countryName := row.cityName, row.nameAscii, row.lat, row.lon, row.countryName;

        // retrieve the country id by country name
        var countryId := EntryId(countriesByName[Fold(countryName)], countries, firstSaved);
        assert CityKey(name, lat, lon, countryId) == RowCityKey(row, index);

        // skip the city if its tuple is stored
        if CityKey(name, lat, lon, countryId) in cities {
          assert RowCityKey(rows[nRow - 2], index) in snapshot;
          nRow := nRow + 1;
          continue;
        }

        var city := City(0, name, lat, lon, countryId);
        assert city == NewCity(rows[nRow - 2], index[Fold(rows[nRow - 2].countryName)].id);
        context.AddCity(city);
        numberOfCitiesAdded := numberOfCitiesAdded + 1;
        nRow := nRow + 1;
      }
      assert rows[..nRow - 2] == rows;
    }
  }
}
