/**
 * The two entities of the data model (WorldCitiesAPI/Data/Models/City.cs and
 * Country.cs) and the store that holds them, with the constraints the entity
 * annotations put on it: primary keys, the City -> Country foreign key, and the
 * decimal(7,4) coordinate columns.
 */
module Models {
  import opened Text

  /** Country: Id is the primary key; Name, ISO2 and ISO3 are non-null strings. */
  datatype Country = Country(id: int, name: string, iso2: string, iso3: string)

  /**
   * City: Lat and Lon are decimal(7,4), held here as integers scaled by 10^4
   * (48.8566 is 488566), so that equality is exact. CountryId is a foreign key.
   */
  datatype City = City(id: int, name: string, lat: int, lon: int, countryId: int)

  /** The natural key of a city: (Name, Lat, Lon, CountryId), compared exactly. */
  datatype CityKey = CityKey(name: string, lat: int, lon: int, countryId: int)

  /** Number of fractional digits of the coordinate columns. */
  const Scale: int := 10000

  /** The largest magnitude decimal(7,4) holds, scaled: 999.9999. */
  const MaxScaled: int := 9999999

  predicate FitsDecimal74(v: int) {
    -MaxScaled <= v <= MaxScaled
  }

  /** The real number a scaled coordinate stands for. */
  function CoordinateValue(v: int): real {
    v as real / Scale as real
  }

  /** A decimal(7,4) value has magnitude below 1000. */
  lemma Decimal74Bounds(v: int)
    requires FitsDecimal74(v)
    ensures -1000.0 < CoordinateValue(v) < 1000.0
  {
  }

  function KeyOf(c: City): CityKey {
    CityKey(c.name, c.lat, c.lon, c.countryId)
  }

  /** The case-insensitive name keys of a list of countries. */
  function CountryKeys(cs: seq<Country>): set<string> {
    set i | 0 <= i < |cs| :: Fold(cs[i].name)
  }

  function CountryIds(cs: seq<Country>): set<int> {
    set i | 0 <= i < |cs| :: cs[i].id
  }

  function CityKeys(cs: seq<City>): set<CityKey> {
    set i | 0 <= i < |cs| :: KeyOf(cs[i])
  }

  /** No two countries whose names are equal ignoring case. */
  predicate CountryNamesDistinct(cs: seq<Country>) {
    forall i, j :: 0 <= i < j < |cs| ==> Fold(cs[i].name) != Fold(cs[j].name)
  }

  /** No two cities with the same (Name, Lat, Lon, CountryId). */
  predicate CityKeysDistinct(cs: seq<City>) {
    forall i, j :: 0 <= i < j < |cs| ==> KeyOf(cs[i]) != KeyOf(cs[j])
  }

  /**
   * The persisted tables. The identity values are the next ids the database
   * hands out to inserted countries and cities.
   */
  datatype Store = Store(countries: seq<Country>, cities: seq<City>, countryIdentity: int, cityIdentity: int)

  /** Country.Id is a primary key issued by the identity column. */
  predicate CountryKeysValid(s: Store) {
    && 1 <= s.countryIdentity
    && (forall i :: 0 <= i < |s.countries| ==> 1 <= s.countries[i].id < s.countryIdentity)
    && (forall i, j :: 0 <= i < j < |s.countries| ==> s.countries[i].id != s.countries[j].id)
  }

  /** City.Id is a primary key issued by the identity column. */
  predicate CityKeysValid(s: Store) {
    && 1 <= s.cityIdentity
    && (forall i :: 0 <= i < |s.cities| ==> 1 <= s.cities[i].id < s.cityIdentity)
    && (forall i, j :: 0 <= i < j < |s.cities| ==> s.cities[i].id != s.cities[j].id)
  }

  /** City.CountryId references an existing Country.Id. */
  predicate ForeignKeysHold(s: Store) {
    forall i :: 0 <= i < |s.cities| ==> s.cities[i].countryId in CountryIds(s.countries)
  }

  predicate StoreValid(s: Store) {
    CountryKeysValid(s) && CityKeysValid(s) && ForeignKeysHold(s)
  }

  /** Both coordinate columns of every city fit decimal(7,4). */
  predicate CoordinatesFit(cs: seq<City>) {
    forall i :: 0 <= i < |cs| ==> FitsDecimal74(cs[i].lat) && FitsDecimal74(cs[i].lon)
  }

  /** Id 0, the id a form sends for a new record, is never a stored id. */
  lemma NoStoredIdIsZero(s: Store)
    requires StoreValid(s)
    ensures 0 !in CountryIds(s.countries)
    ensures forall i :: 0 <= i < |s.cities| ==> s.cities[i].id != 0
  {
  }

  /**
   * The Country.Cities navigation: the cities whose CountryId is the country's Id,
   * in store order.
   */
  function CitiesOf(cities: seq<City>, country: Country): (r: seq<City>)
    ensures forall c :: c in r ==> c in cities && c.countryId == country.id
    ensures forall c :: c in cities && c.countryId == country.id ==> c in r
  {
    if cities == [] then []
    else
      var rest := CitiesOf(cities[1..], country);
      assert cities == [cities[0]] + cities[1..];
      if cities[0].countryId == country.id then [cities[0]] + rest else rest
  }

  /**
   * In a valid store every city belongs to the Cities collection of exactly one
   * stored country.
   */
  lemma EveryCityHasOneCountry(s: Store, k: nat)
    requires StoreValid(s)
    requires k < |s.cities|
    ensures exists j :: 0 <= j < |s.countries| && s.cities[k] in CitiesOf(s.cities, s.countries[j])
    ensures forall j1, j2 ::
      && 0 <= j1 < |s.countries| && 0 <= j2 < |s.countries|
      && s.cities[k] in CitiesOf(s.cities, s.countries[j1])
      && s.cities[k] in CitiesOf(s.cities, s.countries[j2])
      ==> j1 == j2
  {
    assert s.cities[k].countryId in CountryIds(s.countries);
    var j :| 0 <= j < |s.countries| && s.countries[j].id == s.cities[k].countryId;
    assert s.cities[k] in CitiesOf(s.cities, s.countries[j]);
  }

  /** Ids given in order to newly inserted countries, starting at the identity value. */
  function AssignCountryIds(added: seq<Country>, first: int): seq<Country> {
    seq(|added|, k requires 0 <= k < |added| => added[k].(id := first + k))
  }

  function AssignCityIds(added: seq<City>, first: int): seq<City> {
    seq(|added|, k requires 0 <= k < |added| => added[k].(id := first + k))
  }

  /** One batched save: the added rows are appended with fresh identity ids. */
  function Commit(s: Store, addedCountries: seq<Country>, addedCities: seq<City>): Store {
    Store(
      s.countries + AssignCountryIds(addedCountries, s.countryIdentity),
      s.cities + AssignCityIds(addedCities, s.cityIdentity),
      s.countryIdentity + |addedCountries|,
      s.cityIdentity + |addedCities|)
  }

  /** A save whose added cities fit decimal(7,4) keeps the city table fitting it. */
  lemma CommitKeepsCoordinatesFit(s: Store, addedCountries: seq<Country>, addedCities: seq<City>)
    requires CoordinatesFit(s.cities) && CoordinatesFit(addedCities)
    ensures CoordinatesFit(Commit(s, addedCountries, addedCities).cities)
  {
    var t := Commit(s, addedCountries, addedCities);
    forall i | |s.cities| <= i < |t.cities|
      ensures t.cities[i].lat == addedCities[i - |s.cities|].lat && t.cities[i].lon == addedCities[i - |s.cities|].lon
    {
    }
  }

  /**
   * A save keeps the primary keys unique and the foreign keys valid, provided
   * every added city references a country that exists once the save is done.
   */
  lemma CommitKeepsStoreValid(s: Store, addedCountries: seq<Country>, addedCities: seq<City>)
    requires StoreValid(s)
    requires forall c :: c in addedCities ==>
      c.countryId in CountryIds(s.countries + AssignCountryIds(addedCountries, s.countryIdentity))
    ensures StoreValid(Commit(s, addedCountries, addedCities))
  {
    var t := Commit(s, addedCountries, addedCities);
    var n, m := |s.countries|, |s.cities|;
    forall i, j | 0 <= i < j < |t.countries|
      ensures t.countries[i].id != t.countries[j].id
    {
      if j >= n {
        assert t.countries[j].id == s.countryIdentity + (j - n);
        if i >= n {
          assert t.countries[i].id == s.countryIdentity + (i - n);
        }
      }
    }
    forall i, j | 0 <= i < j < |t.cities|
      ensures t.cities[i].id != t.cities[j].id
    {
      if j >= m {
        assert t.cities[j].id == s.cityIdentity + (j - m);
        if i >= m {
          assert t.cities[i].id == s.cityIdentity + (i - m);
        }
      }
    }
    forall i | 0 <= i < |t.cities|
      ensures t.cities[i].countryId in CountryIds(t.countries)
    {
      if i >= m {
        assert t.cities[i].countryId == addedCities[i - m].countryId;
        assert addedCities[i - m] in addedCities;
      } else {
        var j :| 0 <= j < n && s.countries[j].id == s.cities[i].countryId;
        assert t.countries[j] == s.countries[j];
      }
    }
  }
}
