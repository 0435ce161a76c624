/**
 * An in-memory stand-in for the Entity Framework context the seed controller
 * writes through: two persisted tables, the entities added but not yet saved,
 * and SaveChanges, which inserts the added entities with fresh identity ids.
 */
module Persistence {
  import opened Models

  class DbContext {
    var countries: seq<Country>
    var cities: seq<City>
    var countryIdentity: int
    var cityIdentity: int
    /** Entities in the Added state, in the order they were added. */
    var addedCountries: seq<Country>
    var addedCities: seq<City>
    /** Number of SaveChanges calls that wrote to the database so far. */
    var saves: nat

    /** The persisted part of the context. */
    function Persisted(): Store
      reads this
    {
      Store(countries, cities, countryIdentity, cityIdentity)
    }

    /** A context over a given store with nothing pending. */
    constructor (s: Store)
      ensures Persisted() == s
      ensures addedCountries == [] && addedCities == [] && saves == 0
    {
      countries, cities := s.countries, s.cities;
      countryIdentity, cityIdentity := s.countryIdentity, s.cityIdentity;
      addedCountries, addedCities := [], [];
      saves := 0;
    }

    /** Countries.AddAsync: track a new country; nothing is written yet. */
    method AddCountry(c: Country)
      modifies this
      ensures addedCountries == old(addedCountries) + [c]
      ensures Persisted() == old(Persisted())
      ensures addedCities == old(addedCities) && saves == old(saves)
    {
      addedCountries := addedCountries + [c];
    }

    /** Cities.Add: track a new city; nothing is written yet. */
    method AddCity(c: City)
      modifies this
      ensures addedCities == old(addedCities) + [c]
      ensures Persisted() == old(Persisted())
      ensures addedCountries == old(addedCountries) && saves == old(saves)
    {
      addedCities := addedCities + [c];
    }

    /**
     * SaveChangesAsync: one batched write of everything added. The database
     * rejects the whole batch when an added city's Lat or Lon does not fit
     * decimal(7,4); the call then throws, nothing is written and the added
     * entities stay pending.
     */
    method SaveChanges() returns (ok: bool)
      modifies this
      ensures ok <==> CoordinatesFit(old(addedCities))
      ensures ok ==> Persisted() == Commit(old(Persisted()), old(addedCountries), old(addedCities))
      ensures ok ==> addedCountries == [] && addedCities == [] && saves == old(saves) + 1
      ensures !ok ==> Persisted() == old(Persisted()) && saves == old(saves)
      ensures !ok ==> addedCountries == old(addedCountries) && addedCities == old(addedCities)
    {
      if !CoordinatesFit(addedCities) {
        return false;
      }
      countries := countries + AssignCountryIds(addedCountries, countryIdentity);
      cities := cities + AssignCityIds(addedCities, cityIdentity);
      countryIdentity := countryIdentity + |addedCountries|;
      cityIdentity := cityIdentity + |addedCities|;
      addedCountries, addedCities := [], [];
      saves := saves + 1;
      return true;
    }
  }
}
