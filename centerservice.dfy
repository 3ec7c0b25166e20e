/** services/serviceCenterService.ts: the row written for an onboarded
    service center. */
module CenterService {
  import opened Wrappers
  import opened Request
  import opened Backend

  const DefaultCountry: string := "India"

  /** `country || "India"`: a falsy country is replaced, any other value
      (an array included) is kept. */
  function CountryOrDefault(country: Option<BodyField>): (c: Option<BodyField>)
    ensures !Truthy(country) ==> c == Some(Text(DefaultCountry))
    ensures Truthy(country) ==> c == country
  {
    if Truthy(country) then country else Some(Text(DefaultCountry))
  }

  /** `{ ...data, country: data.country || "India" }`. */
  function WithDefaultCountry(data: CenterData): (r: CenterData)
    ensures r.country == CountryOrDefault(data.country)
    ensures r == data.(country := r.country)
  {
    data.(country := CountryOrDefault(data.country))
  }

  /** After the default is applied the country is never falsy. */
  lemma DefaultedCountryIsTruthy(data: CenterData)
    ensures Truthy(WithDefaultCountry(data).country)
  {
  }

  /** Applying the default twice is the same as applying it once. */
  lemma WithDefaultCountryIdempotent(data: CenterData)
    ensures WithDefaultCountry(WithDefaultCountry(data)) == WithDefaultCountry(data)
  {
  }

  /** `createServiceCenter`: create the row with the defaulted country. */
  method CreateServiceCenter(data: CenterData, db: Database, failure: Option<Thrown>)
    returns (r: Result<ServiceCenter, Thrown>)
    requires db.Valid()
    modifies db
    ensures db.Valid()
    ensures failure.Some? ==> r == Failure(failure.value) && db.rows == old(db.rows)
    ensures failure.None? ==>
              && r == Success(ServiceCenter(old(db.nextId), WithDefaultCountry(data)))
              && db.rows == old(db.rows) + [r.value]
    ensures db.nextId >= old(db.nextId)
  {
    r := db.Create(WithDefaultCountry(data), failure);
  }
}
