/**
 * The records passed between the three stages (backend/models.py):
 * the filter set the parser extracts and the property card the search engine builds.
 */
module Models {
  import opened Wrappers

  /** ExtractedFilters: seven independent optional fields; budgets in rupees. */
  datatype Filters = Filters(
    city: Option<string>,
    bhk: Option<string>,
    budgetMin: Option<real>,
    budgetMax: Option<real>,
    possessionStatus: Option<string>,
    locality: Option<string>,
    projectName: Option<string>)

  /** The filter set with every field absent. */
  const NoFilters: Filters := Filters(None, None, None, None, None, None, None)

  /** PropertyCard: one search result as shown to the user. */
  datatype PropertyCard = PropertyCard(
    projectId: string,
    title: string,
    city: string,
    locality: string,
    bhk: string,
    price: string,
    priceRaw: real,
    projectName: string,
    possessionStatus: string,
    amenities: seq<string>,
    carpetArea: Option<real>,
    bathrooms: Option<int>,
    balconies: Option<int>,
    slug: string,
    url: string)

  /** Python truthiness of an optional text field: present and non-empty. */
  predicate IsTruthy(o: Option<string>) {
    o.Some? && o.value != ""
  }

  /** Python truthiness of an optional number: present and non-zero. */
  predicate IsNonZero(o: Option<real>) {
    o.Some? && o.value != 0.0
  }
}
