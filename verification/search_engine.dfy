/**
 * The search engine (backend/search_engine.py): narrows the joined dataset with the
 * active filters, keeps the first ten surviving rows in dataset order and renders
 * each of them as a property card.
 */
module SearchEngine {
  import opened Wrappers
  import opened Text
  import opened Models

  /**
   * One row of the joined dataset (project, address, configuration, variant).
   * `None` stands for a NaN cell: the left joins leave one wherever a project has no
   * address, configuration or variant.
   */
  datatype Row = Row(
    id: string,
    projectName: string,
    slug: string,
    status: string,
    fullAddress: Option<string>,
    landmark: Option<string>,
    bhkType: Option<string>,
    price: Option<real>,
    lift: Option<bool>,
    parkingType: Option<string>,
    balcony: Option<int>,
    carpetArea: Option<real>,
    bathrooms: Option<int>)

  // ===== the filter chain =====

  /** The seven narrowing steps of search, listed in the order search applies them. */
  datatype Criterion = ByCity | ByBhk | ByMaxPrice | ByMinPrice | ByStatus | ByLocality | ByProject

  /** status_map: the two display statuses and their status codes; any other text maps to nothing. */
  function StatusCode(display: string): (code: Option<string>)
    ensures code.Some? <==> display in {"Ready To Move", "Under Construction"}
  {
    if display == "Ready To Move" then Some("READY_TO_MOVE")
    else if display == "Under Construction" then Some("UNDER_CONSTRUCTION")
    else None
  }

  /** A step narrows the rows only when its filter value is truthy (and, for the status, mapped). */
  predicate Active(f: Filters, c: Criterion) {
    match c
    case ByCity => IsTruthy(f.city)
    case ByBhk => IsTruthy(f.bhk)
    case ByMaxPrice => IsNonZero(f.budgetMax)
    case ByMinPrice => IsNonZero(f.budgetMin)
    case ByStatus => IsTruthy(f.possessionStatus) && StatusCode(f.possessionStatus.value).Some?
    case ByLocality => IsTruthy(f.locality)
    case ByProject => IsTruthy(f.projectName)
  }

  /** The row mask of an active step; a NaN cell fails every comparison and every `na=False` contains. */
  predicate Test(f: Filters, c: Criterion, r: Row)
    requires Active(f, c)
  {
    match c
    case ByCity => r.fullAddress.Some? && ContainsIgnoreCase(r.fullAddress.value, f.city.value)
    case ByBhk => r.bhkType == Some(f.bhk.value)
    case ByMaxPrice => r.price.Some? && r.price.value <= f.budgetMax.value
    case ByMinPrice => r.price.Some? && r.price.value >= f.budgetMin.value
    case ByStatus => r.status == StatusCode(f.possessionStatus.value).value
    case ByLocality => r.fullAddress.Some? && ContainsIgnoreCase(r.fullAddress.value, f.locality.value)
    case ByProject => ContainsIgnoreCase(r.projectName, f.projectName.value)
  }

  /** A row gets past a step when the step is inactive or its mask holds. */
  predicate Admits(f: Filters, c: Criterion, r: Row) {
    !Active(f, c) || Test(f, c, r)
  }

  /** `df[mask]`: the rows an active step keeps, in their original order. */
  function Keep(rows: seq<Row>, f: Filters, c: Criterion): (kept: seq<Row>)
    requires Active(f, c)
    ensures |kept| <= |rows|
    ensures forall r <- kept :: r in rows && Test(f, c, r)
  {
    if rows == [] then []
    else (if Test(f, c, rows[0]) then [rows[0]] else []) + Keep(rows[1..], f, c)
  }

  /** `if <filter value>: df = df[mask]`: one step of the chain. */
  function Narrow(rows: seq<Row>, f: Filters, c: Criterion): (narrowed: seq<Row>)
    ensures |narrowed| <= |rows|
    ensures forall r <- narrowed :: r in rows && Admits(f, c, r)
  {
    if Active(f, c) then Keep(rows, f, c) else rows
  }

  /** The filtered dataset: the seven steps applied one after another, in search's order. */
  function Matching(rows: seq<Row>, f: Filters): (matching: seq<Row>)
    ensures |matching| <= |rows|
    ensures forall r <- matching :: r in rows && Satisfies(f, r)
  {
    var byCity := Narrow(rows, f, ByCity);
    var byBhk := Narrow(byCity, f, ByBhk);
    var byMax := Narrow(byBhk, f, ByMaxPrice);
    var byMin := Narrow(byMax, f, ByMinPrice);
    var byStatus := Narrow(byMin, f, ByStatus);
    var byLocality := Narrow(byStatus, f, ByLocality);
    Narrow(byLocality, f, ByProject)
  }

  /** A row passes every active filter. */
  predicate Satisfies(f: Filters, r: Row) {
    forall c :: Admits(f, c, r)
  }

  /** `df.head(10)` of the filtered dataset: the rows search turns into cards. */
  function Shown(rows: seq<Row>, f: Filters): (shown: seq<Row>)
    ensures |shown| <= 10
  {
    var m := Matching(rows, f);
    m[..if |m| < 10 then |m| else 10]
  }

  // ===== what one step keeps =====

  /** A step keeps exactly the rows its filter admits. */
  lemma {:induction false} NarrowMembers(rows: seq<Row>, f: Filters, c: Criterion, r: Row)
    ensures r in Narrow(rows, f, c) <==> r in rows && Admits(f, c, r)
  {
    if Active(f, c) && rows != [] {
      NarrowMembers(rows[1..], f, c, r);
      assert rows == [rows[0]] + rows[1..];
    }
  }

  /** A step keeps the rows' order: it distributes over concatenation. */
  lemma NarrowAppend(a: seq<Row>, b: seq<Row>, f: Filters, c: Criterion)
    ensures Narrow(a + b, f, c) == Narrow(a, f, c) + Narrow(b, f, c)
  {
    if Active(f, c) {
      KeepAppend(a, b, f, c);
    }
  }

  lemma {:induction false} KeepAppend(a: seq<Row>, b: seq<Row>, f: Filters, c: Criterion)
    requires Active(f, c)
    ensures Keep(a + b, f, c) == Keep(a, f, c) + Keep(b, f, c)
  {
    if a == [] {
      assert a + b == b;
    } else {
      var head := if Test(f, c, a[0]) then [a[0]] else [];
      assert (a + b)[0] == a[0];
      assert (a + b)[1..] == a[1..] + b;
      calc {
        Keep(a + b, f, c);
        head + Keep(a[1..] + b, f, c);
        { KeepAppend(a[1..], b, f, c); }
        head + (Keep(a[1..], f, c) + Keep(b, f, c));
        (head + Keep(a[1..], f, c)) + Keep(b, f, c);
      }
    }
  }

  /** A step keeps every row when its filter admits all of them. */
  lemma {:induction false} NarrowAll(rows: seq<Row>, f: Filters, c: Criterion)
    requires forall r <- rows :: Admits(f, c, r)
    ensures Narrow(rows, f, c) == rows
  {
    if Active(f, c) && rows != [] {
      NarrowAll(rows[1..], f, c);
      assert rows[0] in rows;
      assert rows == [rows[0]] + rows[1..];
    }
  }

  // ===== what the filtered dataset is =====

  /** A row is in the filtered dataset exactly when it is in the dataset and passes every active filter. */
  lemma MatchingMembers(rows: seq<Row>, f: Filters, r: Row)
    ensures r in Matching(rows, f) <==> r in rows && Satisfies(f, r)
  {
    var byCity := Narrow(rows, f, ByCity);
    var byBhk := Narrow(byCity, f, ByBhk);
    var byMax := Narrow(byBhk, f, ByMaxPrice);
    var byMin := Narrow(byMax, f, ByMinPrice);
    var byStatus := Narrow(byMin, f, ByStatus);
    var byLocality := Narrow(byStatus, f, ByLocality);
    NarrowMembers(rows, f, ByCity, r);
    NarrowMembers(byCity, f, ByBhk, r);
    NarrowMembers(byBhk, f, ByMaxPrice, r);
    NarrowMembers(byMax, f, ByMinPrice, r);
    NarrowMembers(byMin, f, ByStatus, r);
    NarrowMembers(byStatus, f, ByLocality, r);
    NarrowMembers(byLocality, f, ByProject, r);
    SatisfiesEach(f, r);
  }

  /** Passing every filter is passing each of the seven. */
  lemma SatisfiesEach(f: Filters, r: Row)
    ensures Satisfies(f, r) <==>
      Admits(f, ByCity, r) && Admits(f, ByBhk, r) && Admits(f, ByMaxPrice, r) && Admits(f, ByMinPrice, r) &&
      Admits(f, ByStatus, r) && Admits(f, ByLocality, r) && Admits(f, ByProject, r)
  {
    if Admits(f, ByCity, r) && Admits(f, ByBhk, r) && Admits(f, ByMaxPrice, r) && Admits(f, ByMinPrice, r) &&
       Admits(f, ByStatus, r) && Admits(f, ByLocality, r) && Admits(f, ByProject, r) {
      forall c ensures Admits(f, c, r) {
        match c
        case ByCity =>
        case ByBhk =>
        case ByMaxPrice =>
        case ByMinPrice =>
        case ByStatus =>
        case ByLocality =>
        case ByProject =>
      }
    }
  }

  /** Filtering keeps the dataset's order: it distributes over concatenation. */
  lemma MatchingAppend(a: seq<Row>, b: seq<Row>, f: Filters)
    ensures Matching(a + b, f) == Matching(a, f) + Matching(b, f)
  {
    var a1, b1 := Narrow(a, f, ByCity), Narrow(b, f, ByCity);
    NarrowAppend(a, b, f, ByCity);
    var a2, b2 := Narrow(a1, f, ByBhk), Narrow(b1, f, ByBhk);
    NarrowAppend(a1, b1, f, ByBhk);
    var a3, b3 := Narrow(a2, f, ByMaxPrice), Narrow(b2, f, ByMaxPrice);
    NarrowAppend(a2, b2, f, ByMaxPrice);
    var a4, b4 := Narrow(a3, f, ByMinPrice), Narrow(b3, f, ByMinPrice);
    NarrowAppend(a3, b3, f, ByMinPrice);
    var a5, b5 := Narrow(a4, f, ByStatus), Narrow(b4, f, ByStatus);
    NarrowAppend(a4, b4, f, ByStatus);
    var a6, b6 := Narrow(a5, f, ByLocality), Narrow(b5, f, ByLocality);
    NarrowAppend(a5, b5, f, ByLocality);
    NarrowAppend(a6, b6, f, ByProject);
  }

  /** Rows that all pass every active filter come through filtering unchanged. */
  lemma MatchingAll(rows: seq<Row>, f: Filters)
    requires forall r <- rows :: Satisfies(f, r)
    ensures Matching(rows, f) == rows
  {
    NarrowAll(rows, f, ByCity);
    NarrowAll(rows, f, ByBhk);
    NarrowAll(rows, f, ByMaxPrice);
    NarrowAll(rows, f, ByMinPrice);
    NarrowAll(rows, f, ByStatus);
    NarrowAll(rows, f, ByLocality);
    NarrowAll(rows, f, ByProject);
  }

  /** What passing every active filter means, filter by filter. */
  lemma SatisfiesMeans(f: Filters, r: Row)
    ensures Satisfies(f, r) <==>
      (IsTruthy(f.city) ==> r.fullAddress.Some? && ContainsIgnoreCase(r.fullAddress.value, f.city.value)) &&
      (IsTruthy(f.bhk) ==> r.bhkType == f.bhk) &&
      (IsNonZero(f.budgetMax) ==> r.price.Some? && r.price.value <= f.budgetMax.value) &&
      (IsNonZero(f.budgetMin) ==> r.price.Some? && r.price.value >= f.budgetMin.value) &&
      (IsTruthy(f.possessionStatus) && StatusCode(f.possessionStatus.value).Some? ==>
         r.status == StatusCode(f.possessionStatus.value).value) &&
      (IsTruthy(f.locality) ==> r.fullAddress.Some? && ContainsIgnoreCase(r.fullAddress.value, f.locality.value)) &&
      (IsTruthy(f.projectName) ==> ContainsIgnoreCase(r.projectName, f.projectName.value))
  {
    SatisfiesEach(f, r);
  }

  /** With every filter field absent (or falsy) nothing is filtered, so search shows the first ten rows. */
  lemma NoFiltersShowsFirstTen(rows: seq<Row>, f: Filters)
    requires !IsTruthy(f.city) && !IsTruthy(f.bhk) && !IsNonZero(f.budgetMax) && !IsNonZero(f.budgetMin)
    requires !IsTruthy(f.possessionStatus) && !IsTruthy(f.locality) && !IsTruthy(f.projectName)
    ensures Shown(rows, f) == rows[..if |rows| < 10 then |rows| else 10]
  {
    forall r <- rows ensures Satisfies(f, r) {
      SatisfiesMeans(f, r);
    }
    MatchingAll(rows, f);
  }

  /** A possession status other than the two mapped ones filters nothing. */
  lemma UnmappedStatusIgnored(f: Filters, r: Row)
    requires f.possessionStatus.Some? && f.possessionStatus.value !in {"Ready To Move", "Under Construction"}
    ensures Admits(f, ByStatus, r)
  {
  }

  /** A row without an address never survives an active city or locality filter (`na=False`). */
  lemma MissingAddressExcluded(f: Filters, r: Row)
    requires IsTruthy(f.city) || IsTruthy(f.locality)
    requires r.fullAddress.None?
    ensures !Satisfies(f, r)
  {
    SatisfiesMeans(f, r);
  }

  /** A row without a price never survives an active budget filter (NaN compares false). */
  lemma MissingPriceExcluded(f: Filters, r: Row)
    requires IsNonZero(f.budgetMax) || IsNonZero(f.budgetMin)
    requires r.price.None?
    ensures !Satisfies(f, r)
  {
    SatisfiesMeans(f, r);
  }

  /** Every row search shows lies within the active budget bounds and has the requested configuration. */
  lemma ShownWithinFilters(rows: seq<Row>, f: Filters, i: nat)
    requires i < |Shown(rows, f)|
    ensures var r := Shown(rows, f)[i];
      r in rows &&
      (IsTruthy(f.bhk) ==> r.bhkType == f.bhk) &&
      (IsNonZero(f.budgetMin) ==> r.price.Some? && f.budgetMin.value <= r.price.value) &&
      (IsNonZero(f.budgetMax) ==> r.price.Some? && r.price.value <= f.budgetMax.value)
  {
    var r := Shown(rows, f)[i];
    assert r in Matching(rows, f);
    MatchingMembers(rows, f, r);
    SatisfiesMeans(f, r);
  }

  // ===== building a card =====

  /** The columns whose NaN would make card construction raise instead of returning a card. */
  predicate Presentable(r: Row) {
    r.fullAddress.Some? && r.landmark.Some? && r.bhkType.Some? && r.balcony.Some? && r.bathrooms.Some?
  }

  /** `row.get('lift')` is truthy: a NaN cell counts as true. */
  predicate HasLift(r: Row) {
    r.lift.None? || r.lift.value
  }

  /** `row.get('parkingType')` is truthy: a NaN cell counts as true, the empty text as false. */
  predicate HasParking(r: Row) {
    r.parkingType.None? || r.parkingType.value != ""
  }

  predicate HasBalconies(r: Row) {
    r.balcony.Some? && r.balcony.value > 0
  }

  /** "<n> Balconies": the count in decimal, read back exactly by int(), then the word. */
  function BalconyLabel(n: nat): (text: string)
    ensures |text| > 10 && EndsWith(text, " Balconies")
    ensures AllDigits(text[..|text| - 10]) && DigitsValue(text[..|text| - 10]) == n
  {
    NatToStringRoundTrip(n);
    var text := NatToString(n) + " Balconies";
    assert text[..|text| - 10] == NatToString(n);
    text
  }

  /** The amenity checks in their fixed order: lift, parking, balconies. */
  function AmenitiesOf(r: Row): (amenities: seq<string>)
    ensures |amenities| <= 3
    ensures forall a <- amenities :: a == "Lift" || a == "Parking" || EndsWith(a, " Balconies")
  {
    (if HasLift(r) then ["Lift"] else [])
    + (if HasParking(r) then ["Parking"] else [])
    + (if HasBalconies(r) then [BalconyLabel(r.balcony.value)] else [])
  }

  /** `amenities[:3]`. */
  function Take3(a: seq<string>): (r: seq<string>)
    ensures |r| == (if |a| <= 3 then |a| else 3) && r == a[..|r|]
  {
    if |a| <= 3 then a else a[..3]
  }

  /** The price bucket: crores from 10^7 up, lakhs below, and a fixed text when the price is missing. */
  function PriceLabel(price: Option<real>): (text: string)
  {
    match price
    case None => "Price on request"
    case Some(p) =>
      if p >= 10000000.0 then [Rupee] + Fixed(p / 10000000.0, 2) + " Cr"
      else [Rupee] + Fixed(p / 100000.0, 2) + " L"
  }

  /** The missing-price text shows exactly when the price is missing: every present price opens with the rupee sign. */
  lemma PriceOnRequest(price: Option<real>)
    ensures PriceLabel(price) == "Price on request" <==> price.None?
  {
    if price.Some? {
      PriceBuckets(price.value);
      NotOnRequest(PriceLabel(price), "Price on request");
    }
  }

  /** A text that opens with the rupee sign is never the missing-price text. */
  lemma NotOnRequest(text: string, missing: string)
    requires text != [] && text[0] == Rupee && missing == "Price on request"
    ensures text != missing
  {
    assert missing[0] == 'P';
  }

  /** str.replace('_', ' ').title() on the status code. */
  function StatusDisplay(status: string): (display: string)
    ensures |display| == |status|
  {
    TitleCase(ReplaceChar(status, '_', ' '))
  }

  /** _extract_city_from_address: a coarse display city, by the first of three substrings found. */
  function DisplayCity(address: string): (city: string)
    ensures city in {"Mumbai", "Pune", "Bangalore", "India"}
  {
    var a := Lower(address);
    if Contains(a, "mumbai") then "Mumbai"
    else if Contains(a, "pune") then "Pune"
    else if Contains(a, "bangalore") then "Bangalore"
    else "India"
  }

  /** The card _row_to_property_card builds from a presentable row. */
  function CardOf(r: Row): (card: PropertyCard)
    requires Presentable(r)
    ensures card.amenities == AmenitiesOf(r)
    ensures card.city in {"Mumbai", "Pune", "Bangalore", "India"}
    ensures card.price == "Price on request" <==> r.price.None?
    ensures card.priceRaw > 0.0 <==> r.price.Some? && r.price.value > 0.0
    ensures |card.possessionStatus| == |r.status|
  {
    AmenitiesMeaning(r);
    PriceOnRequest(r.price);
    PropertyCard(
      projectId := r.id,
      title := r.projectName,
      city := DisplayCity(r.fullAddress.value),
      locality := r.landmark.value,
      bhk := r.bhkType.value,
      price := PriceLabel(r.price),
      priceRaw := r.price.GetOr(0.0),
      projectName := r.projectName,
      possessionStatus := StatusDisplay(r.status),
      amenities := Take3(AmenitiesOf(r)),
      carpetArea := r.carpetArea,
      bathrooms := r.bathrooms,
      balconies := r.balcony,
      slug := r.slug,
      url := "/project/" + r.slug)
  }

  /** The cards of a sequence of presentable rows, one per row, in order. */
  function Cards(rows: seq<Row>): (cards: seq<PropertyCard>)
    requires forall r <- rows :: Presentable(r)
    ensures |cards| == |rows|
  {
    if rows == [] then [] else Cards(rows[..|rows| - 1]) + [CardOf(rows[|rows| - 1])]
  }

  /** Card i is built from row i. */
  lemma {:induction false} CardsAt(rows: seq<Row>, i: nat)
    requires forall r <- rows :: Presentable(r)
    requires i < |rows|
    ensures Cards(rows)[i] == CardOf(rows[i])
  {
    if i < |rows| - 1 {
      CardsAt(rows[..|rows| - 1], i);
    }
  }

  // ===== what a card shows =====

  /**
   * The amenity list names the lift exactly when the lift cell is truthy, parking exactly
   * when the parking cell is, and the balcony count exactly when it is positive, in that
   * order; at most three entries arise, so `[:3]` never drops one.
   */
  lemma AmenitiesMeaning(r: Row)
    ensures "Lift" in AmenitiesOf(r) <==> HasLift(r)
    ensures "Parking" in AmenitiesOf(r) <==> HasParking(r)
    ensures (exists a <- AmenitiesOf(r) :: EndsWith(a, " Balconies")) <==> HasBalconies(r)
    ensures HasLift(r) ==> AmenitiesOf(r)[0] == "Lift"
    ensures |AmenitiesOf(r)| <= 3 && Take3(AmenitiesOf(r)) == AmenitiesOf(r)
  {
    var lift := if HasLift(r) then ["Lift"] else [];
    var parking := if HasParking(r) then ["Parking"] else [];
    var balcony := if HasBalconies(r) then [BalconyLabel(r.balcony.value)] else [];
    assert AmenitiesOf(r) == lift + parking + balcony;
    assert !EndsWith("Lift", " Balconies") && !EndsWith("Parking", " Balconies");
    if HasBalconies(r) {
      var text := BalconyLabel(r.balcony.value);
      assert text in AmenitiesOf(r) && text != "Lift" && text != "Parking";
    }
  }

  /** The price bucket: a price shows in crores exactly from 10^7 rupees up, in lakhs below. */
  lemma PriceBuckets(p: real)
    ensures PriceLabel(Some(p))[0] == Rupee
    ensures EndsWith(PriceLabel(Some(p)), " Cr") <==> p >= 10000000.0
    ensures EndsWith(PriceLabel(Some(p)), " L") <==> p < 10000000.0
  {
    var text := PriceLabel(Some(p));
    if p >= 10000000.0 {
      assert text[|text| - 1] == 'r';
    } else {
      assert text[|text| - 1] == 'L';
    }
  }

  /** Two prices as the cards show them: 1.2 crore and 8 lakh rupees. */
  lemma PriceExamples()
    ensures PriceLabel(Some(12000000.0)) == [Rupee] + "1.20 Cr"
    ensures PriceLabel(Some(800000.0)) == [Rupee] + "8.00 L"
  {
    assert Pow10(2) == 100;
    assert Rounded(1.2, 2) == 120;
    assert NatToString(1) == "1" && NatToString(20) == "20";
    assert ScaledText(120, 2) == "1.20";
    assert Rounded(8.0, 2) == 800;
    assert NatToString(8) == "8" && NatToString(0) == "0";
    assert PadZeros("0", 2) == "00";
    assert ScaledText(800, 2) == "8.00";
  }

  /** A row kept by a Mumbai city filter is shown with the display city Mumbai. */
  lemma MumbaiFilterShowsMumbai(f: Filters, r: Row)
    requires f.city == Some("Mumbai") && Satisfies(f, r)
    ensures r.fullAddress.Some? && DisplayCity(r.fullAddress.value) == "Mumbai"
  {
    SatisfiesMeans(f, r);
    var l := Lower("Mumbai");
    assert |l| == 6;
    assert l == "mumbai";
  }

  /** The search engine over a dataset fixed at construction. */
  class SearchEngine {
    /** The joined dataset. */
    const df: seq<Row>

    constructor(rows: seq<Row>)
      ensures df == rows
    {
      df := rows;
    }

    /**
     * search: narrow a copy of the dataset with each active filter, then turn the first
     * ten surviving rows into cards.
     */
    method Search(filters: Filters) returns (properties: seq<PropertyCard>)
      requires forall r <- Shown(df, filters) :: Presentable(r)
      ensures properties == Cards(Shown(df, filters))
    {
      var rows := NarrowRows(filters);
      var head := rows[..if |rows| < 10 then |rows| else 10];
      assert head == Shown(df, filters);
      properties := CardsFor(head);
    }

    /** The loop of search over `df.head(10).iterrows()`: one card appended per row. */
    method CardsFor(head: seq<Row>) returns (properties: seq<PropertyCard>)
      requires forall r <- head :: Presentable(r)
      ensures properties == Cards(head)
    {
      properties := [];
      var i := 0;
      while i < |head|
        invariant 0 <= i <= |head|
        invariant properties == Cards(head[..i])
      {
        var card := RowToPropertyCard(head[i]);
        ghost var done := head[..i + 1];
        assert done[..i] == head[..i] && done[i] == head[i];
        properties := properties + [card];
        i := i + 1;
      }
      assert head[..i] == head;
    }

    /**
     * The filter chain of search: starting from a copy of the dataset, each active filter
     * rebinds the row set to the rows its mask keeps.
     */
    method NarrowRows(filters: Filters) returns (rows: seq<Row>)
      ensures rows == Matching(df, filters)
    {
      rows := df;
      if IsTruthy(filters.city) {
        rows := Keep(rows, filters, ByCity);
      }
      ghost var byCity := rows;
      assert byCity == Narrow(df, filters, ByCity);
      if IsTruthy(filters.bhk) {
        rows := Keep(rows, filters, ByBhk);
      }
      ghost var byBhk := rows;
      assert byBhk == Narrow(byCity, filters, ByBhk);
      if IsNonZero(filters.budgetMax) {
        rows := Keep(rows, filters, ByMaxPrice);
      }
      ghost var byMax := rows;
      assert byMax == Narrow(byBhk, filters, ByMaxPrice);
      if IsNonZero(filters.budgetMin) {
        rows := Keep(rows, filters, ByMinPrice);
      }
      ghost var byMin := rows;
      assert byMin == Narrow(byMax, filters, ByMinPrice);
      if IsTruthy(filters.possessionStatus) {
        var mapped := StatusCode(filters.possessionStatus.value);
        if mapped.Some? {
          rows := Keep(rows, filters, ByStatus);
        }
      }
      ghost var byStatus := rows;
      assert byStatus == Narrow(byMin, filters, ByStatus);
      if IsTruthy(filters.locality) {
        rows := Keep(rows, filters, ByLocality);
      }
      ghost var byLocality := rows;
      assert byLocality == Narrow(byStatus, filters, ByLocality);
      if IsTruthy(filters.projectName) {
        rows := Keep(rows, filters, ByProject);
      }
    }

    /** _row_to_property_card: price bucket, amenities by conditional appends, status display. */
    method RowToPropertyCard(row: Row) returns (card: PropertyCard)
      requires Presentable(row)
      ensures card == CardOf(row)
    {
      var priceFormatted := FormatPrice(row.price);
      var amenities := CollectAmenities(row);
      var statusDisplay := TitleCase(ReplaceChar(row.status, '_', ' '));
      card := PropertyCard(
        projectId := row.id,
        title := row.projectName,
        city := DisplayCity(row.fullAddress.value),
        locality := row.landmark.value,
        bhk := row.bhkType.value,
        price := priceFormatted,
        priceRaw := if row.price.Some? then row.price.value else 0.0,
        projectName := row.projectName,
        possessionStatus := statusDisplay,
        amenities := Take3(amenities),
        carpetArea := row.carpetArea,
        bathrooms := row.bathrooms,
        balconies := row.balcony,
        slug := row.slug,
        url := "/project/" + row.slug);
    }

    /** The price step of _row_to_property_card: crores from 10^7 up, lakhs below, a fixed text when missing. */
    method FormatPrice(price: Option<real>) returns (priceFormatted: string)
      ensures priceFormatted == PriceLabel(price)
    {
      if price.Some? {
        var p := price.value;
        if p >= 10000000.0 {
          priceFormatted := [Rupee] + Fixed(p / 10000000.0, 2) + " Cr";
        } else {
          priceFormatted := [Rupee] + Fixed(p / 100000.0, 2) + " L";
        }
        assert price == Some(p);
      } else {
        priceFormatted := "Price on request";
      }
    }

    /** The amenity step of _row_to_property_card: lift, parking and balconies appended in turn. */
    method CollectAmenities(row: Row) returns (amenities: seq<string>)
      requires row.balcony.Some?
      ensures amenities == AmenitiesOf(row)
    {
      amenities := [];
      if HasLift(row) {
        amenities := amenities + ["Lift"];
      }
      if HasParking(row) {
        amenities := amenities + ["Parking"];
      }
      if row.balcony.value > 0 {
        amenities := amenities + [BalconyLabel(row.balcony.value)];
      }
    }
  }
}
