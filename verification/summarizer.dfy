/**
 * The summary generator (backend/summarizer.py): counts, distinct sets and the mean of the
 * positive prices of the result cards, rendered into a templated text of up to three lines.
 */
module Summarizer {
  import opened Wrappers
  import opened Text
  import opened Models

  // ===== statistics =====

  /** The distinct display cities of the cards. */
  function CitySet(ps: seq<PropertyCard>): set<string> {
    set p | p in ps :: p.city
  }

  /** The distinct localities of the cards. */
  function LocalitySet(ps: seq<PropertyCard>): set<string> {
    set p | p in ps :: p.locality
  }

  /** Every amenity of every card, card after card: what the extend loop accumulates. */
  function AllAmenities(ps: seq<PropertyCard>): seq<string> {
    if ps == [] then [] else AllAmenities(ps[..|ps| - 1]) + ps[|ps| - 1].amenities
  }

  /** The distinct amenities of the cards. */
  function AmenitySet(ps: seq<PropertyCard>): set<string> {
    set a | a in AllAmenities(ps)
  }

  /** The positive raw prices, in card order: `[p.price_raw for p in properties if p.price_raw > 0]`. */
  function PositivePrices(ps: seq<PropertyCard>): (prices: seq<real>)
    ensures |prices| <= |ps|
    ensures forall x <- prices :: x > 0.0
    ensures prices == [] <==> forall p <- ps :: p.priceRaw <= 0.0
  {
    if ps == [] then []
    else
      assert forall p <- ps :: p == ps[0] || p in ps[1..];
      (if ps[0].priceRaw > 0.0 then [ps[0].priceRaw] else []) + PositivePrices(ps[1..])
  }

  function Sum(xs: seq<real>): real {
    if xs == [] then 0.0 else xs[0] + Sum(xs[1..])
  }

  /** statistics.mean, in exact arithmetic. */
  function Mean(xs: seq<real>): real
    requires xs != []
  {
    Sum(xs) / |xs| as real
  }

  /** The average of the positive prices, or 0 when there is none. */
  function AveragePrice(ps: seq<PropertyCard>): (avg: real)
    ensures avg >= 0.0
    ensures avg > 0.0 <==> exists p <- ps :: p.priceRaw > 0.0
  {
    var prices := PositivePrices(ps);
    if prices == [] then 0.0
    else
      MeanBounds(prices);
      Mean(prices)
  }

  /** The number of cards whose lowercased status display contains the word. */
  function StatusCount(ps: seq<PropertyCard>, word: string): (n: nat)
    ensures n <= |ps|
  {
    if ps == [] then 0
    else (if Contains(Lower(ps[0].possessionStatus), word) then 1 else 0) + StatusCount(ps[1..], word)
  }

  // ===== what the statistics mean =====

  /** There are no more distinct cities than cards, and some city exactly when there is some card. */
  lemma {:induction false} CitySetSize(ps: seq<PropertyCard>)
    ensures |CitySet(ps)| <= |ps|
    ensures CitySet(ps) == {} <==> ps == []
    decreases |ps|
  {
    if ps != [] {
      var init := ps[..|ps| - 1];
      assert CitySet(ps) == CitySet(init) + {ps[|ps| - 1].city} by {
        assert forall p <- ps :: p in init || p == ps[|ps| - 1];
      }
      CitySetSize(init);
      assert ps[|ps| - 1].city in CitySet(ps);
    }
  }

  /** There are no more distinct localities than cards, and some locality exactly when there is some card. */
  lemma {:induction false} LocalitySetSize(ps: seq<PropertyCard>)
    ensures |LocalitySet(ps)| <= |ps|
    ensures LocalitySet(ps) == {} <==> ps == []
    decreases |ps|
  {
    if ps != [] {
      var init := ps[..|ps| - 1];
      assert LocalitySet(ps) == LocalitySet(init) + {ps[|ps| - 1].locality} by {
        assert forall p <- ps :: p in init || p == ps[|ps| - 1];
      }
      LocalitySetSize(init);
      assert ps[|ps| - 1].locality in LocalitySet(ps);
    }
  }

  /** The mean lies between the smallest and the largest value. */
  lemma {:induction false} MeanBounds(xs: seq<real>)
    requires xs != []
    ensures exists x <- xs :: x <= Mean(xs)
    ensures exists x <- xs :: Mean(xs) <= x
  {
    var lo, hi := MinOf(xs), MaxOf(xs);
    SumAtLeast(xs, lo);
    SumAtMost(xs, hi);
    DivBetween(Sum(xs), |xs| as real, lo, hi);
  }

  lemma DivBetween(s: real, n: real, lo: real, hi: real)
    requires n > 0.0 && lo * n <= s <= hi * n
    ensures lo <= s / n <= hi
  {
    var q := s / n;
    assert q * n == s;
    assert (q - lo) * n >= 0.0;
    assert (hi - q) * n >= 0.0;
  }

  function MinOf(xs: seq<real>): (m: real)
    requires xs != []
    ensures m in xs && forall x <- xs :: m <= x
  {
    if |xs| == 1 then xs[0]
    else
      var rest := MinOf(xs[1..]);
      assert forall x <- xs :: x == xs[0] || x in xs[1..];
      if xs[0] <= rest then xs[0] else rest
  }

  function MaxOf(xs: seq<real>): (m: real)
    requires xs != []
    ensures m in xs && forall x <- xs :: x <= m
  {
    if |xs| == 1 then xs[0]
    else
      var rest := MaxOf(xs[1..]);
      assert forall x <- xs :: x == xs[0] || x in xs[1..];
      if xs[0] >= rest then xs[0] else rest
  }

  /** A sum of values none below `lo` is at least `lo` times their number. */
  lemma {:induction false} SumAtLeast(xs: seq<real>, lo: real)
    requires forall x <- xs :: lo <= x
    ensures |xs| as real * lo <= Sum(xs)
  {
    if xs != [] {
      var rest := xs[1..];
      assert forall x <- rest :: x in xs;
      SumAtLeast(rest, lo);
      assert xs[0] in xs;
      assert |xs| as real * lo == |rest| as real * lo + lo;
    }
  }

  /** A sum of values none above `hi` is at most `hi` times their number. */
  lemma {:induction false} SumAtMost(xs: seq<real>, hi: real)
    requires forall x <- xs :: x <= hi
    ensures Sum(xs) <= |xs| as real * hi
  {
    if xs != [] {
      var rest := xs[1..];
      assert forall x <- rest :: x in xs;
      SumAtMost(rest, hi);
      assert xs[0] in xs;
      assert |xs| as real * hi == |rest| as real * hi + hi;
    }
  }

  /** A status count is zero exactly when no card's status mentions the word. */
  lemma {:induction false} StatusCountZero(ps: seq<PropertyCard>, word: string)
    ensures StatusCount(ps, word) == 0 <==> forall p <- ps :: !Contains(Lower(p.possessionStatus), word)
  {
    if ps != [] {
      StatusCountZero(ps[1..], word);
      assert forall p <- ps :: p == ps[0] || p in ps[1..];
      assert ps[0] in ps;
    }
  }

  /** An amenity is in the pool exactly when some card lists it. */
  lemma {:induction false} AmenitySetMembers(ps: seq<PropertyCard>, a: string)
    ensures a in AmenitySet(ps) <==> exists p <- ps :: a in p.amenities
  {
    if ps != [] {
      var init := ps[..|ps| - 1];
      AmenitySetMembers(init, a);
      assert a in AllAmenities(ps) <==> a in AllAmenities(init) || a in ps[|ps| - 1].amenities;
      assert forall p <- ps :: p in init || p == ps[|ps| - 1];
      assert forall p <- init :: p in ps;
      assert ps[|ps| - 1] in ps;
    }
  }

  /** With exactly one distinct city, that city is the first card's. */
  lemma OnlyCity(ps: seq<PropertyCard>, city: string)
    requires |CitySet(ps)| == 1 && city in CitySet(ps)
    ensures ps != [] && city == ps[0].city
  {
    var cities := CitySet(ps);
    assert ps != [];
    assert ps[0].city in cities;
    assert |cities - {city}| == 0;
    assert ps[0].city !in cities - {city};
  }

  // ===== the text =====

  /** Up to three distinct members of a set, in some order: `list(set(...))[:3]`. */
  predicate Listing(xs: seq<string>, s: set<string>) {
    |xs| == (if |s| < 3 then |s| else 3) &&
    (forall i, j :: 0 <= i < j < |xs| ==> xs[i] != xs[j]) &&
    (forall x <- xs :: x in s)
  }

  /** The budget label: one decimal of crores from 10^7 up, whole lakhs below. */
  function BudgetLabel(b: real): string {
    if b >= 10000000.0 then [Rupee] + Fixed(b / 10000000.0, 1) + " Cr"
    else [Rupee] + Fixed(b / 100000.0, 0) + " L"
  }

  /** The average label: two decimals of crores from 10^7 up, whole lakhs below. */
  function AverageLabel(a: real): string {
    if a >= 10000000.0 then [Rupee] + Fixed(a / 10000000.0, 2) + " Cr"
    else [Rupee] + Fixed(a / 100000.0, 0) + " L"
  }

  /** The opening part: the count, and the budget when the maximum budget is truthy. */
  function OpeningPart(total: nat, f: Filters): string {
    if IsNonZero(f.budgetMax) then "Found " + NatToString(total) + " properties under " + BudgetLabel(f.budgetMax.value)
    else "Found " + NatToString(total) + " properties"
  }

  /**
   * summary_parts: the opening, the bhk part when the bhk is truthy, and, when all cards share one
   * display city, that city and the listed localities.
   */
  function Line1Parts(ps: seq<PropertyCard>, f: Filters, localities: seq<string>): (parts: seq<string>)
    ensures |parts| >= 1 && parts[0] == OpeningPart(|ps|, f)
  {
    [OpeningPart(|ps|, f)]
    + (if IsTruthy(f.bhk) then ["matching your " + f.bhk.value + " requirement"] else [])
    + (if ps != [] && |CitySet(ps)| == 1 then
         ["in " + ps[0].city] + (if localities != [] then ["primarily in " + Join(", ", localities)] else [])
       else [])
  }

  /** summary_line1: the space-joined parts and a full stop. */
  function Line1(ps: seq<PropertyCard>, f: Filters, localities: seq<string>): string {
    Join(" ", Line1Parts(ps, f, localities)) + "."
  }

  function AverageClause(avg: real): string {
    if avg > 0.0 then "Average price is around " + AverageLabel(avg) + ". " else ""
  }

  function ReadyClause(n: nat): string {
    if n > 0 then NatToString(n) + " properties are ready to move. " else ""
  }

  function UnderConstructionClause(n: nat): string {
    if n > 0 then NatToString(n) + " are under construction. " else ""
  }

  /** summary_line2: average price, then the two status counts, each only when positive; every clause ends in ". ". */
  function Line2(ps: seq<PropertyCard>): (line: string)
    ensures line == [] || (|line| >= 2 && line[|line| - 2] == '.' && line[|line| - 1] == ' ')
  {
    var a := AverageClause(AveragePrice(ps));
    var r := ReadyClause(StatusCount(ps, "ready"));
    var u := UnderConstructionClause(StatusCount(ps, "construction"));
    ClausesEnd(a, r, u);
    a + r + u
  }

  /** summary_line3: the listed amenities, when there are any, as one sentence. */
  function Line3(amenities: seq<string>): (line: string)
    ensures line != [] <==> amenities != []
    ensures line != [] ==> StartsWith(line, "Common amenities include ") && line[|line| - 1] == '.'
  {
    if amenities != [] then
      var opening := "Common amenities include ";
      StartsWithAppend(opening, Join(", ", amenities));
      StartsWithExtend(opening + Join(", ", amenities), opening, ".");
      opening + Join(", ", amenities) + "."
    else ""
  }

  /** The summary of a non-empty result, for given listings of the localities and the amenities. */
  function SummaryText(ps: seq<PropertyCard>, f: Filters, localities: seq<string>, amenities: seq<string>): string {
    Strip(Line1(ps, f, localities) + " " + Line2(ps) + " " + Line3(amenities))
  }

  /** The closing of the fallback text: the full stop of the parts, then the advice. */
  const Suggestion: string := "." + " Try expanding your budget or exploring nearby localities."

  /** The parts of the fallback text: the bhk, the city and the budget, each only when set. */
  function NoResultsParts(f: Filters): (parts: seq<string>)
    ensures |parts| >= 1 && parts[0] == "No properties found"
  {
    ["No properties found"]
    + (if IsTruthy(f.bhk) then ["for " + f.bhk.value] else [])
    + (if IsTruthy(f.city) then ["in " + f.city.value] else [])
    + (if IsNonZero(f.budgetMax) then ["under " + BudgetLabel(f.budgetMax.value)] else [])
  }

  /** _generate_no_results_summary: the parts joined with spaces, then the suggestion. */
  function NoResultsText(f: Filters): string {
    Join(" ", NoResultsParts(f)) + Suggestion
  }

  // ===== what the text says =====

  /** The budget label shows crores exactly from 10^7 rupees up. */
  lemma BudgetBuckets(b: real)
    ensures BudgetLabel(b)[0] == Rupee
    ensures EndsWith(BudgetLabel(b), " Cr") <==> b >= 10000000.0
    ensures EndsWith(BudgetLabel(b), " L") <==> b < 10000000.0
  {
    var text := BudgetLabel(b);
    if b >= 10000000.0 {
      assert text[|text| - 1] == 'r';
    } else {
      assert text[|text| - 1] == 'L';
    }
  }

  /** 1.25 crore lies halfway between 1.2 and 1.3 crore: the label takes the even last digit. */
  lemma BudgetTieToEven(b: real)
    requires b == 12500000.0
    ensures BudgetLabel(b) == [Rupee] + "1.2 Cr"
  {
    assert b / 10000000.0 == 1.25;
    assert Pow10(1) == 10;
    HalfwayRounded(1.25, 1, 12);
    OnePointTwo(12, "1.2");
  }

  lemma OnePointTwo(n: nat, text: string)
    requires n == 12 && text == "1.2"
    ensures ScaledText(n, 1) == text
  {
    assert Pow10(1) == 10;
    assert NatToString(1) == "1" && NatToString(2) == "2";
  }

  /** 80.5 lakh lies halfway between 80 and 81 lakh: the label takes the even one. */
  lemma AverageTieToEven(a: real)
    requires a == 8050000.0
    ensures AverageLabel(a) == [Rupee] + "80 L"
  {
    assert a / 100000.0 == 80.5;
    assert Pow10(0) == 1;
    HalfwayRounded(80.5, 0, 80);
    Eighty(80, "80");
  }

  lemma Eighty(n: nat, text: string)
    requires n == 80 && text == "80"
    ensures ScaledText(n, 0) == text
  {
    assert Pow10(0) == 1;
    assert NatToString(8) == "8" && NatToString(0) == "0";
  }

  /** The opening part names the count, then the budget exactly when the maximum budget is truthy. */
  lemma OpeningMeaning(total: nat, f: Filters)
    ensures StartsWith(OpeningPart(total, f), "Found " + NatToString(total) + " properties")
    ensures IsNonZero(f.budgetMax) ==>
            OpeningPart(total, f) == "Found " + NatToString(total) + " properties" + (" under " + BudgetLabel(f.budgetMax.value))
    ensures !IsNonZero(f.budgetMax) ==> OpeningPart(total, f) == "Found " + NatToString(total) + " properties"
  {
    var found := "Found " + NatToString(total) + " properties";
    if IsNonZero(f.budgetMax) {
      var budget := BudgetLabel(f.budgetMax.value);
      UnderSplit();
      assert "Found " + NatToString(total) + " properties under " + budget == found + (" under " + budget);
      StartsWithAppend(found, " under " + budget);
    } else {
      StartsWithAppend(found, "");
      assert found + "" == found;
    }
  }

  lemma UnderSplit()
    ensures " properties under " == " properties" + " under "
  {
  }

  /** Line 1 opens with the opening part and ends with a full stop. */
  lemma Line1Ends(ps: seq<PropertyCard>, f: Filters, localities: seq<string>)
    ensures var l1 := Line1(ps, f, localities);
            StartsWith(l1, OpeningPart(|ps|, f)) && l1[0] == 'F' && l1[|l1| - 1] == '.'
  {
    var parts := Line1Parts(ps, f, localities);
    var opening := OpeningPart(|ps|, f);
    JoinStartsWithFirst(" ", parts);
    StartsWithExtend(Join(" ", parts), opening, ".");
    assert opening[0] == 'F';
  }

  /** The summary is the first line followed by whatever of the rest survives stripping. */
  lemma SummaryShape(ps: seq<PropertyCard>, f: Filters, localities: seq<string>, amenities: seq<string>)
    ensures SummaryText(ps, f, localities, amenities)
            == Line1(ps, f, localities) + TrimRight(" " + Line2(ps) + " " + Line3(amenities))
  {
    Line1Ends(ps, f, localities);
    SpacedShape(Line1(ps, f, localities), Line2(ps), Line3(amenities));
  }

  /** Stripping text that opens with a non-space and has a non-space before the first gap. */
  lemma SpacedShape(l1: string, l2: string, l3: string)
    requires l1 != [] && !IsSpace(l1[0]) && !IsSpace(l1[|l1| - 1])
    ensures Strip(l1 + " " + l2 + " " + l3) == l1 + TrimRight(" " + l2 + " " + l3)
  {
    var rest := " " + l2 + " " + l3;
    var s := l1 + " " + l2 + " " + l3;
    assert s == l1 + rest;
    assert s[0] == l1[0];
    TrimRightKeeps(l1, rest);
  }

  /** A non-empty result's summary opens with "Found <count> properties". */
  lemma SummaryOpens(ps: seq<PropertyCard>, f: Filters, localities: seq<string>, amenities: seq<string>)
    ensures StartsWith(SummaryText(ps, f, localities, amenities), "Found " + NatToString(|ps|) + " properties")
  {
    SummaryShape(ps, f, localities, amenities);
    Line1Ends(ps, f, localities);
    OpeningMeaning(|ps|, f);
    var l1 := Line1(ps, f, localities);
    StartsWithExtend(l1, OpeningPart(|ps|, f), TrimRight(" " + Line2(ps) + " " + Line3(amenities)));
    StartsWithTrans(SummaryText(ps, f, localities, amenities), OpeningPart(|ps|, f),
                    "Found " + NatToString(|ps|) + " properties");
  }

  /** The budget follows the count exactly when the maximum budget is truthy. */
  lemma SummaryBudget(ps: seq<PropertyCard>, f: Filters, localities: seq<string>, amenities: seq<string>)
    ensures StartsWith(SummaryText(ps, f, localities, amenities), "Found " + NatToString(|ps|) + " properties under ")
            <==> IsNonZero(f.budgetMax)
    ensures IsNonZero(f.budgetMax) ==>
            StartsWith(SummaryText(ps, f, localities, amenities),
                       "Found " + NatToString(|ps|) + " properties under " + BudgetLabel(f.budgetMax.value))
  {
    SummaryShape(ps, f, localities, amenities);
    Line1Ends(ps, f, localities);
    var s := SummaryText(ps, f, localities, amenities);
    var l1 := Line1(ps, f, localities);
    assert StartsWith(s, l1) by {
      StartsWithAppend(l1, TrimRight(" " + Line2(ps) + " " + Line3(amenities)));
    }
    if IsNonZero(f.budgetMax) {
      BudgetShown(s, l1, |ps|, f);
    } else {
      var next := NextAfterOpening(ps, f, localities);
      BudgetNotShown(s, l1, NatToString(|ps|), next);
    }
  }

  lemma BudgetShown(s: string, l1: string, total: nat, f: Filters)
    requires IsNonZero(f.budgetMax) && StartsWith(s, l1) && StartsWith(l1, OpeningPart(total, f))
    ensures StartsWith(s, "Found " + NatToString(total) + " properties under " + BudgetLabel(f.budgetMax.value))
    ensures StartsWith(s, "Found " + NatToString(total) + " properties under ")
  {
    var under := "Found " + NatToString(total) + " properties under ";
    var opening := OpeningPart(total, f);
    StartsWithTrans(s, l1, opening);
    StartsWithAppend(under, BudgetLabel(f.budgetMax.value));
    StartsWithTrans(s, opening, under);
  }

  lemma BudgetNotShown(s: string, l1: string, count: string, next: string)
    requires next == "." || (|next| == 2 && next[0] == ' ' && next[1] in {'m', 'i'})
    requires StartsWith(s, l1) && StartsWith(l1, "Found " + count + " properties" + next)
    ensures !StartsWith(s, "Found " + count + " properties under ")
  {
    var found := "Found " + count + " properties";
    UnderSplit();
    assert "Found " + count + " properties under " == found + " under ";
    StartsWithTrans(s, l1, found + next);
    OtherNext(s, found, next, " under ");
  }

  /** A text that continues differently after `lead` does not start with `lead + word`. */
  lemma OtherNext(s: string, lead: string, next: string, word: string)
    requires |word| >= 2 && word[0] == ' '
    requires StartsWith(s, lead + next)
    requires (|next| >= 1 && next[0] != ' ') || (|next| >= 2 && next[0] == ' ' && next[1] != word[1])
    ensures !StartsWith(s, lead + word)
  {
    if StartsWith(s, lead + word) {
      if next[0] != ' ' {
        PrefixesAgree(s, lead + word, lead + next, |lead|);
      } else {
        PrefixesAgree(s, lead + word, lead + next, |lead| + 1);
      }
    }
  }

  /**
   * Without a budget, what follows the opening is either the full stop or a space and the first
   * letter of the bhk or city part.
   */
  lemma NextAfterOpening(ps: seq<PropertyCard>, f: Filters, localities: seq<string>) returns (next: string)
    requires !IsNonZero(f.budgetMax)
    ensures next == "." || (|next| == 2 && next[0] == ' ' && next[1] in {'m', 'i'})
    ensures StartsWith(Line1(ps, f, localities), "Found " + NatToString(|ps|) + " properties" + next)
  {
    var parts := Line1Parts(ps, f, localities);
    var found := "Found " + NatToString(|ps|) + " properties";
    OpeningMeaning(|ps|, f);
    if |parts| == 1 {
      next := ".";
      assert Join(" ", parts) == found;
      StartsWithAppend(found + next, "");
      assert found + next + "" == found + next;
    } else {
      var more := Join(" ", parts[1..]);
      JoinCons(" ", parts);
      JoinStartsWithFirst(" ", parts[1..]);
      assert parts[1][0] in {'m', 'i'};
      next := " " + [parts[1][0]];
      assert StartsWith(more, [parts[1][0]]);
      assert Line1(ps, f, localities) == found + (" " + more) + ".";
      assert StartsWith(found + (" " + more), found + next) by {
        assert (found + (" " + more))[..|found + next|] == found + (" " + more[..1]);
      }
      StartsWithExtend(found + (" " + more), found + next, ".");
    }
  }

  /** The summary has no surrounding whitespace and ends with a full stop. */
  lemma {:induction false} SummaryCloses(ps: seq<PropertyCard>, f: Filters, localities: seq<string>, amenities: seq<string>)
    ensures var s := SummaryText(ps, f, localities, amenities);
            s != [] && s[0] == 'F' && s[|s| - 1] == '.'
  {
    SummaryShape(ps, f, localities, amenities);
    Line1Ends(ps, f, localities);
    ClosingShape(Line1(ps, f, localities), Line2(ps), Line3(amenities));
  }

  /** The joined lines end with a full stop once trailing spaces go. */
  lemma ClosingShape(l1: string, l2: string, l3: string)
    requires l1 != [] && l1[|l1| - 1] == '.'
    requires l2 == [] || (|l2| >= 2 && l2[|l2| - 2] == '.' && l2[|l2| - 1] == ' ')
    requires l3 == [] || l3[|l3| - 1] == '.'
    ensures var s := l1 + TrimRight(" " + l2 + " " + l3);
            s != [] && s[0] == l1[0] && s[|s| - 1] == '.'
  {
    var rest := " " + l2 + " " + l3;
    var t := TrimRight(rest);
    if l3 != [] {
      assert rest[|rest| - 1] == '.';
      assert t == rest;
    } else if l2 == [] {
      assert rest == "  ";
      TrimRightSpaces("", rest);
    } else {
      var head := " " + l2[..|l2| - 1];
      assert rest == head + "  ";
      TrimRightSpaces(head, "  ");
    }
    var s := l1 + t;
    assert s[0] == l1[0];
  }

  lemma ClausesEnd(a: string, r: string, u: string)
    requires a == [] || (|a| >= 2 && a[|a| - 2] == '.' && a[|a| - 1] == ' ')
    requires r == [] || (|r| >= 2 && r[|r| - 2] == '.' && r[|r| - 1] == ' ')
    requires u == [] || (|u| >= 2 && u[|u| - 2] == '.' && u[|u| - 1] == ' ')
    ensures var l := a + r + u;
            l == [] || (|l| >= 2 && l[|l| - 2] == '.' && l[|l| - 1] == ' ')
  {
    var l := a + r + u;
    if u == [] && r == [] {
      assert l == a;
    } else if u == [] {
      assert l == a + r;
    }
  }

  /** Trailing whitespace after text that ends in a non-space is all that stripping removes. */
  lemma TrimRightSpaces(a: string, b: string)
    requires forall i :: 0 <= i < |b| ==> IsSpace(b[i])
    requires a == [] || !IsSpace(a[|a| - 1])
    ensures TrimRight(a + b) == a
  {
    AllSpacesTrimmed(b);
    if a == [] {
      assert a + b == b;
    } else {
      TrimRightKeeps(a, b);
    }
  }

  lemma {:induction false} AllSpacesTrimmed(b: string)
    requires forall i :: 0 <= i < |b| ==> IsSpace(b[i])
    ensures TrimRight(b) == []
  {
    if b != [] {
      AllSpacesTrimmed(b[..|b| - 1]);
    }
  }

  /** The location parts appear exactly when the cards share one display city, and name it. */
  lemma CityClause(ps: seq<PropertyCard>, f: Filters, localities: seq<string>)
    ensures |CitySet(ps)| == 1 ==>
            ps != [] && CitySet(ps) == {ps[0].city} && "in " + ps[0].city in Line1Parts(ps, f, localities)
    ensures |CitySet(ps)| != 1 ==> |Line1Parts(ps, f, localities)| == if IsTruthy(f.bhk) then 2 else 1
  {
    if |CitySet(ps)| == 1 {
      var c :| c in CitySet(ps);
      OnlyCity(ps, c);
      forall x | x in CitySet(ps) ensures x == ps[0].city {
        OnlyCity(ps, x);
      }
    }
  }

  /** The amenity line appears exactly when some card has an amenity, and lists only pooled ones. */
  lemma AmenityClause(ps: seq<PropertyCard>, amenities: seq<string>)
    requires Listing(amenities, AmenitySet(ps))
    ensures Line3(amenities) != [] <==> exists p <- ps :: p.amenities != []
    ensures forall a <- amenities :: exists p <- ps :: a in p.amenities
  {
    forall a <- amenities ensures exists p <- ps :: a in p.amenities {
      AmenitySetMembers(ps, a);
    }
    if exists p <- ps :: p.amenities != [] {
      var p :| p in ps && p.amenities != [];
      AmenitySetMembers(ps, p.amenities[0]);
      assert p.amenities[0] in AmenitySet(ps);
    } else if amenities != [] {
      AmenitySetMembers(ps, amenities[0]);
    }
  }

  /** The average clause appears exactly when some card has a positive raw price. */
  lemma {:induction false} AverageClauseShown(ps: seq<PropertyCard>)
    ensures StartsWith(Line2(ps), "Average price is around ") <==> exists p <- ps :: p.priceRaw > 0.0
  {
    var r := ReadyClause(StatusCount(ps, "ready"));
    var u := UnderConstructionClause(StatusCount(ps, "construction"));
    AverageOpening(AveragePrice(ps), r, u, "Average price is around ");
  }

  lemma AverageOpening(avg: real, r: string, u: string, opening: string)
    requires opening == "Average price is around "
    requires (r == [] || IsDigit(r[0])) && (u == [] || IsDigit(u[0]))
    ensures StartsWith(AverageClause(avg) + r + u, opening) <==> avg > 0.0
  {
    var a := AverageClause(avg);
    if avg > 0.0 {
      assert a == opening + AverageLabel(avg) + ". ";
      OpeningKept(opening, AverageLabel(avg), r, u);
    } else {
      assert a + r + u == r + u;
      CountsFirst(r, u, opening);
    }
  }

  lemma OpeningKept(opening: string, tag: string, r: string, u: string)
    ensures StartsWith(opening + tag + ". " + r + u, opening)
  {
    StartsWithAppend(opening, tag);
    StartsWithExtend(opening + tag, opening, ". ");
    StartsWithExtend(opening + tag + ". ", opening, r);
    StartsWithExtend(opening + tag + ". " + r, opening, u);
  }

  /**
   * The two status clauses appear exactly when their counts are positive: line 2 mentions
   * "ready to move" exactly when some card is ready, and ends with the under-construction
   * clause exactly when some card is under construction.
   */
  lemma StatusClausesShown(ps: seq<PropertyCard>)
    ensures Contains(Line2(ps), "ready to move") <==> StatusCount(ps, "ready") > 0
    ensures EndsWith(Line2(ps), " are under construction. ") <==> StatusCount(ps, "construction") > 0
  {
    var nr := StatusCount(ps, "ready");
    var nc := StatusCount(ps, "construction");
    ReadyShown(AveragePrice(ps), nr, nc, "ready to move");
    ConstructionShown(AveragePrice(ps), nr, nc, " are under construction. ");
  }

  /** Only the ready clause has a 'y', so it alone can hold "ready to move". */
  lemma {:induction false} ReadyShown(avg: real, nr: nat, nc: nat, w: string)
    requires w == "ready to move"
    ensures Contains(AverageClause(avg) + ReadyClause(nr) + UnderConstructionClause(nc), w) <==> nr > 0
  {
    var a, r, u := AverageClause(avg), ReadyClause(nr), UnderConstructionClause(nc);
    if nr > 0 {
      ReadyClauseHolds(nr, w);
      ContainsMiddle(a, r, u, w);
    } else {
      NoYInAverage(avg);
      NoYInConstruction(nc);
      NoYAround(a, r, u);
      NoReadyWithoutY(a + r + u, w);
    }
  }

  lemma ContainsMiddle(a: string, r: string, u: string, w: string)
    requires Contains(r, w)
    ensures Contains(a + r + u, w)
  {
    ContainsPrepend(a, r, w);
    ContainsAppend(a + r, u, w);
  }

  lemma NoYAround(a: string, r: string, u: string)
    requires 'y' !in a && r == [] && 'y' !in u
    ensures 'y' !in a + r + u
  {
    assert a + r + u == a + u;
  }

  lemma NoReadyWithoutY(s: string, w: string)
    requires 'y' !in s && w == "ready to move"
    ensures !Contains(s, w)
  {
    if Contains(s, w) {
      ContainsChars(s, w, 4);
    }
  }

  lemma ReadyClauseHolds(nr: nat, w: string)
    requires nr > 0 && w == "ready to move"
    ensures Contains(ReadyClause(nr), w)
  {
    var tail := " properties are ready to move. ";
    assert tail[16..][..|w|] == w;
    ContainsAt(tail, w);
    ContainsPrepend(NatToString(nr), tail, w);
  }

  /** The average clause has no 'y'. */
  lemma NoYInAverage(avg: real)
    ensures 'y' !in AverageClause(avg)
  {
    if avg > 0.0 {
      var opening, tag := "Average price is around ", AverageLabel(avg);
      NoYInOpening(opening);
      NoYInLabel(avg);
      assert AverageClause(avg) == opening + tag + ". ";
    }
  }

  lemma NoYInOpening(opening: string)
    requires opening == "Average price is around "
    ensures 'y' !in opening
  {
    assert forall i :: 0 <= i < |opening| ==> opening[i] != 'y';
  }

  lemma NoYInLabel(avg: real)
    ensures 'y' !in AverageLabel(avg)
  {
    if avg >= 10000000.0 {
      FixedChars(avg / 10000000.0, 2);
    } else {
      FixedChars(avg / 100000.0, 0);
    }
  }

  /** The under-construction clause has no 'y'. */
  lemma NoYInConstruction(nc: nat)
    ensures 'y' !in UnderConstructionClause(nc)
  {
    var w := " are under construction. ";
    assert forall i :: 0 <= i < |w| ==> w[i] != 'y';
  }

  /** Only the under-construction clause ends with its own words: the others end in "e. ", "r. " or "L. ". */
  lemma ConstructionShown(avg: real, nr: nat, nc: nat, w: string)
    requires w == " are under construction. "
    ensures EndsWith(AverageClause(avg) + ReadyClause(nr) + UnderConstructionClause(nc), w) <==> nc > 0
  {
    var a, r := AverageClause(avg), ReadyClause(nr);
    if nc > 0 {
      assert a + r + UnderConstructionClause(nc) == (a + r + NatToString(nc)) + w;
      EndsWithAppend(a + r + NatToString(nc), w);
    } else {
      assert a + r + UnderConstructionClause(nc) == a + r;
      OtherClausesEnd(avg, nr, w);
    }
  }

  lemma OtherClausesEnd(avg: real, nr: nat, w: string)
    requires w == " are under construction. "
    ensures !EndsWith(AverageClause(avg) + ReadyClause(nr), w)
  {
    var a, r := AverageClause(avg), ReadyClause(nr);
    var l := a + r;
    if r != [] {
      assert l[|l| - 3] == r[|r| - 3] == 'e';
    } else if avg <= 0.0 {
      assert l == [];
    } else if avg >= 10000000.0 {
      assert l[|l| - 3] == 'r';
    } else {
      assert l[|l| - 3] == 'L';
    }
  }

  /** Clauses that open with a digit never read as the average clause. */
  lemma CountsFirst(r: string, u: string, opening: string)
    requires r == [] || IsDigit(r[0])
    requires u == [] || IsDigit(u[0])
    requires opening != [] && !IsDigit(opening[0])
    ensures !StartsWith(r + u, opening)
  {
  }

  /** The fallback text opens with "No properties found" and names the bhk right after exactly when it is set. */
  lemma NoResultsShape(f: Filters)
    ensures StartsWith(NoResultsText(f), "No properties found")
    ensures EndsWith(NoResultsText(f), Suggestion)
    ensures StartsWith(NoResultsText(f), "No properties found for ") <==> IsTruthy(f.bhk)
  {
    var joined := Join(" ", NoResultsParts(f));
    JoinStartsWithFirst(" ", NoResultsParts(f));
    StartsWithExtend(joined, "No properties found", Suggestion);
    EndsWithAppend(joined, Suggestion);
    var next := NextAfterHead(f);
    if !IsTruthy(f.bhk) {
      ForSplit();
      OtherNext(NoResultsText(f), "No properties found", next, " for ");
    }
  }

  lemma SuggestionOpens()
    ensures |Suggestion| > 1 && Suggestion[0] == '.'
  {
  }

  lemma ForSplit()
    ensures "No properties found for " == "No properties found" + " for "
    ensures " " + "for " == " for "
  {
  }

  /**
   * What follows "No properties found": " for " and the bhk when it is set, otherwise a space and
   * the first letter of the city or budget part, or the suggestion.
   */
  lemma NextAfterHead(f: Filters) returns (next: string)
    ensures IsTruthy(f.bhk) ==> StartsWith(NoResultsText(f), "No properties found for ")
    ensures !IsTruthy(f.bhk) ==>
            ((|next| >= 1 && next[0] != ' ') || (|next| >= 2 && next[0] == ' ' && next[1] in {'i', 'u'}))
    ensures StartsWith(NoResultsText(f), "No properties found" + next)
  {
    var parts := NoResultsParts(f);
    var head := "No properties found";
    var joined := Join(" ", parts);
    if |parts| == 1 {
      assert joined == head;
      next := Suggestion;
      SuggestionOpens();
      assert NoResultsText(f)[..|head + next|] == head + next;
    } else {
      JoinCons(" ", parts);
      var more := Join(" ", parts[1..]);
      JoinStartsWithFirst(" ", parts[1..]);
      next := " " + parts[1];
      StartsWithPrepend(" ", more, parts[1]);
      StartsWithPrepend(head, " " + more, next);
      StartsWithExtend(joined, head + next, Suggestion);
      if IsTruthy(f.bhk) {
        ForSplit();
        StartsWithAppend("for ", f.bhk.value);
        StartsWithPrepend(" ", parts[1], "for ");
        StartsWithPrepend(head, next, " for ");
        StartsWithTrans(NoResultsText(f), head + next, head + " for ");
      } else {
        if IsTruthy(f.city) {
          assert parts[1] == "in " + f.city.value;
        } else {
          assert parts[1] == "under " + BudgetLabel(f.budgetMax.value);
        }
        assert next[1] == parts[1][0];
      }
    }
  }

  // ===== rendering =====

  /** Up to three members of a set, each picked in turn: the order of a set's listing is unspecified. */
  method TakeUpToThree(s: set<string>) returns (xs: seq<string>)
    ensures Listing(xs, s)
  {
    xs := [];
    var rest := s;
    while |xs| < 3 && rest != {}
      invariant |rest| == |s| - |xs| && rest <= s
      invariant forall i, j :: 0 <= i < j < |xs| ==> xs[i] != xs[j]
      invariant forall x <- xs :: x in s && x !in rest
      invariant |xs| <= 3
      decreases |rest|
    {
      var x :| x in rest;
      xs := xs + [x];
      rest := rest - {x};
    }
  }

  /** The extend loop: the amenities of every card, card after card. */
  method PoolAmenities(ps: seq<PropertyCard>) returns (all: seq<string>)
    ensures all == AllAmenities(ps)
  {
    all := [];
    var i := 0;
    while i < |ps|
      invariant 0 <= i <= |ps|
      invariant all == AllAmenities(ps[..i])
    {
      assert ps[..i + 1][..i] == ps[..i];
      all := all + ps[i].amenities;
      i := i + 1;
    }
    assert ps[..i] == ps;
  }

  /** The parts of line 1, appended one by one and joined with spaces. */
  method RenderLine1(ps: seq<PropertyCard>, f: Filters, localities: seq<string>) returns (line1: string)
    ensures line1 == Line1(ps, f, localities)
  {
    var parts: seq<string>;
    if IsNonZero(f.budgetMax) {
      parts := ["Found " + NatToString(|ps|) + " properties under " + BudgetLabel(f.budgetMax.value)];
    } else {
      parts := ["Found " + NatToString(|ps|) + " properties"];
    }
    if IsTruthy(f.bhk) {
      parts := parts + ["matching your " + f.bhk.value + " requirement"];
    }
    var head := parts;
    var cities := CitySet(ps);
    if ps != [] && |cities| == 1 {
      var city :| city in cities;
      OnlyCity(ps, city);
      parts := parts + ["in " + city];
      if localities != [] {
        parts := parts + ["primarily in " + Join(", ", localities)];
      }
    }
    assert parts == Line1Parts(ps, f, localities) by {
      if ps != [] && |cities| == 1 && localities != [] {
        assert parts == head + (["in " + ps[0].city] + ["primarily in " + Join(", ", localities)]);
      }
    }
    line1 := Join(" ", parts) + ".";
  }

  /** Line 2, grown with `+=` clause by clause. */
  method RenderLine2(ps: seq<PropertyCard>) returns (line2: string)
    ensures line2 == Line2(ps)
  {
    var prices := PositivePrices(ps);
    var avg := if prices != [] then Mean(prices) else 0.0;
    var readyCount := StatusCount(ps, "ready");
    var underCount := StatusCount(ps, "construction");
    assert avg == AveragePrice(ps);
    line2 := "";
    if avg > 0.0 {
      line2 := "Average price is around " + AverageLabel(avg) + ". ";
    }
    assert line2 == AverageClause(avg);
    if readyCount > 0 {
      line2 := line2 + (NatToString(readyCount) + " properties are ready to move. ");
    }
    assert line2 == AverageClause(avg) + ReadyClause(readyCount);
    if underCount > 0 {
      line2 := line2 + (NatToString(underCount) + " are under construction. ");
    }
    assert line2 == AverageClause(avg) + ReadyClause(readyCount) + UnderConstructionClause(underCount);
  }

  /** _generate_no_results_summary: the parts joined with spaces, then the suggestion. */
  method NoResultsSummary(f: Filters) returns (text: string)
    ensures text == NoResultsText(f)
  {
    var parts := ["No properties found"];
    if IsTruthy(f.bhk) {
      parts := parts + ["for " + f.bhk.value];
    }
    if IsTruthy(f.city) {
      parts := parts + ["in " + f.city.value];
    }
    if IsNonZero(f.budgetMax) {
      parts := parts + ["under " + BudgetLabel(f.budgetMax.value)];
    }
    assert parts == NoResultsParts(f);
    text := Join(" ", parts) + Suggestion;
  }

  /**
   * generate_summary: the fallback text for an empty result; otherwise the three lines for
   * some listing of the localities and of the amenities, stripped.
   */
  method GenerateSummary(ps: seq<PropertyCard>, f: Filters) returns (summary: string)
    ensures ps == [] ==> summary == NoResultsText(f)
    ensures ps != [] ==>
      exists localities, amenities ::
        Listing(localities, LocalitySet(ps)) && Listing(amenities, AmenitySet(ps)) &&
        summary == SummaryText(ps, f, localities, amenities)
  {
    if ps == [] {
      summary := NoResultsSummary(f);
      return;
    }
    var localities := TakeUpToThree(LocalitySet(ps));
    var line1 := RenderLine1(ps, f, localities);
    var line2 := RenderLine2(ps);
    var all := PoolAmenities(ps);
    var amenities := TakeUpToThree(set a | a in all);
    var line3 := "";
    if amenities != [] {
      line3 := "Common amenities include " + Join(", ", amenities) + ".";
    }
    summary := Strip(line1 + " " + line2 + " " + line3);
    assert summary == SummaryText(ps, f, localities, amenities);
  }
}
