# Property search chatbot, modelled in Dafny

The chatbot answers a free-text housing query in three stages:

1. **Query parser** (`backend/query_parser.py`): lowercases the query and pulls out a city,
   a BHK type, a minimum and a maximum budget, a possession status, a locality and a
   project name. It uses keyword tables and regular expressions, and the first rule that
   matches wins.
2. **Search engine** (`backend/search_engine.py`): holds the merged project table as a data
   frame. It narrows the table with one mask per filter that is set, keeps the first ten
   rows, and turns each row into a property card. A card has a formatted price, up to three
   amenities, a display status and a coarse display city.
3. **Summarizer** (`backend/summarizer.py`): writes a summary of up to five sentences about the cards,
   in three lines.
   These cover the count, the budget, the BHK type, the city and localities, the average
   price, the status counts and the common amenities. When nothing was found it writes a
   fallback sentence instead.

The Dafny project follows that structure:

- `wrappers.dfy` (`Option`) and `models.dfy`: the filters record, the card record, and
  Python truthiness of optional fields.
- `text.dfy`: the string and number primitives the code relies on. These are
  `lower`/`title`/`replace`/`strip`/`join`, substring tests, decimal printing and fixed-point
  formatting.
- `query_parser.dfy` and `titled_keys.dfy`: the parser, written as pure functions over the
  rule tables.
  - `Leftmost` is `re.search`: the leftmost start position wins.
  - `FirstAlt` is an ordered regex alternation.
  - `FirstMatch` is "the first rule in the list that matches".
- `search_engine.dfy`: the filter chain as functions (`Matching`, `Shown`, `Cards`) and the
  class `SearchEngine`.
  - The class holds the table `df` (fixed at construction).
  - Its imperative methods `Search`, `NarrowRows`, `CardsFor` and `RowToPropertyCard` are
    proved equal to those functions.
- `summarizer.dfy`: the summary text as specification functions, and the imperative methods
  that build it (`GenerateSummary`, `RenderLine1`, `RenderLine2`, ...) proved against them.
- `pipeline.dfy`: how the stages agree. It covers:
  - the statuses the parser produces;
  - the status map of the search;
  - the status text a card displays.

## Model

| member | source | states |
|---|---|---|
| QueryParser.LeftmostIsFirst | backend/query_parser.py:51 | `re.search` returns the match at the first position where the pattern matches |
| QueryParser.LeftmostNone | backend/query_parser.py:51-54 | the search fails iff the pattern matches at no position of the text |
| QueryParser.FirstMatchIsFirst | backend/query_parser.py:50-53 | a rule list answers with the first rule that matches, and every earlier rule fails |
| QueryParser.FirstMatchNone | backend/query_parser.py:50-54 | a rule list answers None iff no rule matches |
| QueryParser.FirstAltFrom | backend/query_parser.py:57 | a matched alternation matched one of its alternatives at the start, followed by the rest of the pattern |
| QueryParser.FirstGroupFrom | backend/query_parser.py:42-47 | a keyword-table lookup answers with the title-cased key of a group one of whose keywords occurs in the query |
| QueryParser.GroupFound | backend/query_parser.py:42-47 | if group i has a keyword in the query and no earlier group has one, the lookup answers group i's title-cased key |
| QueryParser.ExtractCity | backend/query_parser.py:42-47 | the city is absent or one of Mumbai, Pune, Bangalore, Delhi |
| QueryParser.CityIsCanonical | backend/query_parser.py:42-47 | a city-table lookup answers None or the title-cased key Mumbai, Pune, Bangalore or Delhi |
| QueryParser.NaviMumbaiIsMumbai | backend/query_parser.py:10 | "navi mumbai" is recognised as Mumbai |
| QueryParser.BanerIsPune | backend/query_parser.py:11 | "baner" is recognised as Pune, because the Mumbai aliases are tried first and none occurs |
| QueryParser.ExtractPossessionStatus | backend/query_parser.py:82-87 | the status is absent or one of "Ready To Move", "Under Construction" |
| QueryParser.StatusIsCanonical | backend/query_parser.py:82-87 | a status-table lookup answers None, "Ready To Move" or "Under Construction" |
| QueryParser.ApartmentsReadyToMove | backend/query_parser.py:25 | the plain substring test makes "apartments" (which contains "rtm") read as Ready To Move |
| QueryParser.DigitsBhkFirst | backend/query_parser.py:16-17 | when the `\d+\s*bhk` pattern matches, its result is the BHK type, whatever the bedroom patterns say |
| QueryParser.ThreeBhk | backend/query_parser.py:17 | "3bhk" and "3 bhk" both give "3BHK" |
| QueryParser.ExtractBhk | backend/query_parser.py:49-54 | a BHK type, when found, is one or more digits followed by "BHK" |
| QueryParser.BhkRuleDecides | backend/query_parser.py:49-54 | when no earlier pattern matches anywhere, the BHK type is what pattern r gives at its leftmost match in the lowered query |
| QueryParser.DigitsBhkAt | backend/query_parser.py:49-54 | at the leftmost `\d+\s*bhk` match in the lowered query, the BHK type is its digits followed by "BHK" |
| QueryParser.BedroomAt | backend/query_parser.py:18-21 | `(word\|digit)\s*bedroom` matches where the first of its words that occurs is followed by spaces and "bedroom", and gives the rule's label |
| QueryParser.ThreeBedroom | backend/query_parser.py:20 | "three bedroom" gives "3BHK" |
| QueryParser.Decimal | backend/query_parser.py:57 | `\d+\.?\d*` matches iff the text starts with a digit; the captured amount is non-negative and its length is at most the text's; its value is stated by `NumberReads` |
| QueryParser.DecimalOfNat | backend/query_parser.py:57 | a printed natural number is read back as that number and the whole printed text is consumed |
| QueryParser.WholeReads | backend/query_parser.py:57 | digits followed by neither a digit nor a point read as their value, and exactly the digits are consumed |
| QueryParser.DecimalReads | backend/query_parser.py:57 | digits, a point and more digits read as the decimal value they spell, and all of them are consumed |
| QueryParser.NumberReads | backend/query_parser.py:57 | any number as typed (digits, an optional point, optional fraction digits) reads back as its value and is consumed whole |
| QueryParser.ScaledTextReads | backend/search_engine.py:87 | the fixed-point text of n with p decimals reads back as n / 10^p, consuming the whole text |
| QueryParser.FixedReads | backend/search_engine.py:87 | what `:.Nf` prints for a non-negative amount reads back as the amount rounded to N decimals, consuming the whole text |
| QueryParser.InRupees | backend/query_parser.py:60 | scaling by a unit keeps the sign, and is zero only for a zero amount |
| QueryParser.AmountReads | backend/query_parser.py:57 | `\s*₹?\s*(\d+\.?\d*)\s*` followed by one of the unit words captures the typed number's value |
| QueryParser.PhraseReads | backend/query_parser.py:57 | a trigger, an amount as typed and a unit word capture that amount, when every earlier trigger of the alternation runs on into a different text |
| QueryParser.RangeReads | backend/query_parser.py:75 | "between", an amount, "and" or "-" or "to", a second amount and a crore unit capture the first amount |
| QueryParser.PhraseNowhere | backend/query_parser.py:57-78 | an amount phrase matches at no position of a text that lacks a character every trigger, or every unit, needs |
| QueryParser.CeilingInCrores | backend/query_parser.py:56-60 | at the leftmost match of the crore pattern, the maximum budget is the typed amount times 10^7 |
| QueryParser.CeilingInLakhs | backend/query_parser.py:62-65 | when the crore pattern matches nowhere, the maximum budget is the amount at the leftmost lakh match times 10^5 |
| QueryParser.CeilingOfOnePointTwoCrore | backend/query_parser.py:57-60 | "under 1.2 cr" gives a maximum budget of 12000000 |
| QueryParser.CeilingOfEightyLakhs | backend/query_parser.py:62-65 | "under 80 lakhs" gives a maximum budget of 8000000 |
| QueryParser.NoCeilingInRange | backend/query_parser.py:56-67 | "between 1 and 2 cr" gives no maximum budget |
| QueryParser.ExtractBudgetMax | backend/query_parser.py:56-67 | a maximum budget, when found, is non-negative; its value is stated by `CeilingInCrores` and `CeilingInLakhs` |
| QueryParser.CroreBudgetFirst | backend/query_parser.py:57-60 | when the crore pattern matches, its amount is the maximum budget, even if a lakh amount occurs earlier |
| QueryParser.LakhBudgetOtherwise | backend/query_parser.py:62-66 | when the crore pattern does not match, the maximum budget is whatever the lakh pattern gives |
| QueryParser.ExtractBudgetMin | backend/query_parser.py:69-80 | a minimum budget, when found, is non-negative; its value is stated by `FloorInCrores` and `FloorFromRange` |
| QueryParser.FloorInCrores | backend/query_parser.py:69-73 | at the leftmost match of the minimum crore pattern, the minimum budget is the typed amount times 10^7 |
| QueryParser.FloorFromRange | backend/query_parser.py:75-78 | when the minimum crore pattern matches nowhere, the minimum budget is the first amount of the leftmost range times 10^7 |
| QueryParser.RangeBudgetOtherwise | backend/query_parser.py:69-80 | when the minimum crore pattern matches nowhere, the minimum budget is whatever the range pattern gives |
| QueryParser.FloorOfOneToTwoCrore | backend/query_parser.py:75-78 | "between 1 and 2 cr" gives a minimum budget of 10000000 |
| QueryParser.AmountNonNegative | backend/query_parser.py:69-80 | any amount rule list yields a non-negative amount |
| QueryParser.ExtractLocality | backend/query_parser.py:89-96 | a locality, when found, is not one of the four city names in any case; which phrase is found is stated by `LocalityFound` |
| QueryParser.CapPhraseOf | backend/query_parser.py:90 | the greedy `[A-Z][a-z]+(?:\s+[A-Z][a-z]+)*` takes exactly the capitalised words joined by spaces, when what follows cannot continue the phrase |
| QueryParser.LocalityAfter | backend/query_parser.py:90 | a trigger, one space and one capitalised word give that word |
| QueryParser.LocalityFound | backend/query_parser.py:89-96 | at the leftmost trigger followed by spaces and capitalised words, the locality is those words, or None when they name a city |
| QueryParser.KoregaonParkLocality | backend/query_parser.py:89-96 | "3 bhk near Koregaon Park under 2 cr", as typed, gives the locality "Koregaon Park" |
| QueryParser.NoLocalityInPune | backend/query_parser.py:94 | "in Pune" gives no locality, because Pune is a city name |
| QueryParser.ExtractProjectName | backend/query_parser.py:98-103 | a project name, when found, is non-empty and starts with a capital; which phrase is found is stated by `ProjectNameFound` |
| QueryParser.ProjectNameFound | backend/query_parser.py:98-103 | at the leftmost run of capitalised words followed by spaces and a project word, the project name is those words |
| QueryParser.GreenValleyTowers | backend/query_parser.py:98-103 | "Green Valley towers", as typed, gives the project name "Green Valley" |
| QueryParser.NoUpperNoPhrase | backend/query_parser.py:89-103 | on text without capitals the locality and project patterns never match |
| QueryParser.Parse | backend/query_parser.py:29-40 | city and status are canonical; budgets are non-negative; locality and project name are always None |
| QueryParser.ParseIgnoresCase | backend/query_parser.py:30 | a query and its lowercased form parse to the same filters |
| QueryParser.ParseEmpty | backend/query_parser.py:29-40 | the empty query gives no filters at all |
| QueryParser.LocalityNearBaner | backend/query_parser.py:30-39 | "near Baner" has locality Baner as typed; parse gives none; ParseCased gives Baner |
| QueryParser.ParseCased | backend/query_parser.py:29-40 | locality and project extracted from the query as typed (locality not a city; project capitalised); every other field as parse |
| TitledKeys.TitledBangalore | backend/query_parser.py:46 | `"bangalore".title()` is "Bangalore" |
| TitledKeys.TitledReadyToMove | backend/query_parser.py:86 | `"ready to move".title()` is "Ready To Move" |
| TitledKeys.TitledUnderConstruction | backend/query_parser.py:86 | `"under construction".title()` is "Under Construction" |
| SearchEngine.StatusCode | backend/search_engine.py:58-63 | the status map has a code iff the display status is one of its two keys |
| SearchEngine.Narrow | backend/search_engine.py:41-72 | one filter step keeps a subsequence of its rows, each admitted by the step |
| SearchEngine.Keep | backend/search_engine.py:43 | a mask never adds rows |
| SearchEngine.NarrowMembers | backend/search_engine.py:41-72 | a row survives one filter step iff it was there and the step admits it |
| SearchEngine.KeepAppend | backend/search_engine.py:43 | masking distributes over concatenation, so row order is kept |
| SearchEngine.NarrowAppend | backend/search_engine.py:41-72 | a filter step distributes over concatenation |
| SearchEngine.NarrowAll | backend/search_engine.py:41-72 | a step that admits every row changes nothing |
| SearchEngine.Matching | backend/search_engine.py:38-72 | the chain never adds rows; every row it keeps is from the table and passes every active filter |
| SearchEngine.MatchingMembers | backend/search_engine.py:38-72 | a row survives the chain iff it is in the table and passes every active filter |
| SearchEngine.MatchingAppend | backend/search_engine.py:38-72 | filtering keeps the table's row order |
| SearchEngine.MatchingAll | backend/search_engine.py:38-72 | rows that all pass every filter come through unchanged |
| SearchEngine.SatisfiesEach | backend/search_engine.py:38-72 | passing the chain is passing each of its seven steps |
| SearchEngine.SatisfiesMeans | backend/search_engine.py:40-72 | filter by filter, what a kept row must satisfy: city in address, exact BHK, price within the budgets, mapped status, locality in address, project in name |
| SearchEngine.UnmappedStatusIgnored | backend/search_engine.py:62-64 | a status outside the map filters nothing |
| SearchEngine.MissingAddressExcluded | backend/search_engine.py:40-43 | with a city or locality filter, a row without an address is dropped (`na=False`) |
| SearchEngine.MissingPriceExcluded | backend/search_engine.py:50-54 | with a budget filter, a row without a price is dropped |
| SearchEngine.Shown | backend/search_engine.py:76 | at most ten rows are shown |
| SearchEngine.NoFiltersShowsFirstTen | backend/search_engine.py:38-77 | with no filter set, search shows the first ten rows of the table |
| SearchEngine.ShownWithinFilters | backend/search_engine.py:38-77 | every shown row comes from the table and has the asked BHK and a price within both budgets |
| SearchEngine.MumbaiFilterShowsMumbai | backend/search_engine.py:123-126 | a row kept by the Mumbai filter shows Mumbai as its card city |
| SearchEngine.BalconyLabel | backend/search_engine.py:99-100 | the balcony amenity ends in " Balconies", and its digits read back as the balcony count |
| SearchEngine.AmenitiesOf | backend/search_engine.py:93-115 | at most three amenities, each "Lift", "Parking" or a count followed by " Balconies" |
| SearchEngine.AmenitiesMeaning | backend/search_engine.py:93-115 | Lift, Parking and a balcony label appear iff the row has them; Lift comes first; never more than three |
| SearchEngine.Take3 | backend/search_engine.py:115 | `amenities[:3]` is the first min(n, 3) amenities |
| SearchEngine.PriceOnRequest | backend/search_engine.py:84-91 | the price text is "Price on request" iff the price is missing |
| SearchEngine.PriceBuckets | backend/search_engine.py:84-91 | a present price starts with the rupee sign and ends in " Cr" iff it is at least 10^7, otherwise in " L" |
| SearchEngine.PriceExamples | backend/search_engine.py:86-89 | 12000000 shows as "₹1.20 Cr" and 800000 as "₹8.00 L" |
| SearchEngine.StatusDisplay | backend/search_engine.py:103 | the display status has the code's length |
| SearchEngine.DisplayCity | backend/search_engine.py:123-132 | the card city is Mumbai, Pune, Bangalore or India |
| SearchEngine.CardOf | backend/search_engine.py:81-121 | a card lists the row's amenities, shows one of the four display cities, shows "Price on request" iff the price is missing, has a positive raw price iff the row does, and a status as long as the code |
| SearchEngine.Cards | backend/search_engine.py:75-77 | one card per shown row |
| SearchEngine.CardsAt | backend/search_engine.py:76-77 | card i is the card of row i |
| SearchEngine.SearchEngine.constructor | backend/search_engine.py:9-11 | the engine holds the table it was given |
| SearchEngine.SearchEngine.Search | backend/search_engine.py:28-79 | search returns the cards of the first ten rows that pass every active filter |
| SearchEngine.SearchEngine.NarrowRows | backend/search_engine.py:38-72 | the filter chain run step by step on a copy gives exactly the matching rows |
| SearchEngine.SearchEngine.CardsFor | backend/search_engine.py:74-79 | the conversion loop builds one card per row, in order |
| SearchEngine.SearchEngine.RowToPropertyCard | backend/search_engine.py:81-121 | the card built field by field is the card of the row |
| SearchEngine.SearchEngine.FormatPrice | backend/search_engine.py:83-91 | the price step of card construction computes the card's price text |
| SearchEngine.SearchEngine.CollectAmenities | backend/search_engine.py:93-100 | the amenity step appends Lift, Parking and balconies in turn and yields the row's amenities |
| Pipeline.StatusDisplayRoundTrip | backend/search_engine.py:57-64 | a status code's card text maps back to the same code |
| Pipeline.ReadyToMoveDisplay | backend/search_engine.py:103 | READY_TO_MOVE displays as "Ready To Move" |
| Pipeline.UnderConstructionDisplay | backend/search_engine.py:103 | UNDER_CONSTRUCTION displays as "Under Construction" |
| Pipeline.ParsedStatusApplied | backend/query_parser.py:82-87 | every extracted status is known to the status map, so the status filter is active iff a status was extracted |
| Pipeline.FilteredStatusShown | backend/search_engine.py:57-64 | a row kept under an extracted status shows exactly that status on its card |
| Pipeline.CanonicalStatusApplied | backend/search_engine.py:57-64 | for a status that is absent or canonical, the status step is active iff a status is set |
| Pipeline.StatusShown | backend/search_engine.py:57-64 | a row kept under a canonical status filter displays exactly that status |
| Pipeline.PhraseStepsIdle | backend/search_engine.py:66-72 | with parse's filters the locality and project steps never run |
| Pipeline.LocalityApplied | backend/search_engine.py:66-68 | a row kept under a locality filter has an address containing the locality, ignoring case |
| Pipeline.NearBanerSearch | backend/search_engine.py:67-68 | parse's filters never run the locality step for "near Baner"; ParseCased's keep only rows whose address mentions Baner |
| Summarizer.CitySetSize | backend/summarizer.py:25 | the set of card cities has at most one city per card, and is empty iff there are no cards |
| Summarizer.LocalitySetSize | backend/summarizer.py:26 | the set of card localities has at most one locality per card, and is empty iff there are no cards |
| Summarizer.PositivePrices | backend/summarizer.py:28 | the kept prices are all positive, no more than the cards, and none exactly when no card has a positive price |
| Summarizer.AveragePrice | backend/summarizer.py:28-29 | the average is non-negative, and positive iff some card has a positive price |
| Summarizer.MeanBounds | backend/summarizer.py:29 | the mean lies between the smallest and the largest price |
| Summarizer.StatusCount | backend/summarizer.py:32-33 | a status count never exceeds the number of cards |
| Summarizer.StatusCountZero | backend/summarizer.py:32-33 | a count is zero iff no card's lowercased status contains the word |
| Summarizer.AmenitySetMembers | backend/summarizer.py:70-73 | an amenity is in the pooled set iff some card lists it |
| Summarizer.OnlyCity | backend/summarizer.py:50-51 | when all cards share one city, `cities[0]` is the first card's city |
| Summarizer.BudgetBuckets | backend/summarizer.py:40 | the budget label starts with the rupee sign and ends in " Cr" iff the budget is at least 10^7, otherwise in " L" |
| Summarizer.BudgetTieToEven | backend/summarizer.py:40 | a budget of 12500000 shows as "₹1.2 Cr": the exact tie rounds to even |
| Summarizer.OpeningMeaning | backend/summarizer.py:39-43 | the opening is "Found N properties", followed by " under <budget>" iff a non-zero maximum budget is set |
| Summarizer.SummaryOpens | backend/summarizer.py:38-56 | the summary starts with "Found N properties", N the number of cards |
| Summarizer.SummaryBudget | backend/summarizer.py:39-43 | the summary continues with " under " iff a non-zero maximum budget is set, and then shows its label |
| Summarizer.SummaryCloses | backend/summarizer.py:56-80 | the stripped summary is non-empty, starts with 'F' and ends with a full stop |
| Summarizer.Line1Parts | backend/summarizer.py:36-54 | the first part of line one is the opening statement |
| Summarizer.CityClause | backend/summarizer.py:50-54 | with one city, "in <city>" is among the parts; otherwise line one has only the opening, plus the BHK part when set |
| Summarizer.Line1Ends | backend/summarizer.py:36-56 | line one starts with the opening statement and ends with a full stop |
| Summarizer.Line2 | backend/summarizer.py:58-67 | line two is empty or ends with ". " |
| Summarizer.AverageClauseShown | backend/summarizer.py:58-62 | line two starts with the average price iff some card has a positive price |
| Summarizer.AverageTieToEven | backend/summarizer.py:61 | an average of 8050000 shows as "₹80 L": the exact tie rounds to even |
| Summarizer.StatusClausesShown | backend/summarizer.py:64-67 | line two mentions "ready to move" iff some card is ready, and ends with the construction clause iff some card is under construction |
| Summarizer.Line3 | backend/summarizer.py:75-78 | line three is non-empty iff there are amenities to list, and then starts with "Common amenities include " and ends with a full stop |
| Summarizer.AmenityClause | backend/summarizer.py:69-78 | line three is present iff some card has an amenity, and lists only amenities some card has |
| Summarizer.SummaryShape | backend/summarizer.py:80 | the summary is line one followed by the right-stripped " line2 line3" |
| Summarizer.NoResultsParts | backend/summarizer.py:84 | the fallback starts from "No properties found" |
| Summarizer.NoResultsShape | backend/summarizer.py:82-98 | the fallback starts with "No properties found", has " for " next iff a BHK is set, and ends with the suggestion |
| Summarizer.TakeUpToThree | backend/summarizer.py:73 | `list(set(...))[:3]` yields distinct members of the set: all of them when there are at most three, else three |
| Summarizer.PoolAmenities | backend/summarizer.py:70-72 | the extend loop pools every card's amenities, in card order |
| Summarizer.RenderLine1 | backend/summarizer.py:36-56 | the parts built step by step join to line one |
| Summarizer.RenderLine2 | backend/summarizer.py:58-67 | the string grown by `+=` is line two |
| Summarizer.NoResultsSummary | backend/summarizer.py:82-98 | the parts built step by step give the fallback text |
| Summarizer.GenerateSummary | backend/summarizer.py:9-80 | no cards give the fallback; otherwise the summary is the stripped three lines, for some choice of set order |
| Text.NatToStringRoundTrip | backend/summarizer.py:41 | a printed count reads back as the count |
| Text.FixedRounding | backend/search_engine.py:87 | the amount `:.Nf` prints is a nearest integer to x·10^N (in units of 10^-N), and the even one on an exact tie |
| Text.HalfwayRounded | backend/summarizer.py:40 | an amount exactly halfway between two printable values rounds to the even one |
| Text.FixedChars | backend/search_engine.py:87 | fixed-point text holds only digits, the point and a minus sign |

## Left out

- Loading and merging the four CSV files (`backend/search_engine.py:13-26`) is I/O. The
  merged table is a parameter of the constructor, one `Row` per line.
- The FastAPI app, its statistics endpoint, the configuration and the front end are not part
  of this model.
- Floating point is not modelled: prices and budgets are exact reals.
  - `:.2f`, `:.1f` and `:.0f` round the exact value to the nearest, ties to even, as Python
    does when the tie is exactly representable. A binary float that is not exactly
    representable (0.125 is, 1.15 is not) can round differently.
  - `statistics.mean` is the exact mean.
- Case mapping (`lower`, `title`, `case=False`) is ASCII-only. Other letters are left as they
  are.
- `\d`, `\s` and `str.strip` are ASCII-only: digits are `0`-`9` and white space is space, tab,
  newline, carriage return, vertical tab and form feed. Python also accepts other Unicode
  digits and spaces.
- `str.contains` in the data-frame filters is treated as a plain substring test. pandas
  would read the filter value as a regular expression. The parser's values contain no regex
  metacharacters.
- A NaN cell is `None` in the optional columns. `id`, `projectName`, `slug` and `status` are
  plain strings: a NaN there is not modelled. The columns whose NaN would make card construction raise must be
  present in the rows search shows (`Presentable`). Search requires this; the raising path
  is not modelled.
- Balcony counts are naturals. `int()` truncation of a fractional or negative count is not
  modelled.
- Python set iteration order is left open.
  - `TakeUpToThree` picks members nondeterministically.
  - `GenerateSummary`'s contract quantifies over every order.
  - The dead `bhk_types` set (`backend/summarizer.py:27`) is not computed.
- "increase" read as Delhi through its substring "ncr" follows from `GroupFound`; it is not
  stated as a worked query.
- `RowToPropertyCard` is proved through its two helper steps `FormatPrice` and
  `CollectAmenities`; the remaining fields are copied.
- Summarizer.AveragePrice: the average is stated by its sign and by `MeanBounds`, not as a
  float value.

## Findings

| source | as written | input that shows it | evidently intended | confidence | as-written member | corrected member |
|---|---|---|---|---|---|---|
| backend/query_parser.py:30-39 | parse hands the lowercased query to the locality and project patterns, which need a capital letter, so neither field is ever filled | "near Baner" | locality "Baner" | not executed | QueryParser.LocalityNearBaner | QueryParser.ParseCased |
