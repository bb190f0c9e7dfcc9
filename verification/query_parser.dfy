/**
 * The filter extractor (backend/query_parser.py): free-text query -> Filters.
 *
 * Every field is filled by its own ordered list of rules, tried first-match-wins.
 * The regular expressions of the source are written out as small matchers over
 * strings: `XAt(s)` matches one pattern at the start of s (the regex engine's
 * attempt at one position) and `Leftmost` tries the positions from left to right,
 * as re.search does.
 */
module QueryParser {
  import opened Wrappers
  import opened Text
  import opened Models
  import opened TitledKeys

  // ===== generic search combinators =====

  /** re.search: the match at the leftmost position where the pattern matches. */
  function Leftmost<T>(s: string, at: string -> Option<T>): Option<T>
    decreases |s|
  {
    if at(s).Some? then at(s) else if s == [] then None else Leftmost(s[1..], at)
  }

  /** Leftmost returns the match at position i exactly when no earlier position matches. */
  lemma {:induction false} LeftmostIsFirst<T>(s: string, at: string -> Option<T>, i: nat)
    requires i <= |s| && at(s[i..]).Some?
    requires forall j :: 0 <= j < i ==> at(s[j..]).None?
    ensures Leftmost(s, at) == at(s[i..])
    decreases |s|
  {
    assert s[0..] == s;
    if i > 0 {
      forall j | 0 <= j < i - 1 ensures at(s[1..][j..]).None? {
        assert s[1..][j..] == s[j + 1..];
      }
      assert s[1..][i - 1..] == s[i..];
      LeftmostIsFirst(s[1..], at, i - 1);
    }
  }

  /** Leftmost finds nothing exactly when no position matches. */
  lemma {:induction false} LeftmostNone<T>(s: string, at: string -> Option<T>)
    ensures Leftmost(s, at).None? <==> forall i :: 0 <= i <= |s| ==> at(s[i..]).None?
    decreases |s|
  {
    assert s[0..] == s;
    if s != [] {
      LeftmostNone(s[1..], at);
      forall i | 1 <= i <= |s| ensures s[1..][i - 1..] == s[i..] { }
    }
  }

  /** What Leftmost returns is the match at some position. */
  lemma {:induction false} LeftmostFrom<T>(s: string, at: string -> Option<T>)
    ensures Leftmost(s, at).Some? ==> exists i :: 0 <= i <= |s| && at(s[i..]) == Leftmost(s, at)
    decreases |s|
  {
    assert s[0..] == s;
    if at(s).None? && s != [] {
      LeftmostFrom(s[1..], at);
      var i :| 0 <= i <= |s[1..]| && at(s[1..][i..]) == Leftmost(s[1..], at);
      assert s[1..][i..] == s[i + 1..];
    }
  }

  /**
   * A regex alternation `(?:a|b|c)` followed by the rest of a pattern, at one position:
   * the alternatives are tried in order and the first one after which the rest matches wins.
   */
  function FirstAlt<T>(s: string, alts: seq<string>, rest: string -> Option<T>): Option<T>
    decreases |alts|
  {
    if alts == [] then None
    else if StartsWith(s, alts[0]) && rest(s[|alts[0]|..]).Some? then rest(s[|alts[0]|..])
    else FirstAlt(s, alts[1..], rest)
  }

  /** Where no alternative starts, the alternation does not match. */
  lemma {:induction false} FirstAltNone<T>(s: string, alts: seq<string>, rest: string -> Option<T>)
    requires forall k :: 0 <= k < |alts| ==> !StartsWith(s, alts[k])
    ensures FirstAlt(s, alts, rest).None?
    decreases |alts|
  {
    if alts != [] {
      assert forall k :: 0 <= k < |alts[1..]| ==> alts[1..][k] == alts[k + 1];
      FirstAltNone(s, alts[1..], rest);
    }
  }

  /** A FirstAlt match is the rest matched right after one of the alternatives. */
  lemma {:induction false} FirstAltFrom<T>(s: string, alts: seq<string>, rest: string -> Option<T>)
    requires FirstAlt(s, alts, rest).Some?
    ensures exists k :: 0 <= k < |alts| && StartsWith(s, alts[k]) && rest(s[|alts[k]|..]) == FirstAlt(s, alts, rest)
    decreases |alts|
  {
    if !(StartsWith(s, alts[0]) && rest(s[|alts[0]|..]).Some?) {
      FirstAltFrom(s, alts[1..], rest);
      var k :| 0 <= k < |alts[1..]| && StartsWith(s, alts[1..][k]) && rest(s[|alts[1..][k]|..]) == FirstAlt(s, alts[1..], rest);
      assert alts[1..][k] == alts[k + 1];
    }
  }

  /**
   * The first alternative after which the rest matches decides FirstAlt: alternative k wins
   * when every earlier one is either absent or not followed by a match of the rest.
   */
  lemma {:induction false} FirstAltAt<T>(s: string, alts: seq<string>, rest: string -> Option<T>, k: nat)
    requires k < |alts| && StartsWith(s, alts[k]) && rest(s[|alts[k]|..]).Some?
    requires forall j :: 0 <= j < k ==> !StartsWith(s, alts[j]) || rest(s[|alts[j]|..]).None?
    ensures FirstAlt(s, alts, rest) == rest(s[|alts[k]|..])
    decreases k
  {
    if k > 0 {
      FirstAltAt(s, alts[1..], rest, k - 1);
    }
  }

  /** The first rule (in table order) whose search succeeds decides; later rules are not consulted. */
  function FirstMatch<R, T>(rules: seq<R>, search: R -> Option<T>): Option<T>
    decreases |rules|
  {
    if rules == [] then None
    else if search(rules[0]).Some? then search(rules[0])
    else FirstMatch(rules[1..], search)
  }

  /** FirstMatch returns rule i's result exactly when rule i succeeds and every earlier rule fails. */
  lemma {:induction false} FirstMatchIsFirst<R, T>(rules: seq<R>, search: R -> Option<T>, i: nat)
    requires i < |rules| && search(rules[i]).Some?
    requires forall j :: 0 <= j < i ==> search(rules[j]).None?
    ensures FirstMatch(rules, search) == search(rules[i])
    decreases |rules|
  {
    if i > 0 {
      FirstMatchIsFirst(rules[1..], search, i - 1);
    }
  }

  /** FirstMatch finds nothing exactly when every rule fails. */
  lemma {:induction false} FirstMatchNone<R, T>(rules: seq<R>, search: R -> Option<T>)
    ensures FirstMatch(rules, search).None? <==> forall i :: 0 <= i < |rules| ==> search(rules[i]).None?
    decreases |rules|
  {
    if rules != [] {
      FirstMatchNone(rules[1..], search);
      assert forall i :: 1 <= i < |rules| ==> rules[1..][i - 1] == rules[i];
    }
  }

  // ===== keyword tables: city and possession status =====

  /** CITIES: each canonical key with its surface aliases, in declaration order. */
  const Cities: seq<(string, seq<string>)> := [
    ("mumbai", ["mumbai", "bombay", "navi mumbai", "chembur"]),
    ("pune", ["pune", "pimpri", "chinchwad", "shivajinagar", "wakad", "baner"]),
    ("bangalore", ["bangalore", "bengaluru"]),
    ("delhi", ["delhi", "new delhi", "ncr"])
  ]

  /** POSSESSION_KEYWORDS: each status key with its keywords, in declaration order. */
  const PossessionKeywords: seq<(string, seq<string>)> := [
    ("ready to move", ["ready", "immediate", "ready to move", "rtm"]),
    ("under construction", ["under construction", "upcoming", "new launch"])
  ]

  /** Some keyword of the group is a substring of q (plain `in`, no word boundaries). */
  predicate AnyOccurs(q: string, keywords: seq<string>) {
    exists k :: 0 <= k < |keywords| && Contains(q, keywords[k])
  }

  /** The title-cased key of the first group, in table order, with a keyword occurring in q. */
  function FirstGroup(table: seq<(string, seq<string>)>, q: string): Option<string> {
    FirstMatch(table, (g: (string, seq<string>)) => if AnyOccurs(q, g.1) then Some(TitleCase(g.0)) else None)
  }

  /** FirstGroup's answer is the title-cased key of a group that has a keyword in q. */
  lemma FirstGroupFrom(table: seq<(string, seq<string>)>, q: string)
    ensures FirstGroup(table, q).Some? ==>
      exists i :: 0 <= i < |table| && AnyOccurs(q, table[i].1) && FirstGroup(table, q) == Some(TitleCase(table[i].0))
  {
    var search := (g: (string, seq<string>)) => if AnyOccurs(q, g.1) then Some(TitleCase(g.0)) else None;
    if FirstMatch(table, search).Some? {
      FirstMatchFrom(table, search);
    }
  }

  /** What FirstMatch returns is some rule's result. */
  lemma {:induction false} FirstMatchFrom<R, T>(rules: seq<R>, search: R -> Option<T>)
    requires FirstMatch(rules, search).Some?
    ensures exists i :: 0 <= i < |rules| && search(rules[i]) == FirstMatch(rules, search)
    decreases |rules|
  {
    if search(rules[0]).None? {
      FirstMatchFrom(rules[1..], search);
      var i :| 0 <= i < |rules[1..]| && search(rules[1..][i]) == FirstMatch(rules[1..], search);
      assert rules[1..][i] == rules[i + 1];
    }
  }

  lemma CityIsCanonical(query: string)
    ensures var r := FirstGroup(Cities, query);
            r.None? || r.value in {"Mumbai", "Pune", "Bangalore", "Delhi"}
  {
    FirstGroupFrom(Cities, query);
    if FirstGroup(Cities, query).Some? {
      var i :| 0 <= i < |Cities| && AnyOccurs(query, Cities[i].1) && FirstGroup(Cities, query) == Some(TitleCase(Cities[i].0));
      CityKey(i);
    }
  }

  lemma CityKey(i: nat)
    requires i < |Cities|
    ensures TitleCase(Cities[i].0) in {"Mumbai", "Pune", "Bangalore", "Delhi"}
  {
    if i == 0 {
      TitledMumbai();
    } else if i == 1 {
      TitledPune();
    } else if i == 2 {
      TitledBangalore();
    } else {
      TitledDelhi();
    }
  }

  lemma StatusIsCanonical(query: string)
    ensures var r := FirstGroup(PossessionKeywords, query);
            r.None? || r.value in {"Ready To Move", "Under Construction"}
  {
    FirstGroupFrom(PossessionKeywords, query);
    if FirstGroup(PossessionKeywords, query).Some? {
      var i :| 0 <= i < |PossessionKeywords| && AnyOccurs(query, PossessionKeywords[i].1) &&
               FirstGroup(PossessionKeywords, query) == Some(TitleCase(PossessionKeywords[i].0));
      StatusKey(i);
    }
  }

  lemma StatusKey(i: nat)
    requires i < |PossessionKeywords|
    ensures TitleCase(PossessionKeywords[i].0) in {"Ready To Move", "Under Construction"}
  {
    if i == 0 {
      TitledReadyToMove();
    } else {
      TitledUnderConstruction();
    }
  }

  /** _extract_city: the first city, in table order, one of whose aliases occurs in the query. */
  function ExtractCity(query: string): (city: Option<string>)
    ensures city.None? || city.value in {"Mumbai", "Pune", "Bangalore", "Delhi"}
  {
    CityIsCanonical(query);
    FirstGroup(Cities, query)
  }

  /** _extract_possession_status: the ready-to-move keywords are checked before the under-construction ones. */
  function ExtractPossessionStatus(query: string): (status: Option<string>)
    ensures status.None? || status.value in {"Ready To Move", "Under Construction"}
  {
    StatusIsCanonical(query);
    FirstGroup(PossessionKeywords, query)
  }

  // ===== numbers: `\s*₹?\s*(\d+\.?\d*)` =====

  function SkipRupee(s: string): (r: string)
    ensures |r| <= |s|
  {
    if s != [] && s[0] == Rupee then s[1..] else s
  }

  /** `\s*₹?\s*`: spaces, an optional rupee sign, spaces. */
  function SkipAmountPrefix(s: string): (r: string)
    ensures |r| <= |s|
  {
    SkipSpaces(SkipRupee(SkipSpaces(s)))
  }

  /**
   * `\d+\.?\d*` at the start of s: the value float() gives the captured text and the
   * captured length. Taken greedily; in every pattern here the character required next
   * is never a digit or '.', so the regex engine never backtracks into the number.
   */
  function Decimal(s: string): (r: Option<(real, nat)>)
    ensures r.Some? ==> 0 < r.value.1 <= |s| && IsDigit(s[0])
    ensures r.Some? ==> r.value.0 >= 0.0
    ensures r.None? <==> (s == [] || !IsDigit(s[0]))
  {
    var a := DigitRun(s);
    if a == 0 then None
    else if a < |s| && s[a] == '.' then
      var b := DigitRun(s[a + 1..]);
      var frac := DigitsValue(s[a + 1..][..b]) as real / Pow10(b) as real;
      Some((DigitsValue(s[..a]) as real + frac, a + 1 + b))
    else
      Some((DigitsValue(s[..a]) as real, a))
  }

  /** Reading the digits NatToString writes gives the number back. */
  lemma DecimalOfNat(n: nat)
    ensures Decimal(NatToString(n)) == Some((n as real, |NatToString(n)|))
  {
    var s := NatToString(n);
    assert DigitRun(s) == |s| by { DigitRunAll(s); }
    assert s[..|s|] == s;
    NatToStringRoundTrip(n);
  }

  /**
   * What Fixed prints reads back as the rounded amount: the digits of n with `places`
   * decimals are the number n / 10^places, consumed whole.
   */
  lemma ScaledTextReads(n: nat, places: nat)
    ensures Decimal(ScaledText(n, places)) == Some((n as real / Pow10(places) as real, |ScaledText(n, places)|))
  {
    if places == 0 {
      ScaledWholeReads(n);
    } else {
      ScaledPointReads(n, places);
    }
  }

  /** A non-negative amount Fixed prints reads back as its rounded value: Rounded(x, places) / 10^places. */
  lemma FixedReads(x: real, places: nat)
    requires x >= 0.0
    ensures Decimal(Fixed(x, places)) == Some((Rounded(x, places) as real / Pow10(places) as real, |Fixed(x, places)|))
  {
    assert Fixed(x, places) == ScaledText(Rounded(x, places), places);
    ScaledTextReads(Rounded(x, places), places);
  }

  lemma ScaledWholeReads(n: nat)
    ensures Decimal(ScaledText(n, 0)) == Some((n as real / Pow10(0) as real, |ScaledText(n, 0)|))
  {
    assert Pow10(0) == 1;
    assert n / 1 == n;
    assert ScaledText(n, 0) == NatToString(n);
    DecimalOfNat(n);
    assert n as real / 1 as real == n as real;
  }

  lemma ScaledPointReads(n: nat, places: nat)
    requires places > 0
    ensures Decimal(ScaledText(n, places)) == Some((n as real / Pow10(places) as real, |ScaledText(n, places)|))
  {
    var p := Pow10(places);
    DivModNat(n, p);
    var whole: nat := n / p;
    var frac: nat := n % p;
    ScaledPointText(n, places, whole, frac);
    QuotientReal(n, p, whole, frac);
  }

  lemma ScaledPointText(n: nat, places: nat, whole: nat, frac: nat)
    requires places > 0 && whole == n / Pow10(places) && frac == n % Pow10(places) && frac < Pow10(places)
    ensures Decimal(ScaledText(n, places)) == Some((whole as real + frac as real / Pow10(places) as real, |ScaledText(n, places)|))
  {
    var head := NatToString(whole);
    var fs := PadZeros(NatToString(frac), places);
    NatToStringRoundTrip(whole);
    PaddedFraction(frac, places);
    ScaledParts(n, places, whole, frac);
    PartsValue(head, fs, whole, frac, Pow10(places));
    PointedTextReads(head, fs, whole as real + frac as real / Pow10(places) as real);
  }

  lemma QuotientReal(n: nat, p: nat, whole: nat, frac: nat)
    requires p >= 1 && whole == n / p && frac == n % p
    ensures n as real / p as real == whole as real + frac as real / p as real
  {
    DivSplit(n, p);
    SplitQuotient(n, p, whole, frac);
  }

  lemma ScaledParts(n: nat, places: nat, whole: nat, frac: nat)
    requires places > 0 && whole == n / Pow10(places) && frac == n % Pow10(places)
    ensures ScaledText(n, places) == NatToString(whole) + ("." + (PadZeros(NatToString(frac), places) + []))
  {
  }

  lemma PaddedFraction(frac: nat, places: nat)
    requires places > 0 && frac < Pow10(places)
    ensures var fs := PadZeros(NatToString(frac), places);
            AllDigits(fs) && |fs| == places && DigitsValue(fs) == frac
  {
    NatToStringWidth(frac, places);
    NatToStringRoundTrip(frac);
  }

  lemma PointedTextReads(head: string, fs: string, v: real)
    requires head != [] && AllDigits(head) && AllDigits(fs) && DecimalValue(head, fs) == v
    ensures Decimal(head + ("." + (fs + []))) == Some((v, |head| + 1 + |fs|))
  {
    DecimalReads(head, fs, []);
  }

  lemma PartsValue(head: string, fs: string, whole: nat, frac: nat, p: nat)
    requires AllDigits(head) && AllDigits(fs)
    requires DigitsValue(head) == whole && DigitsValue(fs) == frac && Pow10(|fs|) == p
    ensures DecimalValue(head, fs) == whole as real + frac as real / p as real
  {
  }

  lemma DivSplit(n: nat, p: nat)
    requires p >= 1
    ensures n == (n / p) * p + n % p
  {
  }

  lemma SplitQuotient(n: nat, p: nat, whole: nat, frac: nat)
    requires p >= 1 && n == whole * p + frac
    ensures n as real / p as real == whole as real + frac as real / p as real
  {
    assert n as real == whole as real * p as real + frac as real;
  }

  lemma {:induction false} DigitRunAll(s: string)
    requires AllDigits(s)
    ensures DigitRun(s) == |s|
    decreases |s|
  {
    if s != [] {
      DigitRunAll(s[1..]);
    }
  }

  /** The value of the decimal text d.frac: the whole digits plus the fraction digits over 10^|frac|. */
  function DecimalValue(d: string, frac: string): (v: real)
    requires AllDigits(d) && AllDigits(frac)
    ensures v >= DigitsValue(d) as real
  {
    DigitsValue(d) as real + DigitsValue(frac) as real / Pow10(|frac|) as real
  }

  /** A number with a decimal point, ended by anything but a digit, reads as d.frac and is consumed whole. */
  lemma DecimalReads(d: string, frac: string, tail: string)
    requires d != [] && AllDigits(d) && AllDigits(frac)
    requires tail == [] || !IsDigit(tail[0])
    ensures Decimal(d + ("." + (frac + tail))) == Some((DecimalValue(d, frac), |d| + 1 + |frac|))
  {
    DecimalParts(d, frac, tail);
  }

  lemma {:induction false} DecimalParts(d: string, frac: string, tail: string)
    requires d != [] && AllDigits(d) && AllDigits(frac)
    requires tail == [] || !IsDigit(tail[0])
    ensures var s := d + ("." + (frac + tail));
            DigitRun(s) == |d| && s[|d|] == '.' && s[..|d|] == d && s[|d| + 1..] == frac + tail &&
            DigitRun(frac + tail) == |frac| && (frac + tail)[..|frac|] == frac
  {
    var rest := frac + tail;
    var dotted := "." + rest;
    var s := d + dotted;
    DigitRunAppend(d, dotted);
    assert DigitRun(dotted) == 0;
    assert s[|d| + 1..] == rest;
    DigitRunAppend(frac, tail);
  }

  /** A whole number, ended by anything but a digit or a point, reads as its digits and is consumed whole. */
  lemma WholeReads(d: string, tail: string)
    requires d != [] && AllDigits(d)
    requires tail == [] || (!IsDigit(tail[0]) && tail[0] != '.')
    ensures Decimal(d + tail) == Some((DigitsValue(d) as real, |d|))
  {
    DigitRunAppend(d, tail);
    assert (d + tail)[..|d|] == d;
  }

  // ===== budgets =====

  const MaxTriggers: seq<string> := ["under", "below", "upto", "up to", "within", "max", "maximum"]
  const MinTriggers: seq<string> := ["above", "over", "from", "starting from", "minimum", "min"]
  const CroreUnits: seq<string> := ["cr", "crore", "crores"]
  const LakhUnits: seq<string> := ["l", "lakh", "lakhs"]
  const RangeSeparators: seq<string> := ["-", "to", "and"]
  const RangeUnits: seq<string> := ["cr", "crore"]

  /** The unit a budget pattern reads its number in. */
  datatype Denomination = Crores | Lakhs

  /** The number times 10000000 for crores, times 100000 for lakhs. */
  function InRupees(v: real, unit: Denomination): (r: real)
    ensures v >= 0.0 ==> r >= 0.0
    ensures r == 0.0 <==> v == 0.0
  {
    match unit
    case Crores => v * 10000000.0
    case Lakhs => v * 100000.0
  }

  /** One budget pattern: a trigger phrase, or the "between A and B" range; each with its multiplier. */
  datatype AmountRule =
    | Phrase(triggers: seq<string>, units: seq<string>, unit: Denomination)
    | Range(unit: Denomination)

  /** The budget_max patterns: crore phrasing first, then lakh phrasing. */
  const BudgetMaxRules: seq<AmountRule> := [Phrase(MaxTriggers, CroreUnits, Crores), Phrase(MaxTriggers, LakhUnits, Lakhs)]

  /** The budget_min patterns: crore phrasing first, then the range. */
  const BudgetMinRules: seq<AmountRule> := [Phrase(MinTriggers, CroreUnits, Crores), Range(Crores)]

  /** `\s*₹?\s*(number)\s*(?:units)` at the start of s: the number. */
  function AmountTail(s: string, units: seq<string>): (r: Option<real>)
    ensures r.Some? ==> r.value >= 0.0
  {
    var t := SkipAmountPrefix(s);
    match Decimal(t)
    case None => None
    case Some((v, n)) => if StartsWithAny(SkipSpaces(t[n..]), units) then Some(v) else None
  }

  /** `\s*₹?\s*(A)\s*(?:-|to|and)\s*₹?\s*(B)\s*(?:cr|crore)` at the start of s: A (B is discarded). */
  function RangeTail(s: string): (r: Option<real>)
    ensures r.Some? ==> r.value >= 0.0
  {
    var t := SkipAmountPrefix(s);
    match Decimal(t)
    case None => None
    case Some((a, n)) =>
      if FirstAlt(SkipSpaces(t[n..]), RangeSeparators, u => AmountTail(u, RangeUnits)).Some? then Some(a) else None
  }

  /** The number one budget pattern captures at the start of s, before scaling. */
  function CapturedAmount(rule: AmountRule, s: string): (r: Option<real>)
    ensures r.Some? ==> r.value >= 0.0
  {
    match rule
    case Phrase(triggers, units, _) =>
      PhraseNonNegative(triggers, units, s);
      FirstAlt(s, triggers, t => AmountTail(t, units))
    case Range(_) =>
      if StartsWith(s, "between") then RangeTail(s[7..]) else None
  }

  /** One budget pattern matched at the start of s, converted to rupees. */
  function AmountAt(rule: AmountRule, s: string): (r: Option<real>)
    ensures r.Some? ==> r.value >= 0.0
  {
    var c := CapturedAmount(rule, s);
    if c.None? then None else Some(InRupees(c.value, rule.unit))
  }

  /** The first budget rule with a match anywhere in the lowered query; its leftmost match. */
  function FirstAmount(rules: seq<AmountRule>, query: string): Option<real> {
    var q := Lower(query);
    FirstMatch(rules, (rule: AmountRule) => Leftmost(q, s => AmountAt(rule, s)))
  }

  /** Every budget a rule table produces is a non-negative number of rupees. */
  lemma AmountNonNegative(rules: seq<AmountRule>, query: string)
    ensures FirstAmount(rules, query).Some? ==> FirstAmount(rules, query).value >= 0.0
  {
    var q := Lower(query);
    var search := (rule: AmountRule) => Leftmost(q, s => AmountAt(rule, s));
    if FirstMatch(rules, search).Some? {
      FirstMatchFrom(rules, search);
      var i :| 0 <= i < |rules| && search(rules[i]) == FirstMatch(rules, search);
      var at := s => AmountAt(rules[i], s);
      LeftmostFrom(q, at);
    }
  }

  lemma PhraseNonNegative(triggers: seq<string>, units: seq<string>, s: string)
    ensures var r := FirstAlt(s, triggers, t => AmountTail(t, units));
            r.Some? ==> r.value >= 0.0
  {
    var rest := t => AmountTail(t, units);
    if FirstAlt(s, triggers, rest).Some? {
      FirstAltFrom(s, triggers, rest);
    }
  }

  /** _extract_budget_max: "under 1.2 cr" style in crores, else "under 80 lakhs" style in lakhs. */
  function ExtractBudgetMax(query: string): (r: Option<real>)
    ensures r.Some? ==> r.value >= 0.0
  {
    AmountNonNegative(BudgetMaxRules, query);
    FirstAmount(BudgetMaxRules, query)
  }

  /** _extract_budget_min: "above 2 cr" style, else the lower end of "between A and B cr". */
  function ExtractBudgetMin(query: string): (r: Option<real>)
    ensures r.Some? ==> r.value >= 0.0
  {
    AmountNonNegative(BudgetMinRules, query);
    FirstAmount(BudgetMinRules, query)
  }

  // ===== budgets as typed =====

  /** The number of a budget phrase as typed: digits, then optionally a point and more digits. */
  datatype Number = Number(whole: string, point: bool, frac: string)

  predicate ValidNumber(x: Number) {
    x.whole != [] && AllDigits(x.whole) && AllDigits(x.frac) && (x.point || x.frac == [])
  }

  function NumberText(x: Number): string {
    if x.point then x.whole + ("." + x.frac) else x.whole
  }

  /** What float() makes of the number's text. */
  function NumberValue(x: Number): real
    requires ValidNumber(x)
  {
    DecimalValue(x.whole, x.frac)
  }

  /** `\s*₹?\s*(number)\s*` as typed after a trigger: spaces, an optional rupee sign, spaces, the number, spaces. */
  datatype Amount = Amount(before: string, rupee: bool, after: string, number: Number, gap: string)

  predicate ValidAmount(a: Amount) {
    AllSpaces(a.before) && AllSpaces(a.after) && AllSpaces(a.gap) && ValidNumber(a.number)
  }

  /** The amount a, as typed, in front of the text rest. */
  function Spelled(a: Amount, rest: string): string {
    a.before + ((if a.rupee then [Rupee] else []) + (a.after + (NumberText(a.number) + (a.gap + rest))))
  }

  /** Every unit word opens with a lower-case letter. */
  predicate UnitWords(units: seq<string>) {
    forall k :: 0 <= k < |units| ==> units[k] != [] && IsLowerLetter(units[k][0])
  }

  /** Every trigger before trigger k that is a prefix of s runs on into a letter there ("max" inside "maximum"). */
  predicate EarlierTriggersRunOn(triggers: seq<string>, k: nat, s: string)
    requires k <= |triggers|
  {
    forall j :: 0 <= j < k && StartsWith(s, triggers[j]) ==> |triggers[j]| < |s| && IsLowerLetter(s[|triggers[j]|])
  }

  /** The typed number reads back as its value when no digit or point follows it. */
  lemma {:induction false} NumberReads(x: Number, tail: string)
    requires ValidNumber(x)
    requires tail == [] || (!IsDigit(tail[0]) && tail[0] != '.')
    ensures Decimal(NumberText(x) + tail) == Some((NumberValue(x), |NumberText(x)|))
  {
    if x.point {
      PointedReads(x.whole, x.frac, tail);
    } else {
      WholeReads(x.whole, tail);
      assert DecimalValue(x.whole, x.frac) == DigitsValue(x.whole) as real by {
        assert DigitsValue(x.frac) == 0 && Pow10(0) == 1;
      }
    }
  }

  lemma PointedReads(d: string, frac: string, tail: string)
    requires d != [] && AllDigits(d) && AllDigits(frac)
    requires tail == [] || !IsDigit(tail[0])
    ensures Decimal((d + ("." + frac)) + tail) == Some((DecimalValue(d, frac), |d| + 1 + |frac|))
  {
    assert (d + ("." + frac)) + tail == d + ("." + (frac + tail));
    DecimalReads(d, frac, tail);
  }

  /** `\s*₹?\s*` skips exactly the spaces and rupee sign typed before the number. */
  lemma PrefixSkipped(a: Amount, rest: string)
    requires ValidAmount(a)
    ensures SkipAmountPrefix(Spelled(a, rest)) == NumberText(a.number) + (a.gap + rest)
  {
    var num := NumberText(a.number) + (a.gap + rest);
    assert num[0] == a.number.whole[0];
    if a.rupee {
      assert Spelled(a, rest) == a.before + ([Rupee] + (a.after + num));
      RupeePrefixSkipped(a.before, a.after, num);
    } else {
      assert Spelled(a, rest) == (a.before + a.after) + num;
      assert AllSpaces(a.before + a.after) by {
        forall i | 0 <= i < |a.before + a.after| ensures IsSpace((a.before + a.after)[i]) {
          if i >= |a.before| { assert (a.before + a.after)[i] == a.after[i - |a.before|]; }
        }
      }
      SpacePrefixSkipped(a.before + a.after, num);
    }
  }

  lemma SpacePrefixSkipped(sp: string, num: string)
    requires AllSpaces(sp) && num != [] && IsDigit(num[0])
    ensures SkipAmountPrefix(sp + num) == num
  {
    SkipSpacesOver(sp, num);
    assert SkipRupee(num) == num;
    SkipSpacesOver([], num);
    assert [] + num == num;
  }

  lemma RupeePrefixSkipped(sp: string, sp': string, num: string)
    requires AllSpaces(sp) && AllSpaces(sp') && num != [] && IsDigit(num[0])
    ensures SkipAmountPrefix(sp + ([Rupee] + (sp' + num))) == num
  {
    SkipSpacesOver(sp, [Rupee] + (sp' + num));
    assert SkipRupee([Rupee] + (sp' + num)) == sp' + num;
    SkipSpacesOver(sp', num);
  }

  /** `\s*₹?\s*(number)\s*(?:units)` captures the typed number when one of the units follows it. */
  lemma {:induction false} AmountReads(a: Amount, rest: string, units: seq<string>)
    requires ValidAmount(a) && UnitWords(units) && StartsWithAny(rest, units)
    ensures AmountTail(Spelled(a, rest), units) == Some(NumberValue(a.number))
  {
    var s := Spelled(a, rest);
    var t := NumberText(a.number) + (a.gap + rest);
    PrefixSkipped(a, rest);
    UnitOpensWithLetter(rest, units);
    NumberThenGap(a.number, a.gap, rest);
    AmountTailOf(s, units, t, NumberValue(a.number), |NumberText(a.number)|);
  }

  lemma UnitOpensWithLetter(rest: string, units: seq<string>)
    requires UnitWords(units) && StartsWithAny(rest, units)
    ensures rest != [] && IsLowerLetter(rest[0])
  {
    var k :| 0 <= k < |units| && StartsWith(rest, units[k]);
    assert rest[0] == units[k][0];
  }

  lemma AmountTailOf(s: string, units: seq<string>, t: string, v: real, n: nat)
    requires SkipAmountPrefix(s) == t && Decimal(t) == Some((v, n)) && StartsWithAny(SkipSpaces(t[n..]), units)
    ensures AmountTail(s, units) == Some(v)
  {
  }

  /** The number, spaces, then text that opens with neither a digit, a point nor a space. */
  lemma NumberThenGap(x: Number, gap: string, rest: string)
    requires ValidNumber(x) && AllSpaces(gap)
    requires rest != [] && !IsDigit(rest[0]) && rest[0] != '.' && !IsSpace(rest[0])
    ensures var t := NumberText(x) + (gap + rest);
            Decimal(t) == Some((NumberValue(x), |NumberText(x)|)) && SkipSpaces(t[|NumberText(x)|..]) == rest
  {
    var after := gap + rest;
    AfterGap(gap, rest);
    NumberReads(x, after);
    assert (NumberText(x) + after)[|NumberText(x)|..] == after;
    SkipSpacesOver(gap, rest);
  }

  /** Spaces and then something other than a digit or a point: the number typed before them has ended. */
  lemma AfterGap(sp: string, t: string)
    requires AllSpaces(sp) && t != [] && !IsDigit(t[0]) && t[0] != '.'
    ensures sp + t != [] && !IsDigit((sp + t)[0]) && (sp + t)[0] != '.'
  {
    if sp == [] {
      assert sp + t == t;
    } else {
      assert (sp + t)[0] == sp[0];
    }
  }

  /** No amount starts at a letter: `\s*₹?\s*\d` needs a space, the rupee sign or a digit first. */
  lemma LetterNoAmount(s: string, units: seq<string>)
    requires s != [] && IsLowerLetter(s[0])
    ensures AmountTail(s, units).None?
  {
    assert SkipSpaces(s) == s by { assert s[0..] == s; }
  }

  /**
   * A budget phrase as typed: trigger k, the amount, one of the rule's units. The pattern captures
   * the typed number when the earlier triggers of the rule do not match here.
   */
  lemma PhraseReads(rule: AmountRule, k: nat, a: Amount, rest: string)
    requires rule.Phrase? && k < |rule.triggers| && ValidAmount(a)
    requires UnitWords(rule.units) && StartsWithAny(rest, rule.units)
    requires EarlierTriggersRunOn(rule.triggers, k, rule.triggers[k] + Spelled(a, rest))
    ensures CapturedAmount(rule, rule.triggers[k] + Spelled(a, rest)) == Some(NumberValue(a.number))
  {
    var s := rule.triggers[k] + Spelled(a, rest);
    var units := rule.units;
    var tail := t => AmountTail(t, units);
    assert s[|rule.triggers[k]|..] == Spelled(a, rest);
    AmountReads(a, rest, units);
    forall j | 0 <= j < k && StartsWith(s, rule.triggers[j]) ensures tail(s[|rule.triggers[j]|..]).None? {
      LetterNoAmount(s[|rule.triggers[j]|..], units);
    }
    FirstAltAt(s, rule.triggers, tail, k);
  }

  /** "between A and B cr" (or "A - B cr", "A to B cr"): the range pattern captures A; B is read and dropped. */
  lemma RangeReads(a: Amount, m: nat, b: Amount, rest: string)
    requires ValidAmount(a) && ValidAmount(b) && m < |RangeSeparators| && StartsWithAny(rest, RangeUnits)
    ensures CapturedAmount(Range(Crores), "between" + Spelled(a, RangeSeparators[m] + Spelled(b, rest)))
            == Some(NumberValue(a.number))
  {
    var x := RangeSeparators[m] + Spelled(b, rest);
    var t := NumberText(a.number) + (a.gap + x);
    PrefixSkipped(a, x);
    SeparatedAmount(m, b, rest);
    NumberThenGap(a.number, a.gap, x);
    BetweenOf(Spelled(a, x), t, NumberValue(a.number), |NumberText(a.number)|);
  }

  lemma BetweenOf(y: string, t: string, v: real, n: nat)
    requires SkipAmountPrefix(y) == t && Decimal(t) == Some((v, n))
    requires FirstAlt(SkipSpaces(t[n..]), RangeSeparators, u => AmountTail(u, RangeUnits)).Some?
    ensures CapturedAmount(Range(Crores), "between" + y) == Some(v)
  {
    StartsWithAppend("between", y);
    assert ("between" + y)[7..] == y;
  }

  /** `(?:-|to|and)\s*₹?\s*(B)\s*(?:cr|crore)` after A: separator m is the one taken, and B is read. */
  lemma SeparatedAmount(m: nat, b: Amount, rest: string)
    requires ValidAmount(b) && m < |RangeSeparators| && StartsWithAny(rest, RangeUnits)
    ensures var x := RangeSeparators[m] + Spelled(b, rest);
            x[0] == RangeSeparators[m][0] && !IsDigit(x[0]) && x[0] != '.' && !IsSpace(x[0]) &&
            FirstAlt(x, RangeSeparators, u => AmountTail(u, RangeUnits)) == Some(NumberValue(b.number))
  {
    var sep := RangeSeparators[m];
    var x := sep + Spelled(b, rest);
    assert UnitWords(RangeUnits);
    AmountReads(b, rest, RangeUnits);
    SeparatorsOpenApart(m);
    StartsWithAppend(sep, Spelled(b, rest));
    assert x[|sep|..] == Spelled(b, rest);
    forall j | 0 <= j < m ensures !StartsWith(x, RangeSeparators[j]) {
      if StartsWith(x, RangeSeparators[j]) {
        PrefixesAgree(x, RangeSeparators[j], sep, 0);
      }
    }
    FirstAltAt(x, RangeSeparators, u => AmountTail(u, RangeUnits), m);
  }

  /** The separators open with '-', 't' and 'a': no two alike, none a digit, a point or a space. */
  lemma SeparatorsOpenApart(m: nat)
    requires m < |RangeSeparators|
    ensures var c := RangeSeparators[m]; c != [] && !IsDigit(c[0]) && c[0] != '.' && !IsSpace(c[0])
    ensures forall j :: 0 <= j < m ==> RangeSeparators[j] != [] && RangeSeparators[j][0] != RangeSeparators[m][0]
  {
    assert RangeSeparators[0][0] == '-' && RangeSeparators[1][0] == 't' && RangeSeparators[2][0] == 'a';
  }

  /**
   * A rule table's result is its first rule's leftmost match: the match at position i of the
   * lowered query when the rule matches there and nowhere before.
   */
  lemma {:induction false} FirstRuleAt(rules: seq<AmountRule>, query: string, i: nat, v: real)
    requires rules != [] && i <= |Lower(query)|
    requires CapturedAmount(rules[0], Lower(query)[i..]) == Some(v)
    requires forall j :: 0 <= j < i ==> AmountAt(rules[0], Lower(query)[j..]).None?
    ensures FirstAmount(rules, query) == Some(InRupees(v, rules[0].unit))
  {
    var q := Lower(query);
    var search := (rule: AmountRule) => Leftmost(q, s => AmountAt(rule, s));
    LeftmostIsFirst(q, s => AmountAt(rules[0], s), i);
    FirstMatchIsFirst(rules, search, 0);
  }

  /** A rule's leftmost match: the match at position i of q when the rule matches there and nowhere before. */
  lemma RuleLeftmostAt(rule: AmountRule, q: string, i: nat, v: real)
    requires i <= |q| && CapturedAmount(rule, q[i..]) == Some(v)
    requires forall j :: 0 <= j < i ==> AmountAt(rule, q[j..]).None?
    ensures Leftmost(q, s => AmountAt(rule, s)) == Some(InRupees(v, rule.unit))
  {
    var at := s => AmountAt(rule, s);
    assert at(q[i..]) == Some(InRupees(v, rule.unit));
    LeftmostIsFirst(q, at, i);
  }

  /** A rule that matches at no position of q has no leftmost match. */
  lemma RuleNowhere(rule: AmountRule, q: string)
    requires forall j :: 0 <= j <= |q| ==> AmountAt(rule, q[j..]).None?
    ensures Leftmost(q, s => AmountAt(rule, s)).None?
  {
    LeftmostNone(q, s => AmountAt(rule, s));
  }

  /** A rule table finds nothing when none of its rules matches anywhere in the lowered query. */
  lemma FirstAmountNone(rules: seq<AmountRule>, query: string)
    requires forall p, j :: 0 <= p < |rules| && 0 <= j <= |Lower(query)| ==> AmountAt(rules[p], Lower(query)[j..]).None?
    ensures FirstAmount(rules, query).None?
  {
    var q := Lower(query);
    var search := (rule: AmountRule) => Leftmost(q, s => AmountAt(rule, s));
    forall p | 0 <= p < |rules| ensures search(rules[p]).None? {
      LeftmostNone(q, s => AmountAt(rules[p], s));
    }
    FirstMatchNone(rules, search);
  }

  /** budget_max from "under 1.2 cr" style, leftmost in the lowered query: the typed number times 10^7. */
  lemma CeilingInCrores(query: string, i: nat, k: nat, a: Amount, rest: string)
    requires k < |MaxTriggers| && i <= |Lower(query)| && Lower(query)[i..] == MaxTriggers[k] + Spelled(a, rest)
    requires ValidAmount(a) && StartsWithAny(rest, CroreUnits)
    requires EarlierTriggersRunOn(MaxTriggers, k, Lower(query)[i..])
    requires forall j :: 0 <= j < i ==> AmountAt(BudgetMaxRules[0], Lower(query)[j..]).None?
    ensures ExtractBudgetMax(query) == Some(NumberValue(a.number) * 10000000.0)
  {
    assert UnitWords(CroreUnits);
    PhraseReads(BudgetMaxRules[0], k, a, rest);
    FirstRuleAt(BudgetMaxRules, query, i, NumberValue(a.number));
  }

  /**
   * budget_max from "under 80 lakhs" style, leftmost in the lowered query, when no crore phrasing
   * matches anywhere: the typed number times 10^5.
   */
  lemma CeilingInLakhs(query: string, i: nat, k: nat, a: Amount, rest: string)
    requires k < |MaxTriggers| && i <= |Lower(query)| && Lower(query)[i..] == MaxTriggers[k] + Spelled(a, rest)
    requires ValidAmount(a) && StartsWithAny(rest, LakhUnits)
    requires EarlierTriggersRunOn(MaxTriggers, k, Lower(query)[i..])
    requires forall j :: 0 <= j <= |Lower(query)| ==> AmountAt(BudgetMaxRules[0], Lower(query)[j..]).None?
    requires forall j :: 0 <= j < i ==> AmountAt(BudgetMaxRules[1], Lower(query)[j..]).None?
    ensures ExtractBudgetMax(query) == Some(NumberValue(a.number) * 100000.0)
  {
    LakhPhraseAt(Lower(query)[i..], k, a, rest);
    RuleNowhere(BudgetMaxRules[0], Lower(query));
    RuleLeftmostAt(BudgetMaxRules[1], Lower(query), i, NumberValue(a.number));
    LakhBudgetOtherwise(query);
  }

  lemma LakhPhraseAt(s: string, k: nat, a: Amount, rest: string)
    requires k < |MaxTriggers| && s == MaxTriggers[k] + Spelled(a, rest)
    requires ValidAmount(a) && StartsWithAny(rest, LakhUnits)
    requires EarlierTriggersRunOn(MaxTriggers, k, s)
    ensures CapturedAmount(BudgetMaxRules[1], s) == Some(NumberValue(a.number))
  {
    assert UnitWords(LakhUnits);
    assert BudgetMaxRules[1] == Phrase(MaxTriggers, LakhUnits, Lakhs);
    PhraseReads(BudgetMaxRules[1], k, a, rest);
  }

  /** budget_min from "above 2 cr" style, leftmost in the lowered query: the typed number times 10^7. */
  lemma FloorInCrores(query: string, i: nat, k: nat, a: Amount, rest: string)
    requires k < |MinTriggers| && i <= |Lower(query)| && Lower(query)[i..] == MinTriggers[k] + Spelled(a, rest)
    requires ValidAmount(a) && StartsWithAny(rest, CroreUnits)
    requires EarlierTriggersRunOn(MinTriggers, k, Lower(query)[i..])
    requires forall j :: 0 <= j < i ==> AmountAt(BudgetMinRules[0], Lower(query)[j..]).None?
    ensures ExtractBudgetMin(query) == Some(NumberValue(a.number) * 10000000.0)
  {
    assert UnitWords(CroreUnits);
    PhraseReads(BudgetMinRules[0], k, a, rest);
    FirstRuleAt(BudgetMinRules, query, i, NumberValue(a.number));
  }

  /**
   * budget_min from "between A and B cr", leftmost in the lowered query, when no "above ... cr"
   * phrasing matches anywhere: A times 10^7.
   */
  lemma FloorFromRange(query: string, i: nat, a: Amount, m: nat, b: Amount, rest: string)
    requires m < |RangeSeparators| && i <= |Lower(query)|
    requires Lower(query)[i..] == "between" + Spelled(a, RangeSeparators[m] + Spelled(b, rest))
    requires ValidAmount(a) && ValidAmount(b) && StartsWithAny(rest, RangeUnits)
    requires forall j :: 0 <= j <= |Lower(query)| ==> AmountAt(BudgetMinRules[0], Lower(query)[j..]).None?
    requires forall j :: 0 <= j < i ==> AmountAt(BudgetMinRules[1], Lower(query)[j..]).None?
    ensures ExtractBudgetMin(query) == Some(NumberValue(a.number) * 10000000.0)
  {
    assert BudgetMinRules[1] == Range(Crores);
    RangeReads(a, m, b, rest);
    RuleNowhere(BudgetMinRules[0], Lower(query));
    RuleLeftmostAt(BudgetMinRules[1], Lower(query), i, NumberValue(a.number));
    RangeBudgetOtherwise(query);
  }

  // ===== budgets that cannot match =====

  /** Some character of s is one of cs. */
  predicate Mentions(s: string, cs: set<char>) {
    exists i :: 0 <= i < |s| && s[i] in cs
  }

  /** Every word of ws has a character from cs. */
  predicate AllMention(ws: seq<string>, cs: set<char>) {
    forall k :: 0 <= k < |ws| ==> Mentions(ws[k], cs)
  }

  /** Every word of ws opens with a character from cs. */
  predicate AllOpenWith(ws: seq<string>, cs: set<char>) {
    forall k :: 0 <= k < |ws| ==> ws[k] != [] && ws[k][0] in cs
  }

  lemma SuffixMentions(s: string, m: nat, cs: set<char>)
    requires m <= |s| && Mentions(s[m..], cs)
    ensures Mentions(s, cs)
  {
    var i :| 0 <= i < |s[m..]| && s[m..][i] in cs;
    assert s[m + i] == s[m..][i];
  }

  /** `\s*₹?\s*(number)\s*(?:units)` only matches text holding the first character of one of the units. */
  lemma UnitMentioned(s: string, units: seq<string>, cs: set<char>)
    requires AllOpenWith(units, cs) && AmountTail(s, units).Some?
    ensures Mentions(s, cs)
  {
    var t := SkipAmountPrefix(s);
    var n := Decimal(t).value.1;
    var u := SkipSpaces(t[n..]);
    OpensWithUnit(u, units, cs);
    SuffixMentions(t[n..], SpaceRun(t[n..]), cs);
    SuffixMentions(t, n, cs);
    AmountPrefixSuffix(s);
    SuffixMentions(s, |s| - |t|, cs);
  }

  lemma OpensWithUnit(u: string, units: seq<string>, cs: set<char>)
    requires AllOpenWith(units, cs) && StartsWithAny(u, units)
    ensures Mentions(u, cs)
  {
    var k :| 0 <= k < |units| && StartsWith(u, units[k]);
    assert u[0] == units[k][0];
  }

  /** `\s*₹?\s*` only drops a prefix. */
  lemma AmountPrefixSuffix(s: string)
    ensures var t := SkipAmountPrefix(s); t == s[|s| - |t|..]
  {
    var s1 := SkipSpaces(s);
    var s2 := SkipRupee(s1);
    var t := SkipSpaces(s2);
    assert s1 == s[|s| - |s1|..];
    assert s2 == s1[|s1| - |s2|..];
    assert t == s2[|s2| - |t|..];
  }

  /** A phrase pattern only matches text holding a character that all its triggers, or all its units, need. */
  lemma PhraseMentions(rule: AmountRule, s: string, cs: set<char>)
    requires rule.Phrase? && CapturedAmount(rule, s).Some?
    requires AllMention(rule.triggers, cs) || AllOpenWith(rule.units, cs)
    ensures Mentions(s, cs)
  {
    var units := rule.units;
    var tail := t => AmountTail(t, units);
    FirstAltFrom(s, rule.triggers, tail);
    var k :| 0 <= k < |rule.triggers| && StartsWith(s, rule.triggers[k]) &&
             tail(s[|rule.triggers[k]|..]) == FirstAlt(s, rule.triggers, tail);
    var w := rule.triggers[k];
    if AllMention(rule.triggers, cs) {
      PrefixMentions(s, w, cs);
    } else {
      UnitMentioned(s[|w|..], units, cs);
      SuffixMentions(s, |w|, cs);
    }
  }

  lemma PrefixMentions(s: string, w: string, cs: set<char>)
    requires StartsWith(s, w) && Mentions(w, cs)
    ensures Mentions(s, cs)
  {
    var i :| 0 <= i < |w| && w[i] in cs;
    assert s[i] == s[..|w|][i];
  }

  /** A phrase pattern matches nowhere in text without any character its triggers (or its units) all need. */
  lemma PhraseNowhere(rule: AmountRule, q: string, cs: set<char>)
    requires rule.Phrase? && !Mentions(q, cs)
    requires AllMention(rule.triggers, cs) || AllOpenWith(rule.units, cs)
    ensures forall j :: 0 <= j <= |q| ==> AmountAt(rule, q[j..]).None?
  {
    forall j | 0 <= j <= |q| ensures AmountAt(rule, q[j..]).None? {
      if CapturedAmount(rule, q[j..]).Some? {
        PhraseMentions(rule, q[j..], cs);
        SuffixMentions(q, j, cs);
      }
    }
  }

  // ===== bedroom configuration =====

  /** One BHK pattern: `(\d+)\s*bhk`, or `(word|digit)\s*bedroom` with its fixed label. */
  datatype BhkRule =
    | DigitsBhk
    | WordBedroom(words: seq<string>, bhkLabel: string)

  /** BHK_PATTERNS in priority order. */
  const BhkPatterns: seq<BhkRule> := [
    DigitsBhk,
    WordBedroom(["one", "1"], "1BHK"),
    WordBedroom(["two", "2"], "2BHK"),
    WordBedroom(["three", "3"], "3BHK"),
    WordBedroom(["four", "4"], "4BHK")
  ]

  /** One BHK pattern at the start of s, formatted as its label. */
  function BhkAt(rule: BhkRule, s: string): Option<string> {
    match rule
    case DigitsBhk =>
      var n := DigitRun(s);
      if n > 0 && StartsWith(SkipSpaces(s[n..]), "bhk") then Some(s[..n] + "BHK") else None
    case WordBedroom(words, bhkLabel) =>
      FirstAlt(s, words, t => if StartsWith(SkipSpaces(t), "bedroom") then Some(bhkLabel) else None)
  }

  /** _extract_bhk: the first BHK pattern, in priority order, that occurs anywhere in the query. */
  function ExtractBhk(query: string): (bhk: Option<string>)
    ensures bhk.Some? ==> BhkLabel(bhk.value)
  {
    var q := Lower(query);
    ExtractedBhkLabel(q);
    FirstMatch(BhkPatterns, (rule: BhkRule) => Leftmost(q, s => BhkAt(rule, s)))
  }

  /** A BHK type as the parser writes it: a digit count followed by "BHK". */
  predicate BhkLabel(t: string) {
    |t| > 3 && EndsWith(t, "BHK") && AllDigits(t[..|t| - 3])
  }

  /** Every BHK pattern, wherever it matches, yields a digit count followed by "BHK". */
  lemma BhkAtLabel(k: nat, s: string)
    requires k < |BhkPatterns|
    ensures BhkAt(BhkPatterns[k], s).Some? ==> BhkLabel(BhkAt(BhkPatterns[k], s).value)
  {
    if k == 0 {
      DigitsBhkLabel(s);
    } else {
      BedroomLabels(k);
      BedroomAtLabel(BhkPatterns[k].words, BhkPatterns[k].bhkLabel, s);
    }
  }

  lemma DigitsBhkLabel(s: string)
    ensures BhkAt(DigitsBhk, s).Some? ==> BhkLabel(BhkAt(DigitsBhk, s).value)
  {
    var n := DigitRun(s);
    var t := s[..n] + "BHK";
    assert t[..|t| - 3] == s[..n];
    assert t[|t| - 3..] == "BHK";
  }

  /** A word-and-"bedroom" pattern can only answer with its own label. */
  lemma {:induction false} BedroomAtLabel(words: seq<string>, tag: string, s: string)
    ensures BhkAt(WordBedroom(words, tag), s).Some? ==> BhkAt(WordBedroom(words, tag), s).value == tag
  {
    var rest := (t: string) => if StartsWith(SkipSpaces(t), "bedroom") then Some(tag) else None;
    if FirstAlt(s, words, rest).Some? {
      FirstAltFrom(s, words, rest);
    }
  }

  lemma BedroomLabels(k: nat)
    requires 0 < k < |BhkPatterns|
    ensures BhkPatterns[k].WordBedroom? && BhkLabel(BhkPatterns[k].bhkLabel)
  {
    var t := BhkPatterns[k].bhkLabel;
    assert t[..1] == [t[0]] && IsDigit(t[0]);
    assert t[|t| - 3..] == "BHK";
  }

  /** The BHK lookup, wherever it answers, answers with a digit count followed by "BHK". */
  lemma ExtractedBhkLabel(q: string)
    ensures var r := FirstMatch(BhkPatterns, (rule: BhkRule) => Leftmost(q, s => BhkAt(rule, s)));
            r.Some? ==> BhkLabel(r.value)
  {
    var search := (rule: BhkRule) => Leftmost(q, s => BhkAt(rule, s));
    if FirstMatch(BhkPatterns, search).Some? {
      FirstMatchFrom(BhkPatterns, search);
      var i :| 0 <= i < |BhkPatterns| && search(BhkPatterns[i]) == FirstMatch(BhkPatterns, search);
      var at := s => BhkAt(BhkPatterns[i], s);
      LeftmostFrom(q, at);
      var j :| 0 <= j <= |q| && at(q[j..]) == Leftmost(q, at);
      BhkAtLabel(i, q[j..]);
    }
  }

  /** A digits+"bhk" match anywhere in the query takes precedence over every bedroom-word pattern. */
  lemma DigitsBhkFirst(query: string)
    requires Leftmost(Lower(query), s => BhkAt(DigitsBhk, s)).Some?
    ensures ExtractBhk(query) == Leftmost(Lower(query), s => BhkAt(DigitsBhk, s))
  {
    var q := Lower(query);
    FirstMatchIsFirst(BhkPatterns, (rule: BhkRule) => Leftmost(q, s => BhkAt(rule, s)), 0);
  }

  /**
   * The bhk is rule r's leftmost match when rule r matches at position i of the lowered query and
   * nowhere before, and every rule ahead of it in BHK_PATTERNS matches nowhere.
   */
  lemma BhkRuleDecides(query: string, r: nat, i: nat)
    requires r < |BhkPatterns| && i <= |Lower(query)| && BhkAt(BhkPatterns[r], Lower(query)[i..]).Some?
    requires forall j :: 0 <= j < i ==> BhkAt(BhkPatterns[r], Lower(query)[j..]).None?
    requires forall p :: 0 <= p < r ==> Leftmost(Lower(query), s => BhkAt(BhkPatterns[p], s)).None?
    ensures ExtractBhk(query) == BhkAt(BhkPatterns[r], Lower(query)[i..])
  {
    var q := Lower(query);
    var search := (rule: BhkRule) => Leftmost(q, s => BhkAt(rule, s));
    LeftmostIsFirst(q, s => BhkAt(BhkPatterns[r], s), i);
    FirstMatchIsFirst(BhkPatterns, search, r);
  }

  /** A digits+"bhk" match, leftmost in the lowered query, gives those digits followed by "BHK". */
  lemma DigitsBhkAt(query: string, i: nat, n: nat)
    requires i <= |Lower(query)| && n == DigitRun(Lower(query)[i..]) && n > 0
    requires StartsWith(SkipSpaces(Lower(query)[i..][n..]), "bhk")
    requires forall j :: 0 <= j < i ==> BhkAt(DigitsBhk, Lower(query)[j..]).None?
    ensures ExtractBhk(query) == Some(Lower(query)[i..][..n] + "BHK")
  {
    BhkRuleDecides(query, 0, i);
  }

  /** `(word|digit)\s*bedroom` at the start of s: word k, spaces, "bedroom" give the rule's label. */
  lemma {:induction false} BedroomAt(words: seq<string>, tag: string, s: string, k: nat)
    requires k < |words| && StartsWith(s, words[k]) && StartsWith(SkipSpaces(s[|words[k]|..]), "bedroom")
    requires forall m :: 0 <= m < k ==> !StartsWith(s, words[m])
    ensures BhkAt(WordBedroom(words, tag), s) == Some(tag)
  {
    var rest := t => if StartsWith(SkipSpaces(t), "bedroom") then Some(tag) else None;
    assert rest(s[|words[k]|..]) == Some(tag);
    FirstAltAt(s, words, rest, k);
  }

  /** A bedroom-word rule only matches text holding a character that all its words need. */
  lemma BedroomMentions(rule: BhkRule, s: string, cs: set<char>)
    requires rule.WordBedroom? && AllMention(rule.words, cs) && BhkAt(rule, s).Some?
    ensures Mentions(s, cs)
  {
    var tag := rule.bhkLabel;
    var rest := t => if StartsWith(SkipSpaces(t), "bedroom") then Some(tag) else None;
    FirstAltFrom(s, rule.words, rest);
    var k :| 0 <= k < |rule.words| && StartsWith(s, rule.words[k]) && rest(s[|rule.words[k]|..]) == FirstAlt(s, rule.words, rest);
    PrefixMentions(s, rule.words[k], cs);
  }

  /** A bedroom-word rule matches nowhere in text without any character all its words need. */
  lemma BedroomNowhere(rule: BhkRule, q: string, cs: set<char>)
    requires rule.WordBedroom? && AllMention(rule.words, cs) && !Mentions(q, cs)
    ensures Leftmost(q, s => BhkAt(rule, s)).None?
  {
    forall j | 0 <= j <= |q| ensures BhkAt(rule, q[j..]).None? {
      if BhkAt(rule, q[j..]).Some? {
        BedroomMentions(rule, q[j..], cs);
        SuffixMentions(q, j, cs);
      }
    }
    LeftmostNone(q, s => BhkAt(rule, s));
  }

  /** Without a digit, `(\d+)\s*bhk` matches nowhere. */
  lemma DigitsBhkNowhere(q: string)
    requires forall i :: 0 <= i < |q| ==> !IsDigit(q[i])
    ensures Leftmost(q, s => BhkAt(DigitsBhk, s)).None?
  {
    forall j | 0 <= j <= |q| ensures BhkAt(DigitsBhk, q[j..]).None? {
      assert DigitRun(q[j..]) == 0;
    }
    LeftmostNone(q, s => BhkAt(DigitsBhk, s));
  }

  // ===== capitalised phrases: locality and project name =====

  /** `[A-Z][a-z]+` at the start of s: its length, or 0 when it does not match. */
  function CapWordLen(s: string): (n: nat)
    ensures n <= |s|
    ensures n > 0 ==> n >= 2 && IsUpper(s[0])
  {
    if |s| >= 2 && IsUpper(s[0]) && IsLowerLetter(s[1]) then 1 + LowerRun(s[1..]) else 0
  }

  /** `[A-Z][a-z]+(?:\s+[A-Z][a-z]+)*` at the start of s, taken greedily: its length, or 0. */
  function CapPhraseLen(s: string): (n: nat)
    ensures n <= |s|
    ensures n > 0 <==> CapWordLen(s) > 0
    decreases |s|
  {
    var w := CapWordLen(s);
    if w == 0 then 0
    else
      var sp := SpaceRun(s[w..]);
      if sp > 0 && CapWordLen(s[w + sp..]) > 0 then w + sp + CapPhraseLen(s[w + sp..]) else w
  }

  /** `\s+(phrase)` at the start of s: the phrase. */
  function PhraseAfterSpaces(s: string): (r: Option<string>)
    ensures r.Some? ==> r.value != [] && IsUpper(r.value[0])
  {
    var sp := SpaceRun(s);
    var n := CapPhraseLen(s[sp..]);
    if sp > 0 && n > 0 then Some(s[sp..][..n]) else None
  }

  const LocalityTriggers: seq<string> := ["in", "at", "near"]

  /** The four names a locality may not be. */
  const CityNames: seq<string> := ["pune", "mumbai", "bangalore", "delhi"]

  /** `(?:in|at|near)\s+(phrase)` at the start of s. */
  function LocalityAt(s: string): Option<string> {
    FirstAlt(s, LocalityTriggers, PhraseAfterSpaces)
  }

  /**
   * _extract_locality (case-sensitive): the phrase of the leftmost match, unless it names
   * one of the four cities, in which case there is no locality (no later match is tried).
   */
  function ExtractLocality(query: string): (locality: Option<string>)
    ensures locality.Some? ==> Lower(locality.value) !in CityNames
  {
    match Leftmost(query, LocalityAt)
    case None => None
    case Some(phrase) => if Lower(phrase) in CityNames then None else Some(phrase)
  }

  const ProjectWords: seq<string> := ["project", "apartments", "residency", "heights", "towers"]

  /** `(phrase)\s+(?:project|apartments|residency|heights|towers)` at the start of s. */
  function ProjectAt(s: string): (r: Option<string>)
    ensures r.Some? ==> r.value != [] && IsUpper(r.value[0])
  {
    var n := CapPhraseLen(s);
    if n > 0 && ProjectWordAfter(s[n..]) then Some(s[..n]) else None
  }

  /** `\s+(?:project|apartments|residency|heights|towers)` at the start of t. */
  predicate ProjectWordAfter(t: string) {
    var sp := SpaceRun(t);
    sp > 0 && StartsWithAny(t[sp..], ProjectWords)
  }

  /** _extract_project_name (case-sensitive): the phrase of the leftmost match. */
  function ExtractProjectName(query: string): (name: Option<string>)
    ensures name.Some? ==> name.value != [] && IsUpper(name.value[0])
  {
    LeftmostFrom(query, ProjectAt);
    Leftmost(query, ProjectAt)
  }

  /** Text without upper-case letters holds no capitalised phrase, so neither pattern matches. */
  lemma {:induction false} NoUpperNoPhrase(q: string)
    requires NoUpper(q)
    ensures ExtractLocality(q) == None && ExtractProjectName(q) == None
  {
    forall i | 0 <= i <= |q| ensures LocalityAt(q[i..]).None? {
      if LocalityAt(q[i..]).Some? {
        FirstAltFrom(q[i..], LocalityTriggers, PhraseAfterSpaces);
        assert false;
      }
    }
    LeftmostNone(q, LocalityAt);
    forall i | 0 <= i <= |q| ensures ProjectAt(q[i..]).None? {
      if ProjectAt(q[i..]).Some? {
        assert false;
      }
    }
    LeftmostNone(q, ProjectAt);
  }

  // ----- the phrase as typed -----

  /** `[A-Z][a-z]+` exactly: a capital, then one or more lower-case letters. */
  predicate CapWord(w: string) {
    |w| >= 2 && IsUpper(w[0]) && forall i :: 1 <= i < |w| ==> IsLowerLetter(w[i])
  }

  predicate AllCapWords(words: seq<string>) {
    words != [] && forall k :: 0 <= k < |words| ==> CapWord(words[k])
  }

  /** What follows a phrase does not continue it: no lower-case letter, and no spaces before another capitalised word. */
  predicate PhraseEnds(tail: string) {
    tail == [] || (!IsLowerLetter(tail[0]) && (SpaceRun(tail) == 0 || CapWordLen(tail[SpaceRun(tail)..]) == 0))
  }

  lemma CapWordAt(w: string, rest: string)
    requires CapWord(w) && (rest == [] || !IsLowerLetter(rest[0]))
    ensures CapWordLen(w + rest) == |w|
  {
    var s := w + rest;
    assert s[1..] == w[1..] + rest;
    LowerRunAppend(w[1..], rest);
    assert LowerRun(rest) == 0;
  }

  /** A last capitalised word: the phrase stops with it. */
  lemma CapPhraseEnd(w: string, tail: string)
    requires CapWord(w) && PhraseEnds(tail)
    ensures CapPhraseLen(w + tail) == |w|
  {
    CapWordAt(w, tail);
    assert (w + tail)[|w|..] == tail;
  }

  /** A capitalised word, one space and another capitalised word: the phrase goes on. */
  lemma {:induction false} CapPhraseStep(w: string, x: string)
    requires CapWord(w) && |x| >= 2 && IsUpper(x[0]) && IsLowerLetter(x[1])
    ensures CapPhraseLen(w + (" " + x)) == |w| + 1 + CapPhraseLen(x)
  {
    var rest := " " + x;
    CapWordAt(w, rest);
    assert (w + rest)[|w|..] == rest;
    assert rest[1..] == x;
    assert SpaceRun(x) == 0;
    assert SpaceRun(rest) == 1;
    assert (w + rest)[|w| + 1..] == x;
  }

  /**
   * The greedy phrase pattern takes exactly capitalised words joined by single spaces when
   * the text after them does not continue the phrase.
   */
  lemma {:induction false} CapPhraseOf(words: seq<string>, tail: string)
    requires AllCapWords(words) && PhraseEnds(tail)
    ensures CapPhraseLen(Join(" ", words) + tail) == |Join(" ", words)|
    decreases |words|
  {
    var w := words[0];
    if |words| == 1 {
      assert Join(" ", words) == w;
      CapPhraseEnd(w, tail);
    } else {
      JoinCons(" ", words);
      var more := Join(" ", words[1..]);
      assert AllCapWords(words[1..]);
      JoinStartsWithFirst(" ", words[1..]);
      var x := more + tail;
      assert x[0] == words[1][0] && x[1] == words[1][1];
      assert Join(" ", words) + tail == w + (" " + x);
      CapPhraseStep(w, x);
      CapPhraseOf(words[1..], tail);
    }
  }

  /** `\s+(phrase)` over spaces and then a phrase of length n. */
  lemma PhraseAfterOf(sp: string, x: string, n: nat)
    requires sp != [] && AllSpaces(sp) && x != [] && !IsSpace(x[0]) && 0 < n == CapPhraseLen(x)
    ensures PhraseAfterSpaces(sp + x) == Some(x[..n])
  {
    SpaceRunAppend(sp, x);
    assert (sp + x)[|sp|..] == x;
  }

  /** `\s+(phrase)`: spaces, then capitalised words joined by single spaces, read as those words. */
  lemma PhraseAfter(sp: string, words: seq<string>, tail: string)
    requires sp != [] && AllSpaces(sp) && AllCapWords(words) && PhraseEnds(tail)
    ensures PhraseAfterSpaces(sp + (Join(" ", words) + tail)) == Some(Join(" ", words))
  {
    var phrase := Join(" ", words);
    var x := phrase + tail;
    JoinStartsWithFirst(" ", words);
    assert x[0] == words[0][0];
    CapPhraseOf(words, tail);
    assert x[..|phrase|] == phrase;
    PhraseAfterOf(sp, x, |phrase|);
  }

  /** The locality triggers open with 'i', 'a' and 'n': no trigger is a prefix where an earlier-listed one starts. */
  lemma TriggersOpenApart(k: nat)
    requires k < |LocalityTriggers|
    ensures forall j :: 0 <= j < k ==> LocalityTriggers[j] != [] && LocalityTriggers[j][0] != LocalityTriggers[k][0]
  {
    assert LocalityTriggers[0][0] == 'i' && LocalityTriggers[1][0] == 'a' && LocalityTriggers[2][0] == 'n';
  }

  /**
   * `(?:in|at|near)\s+(phrase)`, leftmost in the query as typed: trigger k, spaces and capitalised
   * words joined by single spaces give those words as the locality, unless they name a city.
   */
  lemma LocalityFound(query: string, i: nat, k: nat, sp: string, words: seq<string>, tail: string)
    requires k < |LocalityTriggers| && i <= |query|
    requires query[i..] == LocalityTriggers[k] + (sp + (Join(" ", words) + tail))
    requires sp != [] && AllSpaces(sp) && AllCapWords(words) && PhraseEnds(tail)
    requires forall j :: 0 <= j < i ==> LocalityAt(query[j..]).None?
    ensures Lower(Join(" ", words)) !in CityNames ==> ExtractLocality(query) == Some(Join(" ", words))
    ensures Lower(Join(" ", words)) in CityNames ==> ExtractLocality(query) == None
  {
    var s := query[i..];
    var t := LocalityTriggers[k];
    var after := sp + (Join(" ", words) + tail);
    PhraseAfter(sp, words, tail);
    StartsWithAppend(t, after);
    assert s[|t|..] == after;
    TriggersOpenApart(k);
    forall j | 0 <= j < k ensures !StartsWith(s, LocalityTriggers[j]) {
      if StartsWith(s, LocalityTriggers[j]) {
        PrefixesAgree(s, t, LocalityTriggers[j], 0);
      }
    }
    FirstAltAt(s, LocalityTriggers, PhraseAfterSpaces, k);
    LeftmostIsFirst(query, LocalityAt, i);
  }

  /** The project words all open with a lower-case letter, so none continues a capitalised phrase. */
  lemma ProjectWordEnds(sp: string, k: nat, rest: string)
    requires sp != [] && AllSpaces(sp) && k < |ProjectWords|
    ensures var tail := sp + (ProjectWords[k] + rest);
            PhraseEnds(tail) && SpaceRun(tail) == |sp| && tail[|sp|..] == ProjectWords[k] + rest
  {
    var w := ProjectWords[k];
    assert w != [] && IsLowerLetter(w[0]) by {
      assert ProjectWords[0][0] == 'p' && ProjectWords[1][0] == 'a' && ProjectWords[2][0] == 'r';
      assert ProjectWords[3][0] == 'h' && ProjectWords[4][0] == 't';
    }
    var x := w + rest;
    assert x[0] == w[0];
    SpaceRunAppend(sp, x);
    assert (sp + x)[|sp|..] == x;
    assert (sp + x)[0] == sp[0];
  }

  /** `(phrase)\s+(?:project|...)` over a phrase of length n, spaces and project word k. */
  lemma ProjectAtOf(s: string, n: nat, sp: string, k: nat, rest: string)
    requires 0 < n <= |s| && n == CapPhraseLen(s) && sp != [] && AllSpaces(sp) && k < |ProjectWords|
    requires s[n..] == sp + (ProjectWords[k] + rest)
    ensures ProjectAt(s) == Some(s[..n])
  {
    ProjectTailReads(s[n..], sp, k, rest);
  }

  lemma ProjectTailReads(tail: string, sp: string, k: nat, rest: string)
    requires sp != [] && AllSpaces(sp) && k < |ProjectWords| && tail == sp + (ProjectWords[k] + rest)
    ensures ProjectWordAfter(tail)
  {
    ProjectWordEnds(sp, k, rest);
    ProjectWordStarts(tail[|sp|..], k, rest);
  }


  lemma ProjectWordStarts(after: string, k: nat, rest: string)
    requires k < |ProjectWords| && after == ProjectWords[k] + rest
    ensures StartsWithAny(after, ProjectWords)
  {
    StartsWithAppend(ProjectWords[k], rest);
    assert StartsWith(after, ProjectWords[k]);
  }

  /**
   * `(phrase)\s+(?:project|apartments|residency|heights|towers)`, leftmost in the query as typed:
   * capitalised words joined by single spaces, spaces and a project word give those words.
   */
  lemma ProjectNameFound(query: string, i: nat, words: seq<string>, sp: string, k: nat, rest: string)
    requires i <= |query| && k < |ProjectWords|
    requires query[i..] == Join(" ", words) + (sp + (ProjectWords[k] + rest))
    requires AllCapWords(words) && sp != [] && AllSpaces(sp)
    requires forall j :: 0 <= j < i ==> ProjectAt(query[j..]).None?
    ensures ExtractProjectName(query) == Some(Join(" ", words))
  {
    var phrase := Join(" ", words);
    var tail := sp + (ProjectWords[k] + rest);
    var s := query[i..];
    ProjectWordEnds(sp, k, rest);
    CapPhraseOf(words, tail);
    JoinStartsWithFirst(" ", words);
    assert s[|phrase|..] == tail && s[..|phrase|] == phrase;
    ProjectAtOf(s, |phrase|, sp, k, rest);
    LeftmostIsFirst(query, ProjectAt, i);
  }

  // ===== the whole extractor =====

  /** QueryParser.parse: lowercase once, then fill each field independently. */
  function Parse(query: string): (f: Filters)
    ensures f.city.None? || f.city.value in {"Mumbai", "Pune", "Bangalore", "Delhi"}
    ensures f.possessionStatus.None? || f.possessionStatus.value in {"Ready To Move", "Under Construction"}
    ensures f.budgetMin.Some? ==> f.budgetMin.value >= 0.0
    ensures f.budgetMax.Some? ==> f.budgetMax.value >= 0.0
    ensures f.locality.None? && f.projectName.None?
  {
    var q := Lower(query);
    LowerIdempotent(query);
    NoUpperNoPhrase(q);
    Filters(
      city := ExtractCity(q),
      bhk := ExtractBhk(q),
      budgetMin := ExtractBudgetMin(q),
      budgetMax := ExtractBudgetMax(q),
      possessionStatus := ExtractPossessionStatus(q),
      locality := ExtractLocality(q),
      projectName := ExtractProjectName(q))
  }

  /** Parsing is case-blind: a query and its lowercased form give the same filters. */
  lemma ParseIgnoresCase(query: string)
    ensures Parse(query) == Parse(Lower(query))
  {
    LowerIdempotent(query);
  }

  // ===== locality and project name on the query as typed =====

  /**
   * parse with the two case-sensitive extractors given the query as typed instead of its
   * lowercased form, which is what they need to see a capitalised phrase at all; every
   * other field is the one parse fills.
   */
  function ParseCased(query: string): (f: Filters)
    ensures f.locality.Some? ==> Lower(f.locality.value) !in CityNames
    ensures f.projectName.Some? ==> f.projectName.value != [] && IsUpper(f.projectName.value[0])
    ensures f.(locality := None, projectName := None) == Parse(query)
  {
    Parse(query).(locality := ExtractLocality(query), projectName := ExtractProjectName(query))
  }

  /** "near Baner" names the locality Baner when its capitals are kept; parse loses it. */
  lemma LocalityNearBaner()
    ensures ExtractLocality("near Baner") == Some("Baner")
    ensures Parse("near Baner").locality == None
    ensures ParseCased("near Baner").locality == Some("Baner")
  {
    LocalityAfter("near Baner", "near", "Baner", 4);
    BanerNotACity();
  }

  lemma BanerNotACity()
    ensures Lower("Baner") !in CityNames
  {
    var l := Lower("Baner");
    assert |l| == 5;
    assert l == "baner";
    assert l[0] != "pune"[0] && l[0] != "mumbai"[0] && l != "bangalore" && l[0] != "delhi"[0];
  }

  /** "in Pune" names a city, so it gives no locality even with its capitals kept. */
  lemma NoLocalityInPune()
    ensures ExtractLocality("in Pune") == None
  {
    LocalityAfter("in Pune", "in", "Pune", 3);
    var l := Lower("Pune");
    assert |l| == 4;
    assert l == "pune";
  }

  /** No locality match starts at a character that opens none of the triggers. */
  lemma NoLocalityHere(s: string)
    requires s != [] && s[0] != 'i' && s[0] != 'a' && s[0] != 'n'
    ensures LocalityAt(s).None?
  {
    forall k | 0 <= k < |LocalityTriggers| ensures !StartsWith(s, LocalityTriggers[k]) {
      TriggersOpenApart(2);
      assert LocalityTriggers[2][0] == 'n';
    }
    FirstAltNone(s, LocalityTriggers, PhraseAfterSpaces);
  }

  /** "Green Valley towers" names the project Green Valley: the phrase runs up to the project word. */
  lemma GreenValleyTowers(q: string)
    requires q == "Green Valley towers"
    ensures ExtractProjectName(q) == Some("Green Valley")
  {
    var words := ["Green", "Valley"];
    GreenValleyWords(words, "Green Valley");
    assert q[0..] == "Green Valley" + (" " + (ProjectWords[4] + ""));
    ProjectNameFound(q, 0, words, " ", 4, "");
  }

  lemma GreenValleyWords(words: seq<string>, phrase: string)
    requires words == ["Green", "Valley"] && phrase == "Green Valley"
    ensures AllCapWords(words) && Join(" ", words) == phrase
  {
    assert CapWord(words[0]) && CapWord(words[1]);
    assert Join(" ", words[..1]) == "Green";
  }

  /**
   * "3 bhk near Koregaon Park under 2 cr" names the locality Koregaon Park: a two-word phrase
   * in the middle of the query, stopped by the lower-case word after it.
   */
  lemma {:induction false} KoregaonParkLocality(q: string)
    requires q == "3 bhk near Koregaon Park under 2 cr"
    ensures ExtractLocality(q) == Some("Koregaon Park")
  {
    var phrase, tail := "Koregaon Park", " under 2 cr";
    var words := KoregaonParkWords(phrase);
    KoregaonParkSplit(q, phrase, tail);
    KoregaonParkEnds(tail);
    KoregaonParkOpening(q);
    KoregaonParkNotACity(phrase);
    LocalityOfPhrase(q, 6, 2, words, phrase, tail);
  }

  /** LocalityFound for a phrase of words joined by single spaces after one space. */
  lemma LocalityOfPhrase(q: string, i: nat, k: nat, words: seq<string>, phrase: string, tail: string)
    requires k < |LocalityTriggers| && i <= |q| && q[i..] == LocalityTriggers[k] + (" " + (phrase + tail))
    requires AllCapWords(words) && Join(" ", words) == phrase && PhraseEnds(tail)
    requires forall j :: 0 <= j < i ==> LocalityAt(q[j..]).None?
    requires Lower(phrase) !in CityNames
    ensures ExtractLocality(q) == Some(phrase)
  {
    LocalityFound(q, i, k, " ", words, tail);
  }

  lemma KoregaonParkWords(phrase: string) returns (words: seq<string>)
    requires phrase == "Koregaon Park"
    ensures AllCapWords(words) && Join(" ", words) == phrase
  {
    words := ["Koregaon", "Park"];
    assert CapWord(words[0]) && CapWord(words[1]);
    assert Join(" ", words[..1]) == "Koregaon";
  }

  lemma {:induction false} KoregaonParkSplit(q: string, phrase: string, tail: string)
    requires q == "3 bhk near Koregaon Park under 2 cr" && phrase == "Koregaon Park" && tail == " under 2 cr"
    ensures 6 <= |q| && q[6..] == LocalityTriggers[2] + (" " + (phrase + tail))
  {
    assert q == "3 bhk " + ("near" + (" " + (phrase + tail)));
    assert q[6..] == "near" + (" " + (phrase + tail));
  }

  lemma KoregaonParkEnds(tail: string)
    requires tail == " under 2 cr"
    ensures PhraseEnds(tail)
  {
    assert SpaceRun(tail[1..]) == 0;
    assert SpaceRun(tail) == 1;
    assert CapWordLen(tail[1..]) == 0;
  }

  /** None of "3 bhk " opens a locality trigger. */
  lemma {:induction false} KoregaonParkOpening(q: string)
    requires q == "3 bhk near Koregaon Park under 2 cr"
    ensures forall j :: 0 <= j < 6 ==> LocalityAt(q[j..]).None?
  {
    forall j | 0 <= j < 6 ensures LocalityAt(q[j..]).None? {
      assert q[j..][0] == q[j];
      NoLocalityHere(q[j..]);
    }
  }

  lemma KoregaonParkNotACity(phrase: string)
    requires phrase == "Koregaon Park"
    ensures Lower(phrase) !in CityNames
  {
    assert |Lower(phrase)| == 13;
  }

  /** A query that opens with a locality trigger, a space and one capitalised word. */
  lemma LocalityAfter(s: string, trigger: string, w: string, tail: nat)
    requires trigger in LocalityTriggers && s == trigger + " " + w
    requires |w| == tail + 1 && IsUpper(w[0]) && tail > 0
    requires forall i :: 1 <= i < |w| ==> IsLowerLetter(w[i])
    ensures Leftmost(s, LocalityAt) == Some(w)
  {
    PhraseOfWord(w, tail);
    var k := TriggerIndex(trigger);
    StartsWithAppend(trigger, " " + w);
    assert s == trigger + (" " + w);
    assert s[|trigger|..] == " " + w;
    forall j | 0 <= j < k ensures !StartsWith(s, LocalityTriggers[j]) {
      if StartsWith(s, LocalityTriggers[j]) {
        PrefixesAgree(s, trigger, LocalityTriggers[j], 0);
      }
    }
    FirstAltAt(s, LocalityTriggers, PhraseAfterSpaces, k);
  }

  /** Where a trigger sits in the trigger list; every earlier trigger opens with another letter. */
  lemma TriggerIndex(trigger: string) returns (k: nat)
    requires trigger in LocalityTriggers
    ensures k < |LocalityTriggers| && LocalityTriggers[k] == trigger && trigger != []
    ensures forall j :: 0 <= j < k ==> LocalityTriggers[j] != [] && LocalityTriggers[j][0] != trigger[0]
  {
    k :| 0 <= k < |LocalityTriggers| && LocalityTriggers[k] == trigger;
  }

  lemma PhraseOfWord(w: string, tail: nat)
    requires |w| == tail + 1 && IsUpper(w[0]) && tail > 0
    requires forall i :: 1 <= i < |w| ==> IsLowerLetter(w[i])
    ensures PhraseAfterSpaces(" " + w) == Some(w)
  {
    var t := " " + w;
    assert t[1..] == w && SpaceRun(w) == 0;
    assert LowerRun(w[1..]) == tail;
    assert CapWordLen(w) == |w| && w[|w|..] == [];
    assert CapPhraseLen(w) == |w|;
    assert SpaceRun(t) == 1;
    assert w[..|w|] == w;
  }

  // ===== worked queries =====

  /** The empty query sets no field. */
  lemma ParseEmpty()
    ensures Parse("") == NoFilters
  {
    EmptyLowered();
    CityEmpty();
    StatusEmpty();
    NoBhkInEmpty();
    BudgetMaxEmpty();
    BudgetMinEmpty();
  }

  lemma BudgetMaxEmpty()
    ensures ExtractBudgetMax("") == None
  {
    NoAmountInEmpty(BudgetMaxRules);
  }

  lemma BudgetMinEmpty()
    ensures ExtractBudgetMin("") == None
  {
    NoAmountInEmpty(BudgetMinRules);
  }

  lemma EmptyLowered()
    ensures Lower("") == ""
  {
  }

  lemma CityEmpty()
    ensures ExtractCity("") == None
  {
    NoEmptyAlias(Cities);
    NothingInEmpty(Cities);
  }

  lemma StatusEmpty()
    ensures ExtractPossessionStatus("") == None
  {
    NoEmptyAlias(PossessionKeywords);
    NothingInEmpty(PossessionKeywords);
  }

  lemma NoEmptyAlias(table: seq<(string, seq<string>)>)
    requires table == Cities || table == PossessionKeywords
    ensures forall i, k :: 0 <= i < |table| && 0 <= k < |table[i].1| ==> table[i].1[k] != []
  {
  }

  lemma NothingInEmpty(table: seq<(string, seq<string>)>)
    requires forall i, k :: 0 <= i < |table| && 0 <= k < |table[i].1| ==> table[i].1[k] != []
    ensures FirstGroup(table, "") == None
  {
    var search := (g: (string, seq<string>)) => if AnyOccurs("", g.1) then Some(TitleCase(g.0)) else None;
    FirstMatchNone(table, search);
  }

  lemma NoBhkInEmpty()
    ensures ExtractBhk("") == None
  {
    EmptyLowered();
    NoBhkRuleInEmpty(BhkPatterns);
  }

  lemma NoBhkRuleInEmpty(rules: seq<BhkRule>)
    requires forall i, k :: 0 <= i < |rules| && rules[i].WordBedroom? && 0 <= k < |rules[i].words| ==> rules[i].words[k] != []
    ensures FirstMatch(rules, (rule: BhkRule) => Leftmost("", s => BhkAt(rule, s))) == None
  {
    var search := (rule: BhkRule) => Leftmost("", s => BhkAt(rule, s));
    forall i | 0 <= i < |rules| ensures search(rules[i]).None? {
      var rule := rules[i];
      if rule.WordBedroom? {
        NoAltInEmpty(rule.words, t => if StartsWith(SkipSpaces(t), "bedroom") then Some(rule.bhkLabel) else None);
      }
    }
    FirstMatchNone(rules, search);
  }

  lemma NoAmountInEmpty(rules: seq<AmountRule>)
    requires forall i, k :: 0 <= i < |rules| && rules[i].Phrase? && 0 <= k < |rules[i].triggers| ==> rules[i].triggers[k] != []
    ensures FirstAmount(rules, "") == None
  {
    var q := Lower("");
    EmptyLowered();
    var search := (rule: AmountRule) => Leftmost(q, s => AmountAt(rule, s));
    forall i | 0 <= i < |rules| ensures search(rules[i]).None? {
      var rule := rules[i];
      if rule.Phrase? {
        NoAltInEmpty(rule.triggers, t => AmountTail(t, rule.units));
      }
      assert AmountAt(rule, "").None?;
    }
    FirstMatchNone(rules, search);
  }

  /** No alternative of positive length is found at the end of the text. */
  lemma {:induction false} NoAltInEmpty<T>(alts: seq<string>, rest: string -> Option<T>)
    requires forall k :: 0 <= k < |alts| ==> alts[k] != []
    ensures FirstAlt("", alts, rest) == None
    decreases |alts|
  {
    if alts != [] {
      NoAltInEmpty(alts[1..], rest);
    }
  }

  /** The first group with a keyword in the text decides, whatever later groups hold. */
  lemma GroupFound(table: seq<(string, seq<string>)>, q: string, i: nat, k: nat)
    requires i < |table| && k < |table[i].1| && Contains(q, table[i].1[k])
    requires forall j, m :: 0 <= j < i && 0 <= m < |table[j].1| ==> !Contains(q, table[j].1[m])
    ensures FirstGroup(table, q) == Some(TitleCase(table[i].0))
  {
    var search := (g: (string, seq<string>)) => if AnyOccurs(q, g.1) then Some(TitleCase(g.0)) else None;
    FirstMatchIsFirst(table, search, i);
  }

  /** "navi mumbai" is an alias of the first city. */
  lemma NaviMumbaiIsMumbai()
    ensures ExtractCity("navi mumbai") == Some("Mumbai")
  {
    var q := "navi mumbai";
    assert Cities[0].1[2] == q;
    GroupFound(Cities, q, 0, 2);
    TitledMumbai();
  }

  /** "baner" is a Pune alias, and no Mumbai alias fits in it. */
  lemma BanerIsPune()
    ensures ExtractCity("baner") == Some("Pune")
  {
    var q := "baner";
    forall k | 0 <= k < |Cities[0].1| ensures !Contains(q, Cities[0].1[k]) {
      TooLongToContain(q, Cities[0].1[k]);
    }
    assert Cities[1].1[5] == q;
    GroupFound(Cities, q, 1, 5);
    TitledPune();
  }

  /** "apartments" contains the keyword "rtm", so it reads as ready to move. */
  lemma ApartmentsReadyToMove()
    ensures ExtractPossessionStatus("apartments") == Some("Ready To Move")
  {
    var q := "apartments";
    ContainsAt(q, "rtm");
    assert StartsWith(q[3..], "rtm");
    assert PossessionKeywords[0].1[3] == "rtm";
    GroupFound(PossessionKeywords, q, 0, 3);
    TitledReadyToMove();
  }

  /** "3bhk" and "3 bhk" both read as 3BHK. */
  lemma ThreeBhk()
    ensures ExtractBhk("3bhk") == Some("3BHK")
    ensures ExtractBhk("3 bhk") == Some("3BHK")
  {
    ThreeBhkOf("3bhk", 1);
    ThreeBhkOf("3 bhk", 2);
  }

  lemma {:induction false} ThreeBhkOf(q: string, gap: nat)
    requires (q == "3bhk" && gap == 1) || (q == "3 bhk" && gap == 2)
    ensures ExtractBhk(q) == Some("3BHK")
  {
    ThreeBhkText(q, gap);
    LowerUnchanged(q);
    assert q[0..] == q;
    DigitsBhkAt(q, 0, 1);
  }

  lemma {:induction false} ThreeBhkText(q: string, gap: nat)
    requires (q == "3bhk" && gap == 1) || (q == "3 bhk" && gap == 2)
    ensures NoUpper(q) && DigitRun(q) == 1 && SkipSpaces(q[1..]) == "bhk" && q[..1] + "BHK" == "3BHK"
  {
    assert q[1..][SpaceRun(q[1..])..] == q[gap..];
  }

  /** "three bedroom": no digit, no 'n' or '1' for "one"/"1", no 'w' or '2' for "two"/"2"; the "three" rule gives "3BHK". */
  lemma ThreeBedroom(q: string)
    requires q == "three bedroom"
    ensures ExtractBhk(q) == Some("3BHK")
  {
    ThreeBedroomLower(q);
    ThreeBedroomNoDigit(q);
    DigitsBhkNowhere(q);
    ThreeBedroomMentions(q);
    BedroomNowhere(BhkPatterns[1], q, {'n', '1'});
    BedroomNowhere(BhkPatterns[2], q, {'w', '2'});
    ThreeBedroomTyped(q);
    BedroomAt(BhkPatterns[3].words, "3BHK", q, 0);
    assert q[0..] == q;
    EarlierBhkRulesNowhere(q);
    BhkRuleDecides(q, 3, 0);
  }

  lemma EarlierBhkRulesNowhere(q: string)
    requires Leftmost(q, s => BhkAt(BhkPatterns[0], s)).None?
    requires Leftmost(q, s => BhkAt(BhkPatterns[1], s)).None?
    requires Leftmost(q, s => BhkAt(BhkPatterns[2], s)).None?
    ensures forall p :: 0 <= p < 3 ==> Leftmost(q, s => BhkAt(BhkPatterns[p], s)).None?
  {
    forall p | 0 <= p < 3 ensures Leftmost(q, s => BhkAt(BhkPatterns[p], s)).None? {
      if p == 0 { } else if p == 1 { } else { assert p == 2; }
    }
  }

  lemma ThreeBedroomLower(q: string)
    requires q == "three bedroom"
    ensures Lower(q) == q
  {
    LowerUnchanged(q);
  }

  lemma ThreeBedroomNoDigit(q: string)
    requires q == "three bedroom"
    ensures forall i :: 0 <= i < |q| ==> !IsDigit(q[i])
  {
  }

  lemma ThreeBedroomMentions(q: string)
    requires q == "three bedroom"
    ensures !Mentions(q, {'n', '1'}) && !Mentions(q, {'w', '2'})
    ensures BhkPatterns[1].WordBedroom? && AllMention(BhkPatterns[1].words, {'n', '1'})
    ensures BhkPatterns[2].WordBedroom? && AllMention(BhkPatterns[2].words, {'w', '2'})
  {
    assert BhkPatterns[1].words[0][1] == 'n' && BhkPatterns[1].words[1][0] == '1';
    assert BhkPatterns[2].words[0][1] == 'w' && BhkPatterns[2].words[1][0] == '2';
  }

  lemma ThreeBedroomTyped(q: string)
    requires q == "three bedroom"
    ensures BhkPatterns[3] == WordBedroom(["three", "3"], "3BHK")
    ensures StartsWith(q, "three") && StartsWith(SkipSpaces(q[5..]), "bedroom")
  {
    assert q[5..][SpaceRun(q[5..])..] == q[6..];
  }

  /** The crore phrasing of budget_max short-circuits the lakh phrasing. */
  lemma CroreBudgetFirst(query: string)
    requires Leftmost(Lower(query), s => AmountAt(BudgetMaxRules[0], s)).Some?
    ensures ExtractBudgetMax(query) == Leftmost(Lower(query), s => AmountAt(BudgetMaxRules[0], s))
  {
    var q := Lower(query);
    FirstMatchIsFirst(BudgetMaxRules, (rule: AmountRule) => Leftmost(q, s => AmountAt(rule, s)), 0);
  }

  /** Only when no "above ... cr" phrasing is found does the "between" range decide budget_min. */
  lemma {:induction false} RangeBudgetOtherwise(query: string)
    requires Leftmost(Lower(query), s => AmountAt(BudgetMinRules[0], s)).None?
    ensures ExtractBudgetMin(query) == Leftmost(Lower(query), s => AmountAt(BudgetMinRules[1], s))
  {
    var q := Lower(query);
    var search := (rule: AmountRule) => Leftmost(q, s => AmountAt(rule, s));
    if search(BudgetMinRules[1]).Some? {
      FirstMatchIsFirst(BudgetMinRules, search, 1);
    } else {
      FirstMatchNone(BudgetMinRules, search);
    }
  }

  /** Only when no crore phrasing is found does the lakh phrasing decide budget_max. */
  lemma {:induction false} LakhBudgetOtherwise(query: string)
    requires Leftmost(Lower(query), s => AmountAt(BudgetMaxRules[0], s)).None?
    ensures ExtractBudgetMax(query) == Leftmost(Lower(query), s => AmountAt(BudgetMaxRules[1], s))
  {
    var q := Lower(query);
    var search := (rule: AmountRule) => Leftmost(q, s => AmountAt(rule, s));
    if search(BudgetMaxRules[1]).Some? {
      FirstMatchIsFirst(BudgetMaxRules, search, 1);
    } else {
      FirstMatchNone(BudgetMaxRules, search);
    }
  }

  // ----- budgets -----

  /** "under 1.2 cr": budget_max is 1.2 crore rupees. */
  lemma CeilingOfOnePointTwoCrore(q: string)
    requires q == "under 1.2 cr"
    ensures ExtractBudgetMax(q) == Some(12000000.0)
  {
    var a := Amount(" ", false, "", Number("1", true, "2"), " ");
    AlreadyLower(q);
    OnePointTwoCroreTyped(q, a);
    OnePointTwoValue(a.number);
    assert StartsWithAny("cr", CroreUnits) by { assert StartsWith("cr", CroreUnits[0]); }
    CeilingInCrores(q, 0, 0, a, "cr");
  }

  lemma OnePointTwoCroreTyped(q: string, a: Amount)
    requires q == "under 1.2 cr" && a == Amount(" ", false, "", Number("1", true, "2"), " ")
    ensures q[0..] == MaxTriggers[0] + Spelled(a, "cr")
  {
  }

  lemma OnePointTwoValue(x: Number)
    requires x == Number("1", true, "2")
    ensures ValidNumber(x) && NumberValue(x) == 1.2
  {
    assert DigitsValue("1") == 1 && DigitsValue("2") == 2 && Pow10(1) == 10;
  }

  /** "under 80 lakhs": no crore phrasing can match (the query has no 'c'), so budget_max is 80 lakh rupees. */
  lemma {:induction false} CeilingOfEightyLakhs(q: string)
    requires q == "under 80 lakhs"
    ensures ExtractBudgetMax(q) == Some(8000000.0)
  {
    var a := Amount(" ", false, "", Number("80", false, ""), " ");
    AlreadyLower(q);
    EightyLakhsTyped(q, a);
    WholeValue(a.number, 80);
    NoCroreUnitIn(q);
    assert AllOpenWith(BudgetMaxRules[0].units, {'c'});
    PhraseNowhere(BudgetMaxRules[0], q, {'c'});
    assert StartsWithAny("lakhs", LakhUnits) by { assert StartsWith("lakhs", LakhUnits[0]); }
    CeilingInLakhs(q, 0, 0, a, "lakhs");
  }

  lemma EightyLakhsTyped(q: string, a: Amount)
    requires q == "under 80 lakhs" && a == Amount(" ", false, "", Number("80", false, ""), " ")
    ensures q[0..] == MaxTriggers[0] + Spelled(a, "lakhs")
  {
  }

  lemma NoCroreUnitIn(q: string)
    requires q == "under 80 lakhs"
    ensures !Mentions(q, {'c'})
  {
  }

  /** A whole number of one or two digits reads as its value. */
  lemma WholeValue(x: Number, n: nat)
    requires n < 100 && x == Number(NatToString(n), false, "")
    ensures ValidNumber(x) && NumberValue(x) == n as real
  {
    NatToStringRoundTrip(n);
    assert AllDigits(x.whole);
    assert DigitsValue("") == 0 && Pow10(0) == 1;
  }

  /** "between 1 and 2 cr": budget_min is the lower end, one crore rupees. */
  lemma FloorOfOneToTwoCrore(q: string)
    requires q == "between 1 and 2 cr"
    ensures ExtractBudgetMin(q) == Some(10000000.0)
  {
    var a := Amount(" ", false, "", Number("1", false, ""), " ");
    var b := Amount(" ", false, "", Number("2", false, ""), " ");
    AlreadyLower(q);
    OneToTwoCroreTyped(q, a, b);
    WholeValue(a.number, 1);
    WholeValue(b.number, 2);
    NoMinTriggerIn(q);
    MinTriggersNeed();
    PhraseNowhere(BudgetMinRules[0], q, {'v', 'f', 'm'});
    assert StartsWithAny("cr", RangeUnits) by { assert StartsWith("cr", RangeUnits[0]); }
    FloorFromRange(q, 0, a, 2, b, "cr");
  }

  lemma OneToTwoCroreTyped(q: string, a: Amount, b: Amount)
    requires q == "between 1 and 2 cr"
    requires a == Amount(" ", false, "", Number("1", false, ""), " ")
    requires b == Amount(" ", false, "", Number("2", false, ""), " ")
    ensures q[0..] == "between" + Spelled(a, RangeSeparators[2] + Spelled(b, "cr"))
  {
  }

  lemma NoMinTriggerIn(q: string)
    requires q == "between 1 and 2 cr"
    ensures !Mentions(q, {'v', 'f', 'm'})
  {
  }

  /** The upper end of "between 1 and 2 cr" is dropped: no budget_max pattern matches the query. */
  lemma NoCeilingInRange(q: string)
    requires q == "between 1 and 2 cr"
    ensures ExtractBudgetMax(q) == None
  {
    var cs := {'u', 'l', 'i', 'm'};
    AlreadyLower(q);
    NoMaxTriggerIn(q);
    MaxTriggersNeed();
    PhraseNowhere(BudgetMaxRules[0], q, cs);
    PhraseNowhere(BudgetMaxRules[1], q, cs);
    BothRulesNowhere(BudgetMaxRules, q);
    FirstAmountNone(BudgetMaxRules, q);
  }

  lemma BothRulesNowhere(rules: seq<AmountRule>, q: string)
    requires |rules| == 2 && Lower(q) == q
    requires forall j :: 0 <= j <= |q| ==> AmountAt(rules[0], q[j..]).None?
    requires forall j :: 0 <= j <= |q| ==> AmountAt(rules[1], q[j..]).None?
    ensures forall p, j :: 0 <= p < |rules| && 0 <= j <= |Lower(q)| ==> AmountAt(rules[p], Lower(q)[j..]).None?
  {
    forall p, j | 0 <= p < |rules| && 0 <= j <= |Lower(q)| ensures AmountAt(rules[p], Lower(q)[j..]).None? {
      if p == 0 { } else { assert p == 1; }
    }
  }

  lemma NoMaxTriggerIn(q: string)
    requires q == "between 1 and 2 cr"
    ensures !Mentions(q, {'u', 'l', 'i', 'm'})
  {
  }

  /** The worked budget queries are typed in lower case already. */
  lemma AlreadyLower(q: string)
    requires q == "under 1.2 cr" || q == "under 80 lakhs" || q == "between 1 and 2 cr"
    ensures Lower(q) == q
  {
    LowerUnchanged(q);
  }

  /** Every budget_max trigger holds one of 'u', 'l', 'i', 'm'. */
  lemma MaxTriggersNeed()
    ensures AllMention(MaxTriggers, {'u', 'l', 'i', 'm'})
  {
    var cs := {'u', 'l', 'i', 'm'};
    assert MaxTriggers[0][0] in cs && MaxTriggers[1][2] in cs && MaxTriggers[2][0] in cs && MaxTriggers[3][0] in cs;
    assert MaxTriggers[4][1] in cs && MaxTriggers[5][0] in cs && MaxTriggers[6][0] in cs;
  }

  /** Every budget_min trigger holds one of 'v', 'f', 'm'. */
  lemma MinTriggersNeed()
    ensures AllMention(MinTriggers, {'v', 'f', 'm'})
  {
    var cs := {'v', 'f', 'm'};
    assert MinTriggers[0][3] in cs && MinTriggers[1][1] in cs && MinTriggers[2][0] in cs;
    assert MinTriggers[3][9] in cs && MinTriggers[4][0] in cs && MinTriggers[5][0] in cs;
  }
}
