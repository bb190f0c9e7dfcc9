/**
 * Character and string operations that the query parser, the search engine and
 * the summarizer share: Python's str.lower, the `in` substring test, str.title,
 * str.strip, str.join, integer-to-text and fixed-point number formatting.
 * Case mapping covers the ASCII letters only.
 */
module Text {

  // ----- character classes -----

  predicate IsUpper(c: char) { 'A' <= c <= 'Z' }

  predicate IsLowerLetter(c: char) { 'a' <= c <= 'z' }

  /** A cased character in the sense of str.title (ASCII letters). */
  predicate IsLetter(c: char) { IsUpper(c) || IsLowerLetter(c) }

  predicate IsDigit(c: char) { '0' <= c <= '9' }

  /** The characters matched by `\s` and removed by str.strip (ASCII whitespace). */
  predicate IsSpace(c: char) {
    c == ' ' || c == '\t' || c == '\n' || c == '\r' || c == '\U{000B}' || c == '\U{000C}'
  }

  predicate NoUpper(s: string) { forall i :: 0 <= i < |s| ==> !IsUpper(s[i]) }

  predicate AllDigits(s: string) { forall i :: 0 <= i < |s| ==> IsDigit(s[i]) }

  // ----- case mapping -----

  function LowerChar(c: char): (d: char)
    ensures !IsUpper(d)
    ensures IsLetter(d) == IsLetter(c)
    ensures !IsUpper(c) ==> d == c
  {
    if IsUpper(c) then (c as int + 32) as char else c
  }

  function UpperChar(c: char): (d: char)
    ensures !IsLowerLetter(d)
    ensures IsLetter(d) == IsLetter(c)
    ensures !IsLowerLetter(c) ==> d == c
  {
    if IsLowerLetter(c) then (c as int - 32) as char else c
  }

  /** str.lower(): maps every character on its own, so the length is kept. */
  function Lower(s: string): (r: string)
    ensures |r| == |s|
    ensures forall i :: 0 <= i < |s| ==> r[i] == LowerChar(s[i])
  {
    if s == [] then [] else [LowerChar(s[0])] + Lower(s[1..])
  }

  /** str.lower() works piece by piece. */
  lemma {:induction false} LowerAppend(a: string, b: string)
    ensures Lower(a + b) == Lower(a) + Lower(b)
  {
    var l, r := Lower(a + b), Lower(a) + Lower(b);
    forall i | 0 <= i < |a| + |b| ensures l[i] == r[i] {
      if i < |a| {
        assert (a + b)[i] == a[i] && r[i] == Lower(a)[i];
      } else {
        assert (a + b)[i] == b[i - |a|] && r[i] == Lower(b)[i - |a|];
      }
    }
  }

  /** Lowering twice is lowering once, and the result has no upper-case letter. */
  lemma LowerIdempotent(s: string)
    ensures Lower(Lower(s)) == Lower(s)
    ensures NoUpper(Lower(s))
  {
  }

  /** Text without capitals is its own lowercase form. */
  lemma LowerUnchanged(s: string)
    requires NoUpper(s)
    ensures Lower(s) == s
  {
  }

  /** str.title() from a given state: a letter after a letter is lowered, any other is raised. */
  function TitleFrom(s: string, afterLetter: bool): (r: string)
    ensures |r| == |s|
  {
    if s == [] then []
    else
      var c := if afterLetter then LowerChar(s[0]) else UpperChar(s[0]);
      [c] + TitleFrom(s[1..], IsLetter(s[0]))
  }

  /**
   * str.title(): every maximal run of letters starts upper-case and continues
   * lower-case; everything else is kept.
   */
  function TitleCase(s: string): (r: string)
    ensures |r| == |s|
    ensures forall i :: 0 <= i < |s| ==>
              r[i] == if i > 0 && IsLetter(s[i - 1]) then LowerChar(s[i]) else UpperChar(s[i])
  {
    TitleCasePointwise(s);
    TitleFrom(s, false)
  }

  /** The state machine TitleFrom, read position by position. */
  lemma {:induction false} TitleFromAt(s: string, afterLetter: bool, i: nat)
    requires i < |s|
    ensures TitleFrom(s, afterLetter)[i] ==
            if (if i == 0 then afterLetter else IsLetter(s[i - 1])) then LowerChar(s[i]) else UpperChar(s[i])
  {
    if i > 0 {
      TitleFromAt(s[1..], IsLetter(s[0]), i - 1);
    }
  }

  lemma TitleCasePointwise(s: string)
    ensures forall i :: 0 <= i < |s| ==>
              TitleFrom(s, false)[i] == if i > 0 && IsLetter(s[i - 1]) then LowerChar(s[i]) else UpperChar(s[i])
  {
    forall i | 0 <= i < |s|
      ensures TitleFrom(s, false)[i] == if i > 0 && IsLetter(s[i - 1]) then LowerChar(s[i]) else UpperChar(s[i])
    {
      TitleFromAt(s, false, i);
    }
  }

  /** str.title() works word by word: a space restarts the capitalisation. */
  lemma TitleCaseSpaced(a: string, b: string)
    ensures TitleCase(a + " " + b) == TitleCase(a) + " " + TitleCase(b)
  {
    forall i | 0 <= i < |a| + 1 + |b|
      ensures TitleCase(a + " " + b)[i] == (TitleCase(a) + " " + TitleCase(b))[i]
    {
      TitleCaseSpacedAt(a, b, i);
    }
  }

  lemma TitleCaseSpacedAt(a: string, b: string, i: nat)
    requires i < |a| + 1 + |b|
    ensures TitleCase(a + " " + b)[i] == (TitleCase(a) + " " + TitleCase(b))[i]
  {
    var s := a + " " + b;
    var ta, tb := TitleCase(a), TitleCase(b);
    var r := ta + " " + tb;
    if i < |a| {
      assert s[i] == a[i] && r[i] == ta[i];
      if i > 0 {
        assert s[i - 1] == a[i - 1];
        assert TitleCase(s)[i] == (if IsLetter(s[i - 1]) then LowerChar(s[i]) else UpperChar(s[i]));
        assert ta[i] == (if IsLetter(a[i - 1]) then LowerChar(a[i]) else UpperChar(a[i]));
      }
    } else if i == |a| {
      assert s[i] == ' ' && r[i] == ' ';
      assert TitleCase(s)[i] == (if i > 0 && IsLetter(s[i - 1]) then LowerChar(s[i]) else UpperChar(s[i]));
    } else {
      var j := i - |a| - 1;
      assert s[i] == b[j] && r[i] == tb[j];
      assert TitleCase(s)[i] == (if IsLetter(s[i - 1]) then LowerChar(s[i]) else UpperChar(s[i]));
      if j > 0 {
        assert s[i - 1] == b[j - 1];
        assert tb[j] == (if IsLetter(b[j - 1]) then LowerChar(b[j]) else UpperChar(b[j]));
      } else {
        assert s[i - 1] == ' ';
      }
    }
  }

  /** Case does not matter to str.title(): it looks only at which characters are letters. */
  lemma TitleCaseLower(s: string)
    ensures TitleCase(Lower(s)) == TitleCase(s)
  {
    var l := Lower(s);
    forall i | 0 <= i < |s|
      ensures TitleCase(l)[i] == TitleCase(s)[i]
    {
      CaseOfLower(s[i]);
      if i > 0 {
        assert IsLetter(l[i - 1]) == IsLetter(s[i - 1]);
      }
    }
  }

  lemma CaseOfLower(c: char)
    ensures LowerChar(LowerChar(c)) == LowerChar(c) && UpperChar(LowerChar(c)) == UpperChar(c)
  {
  }

  /** str.title() of a single word: its first letter raised, the rest lowered. */
  lemma TitleCaseWord(w: string)
    requires w != [] && forall i :: 0 <= i < |w| ==> IsLetter(w[i])
    ensures TitleCase(w) == [UpperChar(w[0])] + Lower(w[1..])
  {
    var r := [UpperChar(w[0])] + Lower(w[1..]);
    forall i | 0 <= i < |w| ensures TitleCase(w)[i] == r[i] {
      if i > 0 {
        assert IsLetter(w[i - 1]) && r[i] == Lower(w[1..])[i - 1];
      }
    }
  }

  /** Inside a word, str.title() leaves lower-case letters after a letter as they are. */
  lemma TitleCaseAppendLower(a: string, b: string)
    requires a != [] && IsLetter(a[|a| - 1])
    requires forall i :: 0 <= i < |b| ==> IsLowerLetter(b[i])
    ensures TitleCase(a + b) == TitleCase(a) + b
  {
    var s := a + b;
    forall i | 0 <= i < |s| ensures TitleCase(s)[i] == (TitleCase(a) + b)[i] {
      if i < |a| {
        assert s[i] == a[i] && (i > 0 ==> s[i - 1] == a[i - 1]);
      } else {
        var j := i - |a|;
        assert s[i] == b[j] && IsLetter(s[i - 1]);
        assert LowerChar(b[j]) == b[j];
      }
    }
  }

  /** str.replace(a, b) for single characters. */
  function ReplaceChar(s: string, a: char, b: char): (r: string)
    ensures |r| == |s|
    ensures forall i :: 0 <= i < |s| ==> r[i] == (if s[i] == a then b else s[i])
  {
    if s == [] then [] else [if s[0] == a then b else s[0]] + ReplaceChar(s[1..], a, b)
  }

  /** Replacing a character splits at each occurrence of it. */
  lemma {:induction false} ReplaceCharAt(x: string, y: string, a: char, b: char)
    ensures ReplaceChar(x + [a] + y, a, b) == ReplaceChar(x, a, b) + [b] + ReplaceChar(y, a, b)
  {
    var l := ReplaceChar(x + [a] + y, a, b);
    var r := ReplaceChar(x, a, b) + [b] + ReplaceChar(y, a, b);
    forall i | 0 <= i < |l| ensures l[i] == r[i] {
      if i < |x| {
        assert (x + [a] + y)[i] == x[i];
      } else if i > |x| {
        assert (x + [a] + y)[i] == y[i - |x| - 1];
      }
    }
  }

  // ----- substring tests -----

  predicate StartsWith(s: string, w: string) {
    |w| <= |s| && s[..|w|] == w
  }

  predicate EndsWith(s: string, w: string) {
    |w| <= |s| && s[|s| - |w|..] == w
  }

  /** Python's `w in s` on strings: some position of s starts with w. */
  predicate Contains(s: string, w: string)
    decreases |s|
  {
    StartsWith(s, w) || (s != [] && Contains(s[1..], w))
  }

  /** A text never contains anything longer than itself. */
  lemma {:induction false} TooLongToContain(s: string, w: string)
    requires |s| < |w|
    ensures !Contains(s, w)
    decreases |s|
  {
    if s != [] {
      TooLongToContain(s[1..], w);
    }
  }

  /** Contains is exactly "w occurs at some index". */
  lemma {:induction false} ContainsAt(s: string, w: string)
    ensures Contains(s, w) <==> exists i :: 0 <= i <= |s| && StartsWith(s[i..], w)
  {
    assert s[0..] == s;
    if s != [] {
      ContainsAt(s[1..], w);
      if Contains(s[1..], w) {
        var i :| 0 <= i <= |s[1..]| && StartsWith(s[1..][i..], w);
        assert s[1..][i..] == s[i + 1..];
      }
      if exists i :: 0 <= i <= |s| && StartsWith(s[i..], w) {
        var i :| 0 <= i <= |s| && StartsWith(s[i..], w);
        if i > 0 {
          assert s[1..][i - 1..] == s[i..];
        }
      }
    } else {
      assert forall i :: 0 <= i <= |s| ==> s[i..] == s;
    }
  }

  /** A string that contains w also contains it once something is appended. */
  lemma {:induction false} ContainsAppend(s: string, t: string, w: string)
    requires Contains(s, w)
    ensures Contains(s + t, w)
  {
    ContainsAt(s, w);
    ContainsAt(s + t, w);
    var i :| 0 <= i <= |s| && StartsWith(s[i..], w);
    assert (s + t)[i..][..|w|] == s[i..][..|w|];
  }

  /** Every character of a contained text occurs in the containing one. */
  lemma ContainsChars(s: string, w: string, k: nat)
    requires Contains(s, w) && k < |w|
    ensures w[k] in s
  {
    ContainsAt(s, w);
    var i :| 0 <= i <= |s| && StartsWith(s[i..], w);
    assert s[i + k] == w[k];
  }

  /** A string that contains w also contains it once something is put in front. */
  lemma ContainsPrepend(s: string, t: string, w: string)
    requires Contains(t, w)
    ensures Contains(s + t, w)
  {
    ContainsAt(t, w);
    ContainsAt(s + t, w);
    var i :| 0 <= i <= |t| && StartsWith(t[i..], w);
    assert (s + t)[|s| + i..] == t[i..];
  }

  /** pandas' str.contains(w, case=False): substring test after lowering both sides. */
  predicate ContainsIgnoreCase(s: string, w: string) {
    Contains(Lower(s), Lower(w))
  }

  /** Any of the alternatives is a prefix (a regex group `(?:a|b|c)` at a fixed position). */
  predicate StartsWithAny(s: string, ws: seq<string>) {
    exists k :: 0 <= k < |ws| && StartsWith(s, ws[k])
  }

  // ----- whitespace -----

  /** Length of the leading run of whitespace: what `\s*` consumes. */
  function SpaceRun(s: string): (n: nat)
    ensures n <= |s|
    ensures forall i :: 0 <= i < n ==> IsSpace(s[i])
    ensures n < |s| ==> !IsSpace(s[n])
  {
    if s != [] && IsSpace(s[0]) then 1 + SpaceRun(s[1..]) else 0
  }

  /** Length of the leading run of decimal digits: what a greedy `\d+` or `\d*` consumes. */
  function DigitRun(s: string): (n: nat)
    ensures n <= |s| && AllDigits(s[..n])
    ensures n < |s| ==> !IsDigit(s[n])
  {
    if s != [] && IsDigit(s[0]) then 1 + DigitRun(s[1..]) else 0
  }

  /** Length of the leading run of lower-case letters: what a greedy `[a-z]+` consumes. */
  function LowerRun(s: string): (n: nat)
    ensures n <= |s|
    ensures forall i :: 0 <= i < n ==> IsLowerLetter(s[i])
    ensures n < |s| ==> !IsLowerLetter(s[n])
  {
    if s != [] && IsLowerLetter(s[0]) then 1 + LowerRun(s[1..]) else 0
  }

  predicate AllSpaces(s: string) { forall i :: 0 <= i < |s| ==> IsSpace(s[i]) }

  /** A run of lower-case letters followed by anything else: `[a-z]+` consumes the run and goes on into what follows. */
  lemma {:induction false} LowerRunAppend(x: string, t: string)
    requires forall i :: 0 <= i < |x| ==> IsLowerLetter(x[i])
    ensures LowerRun(x + t) == |x| + LowerRun(t)
    decreases |x|
  {
    if x == [] {
      assert x + t == t;
    } else {
      assert (x + t)[0] == x[0];
      assert (x + t)[1..] == x[1..] + t;
      LowerRunAppend(x[1..], t);
    }
  }

  /** A run of whitespace followed by anything else: `\s*` consumes exactly the run and what follows it. */
  lemma {:induction false} SpaceRunAppend(sp: string, t: string)
    requires AllSpaces(sp)
    ensures SpaceRun(sp + t) == |sp| + SpaceRun(t)
    decreases |sp|
  {
    if sp == [] {
      assert sp + t == t;
    } else {
      assert (sp + t)[0] == sp[0] && IsSpace(sp[0]);
      assert (sp + t)[1..] == sp[1..] + t;
      SpaceRunAppend(sp[1..], t);
    }
  }

  /** Skipping whitespace in front of text that does not start with whitespace leaves exactly that text. */
  lemma SkipSpacesOver(sp: string, t: string)
    requires AllSpaces(sp) && (t == [] || !IsSpace(t[0]))
    ensures SkipSpaces(sp + t) == t
  {
    SpaceRunAppend(sp, t);
    assert (sp + t)[|sp|..] == t;
  }

  function SkipSpaces(s: string): (r: string)
    ensures |r| <= |s|
    ensures r != [] ==> !IsSpace(r[0])
  {
    s[SpaceRun(s)..]
  }

  function TrimLeft(s: string): (r: string)
    ensures r != [] ==> !IsSpace(r[0])
    decreases |s|
  {
    if s != [] && IsSpace(s[0]) then TrimLeft(s[1..]) else s
  }

  function TrimRight(s: string): (r: string)
    ensures r != [] ==> !IsSpace(r[|r| - 1])
    ensures |r| <= |s| && r == s[..|r|]
    decreases |s|
  {
    if s != [] && IsSpace(s[|s| - 1]) then TrimRight(s[..|s| - 1]) else s
  }

  /** str.strip(): no whitespace is left at either end. */
  function Strip(s: string): (r: string)
    ensures r != [] ==> !IsSpace(r[0]) && !IsSpace(r[|r| - 1])
  {
    TrimRight(TrimLeft(s))
  }

  /** Trimming the right of a + b never reaches into a when a ends in a non-space. */
  lemma {:induction false} TrimRightKeeps(a: string, b: string)
    requires a != [] && !IsSpace(a[|a| - 1])
    ensures TrimRight(a + b) == a + TrimRight(b)
    decreases |b|
  {
    if b == [] {
      assert a + b == a;
    } else if IsSpace(b[|b| - 1]) {
      assert (a + b)[..|a + b| - 1] == a + b[..|b| - 1];
      TrimRightKeeps(a, b[..|b| - 1]);
    }
  }

  /** A text starts with each of its left parts. */
  lemma StartsWithAppend(a: string, b: string)
    ensures StartsWith(a + b, a)
  {
    assert (a + b)[..|a|] == a;
  }

  /** Whatever is appended, a prefix stays a prefix. */
  lemma StartsWithExtend(s: string, w: string, t: string)
    requires StartsWith(s, w)
    ensures StartsWith(s + t, w)
  {
    assert (s + t)[..|w|] == s[..|w|];
  }

  /** A prefix of a prefix is a prefix. */
  lemma StartsWithTrans(s: string, w: string, v: string)
    requires StartsWith(s, w) && StartsWith(w, v)
    ensures StartsWith(s, v)
  {
    assert s[..|v|] == s[..|w|][..|v|];
  }

  /** Putting the same text in front keeps a prefix a prefix. */
  lemma StartsWithPrepend(p: string, s: string, w: string)
    requires StartsWith(s, w)
    ensures StartsWith(p + s, p + w)
  {
    assert (p + s)[..|p + w|] == p + s[..|w|];
  }

  /** Two prefixes of one text agree wherever both reach. */
  lemma PrefixesAgree(s: string, w: string, v: string, i: nat)
    requires StartsWith(s, w) && StartsWith(s, v) && i < |w| && i < |v|
    ensures w[i] == v[i]
  {
    assert w[i] == s[..|w|][i] && v[i] == s[..|v|][i];
  }

  /** A text ends with its right part. */
  lemma EndsWithAppend(a: string, b: string)
    ensures EndsWith(a + b, b)
  {
    assert (a + b)[|a + b| - |b|..] == b;
  }

  // ----- joining -----

  /** sep.join(parts). */
  function Join(sep: string, parts: seq<string>): (r: string)
    decreases |parts|
  {
    if parts == [] then ""
    else if |parts| == 1 then parts[0]
    else Join(sep, parts[..|parts| - 1]) + sep + parts[|parts| - 1]
  }

  /** Joining two or more parts: the first part, the separator, then the rest joined. */
  lemma {:induction false} JoinCons(sep: string, parts: seq<string>)
    requires |parts| >= 2
    ensures Join(sep, parts) == parts[0] + (sep + Join(sep, parts[1..]))
    decreases |parts|
  {
    var n := |parts|;
    var init := parts[..n - 1];
    assert parts[1..][..n - 2] == init[1..];
    if n > 2 {
      JoinCons(sep, init);
    } else {
      assert parts[1..] == [parts[1]];
    }
  }

  /** The joined text starts with the first part. */
  lemma {:induction false} JoinStartsWithFirst(sep: string, parts: seq<string>)
    requires parts != []
    ensures StartsWith(Join(sep, parts), parts[0])
    decreases |parts|
  {
    if |parts| > 1 {
      JoinStartsWithFirst(sep, parts[..|parts| - 1]);
      var j := Join(sep, parts[..|parts| - 1]);
      assert (j + sep + parts[|parts| - 1])[..|parts[0]|] == j[..|parts[0]|];
    }
  }

  // ----- numbers as text -----

  /** The rupee sign that prefixes every amount. */
  const Rupee: char := '₹'

  function Pow10(k: nat): (p: nat)
    ensures p >= 1
  {
    if k == 0 then 1 else 10 * Pow10(k - 1)
  }

  function DigitChar(d: nat): (c: char)
    requires d < 10
    ensures IsDigit(c)
  {
    ('0' as int + d) as char
  }

  function DigitValue(c: char): (d: nat)
    requires IsDigit(c)
    ensures d < 10 && DigitChar(d) == c
  {
    c as int - '0' as int
  }

  /** str(n) for a natural number: decimal digits, no leading zero. */
  function NatToString(n: nat): (r: string)
    ensures r != [] && AllDigits(r)
    decreases n
  {
    if n < 10 then [DigitChar(n)] else NatToString(n / 10) + [DigitChar(n % 10)]
  }

  /** The value of a run of decimal digits (what int() of it gives). */
  function DigitsValue(s: string): nat
    requires AllDigits(s)
    decreases |s|
  {
    if s == [] then 0 else 10 * DigitsValue(s[..|s| - 1]) + DigitValue(s[|s| - 1])
  }

  /** Reading back what NatToString wrote gives the number again. */
  lemma {:induction false} NatToStringRoundTrip(n: nat)
    ensures DigitsValue(NatToString(n)) == n
    decreases n
  {
    if n >= 10 {
      NatToStringRoundTrip(n / 10);
      var s := NatToString(n);
      assert s[..|s| - 1] == NatToString(n / 10);
    }
  }

  /** A run of digits followed by anything else: the digit run stops where the digits do. */
  lemma {:induction false} DigitRunAppend(d: string, t: string)
    requires AllDigits(d)
    ensures DigitRun(d + t) == |d| + DigitRun(t)
    decreases |d|
  {
    if d == [] {
      assert d + t == t;
    } else {
      assert (d + t)[0] == d[0] && IsDigit(d[0]);
      assert (d + t)[1..] == d[1..] + t;
      DigitRunAppend(d[1..], t);
    }
  }

  /** A leading zero does not change the value of a digit run. */
  lemma {:induction false} LeadingZero(s: string)
    ensures AllDigits(s) ==> AllDigits("0" + s) && DigitsValue("0" + s) == DigitsValue(s)
    decreases |s|
  {
    if s != [] && AllDigits(s) {
      var z := "0" + s;
      assert z[..|z| - 1] == "0" + s[..|s| - 1];
      LeadingZero(s[..|s| - 1]);
    }
  }

  /** A number below 10^k is written with at most k digits. */
  lemma {:induction false} NatToStringWidth(n: nat, k: nat)
    requires k >= 1 && n < Pow10(k)
    ensures |NatToString(n)| <= k
    decreases k
  {
    if n >= 10 {
      NatToStringWidth(n / 10, k - 1);
    }
  }

  /** Left-pads with '0' up to the given width. */
  function PadZeros(s: string, width: nat): (r: string)
    ensures |r| == if |s| < width then width else |s|
    ensures AllDigits(s) ==> AllDigits(r) && DigitsValue(r) == DigitsValue(s)
    decreases width - |s|
  {
    LeadingZero(s);
    if |s| < width then PadZeros("0" + s, width) else s
  }

  /**
   * Python's f"{x:.{places}f}" on the exact value x: correctly rounded to the given number
   * of decimals, an exact tie going to the even last digit; a '.' only when places > 0, a
   * leading '-' for negative values.
   */
  function Fixed(x: real, places: nat): (r: string)
    ensures r != []
  {
    if x < 0.0 then "-" + UnsignedFixed(-x, places) else UnsignedFixed(x, places)
  }

  /** x scaled by 10^places and rounded to the nearest integer, ties to even: the integer whose digits Fixed prints. */
  function Rounded(x: real, places: nat): (n: nat)
    requires x >= 0.0
  {
    RoundHalfEven(Scaled(x, places))
  }

  /** x counted in units of 10^-places. */
  function Scaled(x: real, places: nat): (s: real)
    ensures x >= 0.0 ==> s >= 0.0
  {
    x * Pow10(places) as real
  }

  /** The integer nearest to a non-negative real; of two equally near, the even one. */
  function RoundHalfEven(r: real): (n: nat)
    requires r >= 0.0
  {
    var f := r.Floor;
    var d := r - f as real;
    if d < 0.5 then f else if d > 0.5 then f + 1 else if f % 2 == 0 then f else f + 1
  }

  function UnsignedFixed(x: real, places: nat): (r: string)
    requires x >= 0.0
    ensures r != [] && IsDigit(r[0])
  {
    ScaledText(Rounded(x, places), places)
  }

  /** The text of n / 10^places with exactly `places` decimals. */
  function ScaledText(n: nat, places: nat): (r: string)
    ensures r != [] && IsDigit(r[0])
  {
    var p := Pow10(places);
    DivModNat(n, p);
    var whole: nat := n / p;
    var frac: nat := n % p;
    var head := NatToString(whole);
    head + (if places == 0 then "" else "." + PadZeros(NatToString(frac), places))
  }

  lemma DivModNat(n: nat, p: nat)
    requires p >= 1
    ensures n / p >= 0 && 0 <= n % p < p
  {
  }

  /**
   * n is a nearest integer to r, and the even one when r lies exactly halfway between
   * two integers.
   */
  predicate NearestTo(n: nat, r: real) {
    r - 0.5 <= n as real <= r + 0.5 && ((n as real == r - 0.5 || n as real == r + 0.5) ==> n % 2 == 0)
  }

  /**
   * The rounded amount behind a Fixed rendering is within half a last-place unit of x
   * (counted in units of 10^-places), and when x lies exactly halfway between two
   * candidates it is the even one.
   */
  lemma FixedRounding(x: real, places: nat)
    requires x >= 0.0
    ensures NearestTo(Rounded(x, places), x * Pow10(places) as real)
  {
    NearestEven(Scaled(x, places));
  }

  /** An amount exactly halfway between n and n + 1 last-place units is rounded to the even one of the two. */
  lemma HalfwayRounded(x: real, places: nat, n: nat)
    requires x >= 0.0 && x * Pow10(places) as real == n as real + 0.5
    ensures Rounded(x, places) == if n % 2 == 0 then n else n + 1
  {
    assert Scaled(x, places) == n as real + 0.5;
    HalfwayEven(n);
  }

  lemma HalfwayEven(n: nat)
    ensures RoundHalfEven(n as real + 0.5) == if n % 2 == 0 then n else n + 1
  {
    var r := n as real + 0.5;
    assert r.Floor == n;
    assert r - n as real == 0.5;
  }

  /** Fixed writes only digits, a decimal point and a minus sign. */
  lemma FixedChars(x: real, places: nat)
    ensures forall c <- Fixed(x, places) :: IsDigit(c) || c == '.' || c == '-'
  {
    var n := if x < 0.0 then Rounded(-x, places) else Rounded(x, places);
    var p := Pow10(places);
    DivModNat(n, p);
    var whole: nat := n / p;
    var frac: nat := n % p;
    assert AllDigits(PadZeros(NatToString(frac), places));
  }

  lemma NearestEven(r: real)
    requires r >= 0.0
    ensures NearestTo(RoundHalfEven(r), r)
  {
  }
}
