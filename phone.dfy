/**
 * The phone-number check of the customer mutations: Python's
 * `re.match(r"^\+?\d{1,3}[- ]?\d{3,}[- ]?\d{3,}$", phone)`.
 *
 * The pattern's language is stated declaratively (InPattern: some split of the
 * string into the pattern's pieces exists), the check is computed by a
 * left-to-right scan (Matches), and PatternScanCorrect proves the two agree on
 * every string. Python's `$` also matches just before one final newline, so
 * IsValidPhone accepts a matching string followed by "\n".
 */
module PhoneFormat {

  /** `\d`, restricted to the ASCII digits. */
  predicate IsDigit(c: char) { '0' <= c <= '9' }

  /** `[- ]` */
  predicate IsSep(c: char) { c == '-' || c == ' ' }

  /** Every character of s[i..j] is a digit. */
  predicate DigitsBetween(s: string, i: nat, j: nat)
    requires i <= j <= |s|
  {
    forall k | i <= k < j :: IsDigit(s[k])
  }

  // ---------------------------------------------------------------------
  // The language of the pattern
  // ---------------------------------------------------------------------

  /**
   * `\d{1,3}[- ]?\d{3,}[- ]?\d{3,}` matches all of t with the pieces
   * t[..b] (1-3 digits), t[b..c] (an optional separator), t[c..d] (3 or more
   * digits), t[d..e] (an optional separator) and t[e..] (3 or more digits).
   */
  predicate BodySplit(t: string, b: nat, c: nat, d: nat, e: nat)
  {
    && 1 <= b <= 3
    && b <= c <= b + 1
    && c + 3 <= d
    && d <= e <= d + 1
    && e + 3 <= |t|
    && DigitsBetween(t, 0, b)
    && (c == b + 1 ==> IsSep(t[b]))
    && DigitsBetween(t, c, d)
    && (e == d + 1 ==> IsSep(t[d]))
    && DigitsBetween(t, e, |t|)
  }

  ghost predicate InBody(t: string)
  {
    exists b: nat, c: nat, d: nat, e: nat :: BodySplit(t, b, c, d, e)
  }

  /** `\+?` followed by the body, anchored at both ends. */
  ghost predicate InPattern(s: string)
  {
    InBody(s) || (|s| > 0 && s[0] == '+' && InBody(s[1..]))
  }

  // ---------------------------------------------------------------------
  // The check, as a scan
  // ---------------------------------------------------------------------

  /** The end of the longest run of digits that starts at index i. */
  function RunEnd(s: string, i: nat): (j: nat)
    requires i <= |s|
    ensures i <= j <= |s|
    ensures DigitsBetween(s, i, j)
    ensures j < |s| ==> !IsDigit(s[j])
    decreases |s| - i
  {
    if i == |s| || !IsDigit(s[i]) then i else RunEnd(s, i + 1)
  }

  /**
   * Scans t as digits, then at most two separators each followed by digits,
   * and checks the lengths of the digit runs against the pattern.
   */
  predicate BodyMatches(t: string)
  {
    var p := RunEnd(t, 0);
    if p == |t| then
      // no separator: 1 + 3 + 3 digits at least
      p >= 7
    else if !IsSep(t[p]) then
      false
    else
      var q := RunEnd(t, p + 1);
      if q == |t| then
        // one separator: it is either the first or the second optional one
        (1 <= p <= 3 && q - (p + 1) >= 6) || (p >= 4 && q - (p + 1) >= 3)
      else
        // two separators
        && IsSep(t[q])
        && 1 <= p <= 3
        && q - (p + 1) >= 3
        && RunEnd(t, q + 1) == |t|
        && |t| - (q + 1) >= 3
  }

  predicate Matches(s: string)
  {
    if |s| > 0 && s[0] == '+' then BodyMatches(s[1..]) else BodyMatches(s)
  }

  /** What `re.match` with this pattern accepts, including Python's `$` before a final newline. */
  predicate IsValidPhone(s: string)
  {
    Matches(s) || (|s| > 0 && s[|s| - 1] == '\n' && Matches(s[..|s| - 1]))
  }

  /** The same, in terms of the pattern's language. */
  ghost predicate RegexAccepts(s: string)
  {
    InPattern(s) || (|s| > 0 && s[|s| - 1] == '\n' && InPattern(s[..|s| - 1]))
  }

  // ---------------------------------------------------------------------
  // The scan decides the language
  // ---------------------------------------------------------------------

  lemma RunEndIs(s: string, i: nat, j: nat)
    requires i <= j <= |s|
    requires DigitsBetween(s, i, j)
    requires j < |s| ==> !IsDigit(s[j])
    ensures RunEnd(s, i) == j
  {
  }

  lemma BodyMatchesSound(t: string)
    requires BodyMatches(t)
    ensures InBody(t)
  {
    var p := RunEnd(t, 0);
    if p == |t| {
      assert BodySplit(t, 1, 1, 4, 4);
    } else {
      var q := RunEnd(t, p + 1);
      if q == |t| {
        if 1 <= p <= 3 && q - (p + 1) >= 6 {
          assert BodySplit(t, p, p + 1, p + 4, p + 4);
        } else {
          assert BodySplit(t, 1, 1, p, p + 1);
        }
      } else {
        assert BodySplit(t, p, p + 1, q, q + 1);
      }
    }
  }

  lemma BodyMatchesComplete(t: string, b: nat, c: nat, d: nat, e: nat)
    requires BodySplit(t, b, c, d, e)
    ensures BodyMatches(t)
  {
    if c == b + 1 {
      RunEndIs(t, 0, b);
      if e == d + 1 {
        RunEndIs(t, c, d);
        RunEndIs(t, e, |t|);
      } else {
        RunEndIs(t, c, |t|);
      }
    } else {
      if e == d + 1 {
        RunEndIs(t, 0, d);
        RunEndIs(t, e, |t|);
      } else {
        RunEndIs(t, 0, |t|);
      }
    }
  }

  lemma BodyMatchesIff(t: string)
    ensures BodyMatches(t) <==> InBody(t)
  {
    if BodyMatches(t) {
      BodyMatchesSound(t);
    }
    if InBody(t) {
      var b: nat, c: nat, d: nat, e: nat :| BodySplit(t, b, c, d, e);
      BodyMatchesComplete(t, b, c, d, e);
    }
  }

  /** A body always starts with a digit, so a leading '+' can only be the optional one. */
  lemma BodyStartsWithDigit(t: string)
    requires InBody(t)
    ensures |t| > 0 && IsDigit(t[0])
  {
    var b: nat, c: nat, d: nat, e: nat :| BodySplit(t, b, c, d, e);
  }

  /** The scan accepts exactly the strings of the pattern's language. */
  lemma PatternScanCorrect(s: string)
    ensures Matches(s) <==> InPattern(s)
  {
    if |s| > 0 && s[0] == '+' {
      BodyMatchesIff(s[1..]);
      if InBody(s) {
        BodyStartsWithDigit(s);
      }
    } else {
      BodyMatchesIff(s);
    }
  }

  /** IsValidPhone is the regular expression, trailing-newline rule included. */
  lemma IsValidPhoneCorrect(s: string)
    ensures IsValidPhone(s) <==> RegexAccepts(s)
  {
    PatternScanCorrect(s);
    if |s| > 0 {
      PatternScanCorrect(s[..|s| - 1]);
    }
  }

  // ---------------------------------------------------------------------
  // Consequences
  // ---------------------------------------------------------------------

  function DigitCount(s: string): nat
  {
    if s == [] then 0 else (if IsDigit(s[0]) then 1 else 0) + DigitCount(s[1..])
  }

  lemma {:induction false} DigitCountAppend(a: string, b: string)
    ensures DigitCount(a + b) == DigitCount(a) + DigitCount(b)
  {
    if a == [] {
      assert a + b == b;
    } else {
      assert (a + b)[1..] == a[1..] + b;
      DigitCountAppend(a[1..], b);
    }
  }

  lemma {:induction false} DigitCountAll(s: string, i: nat, j: nat)
    requires i <= j <= |s| && DigitsBetween(s, i, j)
    ensures DigitCount(s[i..j]) == j - i
    decreases j - i
  {
    if i < j {
      assert s[i..j] == [s[i]] + s[i + 1..j];
      DigitCountAppend([s[i]], s[i + 1..j]);
      DigitCountAll(s, i + 1, j);
    }
  }

  lemma BodyHasSevenDigits(t: string)
    requires InBody(t)
    ensures DigitCount(t) >= 7
  {
    var b: nat, c: nat, d: nat, e: nat :| BodySplit(t, b, c, d, e);
    assert t == t[0..b] + t[b..c] + t[c..d] + t[d..e] + t[e..|t|];
    DigitCountAppend(t[0..b] + t[b..c] + t[c..d] + t[d..e], t[e..|t|]);
    DigitCountAppend(t[0..b] + t[b..c] + t[c..d], t[d..e]);
    DigitCountAppend(t[0..b] + t[b..c], t[c..d]);
    DigitCountAppend(t[0..b], t[b..c]);
    DigitCountAll(t, 0, b);
    DigitCountAll(t, c, d);
    DigitCountAll(t, e, |t|);
  }

  /** Every phone number the check accepts holds at least seven digits. */
  lemma ValidPhoneHasSevenDigits(s: string)
    requires IsValidPhone(s)
    ensures DigitCount(s) >= 7
  {
    IsValidPhoneCorrect(s);
    var m := if InPattern(s) then s else s[..|s| - 1];
    assert InPattern(m);
    if InBody(m) {
      BodyHasSevenDigits(m);
    } else {
      assert m == m[..1] + m[1..];
      DigitCountAppend(m[..1], m[1..]);
      BodyHasSevenDigits(m[1..]);
    }
    if m != s {
      assert s == m + [s[|s| - 1]];
      DigitCountAppend(m, [s[|s| - 1]]);
    }
  }

  /** The two formats the error message advertises are accepted. */
  lemma AdvertisedFormatsAccepted()
    ensures RegexAccepts("+1234567890")
    ensures RegexAccepts("123-456-7890")
  {
    var s1 := "+1234567890";
    assert s1[1..] == "1234567890";
    assert BodySplit(s1[1..], 1, 1, 4, 4);
    var s2 := "123-456-7890";
    assert BodySplit(s2, 3, 4, 7, 8);
  }

  /** Python's `$` lets one final newline through. */
  lemma TrailingNewlineAccepted()
    ensures RegexAccepts("1234567\n")
  {
    var s := "1234567\n";
    assert s[..|s| - 1] == "1234567";
    assert BodySplit("1234567", 1, 1, 4, 4);
  }

  /** Letters, and too few digits, are rejected. */
  lemma ShortOrAlphabeticRejected()
    ensures !RegexAccepts("abc")
    ensures !RegexAccepts("12")
  {
    IsValidPhoneCorrect("abc");
    IsValidPhoneCorrect("12");
    assert !IsValidPhone("abc");
    assert !IsValidPhone("12");
  }
}
