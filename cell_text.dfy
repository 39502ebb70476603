/**
 * The two normalisers applied to the text of a table cell: `safe_float`, which
 * turns any text into a number and falls back to 0.0, and the stricter
 * days-to-expiry rule, which accepts only a string of decimal digits and
 * falls back to 0.
 */
module CellText {
  import opened Wrappers

  /** The ASCII characters that Python's `str.strip()` removes: tab, line feed,
      vertical tab, form feed, carriage return, the four separators 0x1C-0x1F
      and space. */
  predicate IsSpace(c: char) {
    ('\t' <= c <= '\r') || ('\U{1C}' <= c <= '\U{1F}') || c == ' '
  }

  predicate AllSpace(s: string) {
    forall k :: 0 <= k < |s| ==> IsSpace(s[k])
  }

  /** Neither end of `s` is whitespace (vacuously so for the empty string). */
  predicate Trimmed(s: string) {
    s == [] || (!IsSpace(s[0]) && !IsSpace(s[|s| - 1]))
  }

  /** `s` without its leading whitespace. */
  function TrimLeft(s: string): (r: string)
    ensures |r| <= |s| && r == s[|s| - |r|..]
    ensures AllSpace(s[..|s| - |r|])
    ensures r == [] || !IsSpace(r[0])
    decreases |s|
  {
    if s != [] && IsSpace(s[0]) then
      var r := TrimLeft(s[1..]);
      assert s[..|s| - |r|] == [s[0]] + s[1..][..|s| - 1 - |r|];
      r
    else s
  }

  /** `s` without its trailing whitespace. */
  function TrimRight(s: string): (r: string)
    ensures |r| <= |s| && r == s[..|r|]
    ensures AllSpace(s[|r|..])
    ensures r == [] || !IsSpace(r[|r| - 1])
    decreases |s|
  {
    if s != [] && IsSpace(s[|s| - 1]) then
      var init := s[..|s| - 1];
      var r := TrimRight(init);
      assert s[|r|..] == init[|r|..] + [s[|s| - 1]];
      r
    else s
  }

  /** Python's `str.strip()` on the ASCII range: neither end of the result is
      whitespace, and it is empty exactly when the text is all whitespace. */
  function Strip(s: string): (r: string)
    ensures Trimmed(r)
    ensures r == [] <==> AllSpace(s)
  {
    var left := TrimLeft(s);
    var r := TrimRight(left);
    assert r == [] ==> AllSpace(s) by {
      if r == [] {
        assert left[|r|..] == left;
        assert s[..|s| - |left|] == s;
      }
    }
    r
  }

  /** What `Strip` removes is whitespace at the two ends and nothing else: the
      result is a slice of the text with only whitespace outside it. */
  lemma {:induction false} StripIsSlice(s: string)
    ensures exists i, j :: 0 <= i <= j <= |s| && Strip(s) == s[i..j] && AllSpace(s[..i]) && AllSpace(s[j..])
  {
    var left := TrimLeft(s);
    var r := TrimRight(left);
    var i, j := |s| - |left|, |s| - |left| + |r|;
    assert r == s[i..j];
    assert s[j..] == left[|r|..];
  }

  lemma {:induction false} TrimLeftPadded(pre: string, u: string)
    requires AllSpace(pre) && (u == [] || !IsSpace(u[0]))
    ensures TrimLeft(pre + u) == u
  {
    if pre != [] {
      assert (pre + u)[1..] == pre[1..] + u;
      TrimLeftPadded(pre[1..], u);
    }
  }

  lemma {:induction false} TrimRightPadded(u: string, post: string)
    requires AllSpace(post) && (u == [] || !IsSpace(u[|u| - 1]))
    ensures TrimRight(u + post) == u
  {
    if post != [] {
      var init := post[..|post| - 1];
      assert (u + post)[..|u + post| - 1] == u + init;
      TrimRightPadded(u, init);
    }
  }

  /** Surrounding whitespace is all that `Strip` removes: a text that is
      `t` padded with whitespace on both sides strips to exactly `t`. */
  lemma {:induction false} StripPadded(pre: string, t: string, post: string)
    requires AllSpace(pre) && AllSpace(post) && Trimmed(t)
    ensures Strip(pre + t + post) == t
  {
    if t == [] {
      assert pre + t + post == (pre + post) + [];
      TrimLeftPadded(pre + post, []);
    } else {
      assert pre + t + post == pre + (t + post);
      TrimLeftPadded(pre, t + post);
      TrimRightPadded(t, post);
    }
  }

  /** `s` with every occurrence of `c` deleted (Python's `s.replace(c, "")`). */
  function RemoveAll(s: string, c: char): (r: string)
    ensures c !in r
    ensures multiset(r) == multiset(s)[c := 0]
    ensures |r| <= |s|
  {
    if s == [] then []
    else
      assert s == [s[0]] + s[1..];
      var rest := RemoveAll(s[1..], c);
      if s[0] == c then rest else [s[0]] + rest
  }

  /** Deleting a character that does not occur changes nothing. */
  lemma {:induction false} RemoveAllAbsent(s: string, c: char)
    requires c !in s
    ensures RemoveAll(s, c) == s
  {
    if s != [] {
      RemoveAllAbsent(s[1..], c);
    }
  }

  /** Deleting the only character a string is made of leaves nothing. */
  lemma {:induction false} RemoveAllOnly(s: string, c: char)
    requires forall k :: 0 <= k < |s| ==> s[k] == c
    ensures RemoveAll(s, c) == []
  {
    if s != [] {
      RemoveAllOnly(s[1..], c);
    }
  }

  /** Deletion acts piecewise, so the characters that are kept stay in order. */
  lemma {:induction false} RemoveAllConcat(a: string, b: string, c: char)
    ensures RemoveAll(a + b, c) == RemoveAll(a, c) + RemoveAll(b, c)
  {
    if a != [] {
      assert (a + b)[0] == a[0] && (a + b)[1..] == a[1..] + b;
      RemoveAllConcat(a[1..], b, c);
    } else {
      assert a + b == b;
    }
  }

  /** The text handed to the number parser: the stripped cell text with every
      `%` deleted, and no other character touched. */
  function CleanNumber(text: string): (r: string)
    ensures '%' !in r
    ensures forall c :: c != '%' ==> multiset(r)[c] == multiset(Strip(text))[c]
  {
    RemoveAll(Strip(text), '%')
  }

  /** `safe_float`: blank text gives 0.0 without consulting the parser; otherwise
      the parse of the cleaned text, or 0.0 when the parser rejects it. The
      parser `parse` stands for Python's `float()` on strings. */
  function SafeFloat(parse: string -> Option<real>, text: string): (r: real)
    ensures AllSpace(text) ==> r == 0.0
    ensures parse(CleanNumber(text)) == None ==> r == 0.0
    ensures !AllSpace(text) && parse(CleanNumber(text)).Some? ==> r == parse(CleanNumber(text)).value
  {
    if Strip(text) != [] then
      match parse(RemoveAll(Strip(text), '%'))
      case Some(v) => v
      case None => 0.0
    else 0.0
  }

  /** A cell holding only `%` signs (for instance "%"), surrounded by any whitespace,
      gives 0.0: deleting the signs leaves the empty string, which `float()` rejects. */
  lemma {:induction false} PercentOnlyIsZero(parse: string -> Option<real>, pre: string, t: string, post: string)
    requires parse([]) == None
    requires AllSpace(pre) && AllSpace(post)
    requires forall k :: 0 <= k < |t| ==> t[k] == '%'
    ensures SafeFloat(parse, pre + t + post) == 0.0
  {
    assert Trimmed(t);
    StripPadded(pre, t, post);
    RemoveAllOnly(t, '%');
  }

  /** Only `%` is deleted: a padded text without `%` reaches the parser as its core, unchanged,
      thousands separators (`,`) included. */
  lemma {:induction false} CleanNumberKeepsOthers(pre: string, t: string, post: string)
    requires AllSpace(pre) && AllSpace(post) && Trimmed(t)
    requires '%' !in t
    ensures CleanNumber(pre + t + post) == t
  {
    StripPadded(pre, t, post);
    RemoveAllAbsent(t, '%');
  }

  /** A text padded with whitespace is cleaned to its core with the `%` signs gone. */
  lemma {:induction false} CleanNumberPadded(pre: string, t: string, post: string)
    requires AllSpace(pre) && AllSpace(post) && Trimmed(t)
    ensures CleanNumber(pre + t + post) == RemoveAll(t, '%')
  {
    StripPadded(pre, t, post);
  }

  // ---------------------------------------------------------------------
  // Days to expiry

  predicate IsDigit(c: char) {
    '0' <= c <= '9'
  }

  /** Python's `str.isdigit()` on the ASCII range: non-empty and all digits. */
  predicate IsDigits(s: string) {
    s != [] && forall k :: 0 <= k < |s| ==> IsDigit(s[k])
  }

  function DigitValue(c: char): (d: nat)
    requires IsDigit(c)
    ensures d < 10
  {
    c as int - '0' as int
  }

  function DigitChar(d: nat): (c: char)
    requires d < 10
    ensures IsDigit(c) && DigitValue(c) == d
  {
    ('0' as int + d) as char
  }

  /** The value of a string of decimal digits, read most significant digit first
      (Python's `int()` on such a string). */
  function DigitsValue(s: string): nat
    requires forall k :: 0 <= k < |s| ==> IsDigit(s[k])
  {
    if s == [] then 0 else 10 * DigitsValue(s[..|s| - 1]) + DigitValue(s[|s| - 1])
  }

  /** The decimal rendering of `n`, without leading zeros. */
  function Decimal(n: nat): (s: string)
    ensures IsDigits(s)
    ensures s[0] != '0' || s == "0"
  {
    if n < 10 then [DigitChar(n)] else Decimal(n / 10) + [DigitChar(n % 10)]
  }

  /** The days-to-expiry rule: the stripped text read as an integer when it is all
      digits, and 0 otherwise. */
  function DaysToExpiry(text: string): (n: nat)
    ensures !IsDigits(Strip(text)) ==> n == 0
    ensures IsDigits(Strip(text)) ==> n == DigitsValue(Strip(text))
  {
    var t := Strip(text);
    if IsDigits(t) then DigitsValue(t) else 0
  }

  /** Reading back a rendered number gives the number. */
  lemma {:induction false} DecimalRoundTrip(n: nat)
    ensures DigitsValue(Decimal(n)) == n
  {
    if n >= 10 {
      DecimalRoundTrip(n / 10);
      var s := Decimal(n);
      assert s[..|s| - 1] == Decimal(n / 10);
    }
  }

  /** A digit string that does not start with `0` has a positive value. */
  lemma {:induction false} LeadingNonZeroPositive(s: string)
    requires IsDigits(s) && s[0] != '0'
    ensures DigitsValue(s) >= 1
  {
    if |s| > 1 {
      LeadingNonZeroPositive(s[..|s| - 1]);
    }
  }

  /** The other direction: a digit string in canonical form (no leading zero, or
      just "0") is the rendering of its value. */
  lemma {:induction false} CanonicalDigitsRoundTrip(s: string)
    requires IsDigits(s) && (s[0] != '0' || s == "0")
    ensures Decimal(DigitsValue(s)) == s
  {
    if |s| > 1 {
      var init, last := s[..|s| - 1], s[|s| - 1];
      LeadingNonZeroPositive(init);
      CanonicalDigitsRoundTrip(init);
      var n := DigitsValue(s);
      assert n / 10 == DigitsValue(init) && n % 10 == DigitValue(last);
      assert s == init + [last];
    }
  }

  /** Leading zeros do not change the value (`int("007") == 7`). */
  lemma {:induction false} LeadingZeroIgnored(s: string)
    requires forall k :: 0 <= k < |s| ==> IsDigit(s[k])
    ensures DigitsValue("0" + s) == DigitsValue(s)
  {
    if s != [] {
      var z := "0" + s;
      assert z[..|z| - 1] == "0" + s[..|s| - 1];
      LeadingZeroIgnored(s[..|s| - 1]);
    }
  }

  /** The rendering of any `n`, with whitespace around it, gives back `n`. */
  lemma {:induction false} DaysToExpiryRoundTrip(pre: string, n: nat, post: string)
    requires AllSpace(pre) && AllSpace(post)
    ensures DaysToExpiry(pre + Decimal(n) + post) == n
  {
    var s := Decimal(n);
    assert Trimmed(s) by {
      assert !IsSpace(s[0]) && !IsSpace(s[|s| - 1]);
    }
    StripPadded(pre, s, post);
    DecimalRoundTrip(n);
  }

  /** A sign, a decimal point, a space inside the number or any other non-digit
      makes the whole field 0. */
  lemma {:induction false} DaysToExpiryRejectsNonDigit(pre: string, t: string, post: string, k: nat)
    requires AllSpace(pre) && AllSpace(post) && Trimmed(t)
    requires k < |t| && !IsDigit(t[k])
    ensures DaysToExpiry(pre + t + post) == 0
  {
    StripPadded(pre, t, post);
  }
}
