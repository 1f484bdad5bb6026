/**
 * The field validator of the customer-details route: the two anchored
 * patterns `^[A-Za-z\s]+$` and `^\d{10}$`, `String.prototype.trim`, and the
 * three checks in the order the handler runs them.
 */
module Validation {
  import opened Js

  /** The characters ECMAScript counts as white space or line terminators,
      which both `\s` in a regular expression and `trim` use. */
  predicate IsJsSpace(c: char) {
    var n := c as int;
    n == 0x09 || n == 0x0A || n == 0x0B || n == 0x0C || n == 0x0D || n == 0x20
    || n == 0xA0 || n == 0x1680 || (0x2000 <= n <= 0x200A) || n == 0x2028
    || n == 0x2029 || n == 0x202F || n == 0x205F || n == 0x3000 || n == 0xFEFF
  }

  /** Among ASCII characters the white space is exactly tab, line feed,
      vertical tab, form feed, carriage return and space, and no white space
      is a letter or a digit. */
  lemma AsciiWhiteSpace(c: char)
    ensures (c as int) < 0x80 ==> (IsJsSpace(c) <==> c in {'\t', '\n', '\U{000B}', '\U{000C}', '\r', ' '})
    ensures IsJsSpace(c) ==> !IsAsciiLetter(c) && !IsDigit(c)
  {
  }

  predicate IsAsciiLetter(c: char) {
    'A' <= c <= 'Z' || 'a' <= c <= 'z'
  }

  /** The character class `[A-Za-z\s]`. */
  predicate IsNameChar(c: char) {
    IsAsciiLetter(c) || IsJsSpace(c)
  }

  // Reference definitions of what the patterns and the trim test accept.

  ghost predicate LettersAndSpaces(s: string) {
    |s| > 0 && forall i :: 0 <= i < |s| ==> IsNameChar(s[i])
  }

  ghost predicate Blank(s: string) {
    forall i :: 0 <= i < |s| ==> IsJsSpace(s[i])
  }

  /** `/^[A-Za-z\s]+$/.test(s)`: one character of the class, then either the
      end of the input or the rest matching again. */
  function MatchesName(s: string): (r: bool)
    ensures r <==> LettersAndSpaces(s)
  {
    |s| > 0 && IsNameChar(s[0]) && (|s| == 1 || MatchesName(s[1..]))
  }

  /** `/^\d{n}$/.test(s)`: exactly `n` decimal digits and nothing else (`$`
      without the `m` flag matches only at the end of the input). */
  function MatchesDigits(s: string, n: nat): (r: bool)
    ensures r <==> |s| == n && IsDecimal(s)
  {
    if n == 0 then s == []
    else |s| > 0 && IsDigit(s[0]) && MatchesDigits(s[1..], n - 1)
  }

  /** The index of the first character at or after `i` that is not white
      space, or `|s|` if there is none. */
  function SkipLeading(s: string, i: nat): (k: nat)
    requires i <= |s|
    ensures i <= k <= |s|
    ensures forall m :: i <= m < k ==> IsJsSpace(s[m])
    ensures k < |s| ==> !IsJsSpace(s[k])
    decreases |s| - i
  {
    if i < |s| && IsJsSpace(s[i]) then SkipLeading(s, i + 1) else i
  }

  /** The end of `s[lo..j]` once its trailing white space is dropped. */
  function SkipTrailing(s: string, lo: nat, j: nat): (k: nat)
    requires lo <= j <= |s|
    ensures lo <= k <= j
    ensures forall m :: k <= m < j ==> IsJsSpace(s[m])
    ensures k > lo ==> !IsJsSpace(s[k - 1])
  {
    if j > lo && IsJsSpace(s[j - 1]) then SkipTrailing(s, lo, j - 1) else j
  }

  /** `s.trim()`: a contiguous piece of `s` that neither starts nor ends with
      white space, with only white space cut off on either side, and empty
      exactly when `s` is blank. */
  function Trim(s: string): (r: string)
    ensures exists i, j :: 0 <= i <= j <= |s| && r == s[i..j] && Blank(s[..i]) && Blank(s[j..])
    ensures r != [] ==> !IsJsSpace(r[0]) && !IsJsSpace(r[|r| - 1])
    ensures r == [] <==> Blank(s)
  {
    var a := SkipLeading(s, 0);
    var b := SkipTrailing(s, a, |s|);
    assert Blank(s[..a]) && Blank(s[b..]);
    assert a == b ==> a == |s|;
    s[a..b]
  }

  /** Trimming a trimmed string changes nothing. */
  lemma TrimIdempotent(s: string)
    ensures Trim(Trim(s)) == Trim(s)
  {
    var t := Trim(s);
    if t != [] {
      assert SkipLeading(t, 0) == 0;
      assert SkipTrailing(t, 0, |t|) == |t|;
      assert t[0..|t|] == t;
    }
  }

  /** Which of the three checks of the details route stops a submission,
      if any. `AddressThrows` is an address that is not a string, on which
      `address.trim()` raises a TypeError. */
  datatype DetailsCheck = Accepted | BadName | BadMobile | BadAddress | AddressThrows

  ghost predicate NameOk(name: JsValue) {
    Truthy(name) && LettersAndSpaces(ToJsString(name))
  }

  ghost predicate MobileOk(mobile: JsValue) {
    Truthy(mobile) && |ToJsString(mobile)| == 10 && IsDecimal(ToJsString(mobile))
  }

  /** The validation block of the details route: name, then mobile, then
      address; the first check that fails decides the outcome. */
  function CheckDetails(name: JsValue, mobile: JsValue, address: JsValue): (r: DetailsCheck)
    ensures r == BadName <==> !NameOk(name)
    ensures r == BadMobile <==> NameOk(name) && !MobileOk(mobile)
    ensures r == AddressThrows <==> NameOk(name) && MobileOk(mobile) && !address.Str?
    ensures r == BadAddress <==> NameOk(name) && MobileOk(mobile) && address.Str? && Blank(address.s)
    ensures r == Accepted <==> NameOk(name) && MobileOk(mobile) && address.Str? && !Blank(address.s)
  {
    if !Truthy(name) || !MatchesName(ToJsString(name)) then BadName
    else if !Truthy(mobile) || !MatchesDigits(ToJsString(mobile), 10) then BadMobile
    else if !address.Str? then AddressThrows
    else if Trim(address.s) == [] then BadAddress
    else Accepted
  }

  // Sample submissions: one stopped by each check, and accepted ones.

  /** The sample name and mobile number pass their checks. */
  lemma SampleFieldsPass()
    ensures NameOk(Str("Jane Doe")) && MobileOk(Str("9876543210"))
  {
    assert LettersAndSpaces("Jane Doe");
    assert IsDecimal("9876543210");
  }

  lemma DigitsInNameRejected()
    ensures CheckDetails(Str("John123"), Str("9876543210"), Str("12 Elm St")) == BadName
  {
    assert !IsNameChar("John123"[4]);
  }

  lemma ShortMobileRejected()
    ensures CheckDetails(Str("Jane Doe"), Str("12345"), Str("12 Elm St")) == BadMobile
  {
    assert LettersAndSpaces("Jane Doe");
  }

  lemma BlankAddressRejected()
    ensures CheckDetails(Str("Jane Doe"), Str("9876543210"), Str("   ")) == BadAddress
  {
    SampleFieldsPass();
    var a := "   ";
    assert a[0] == ' ' && a[1] == ' ' && a[2] == ' ';
    assert Blank(a);
  }

  lemma WellFormedDetailsAccepted()
    ensures CheckDetails(Str("Jane Doe"), Str("9876543210"), Str("12 Elm St")) == Accepted
  {
    SampleFieldsPass();
    assert "12 Elm St"[0] == '1' && !IsJsSpace('1');
  }

  /** Surrounding white space does not make an address blank. */
  lemma PaddedAddressAccepted()
    ensures CheckDetails(Str("Jane Doe"), Str("9876543210"), Str("  12 Elm St ")) == Accepted
  {
    SampleFieldsPass();
    assert "  12 Elm St "[2] == '1' && !IsJsSpace('1');
  }

  /** A mobile number sent as a JSON number of ten digits passes, because the
      pattern test converts it to its decimal text first. */
  lemma NumericMobileAccepted(n: int)
    requires 1000000000 <= n < 10000000000
    ensures MobileOk(Num(n))
  {
    assert Pow10(9) == 1000000000;
    assert Pow10(10) == 10000000000;
    DecimalLength(n, 9);
  }

  /** `null` is rejected by the presence test although its text "null"
      would match the name pattern; `true` passes because "true" matches. */
  lemma NameCoercion()
    ensures !NameOk(Null) && LettersAndSpaces(ToJsString(Null))
    ensures NameOk(Bool(true))
  {
    assert MatchesName("null");
    assert MatchesName("true");
  }
}
