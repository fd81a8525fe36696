/**
 * The string handling in front of the subject table: trimming and checking
 * the form input, converting the weight between text and number, and the
 * listbox line from which the remove button recovers a subject name.
 * Characters are treated as ASCII: whitespace and digits outside ASCII are
 * not recognised.
 */
module Text {

  // ---------------- whitespace and strip ----------------

  /** The ASCII characters that Python's str.isspace accepts. */
  predicate IsSpace(c: char) {
    c == ' ' || (9 <= c as int <= 13) || (28 <= c as int <= 31)
  }

  predicate AllSpace(s: string) {
    forall k :: 0 <= k < |s| ==> IsSpace(s[k])
  }

  /** The first position at or after `i` that does not hold whitespace
      (`|s|` when there is none). */
  function SkipSpaceForward(s: string, i: nat): (j: nat)
    requires i <= |s|
    ensures i <= j <= |s|
    ensures forall k :: i <= k < j ==> IsSpace(s[k])
    ensures j == |s| || !IsSpace(s[j])
    decreases |s| - i
  {
    if i < |s| && IsSpace(s[i]) then SkipSpaceForward(s, i + 1) else i
  }

  /** The position just after the last non-whitespace character in
      `s[lo..hi]` (`lo` when there is none). */
  function SkipSpaceBackward(s: string, lo: nat, hi: nat): (e: nat)
    requires lo <= hi <= |s|
    ensures lo <= e <= hi
    ensures forall k :: e <= k < hi ==> IsSpace(s[k])
    ensures e == lo || !IsSpace(s[e - 1])
    decreases hi
  {
    if lo < hi && IsSpace(s[hi - 1]) then SkipSpaceBackward(s, lo, hi - 1) else hi
  }

  /** Where the stripped text starts in `s`. */
  function StripStart(s: string): nat
    ensures StripStart(s) <= |s|
  {
    SkipSpaceForward(s, 0)
  }

  /** Where the stripped text ends in `s`. */
  function StripEnd(s: string): nat
    ensures StripStart(s) <= StripEnd(s) <= |s|
  {
    SkipSpaceBackward(s, StripStart(s), |s|)
  }

  /** Python's `s.strip()` with no argument: a stretch of `s` that neither
      starts nor ends with whitespace. */
  function Strip(s: string): (r: string)
    ensures |r| <= |s|
    ensures r == [] || (!IsSpace(r[0]) && !IsSpace(r[|r| - 1]))
  {
    s[StripStart(s)..StripEnd(s)]
  }

  /** The stripped text neither starts nor ends with whitespace, and only
      whitespace surrounds it in the input. */
  lemma StripTrimsExactlyOuterSpace(s: string)
    ensures Strip(s) == [] || (!IsSpace(Strip(s)[0]) && !IsSpace(Strip(s)[|Strip(s)| - 1]))
    ensures AllSpace(s[..StripStart(s)]) && AllSpace(s[StripEnd(s)..])
  {
    var i, e := StripStart(s), StripEnd(s);
    assert forall k :: 0 <= k < i ==> s[..i][k] == s[k];
    assert forall k :: 0 <= k < |s| - e ==> s[e..][k] == s[e + k];
  }

  /** A name input is blank after stripping exactly when it is all whitespace. */
  lemma StripEmptyIff(s: string)
    ensures Strip(s) == [] <==> AllSpace(s)
  {
    var i, e := StripStart(s), StripEnd(s);
    if AllSpace(s) {
      assert i == |s|;
    }
  }

  /** Stripping twice changes nothing more. */
  lemma StripIdempotent(s: string)
    ensures Strip(Strip(s)) == Strip(s)
  {
    var r := Strip(s);
    StripTrimsExactlyOuterSpace(s);
    if r != [] {
      assert StripStart(r) == 0;
      assert StripEnd(r) == |r|;
    }
  }

  // ---------------- digits ----------------

  predicate IsDigit(c: char) {
    '0' <= c <= '9'
  }

  predicate DigitsOnly(s: string) {
    forall k :: 0 <= k < |s| ==> IsDigit(s[k])
  }

  /** Python's str.isdigit on ASCII text: non-empty and digits only. */
  predicate IsDigitString(s: string) {
    |s| > 0 && DigitsOnly(s)
  }

  function DigitValue(c: char): (d: nat)
    requires IsDigit(c)
    ensures d < 10
  {
    c as int - '0' as int
  }

  function Digit(d: nat): (c: char)
    requires d < 10
    ensures IsDigit(c) && DigitValue(c) == d
  {
    ('0' as int + d) as char
  }

  /** CPython's default cap on the digits `int(s)` converts
      (`sys.get_int_max_str_digits()`); a longer string raises ValueError. */
  const MaxStrDigits: nat := 4300

  /** Ten to the power `n`. */
  function Pow10(n: nat): (p: nat)
    ensures p > 0
  {
    if n == 0 then 1 else 10 * Pow10(n - 1)
  }

  lemma {:induction false} Pow10Monotone(a: nat, b: nat)
    requires a <= b
    ensures Pow10(a) <= Pow10(b)
  {
    if a < b {
      Pow10Monotone(a, b - 1);
    }
  }

  /** Python's `int(s)` on a string of decimal digits; leading zeros are
      allowed. A string of `k` digits has a value below `10^k`. */
  function DecimalValue(s: string): (v: nat)
    requires DigitsOnly(s)
    ensures v < Pow10(|s|)
    decreases |s|
  {
    if s == [] then 0 else DecimalValue(s[..|s| - 1]) * 10 + DigitValue(s[|s| - 1])
  }

  /** `n` zero digits. */
  function Zeros(n: nat): (z: string)
    ensures |z| == n && DigitsOnly(z)
  {
    seq(n, _ => '0')
  }

  /** Leading zeros do not change the value `int` reads. */
  lemma {:induction false} LeadingZerosIgnored(n: nat, s: string)
    requires DigitsOnly(s)
    ensures DigitsOnly(Zeros(n) + s)
    ensures DecimalValue(Zeros(n) + s) == DecimalValue(s)
  {
    var t := Zeros(n) + s;
    assert forall k :: 0 <= k < |t| ==> IsDigit(t[k]);
    if s == [] {
      assert t == Zeros(n);
      ZerosValue(n);
    } else {
      assert t[..|t| - 1] == Zeros(n) + s[..|s| - 1];
      LeadingZerosIgnored(n, s[..|s| - 1]);
    }
  }

  lemma {:induction false} ZerosValue(n: nat)
    ensures DecimalValue(Zeros(n)) == 0
  {
    if n > 0 {
      assert Zeros(n)[..n - 1] == Zeros(n - 1);
      ZerosValue(n - 1);
    }
  }

  /** Python's `str(n)` for a non-negative integer. */
  function ShowNat(n: nat): (s: string)
    ensures IsDigitString(s)
    ensures |s| == 1 || s[0] != '0'
    ensures DecimalValue(s) == n
  {
    if n < 10 then [Digit(n)] else ShowNat(n / 10) + [Digit(n % 10)]
  }

  /** A digit string that does not start with 0 has a positive value. */
  lemma {:induction false} LeadingDigitPositive(s: string)
    requires IsDigitString(s) && s[0] != '0'
    ensures DecimalValue(s) > 0
  {
    if |s| > 1 {
      LeadingDigitPositive(s[..|s| - 1]);
    }
  }

  /** A weight typed without leading zeros is displayed exactly as typed. */
  lemma {:induction false} ShowDecimalRoundTrip(s: string)
    requires IsDigitString(s) && (|s| == 1 || s[0] != '0')
    ensures ShowNat(DecimalValue(s)) == s
  {
    if |s| > 1 {
      var p, c := s[..|s| - 1], s[|s| - 1];
      assert s == p + [c];
      LeadingDigitPositive(p);
      ShowDecimalRoundTrip(p);
      var n := DecimalValue(s);
      assert n == DecimalValue(p) * 10 + DigitValue(c);
      assert n / 10 == DecimalValue(p) && n % 10 == DigitValue(c);
      assert Digit(DigitValue(c)) == c;
    }
  }

  // ---------------- listbox lines ----------------

  /** The separator the remove button splits a listbox line on, `" ("`,
      begins at position `k` of `s`. */
  predicate SeparatorAt(s: string, k: int) {
    0 <= k && k + 2 <= |s| && s[k] == ' ' && s[k + 1] == '('
  }

  /** `s` holds the separator somewhere. */
  predicate ContainsSeparator(s: string) {
    exists k :: 0 <= k < |s| && SeparatorAt(s, k)
  }

  /** The line the listbox shows for a subject row: the name, then the
      separator, then the weight in decimal. */
  function Display(name: string, weight: nat): (line: string)
    ensures |line| > |name| + 2 + |ShowNat(weight)|
    ensures line[..|name|] == name
    ensures SeparatorAt(line, |name|)
    ensures line[|line| - |ShowNat(weight)| - 1..] == ShowNat(weight) + ")"
  {
    name + " (Weight: " + ShowNat(weight) + ")"
  }

  /** Python's `s.split(" (")[0]`: the text before the first separator, or all
      of `s` when there is none. */
  function FirstField(s: string): (r: string)
    ensures |r| <= |s| && r == s[..|r|]
    ensures |r| == |s| || SeparatorAt(s, |r|)
    ensures forall k :: 0 <= k < |r| ==> !SeparatorAt(s, k)
  {
    if |s| < 2 then s
    else if SeparatorAt(s, 0) then []
    else
      var rest := FirstField(s[1..]);
      assert forall k :: 1 <= k ==> (SeparatorAt(s, k) <==> SeparatorAt(s[1..], k - 1));
      [s[0]] + rest
  }

  /** The remove button recovers the name of the selected row, as long as the
      name does not itself contain the separator. */
  lemma ExtractNameRoundTrip(name: string, weight: nat)
    requires !ContainsSeparator(name)
    ensures FirstField(Display(name, weight)) == name
  {
    var s := Display(name, weight);
    assert s[..|name|] == name;
    assert SeparatorAt(s, |name|);
    assert forall k :: k + 1 < |name| ==> (SeparatorAt(s, k) <==> SeparatorAt(name, k));
  }

  /** When the name does contain the separator, the remove button recovers only
      a strictly shorter prefix of it. */
  lemma ExtractNameTruncates(name: string, weight: nat)
    requires ContainsSeparator(name)
    ensures var r := FirstField(Display(name, weight)); |r| < |name| && r == name[..|r|]
  {
    var s := Display(name, weight);
    var k :| 0 <= k < |name| && SeparatorAt(name, k);
    assert s[..|name|] == name;
    assert SeparatorAt(s, k);
  }
}
