/**
 * The currency amount field of the web forms.
 *
 * `Clean` splits the text a user typed ("12.5") at its dots and reads each part as a
 * non-negative integer; `CleanHelper` turns the one or two integers it returns into a
 * count of a currency's minor units, given the currency's number of decimal places.
 * Because the fraction is re-rendered from an integer, its leading zeros are lost;
 * `ParseAmount` is the definition that keeps the fraction's digits as typed.
 */
module CurrencyValue {
  import opened Wrappers

  /** The two validation failures of the amount field. */
  datatype AmountError =
    | UnknownNumber(input: string)
    | TooManyDecimalPlaces(places: nat, decimalPlaces: nat)

  // ---------------------------------------------------------------------------
  // Decimal digits
  // ---------------------------------------------------------------------------

  predicate IsDigit(c: char) {
    '0' <= c <= '9'
  }

  predicate AllDigits(s: string) {
    forall i :: 0 <= i < |s| ==> IsDigit(s[i])
  }

  /** `str.isdigit` on ASCII text: at least one character, and all of them digits. */
  predicate IsDigits(s: string) {
    |s| > 0 && AllDigits(s)
  }

  function DigitValue(c: char): (d: nat)
    requires IsDigit(c)
    ensures d < 10
  {
    c as int - '0' as int
  }

  function DigitChar(d: nat): (c: char)
    requires d < 10
    ensures IsDigit(c) && DigitValue(c) == d
  {
    ('0' as int + d) as char
  }

  function Pow10(n: nat): (r: nat)
    ensures r >= 1
  {
    if n == 0 then 1 else 10 * Pow10(n - 1)
  }

  /** `int(s)` for a string of digits; the empty string reads as 0. */
  function DigitsValue(s: string): (v: nat)
    requires AllDigits(s)
    ensures v < Pow10(|s|)
  {
    if s == [] then 0 else 10 * DigitsValue(s[..|s| - 1]) + DigitValue(s[|s| - 1])
  }

  /** `"0" * k` */
  function Zeros(k: nat): (z: string)
    ensures |z| == k && AllDigits(z)
  {
    seq(k, _ => '0')
  }

  /** `str(n)`: the decimal rendering of a natural number, with no leading zero. */
  function Show(n: nat): (s: string)
    ensures IsDigits(s)
    ensures DigitsValue(s) == n
    ensures s[0] == '0' ==> n == 0 && s == "0"
    ensures '.' !in s
  {
    if n < 10 then [DigitChar(n)]
    else
      var prefix := Show(n / 10);
      var s := prefix + [DigitChar(n % 10)];
      assert s[..|s| - 1] == prefix;
      s
  }

  lemma {:induction false} ZerosValue(k: nat)
    ensures DigitsValue(Zeros(k)) == 0
  {
    if k > 0 {
      assert Zeros(k)[..k - 1] == Zeros(k - 1);
      ZerosValue(k - 1);
    }
  }

  /** Reading the concatenation of two digit strings shifts the first by the length of the second. */
  lemma {:induction false} DigitsValueAppend(a: string, b: string)
    requires AllDigits(a) && AllDigits(b)
    ensures AllDigits(a + b)
    ensures DigitsValue(a + b) == DigitsValue(a) * Pow10(|b|) + DigitsValue(b)
  {
    if b == [] {
      assert a + b == a;
    } else {
      var b' := b[..|b| - 1];
      assert AllDigits(a + b);
      assert (a + b)[..|a + b| - 1] == a + b';
      DigitsValueAppend(a, b');
      ShiftStep(DigitsValue(a), Pow10(|b'|), DigitsValue(b'), DigitValue(b[|b| - 1]));
    }
  }

  lemma ShiftStep(x: nat, p: nat, y: nat, d: nat)
    ensures 10 * (x * p + y) + d == x * (10 * p) + (10 * y + d)
  {
  }

  /** Leading zeros do not change the value of a digit string. */
  lemma LeadingZerosValue(k: nat, s: string)
    requires AllDigits(s)
    ensures AllDigits(Zeros(k) + s) && DigitsValue(Zeros(k) + s) == DigitsValue(s)
  {
    DigitsValueAppend(Zeros(k), s);
    ZerosValue(k);
  }

  /** A number below `10^k` is rendered with at most `k` digits. */
  lemma {:induction false} ShowLength(n: nat, k: nat)
    requires k >= 1 && n < Pow10(k)
    ensures |Show(n)| <= k
  {
    if n >= 10 {
      assert n / 10 < Pow10(k - 1);
      ShowLength(n / 10, k - 1);
    }
  }

  // ---------------------------------------------------------------------------
  // str.split(".")
  // ---------------------------------------------------------------------------

  /** The number of dots in `s`. */
  function Count(s: string): nat {
    if s == [] then 0 else (if s[0] == '.' then 1 else 0) + Count(s[1..])
  }

  /** `".".join(parts)` */
  function Join(parts: seq<string>): string
    requires |parts| >= 1
  {
    if |parts| == 1 then parts[0] else parts[0] + "." + Join(parts[1..])
  }

  /** `s.split(".")`: one part more than there are dots, no part holds a dot, and
      joining the parts with dots gives back `s`. */
  function Split(s: string): (parts: seq<string>)
    ensures |parts| == Count(s) + 1
    ensures forall i :: 0 <= i < |parts| ==> '.' !in parts[i]
    ensures Join(parts) == s
  {
    if s == [] then [""]
    else
      var rest := Split(s[1..]);
      if s[0] == '.' then
        assert ([""] + rest)[1..] == rest;
        [""] + rest
      else
        var parts := [[s[0]] + rest[0]] + rest[1..];
        assert parts[1..] == rest[1..];
        assert s == [s[0]] + s[1..];
        parts
  }

  lemma {:induction false} SplitNoDot(a: string)
    requires '.' !in a
    ensures Split(a) == [a]
  {
    if a != [] {
      SplitNoDot(a[1..]);
      assert [a[0]] + a[1..] == a;
    }
  }

  lemma {:induction false} SplitAtFirstDot(a: string, t: string)
    requires '.' !in a
    ensures Split(a + "." + t) == [a] + Split(t)
  {
    if a == [] {
      assert a + "." + t == "." + t;
      assert ("." + t)[1..] == t;
    } else {
      assert (a + "." + t)[1..] == a[1..] + "." + t;
      SplitAtFirstDot(a[1..], t);
      assert [a[0]] + a[1..] == a;
    }
  }

  /** Splitting is the inverse of joining parts that hold no dot. */
  lemma {:induction false} SplitJoin(parts: seq<string>)
    requires |parts| >= 1
    requires forall i :: 0 <= i < |parts| ==> '.' !in parts[i]
    ensures Split(Join(parts)) == parts
  {
    if |parts| == 1 {
      SplitNoDot(parts[0]);
    } else {
      SplitJoin(parts[1..]);
      SplitAtFirstDot(parts[0], Join(parts[1..]));
    }
  }

  // ---------------------------------------------------------------------------
  // CurrencyValueField.clean
  // ---------------------------------------------------------------------------

  /** Text the field accepts: digits, or digits, one dot and digits. */
  ghost predicate WellFormedAmount(s: string) {
    IsDigits(s) ||
    exists i :: 0 <= i < |s| && s[i] == '.' && IsDigits(s[..i]) && IsDigits(s[i + 1..])
  }

  /** Splits the text at its dots; fails unless there are at most two parts, each all
      digits; otherwise returns the parts read as integers, in order. */
  function Clean(s: string): (r: Result<seq<nat>, AmountError>)
    ensures r.Success? ==> 1 <= |r.value| <= 2 && |r.value| == Count(s) + 1
    ensures r.Failure? ==> r.error == UnknownNumber(s)
    ensures Count(s) > 1 ==> r.Failure?
  {
    var parts := Split(s);
    if |parts| > 2 then Failure(UnknownNumber(s))
    else if exists i | 0 <= i < |parts| :: !IsDigits(parts[i]) then Failure(UnknownNumber(s))
    else Success(seq(|parts|, i requires 0 <= i < |parts| => DigitsValue(parts[i])))
  }

  /** `Clean` accepts exactly the well-formed amounts. */
  lemma CleanWellFormed(s: string)
    ensures Clean(s).Success? <==> WellFormedAmount(s)
  {
    if Clean(s).Success? {
      AcceptedIsWellFormed(s);
    }
    if WellFormedAmount(s) {
      WellFormedIsAccepted(s);
    }
  }

  lemma AcceptedIsWellFormed(s: string)
    requires Clean(s).Success?
    ensures WellFormedAmount(s)
  {
    var parts := Split(s);
    assert forall i | 0 <= i < |parts| :: IsDigits(parts[i]);
    if |parts| == 1 {
      assert s == parts[0];
    } else {
      var i := |parts[0]|;
      assert Join(parts[1..]) == parts[1];
      assert s == parts[0] + "." + parts[1];
      assert s[..i] == parts[0] && s[i + 1..] == parts[1];
      assert s[i] == '.';
    }
  }

  lemma WellFormedIsAccepted(s: string)
    requires WellFormedAmount(s)
    ensures Clean(s).Success?
  {
    if IsDigits(s) {
      DigitsAccepted(s);
    } else {
      var i :| 0 <= i < |s| && s[i] == '.' && IsDigits(s[..i]) && IsDigits(s[i + 1..]);
      var a, b := s[..i], s[i + 1..];
      assert s == a + "." + b;
      DottedIsAccepted(a, b);
    }
  }

  /** Two digit strings joined by a dot are accepted and read as the two integers they
      denote, leading zeros and all. */
  lemma DottedIsAccepted(a: string, b: string)
    requires IsDigits(a) && IsDigits(b)
    ensures Clean(a + "." + b) == Success([DigitsValue(a), DigitsValue(b)])
  {
    DigitsHaveNoDot(a);
    DigitsHaveNoDot(b);
    SplitAtFirstDot(a, b);
    SplitNoDot(b);
    AcceptedParts(a + "." + b, [a, b]);
    var r := Clean(a + "." + b).value;
    assert r[0] == DigitsValue(a) && r[1] == DigitsValue(b);
    assert r == [DigitsValue(a), DigitsValue(b)];
  }

  /** A digit string is accepted and read as the one integer it denotes. */
  lemma DigitsAccepted(a: string)
    requires IsDigits(a)
    ensures Clean(a) == Success([DigitsValue(a)])
  {
    DigitsHaveNoDot(a);
    SplitNoDot(a);
    AcceptedParts(a, [a]);
    var r := Clean(a).value;
    assert r[0] == DigitsValue(a);
    assert r == [DigitsValue(a)];
  }

  /** Text that splits into one or two digit strings is read as their integers, in order. */
  lemma AcceptedParts(s: string, parts: seq<string>)
    requires Split(s) == parts && 1 <= |parts| <= 2
    requires forall k | 0 <= k < |parts| :: IsDigits(parts[k])
    ensures Clean(s).Success? && |Clean(s).value| == |parts|
    ensures forall k | 0 <= k < |parts| :: Clean(s).value[k] == DigitsValue(parts[k])
  {
  }

  lemma DigitsHaveNoDot(t: string)
    requires AllDigits(t)
    ensures '.' !in t
  {
  }

  /** Empty text, a leading dot and a trailing dot all leave an empty part, which is rejected. */
  lemma CleanRejectsEmptyParts(s: string)
    requires s == "" || s[0] == '.' || s[|s| - 1] == '.'
    ensures Clean(s) == Failure(UnknownNumber(s))
  {
    CleanWellFormed(s);
  }

  /** A rendered whole number is read back as itself. */
  lemma CleanShowWhole(w: nat)
    ensures Clean(Show(w)) == Success([w])
  {
    SplitNoDot(Show(w));
    assert Clean(Show(w)).Success?;
    assert Clean(Show(w)).value[0] == w;
    assert |Clean(Show(w)).value| == 1;
    assert Clean(Show(w)).value == [w];
  }

  /** A rendered whole number, a dot and a rendered fraction are read back as the two numbers. */
  lemma CleanShowFraction(w: nat, f: nat)
    ensures Clean(Show(w) + "." + Show(f)) == Success([w, f])
  {
    var s := Show(w) + "." + Show(f);
    SplitAtFirstDot(Show(w), Show(f));
    SplitNoDot(Show(f));
    assert Split(s) == [Show(w), Show(f)];
    assert Clean(s).Success?;
    assert Clean(s).value[0] == w && Clean(s).value[1] == f;
    assert |Clean(s).value| == 2;
    assert Clean(s).value == [w, f];
  }

  // ---------------------------------------------------------------------------
  // currency_clean_helper
  // ---------------------------------------------------------------------------

  /** Converts the integers `Clean` returned into minor units of a currency with
      `decimalPlaces` places: the fraction, rendered back as text, is rejected when it
      has more digits than the currency allows and is otherwise right-padded with
      zeros; the whole part's text and the padded fraction are read as one integer. */
  function CleanHelper(decimalPlaces: nat, value: seq<nat>): (r: Result<nat, AmountError>)
    requires |value| >= 1
    ensures r.Failure? <==> |value| == 2 && |Show(value[1])| > decimalPlaces
    ensures r.Failure? ==> r.error == TooManyDecimalPlaces(|Show(value[1])|, decimalPlaces)
    ensures r.Success? && |value| != 2 ==> r.value == value[0] * Pow10(decimalPlaces)
    ensures r.Success? && |value| == 2 ==>
      r.value == value[0] * Pow10(decimalPlaces) + value[1] * Pow10(decimalPlaces - |Show(value[1])|)
  {
    var whole := value[0];
    var frac: Option<string> := if |value| == 2 then Some(Show(value[1])) else None;
    if frac.Some? && |frac.value| > decimalPlaces then
      Failure(TooManyDecimalPlaces(|frac.value|, decimalPlaces))
    else
      var padded :=
        if frac.None? then Zeros(decimalPlaces)
        else if |frac.value| < decimalPlaces then frac.value + Zeros(decimalPlaces - |frac.value|)
        else frac.value;
      PaddedValue(whole, padded, decimalPlaces, frac);
      Success(DigitsValue(Show(whole) + padded))
  }

  /** The arithmetic behind `CleanHelper`'s contract. */
  lemma PaddedValue(whole: nat, padded: string, decimalPlaces: nat, frac: Option<string>)
    requires frac.Some? ==> IsDigits(frac.value) && |frac.value| <= decimalPlaces
    requires padded ==
      if frac.None? then Zeros(decimalPlaces)
      else if |frac.value| < decimalPlaces then frac.value + Zeros(decimalPlaces - |frac.value|)
      else frac.value
    ensures AllDigits(Show(whole) + padded)
    ensures frac.None? ==> DigitsValue(Show(whole) + padded) == whole * Pow10(decimalPlaces)
    ensures frac.Some? ==>
      DigitsValue(Show(whole) + padded) ==
        whole * Pow10(decimalPlaces) + DigitsValue(frac.value) * Pow10(decimalPlaces - |frac.value|)
  {
    if frac.None? {
      ZerosValue(decimalPlaces);
    } else {
      var k := decimalPlaces - |frac.value|;
      DigitsValueAppend(frac.value, Zeros(k));
      ZerosValue(k);
      assert frac.value + Zeros(0) == frac.value;
      assert padded == frac.value + Zeros(k);
    }
    DigitsValueAppend(Show(whole), padded);
  }

  /** A fraction rendered as "0" is one digit, so a currency without decimal places rejects "5.0". */
  lemma ZeroFractionNeedsOnePlace()
    ensures Clean("5.0") == Success([5, 0])
    ensures CleanHelper(0, [5, 0]) == Failure(TooManyDecimalPlaces(1, 0))
  {
    CleanShowFraction(5, 0);
    assert Show(5) + "." + Show(0) == "5.0";
  }

  /** As written, the fraction's leading zeros are lost: "1.05" in a currency with two
      decimal places becomes 150 minor units, where the text reads 105. */
  lemma LeadingZerosLost()
    ensures Clean("1.05") == Success([1, 5])
    ensures CleanHelper(2, [1, 5]) == Success(150)
    ensures ParseAmount("1.05", 2) == Success(105)
  {
    assert "1.05" == "1" + "." + "05";
    SplitAtFirstDot("1", "05");
    SplitNoDot("05");
    assert Split("1.05") == ["1", "05"];
    assert DigitsValue("1") == 1 by {
      assert "1"[..0] == "";
    }
    assert DigitsValue("05") == 5 by {
      assert "05"[..1] == "0";
      assert "0"[..0] == "";
    }
    assert Clean("1.05").value == [1, 5];
    assert Show(5) == "5";
    assert Pow10(2) == 100 && Pow10(1) == 10 && Pow10(0) == 1;
  }

  // ---------------------------------------------------------------------------
  // The amount the text denotes
  // ---------------------------------------------------------------------------

  /** The minor units written as whole digits, then fraction digits padded with zeros
      to the currency's decimal places. */
  function FixedPoint(whole: string, frac: string, decimalPlaces: nat): (v: nat)
    requires AllDigits(whole) && AllDigits(frac) && |frac| <= decimalPlaces
    ensures v == DigitsValue(whole) * Pow10(decimalPlaces) + DigitsValue(frac) * Pow10(decimalPlaces - |frac|)
  {
    var k := decimalPlaces - |frac|;
    DigitsValueAppend(frac, Zeros(k));
    ZerosValue(k);
    DigitsValueAppend(whole, frac + Zeros(k));
    assert whole + frac + Zeros(k) == whole + (frac + Zeros(k));
    DigitsValue(whole + frac + Zeros(k))
  }

  /** Parses an amount keeping the fraction's digits as typed: text `Clean` rejects is
      rejected the same way, a fraction of more digits than the currency allows is
      rejected, and otherwise the amount is the whole part scaled to minor units plus the
      fraction scaled by the digits left unwritten. */
  function ParseAmount(s: string, decimalPlaces: nat): (r: Result<nat, AmountError>)
    ensures Clean(s).Failure? ==> r == Failure(UnknownNumber(s))
    ensures Clean(s).Success? && Count(s) == 0 ==>
      r == Success(Clean(s).value[0] * Pow10(decimalPlaces))
    ensures Clean(s).Success? && Count(s) == 1 ==>
      var whole, frac := Split(s)[0], Split(s)[1];
      if |frac| > decimalPlaces then r == Failure(TooManyDecimalPlaces(|frac|, decimalPlaces))
      else r == Success(DigitsValue(whole) * Pow10(decimalPlaces) + DigitsValue(frac) * Pow10(decimalPlaces - |frac|))
  {
    match Clean(s)
    case Failure(e) => Failure(e)
    case Success(_) =>
      var parts := Split(s);
      assert IsDigits(parts[0]) && (|parts| == 2 ==> IsDigits(parts[1]));
      var frac := if |parts| == 2 then parts[1] else "";
      if |frac| > decimalPlaces then Failure(TooManyDecimalPlaces(|frac|, decimalPlaces))
      else Success(FixedPoint(parts[0], frac, decimalPlaces))
  }

  /** The text an amount of `n` minor units is written as: the whole units, and when the
      currency has decimal places, a dot and exactly that many fraction digits. */
  function Render(n: nat, decimalPlaces: nat): string {
    if decimalPlaces == 0 then Show(n)
    else
      var p := Pow10(decimalPlaces);
      DivMod(n, p);
      var m := n % p;
      ShowLength(m, decimalPlaces);
      Show(n / p) + "." + (Zeros(decimalPlaces - |Show(m)|) + Show(m))
  }

  lemma DivMod(n: nat, p: nat)
    requires p >= 1
    ensures n / p >= 0 && 0 <= n % p < p && n == (n / p) * p + n % p
  {
  }

  /** Parsing the rendering of an amount gives the amount back. */
  lemma ParseAmountRoundTrip(n: nat, decimalPlaces: nat)
    ensures ParseAmount(Render(n, decimalPlaces), decimalPlaces) == Success(n)
  {
    var s := Render(n, decimalPlaces);
    if decimalPlaces == 0 {
      CleanShowWhole(n);
    } else {
      var p := Pow10(decimalPlaces);
      DivMod(n, p);
      var w, m := n / p, n % p;
      ShowLength(m, decimalPlaces);
      var frac := Zeros(decimalPlaces - |Show(m)|) + Show(m);
      assert |frac| == decimalPlaces;
      assert s == Show(w) + "." + frac;
      LeadingZerosValue(decimalPlaces - |Show(m)|, Show(m));
      DigitsHaveNoDot(frac);
      SplitAtFirstDot(Show(w), frac);
      SplitNoDot(frac);
      assert Split(s) == [Show(w), frac];
      assert Clean(s).Success?;
      assert DigitsValue(frac) == m;
      assert Pow10(decimalPlaces - |frac|) == 1;
    }
  }
}
