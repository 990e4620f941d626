/** The phone-number helpers of the API utilities: digit extraction, country-code completion and the length check. */
module Phone {
  import opened Common

  /** `phone.replace(/\D/g, '')`: the digits of `s`, in order. */
  function Digits(s: string): (r: string)
    ensures |r| <= |s|
    ensures forall i :: 0 <= i < |r| ==> IsDigit(r[i])
  {
    if s == [] then []
    else if IsDigit(s[0]) then [s[0]] + Digits(s[1..])
    else Digits(s[1..])
  }

  /** Number of digit characters in `s`, counted from the end, independently of `Digits`. */
  function DigitCount(s: string): nat {
    if s == [] then 0
    else DigitCount(s[..|s| - 1]) + (if IsDigit(s[|s| - 1]) then 1 else 0)
  }

  /** `formatPhoneNumber`: the digits, with a country code "1" added to a ten-digit number that lacks it. */
  function FormatPhoneNumber(phone: string): (r: string)
    ensures forall i :: 0 <= i < |r| ==> IsDigit(r[i])
    ensures r == Digits(phone) || r == "1" + Digits(phone)
    ensures |r| == 10 ==> r[0] == '1'
  {
    var cleaned := Digits(phone);
    if !(|cleaned| > 0 && cleaned[0] == '1') && |cleaned| == 10 then "1" + cleaned
    else cleaned
  }

  /** `validatePhoneNumber`: the input holds between 10 and 15 digits, whatever else it holds. */
  predicate ValidatePhoneNumber(phone: string)
    ensures ValidatePhoneNumber(phone) ==> |phone| >= 10
  {
    var cleaned := Digits(phone);
    10 <= |cleaned| <= 15
  }

  lemma {:induction false} DigitsAppend(a: string, b: string)
    ensures Digits(a + b) == Digits(a) + Digits(b)
  {
    if a == [] {
      assert a + b == b;
    } else {
      assert (a + b)[1..] == a[1..] + b;
      DigitsAppend(a[1..], b);
    }
  }

  /** A string of digits is its own digit string. */
  lemma {:induction false} DigitsOfDigits(s: string)
    requires forall i :: 0 <= i < |s| ==> IsDigit(s[i])
    ensures Digits(s) == s
  {
    if s != [] {
      DigitsOfDigits(s[1..]);
    }
  }

  /** The length of the digit string is the number of digit characters in the input. */
  lemma {:induction false} DigitsLength(s: string)
    ensures |Digits(s)| == DigitCount(s)
  {
    if s != [] {
      var init, last := s[..|s| - 1], s[|s| - 1];
      assert s == init + [last];
      DigitsAppend(init, [last]);
      DigitsLength(init);
    }
  }

  /** The two cases of FormatPhoneNumber, stated on the digit string. */
  lemma FormatCases(phone: string)
    ensures var d := Digits(phone);
      FormatPhoneNumber(phone) == if |d| == 10 && d[0] != '1' then "1" + d else d
  {
  }

  /** The formatted number is as long as the input's digit count, or one longer when a "1" was added. */
  lemma FormatLength(phone: string)
    ensures var n := |FormatPhoneNumber(phone)|;
      n == DigitCount(phone) || (n == DigitCount(phone) + 1 && n == 11)
  {
    DigitsLength(phone);
  }

  /** Formatting an already formatted number changes nothing. */
  lemma FormatIdempotent(phone: string)
    ensures FormatPhoneNumber(FormatPhoneNumber(phone)) == FormatPhoneNumber(phone)
  {
    var f := FormatPhoneNumber(phone);
    DigitsOfDigits(f);
  }

  /** The validator accepts exactly the inputs with between 10 and 15 digits. */
  lemma ValidateIffDigitCount(phone: string)
    ensures ValidatePhoneNumber(phone) <==> 10 <= DigitCount(phone) <= 15
  {
    DigitsLength(phone);
  }

  /** Inputs with the same digits are judged alike. */
  lemma ValidateDependsOnDigits(a: string, b: string)
    requires Digits(a) == Digits(b)
    ensures ValidatePhoneNumber(a) == ValidatePhoneNumber(b)
    ensures FormatPhoneNumber(a) == FormatPhoneNumber(b)
  {
  }

  /** Inserting a non-digit character anywhere leaves the digit string as it was. */
  lemma InsertNonDigitKeepsDigits(a: string, c: char, b: string)
    requires !IsDigit(c)
    ensures Digits(a + [c] + b) == Digits(a + b)
  {
    DigitsAppend(a + [c], b);
    DigitsAppend(a, [c]);
    DigitsAppend(a, b);
    assert Digits([c]) == [];
    assert Digits(a + [c]) == Digits(a);
  }

  /** Inserting a non-digit character anywhere never changes the validator's verdict or the formatted number. */
  lemma InsertNonDigitPreserves(a: string, c: char, b: string)
    requires !IsDigit(c)
    ensures ValidatePhoneNumber(a + [c] + b) == ValidatePhoneNumber(a + b)
    ensures FormatPhoneNumber(a + [c] + b) == FormatPhoneNumber(a + b)
  {
    InsertNonDigitKeepsDigits(a, c, b);
    ValidateDependsOnDigits(a + [c] + b, a + b);
  }
}
