/** Printing and reading amounts: digits in groups of three, as in the receipt and in the amount field. */
module Amounts {
  import opened Wrappers
  import opened Schema
  import opened Numbers

  function DigitChar(d: nat): char
    requires d < 10
  {
    '0' + d as char
  }

  predicate IsDigit(c: char) {
    '0' <= c <= '9'
  }

  function DigitValue(c: char): nat
    requires IsDigit(c)
  {
    (c as int) - ('0' as int)
  }

  function Decimal(n: nat): string {
    if n < 10 then [DigitChar(n)] else Decimal(n / 10) + [DigitChar(n % 10)]
  }

  /** A comma before every third digit from the right, except in front. */
  function Group(digits: string): string {
    if |digits| <= 3 then digits
    else Group(digits[..|digits| - 3]) + "," + digits[|digits| - 3..]
  }

  /** new Intl.NumberFormat('en-US').format(n), for a non-negative integer. */
  function FormatNumber(n: nat): string {
    Group(Decimal(n))
  }

  /** replace(/[^\d]/g, ''). */
  function OnlyDigits(s: string): string {
    if s == "" then ""
    else OnlyDigits(s[..|s| - 1]) + if IsDigit(s[|s| - 1]) then [s[|s| - 1]] else ""
  }

  ghost predicate AllDigits(s: string) {
    forall c :: c in s ==> IsDigit(c)
  }

  function ValueOf(digits: string): nat
    requires AllDigits(digits)
  {
    if digits == "" then 0
    else 10 * ValueOf(digits[..|digits| - 1]) + DigitValue(digits[|digits| - 1])
  }

  /** The number that the digits of a text denote. */
  function Denotes(s: string): nat {
    OnlyDigitsIsDigits(s);
    ValueOf(OnlyDigits(s))
  }

  /** Number(digits), or null when there is no digit. */
  function ParseAmount(input: Option<string>): Option<Number> {
    var text := if input.Some? then input.value else "";
    if OnlyDigits(text) == "" then None else Some(ToNumber(Denotes(text)))
  }

  // ----- The amount field -----

  /** How a Number is printed: engines may print the exact value or the shortest digits, but never digits that
      denote another Number. digitsOf(n) is the value of the digits printed for n. */
  ghost predicate PrintsFaithfully(digitsOf: nat -> nat) {
    forall n: nat {:trigger digitsOf(n)} :: IsDouble(n) && n < Overflow() ==> ToNumber(digitsOf(n)) == Finite(n)
  }

  const INFINITY_SIGN := "\U{221E}"

  function Shown(digitsOf: nat -> nat, x: Number): string {
    match x
    case Finite(n) => FormatNumber(digitsOf(n))
    case Infinity => INFINITY_SIGN
  }

  /** What the amount field shows after the user typed `input`. */
  function OnInput(digitsOf: nat -> nat, input: string): string {
    match ParseAmount(Some(input))
    case None => ""
    case Some(x) => Shown(digitsOf, x)
  }

  lemma {:induction false} OnlyDigitsIsDigits(s: string)
    ensures AllDigits(OnlyDigits(s))
  {
    if s != "" { OnlyDigitsIsDigits(s[..|s| - 1]); }
  }

  lemma {:induction false} OnlyDigitsConcat(a: string, b: string)
    ensures OnlyDigits(a + b) == OnlyDigits(a) + OnlyDigits(b)
  {
    if b == "" {
      assert a + b == a;
    } else {
      assert (a + b)[..|a + b| - 1] == a + b[..|b| - 1];
      OnlyDigitsConcat(a, b[..|b| - 1]);
    }
  }

  lemma {:induction false} DigitsStay(s: string)
    requires AllDigits(s)
    ensures OnlyDigits(s) == s
  {
    if s != "" {
      var rest, last := s[..|s| - 1], s[|s| - 1];
      assert s == rest + [last];
      assert AllDigits(rest) by { assert forall c :: c in rest ==> c in s; }
      DigitsStay(rest);
    }
  }

  lemma CommaVanishes(a: string, b: string)
    ensures OnlyDigits(a + "," + b) == OnlyDigits(a) + OnlyDigits(b)
  {
    hide OnlyDigits;
    OnlyDigitsConcat(a + ",", b);
    OnlyDigitsConcat(a, ",");
    NoDigit(',');
  }

  lemma NoDigit(c: char)
    requires !IsDigit(c)
    ensures OnlyDigits([c]) == ""
  {
    assert [c][..0] == "";
  }

  lemma {:induction false} GroupingKeepsDigits(s: string)
    requires AllDigits(s)
    ensures OnlyDigits(Group(s)) == s
  {
    if |s| <= 3 {
      DigitsStay(s);
    } else {
      var head, tail := s[..|s| - 3], s[|s| - 3..];
      assert s == head + tail;
      assert forall c :: c in head || c in tail ==> c in s;
      GroupingKeepsDigits(head);
      DigitsStay(tail);
      CommaVanishes(Group(head), tail);
    }
  }

  lemma {:induction false} DecimalValue(n: nat)
    ensures Decimal(n) != "" && AllDigits(Decimal(n)) && ValueOf(Decimal(n)) == n
  {
    if n < 10 {
      assert Decimal(n)[..0] == "";
    } else {
      DecimalValue(n / 10);
      assert Decimal(n)[..|Decimal(n)| - 1] == Decimal(n / 10);
    }
  }

  lemma FormattedDenotes(n: nat)
    ensures OnlyDigits(FormatNumber(n)) != "" && Denotes(FormatNumber(n)) == n
  {
    DecimalValue(n);
    GroupingKeepsDigits(Decimal(n));
  }

  /** Reading back the grouped digits of n gives n exactly when a Number holds n: when n fits a 53-bit
      significand and is below the overflow threshold. That includes every integer up to 2^53. */
  lemma AmountRoundTrip(n: nat)
    ensures ParseAmount(Some(FormatNumber(n))) == Some(Finite(n)) <==> IsDouble(n) && n < Overflow()
    ensures n <= SIGNIFICANDS ==> ParseAmount(Some(FormatNumber(n))) == Some(Finite(n))
  {
    FormattedDenotes(n);
    RoundKeepsDoubles(n);
    InfinityFrom(n);
    if n <= SIGNIFICANDS { UpTo53Bits(n); }
  }

  /** Digits whose value no Number holds are read as the nearest Number, digits too large as Infinity. */
  lemma ParsesToNearest(n: nat, d: nat)
    requires IsDouble(d)
    ensures match ParseAmount(Some(FormatNumber(n)))
            case None => false
            case Some(Infinity) => n >= Overflow()
            case Some(Finite(x)) => n < Overflow() && IsDouble(x) && Distance(x, n) <= Distance(d, n)
  {
    FormattedDenotes(n);
    InfinityFrom(n);
    RoundIsDouble(n);
    RoundIsNearest(n, d);
  }

  /** Printing the exact value is faithful. */
  lemma ExactIsFaithful()
    ensures PrintsFaithfully(n => n)
  {
    forall n: nat | IsDouble(n) && n < Overflow() ensures ToNumber(n) == Finite(n) {
      RoundKeepsDoubles(n);
      InfinityFrom(n);
    }
  }

  /** Reformatting as the user types is idempotent exactly while the digits typed do not overflow to Infinity:
      the sign that is then shown has no digits, and the next input event clears the field. */
  lemma ReformattingIsIdempotent(digitsOf: nat -> nat, input: string)
    requires PrintsFaithfully(digitsOf)
    ensures OnInput(digitsOf, OnInput(digitsOf, input)) == OnInput(digitsOf, input) <==> Denotes(input) < Overflow()
  {
    var v := Denotes(input);
    InfinityFrom(v);
    NoDigit(INFINITY_SIGN[0]);
    assert [INFINITY_SIGN[0]] == INFINITY_SIGN;
    if OnlyDigits(input) == "" {
      assert OnInput(digitsOf, input) == "";
      InfinityFrom(0);
    } else if v < Overflow() {
      RoundsToNumber(v);
      FormattedDenotes(digitsOf(Round(v)));
    }
  }

  lemma RoundsToNumber(v: nat)
    requires v < Overflow()
    ensures IsDouble(Round(v)) && Round(v) < Overflow()
  {
    RoundIsDouble(v);
    RoundKeepsDoubles(Round(v));
    InfinityFrom(v);
    InfinityFrom(Round(v));
  }

  /** No leading zero except in "0" itself. */
  lemma {:induction false} NoLeadingZero(n: nat)
    requires n > 0
    ensures Decimal(n)[0] != '0'
  {
    if n >= 10 {
      NoLeadingZero(n / 10);
      DecimalValue(n / 10);
    }
  }

  /** The commas stand at every fourth place from the right and nowhere else. */
  lemma {:induction false} CommaPlaces(digits: string, i: nat)
    requires AllDigits(digits) && i < |Group(digits)|
    ensures Group(digits)[|Group(digits)| - 1 - i] == ',' <==> i % 4 == 3
  {
    if |digits| > 3 {
      var head, tail := digits[..|digits| - 3], digits[|digits| - 3..];
      assert forall c :: c in head || c in tail ==> c in digits;
      assert |Group(digits)| == |Group(head)| + 4;
      if i >= 4 {
        CommaPlaces(head, i - 4);
      } else if i < 3 {
        assert Group(digits)[|Group(digits)| - 1 - i] == tail[2 - i];
        assert tail[2 - i] in tail;
      }
    } else {
      assert digits[|digits| - 1 - i] in digits;
    }
  }

  // ----- The printed form, told without printing -----

  /** `text` is n as en-US prints it: digits and commas only, a comma at every fourth place from the right and
      nowhere else, no leading zero, and digits that denote n. */
  ghost predicate IsPrinted(text: string, n: int) {
    && text != "" && Denotes(text) == n
    && (forall i :: 0 <= i < |text| ==> text[i] == ',' || '0' <= text[i] <= '9')
    && (forall i: nat :: i < |text| ==> (text[|text| - 1 - i] == ',' <==> i % 4 == 3))
    && (text[0] == '0' ==> text == "0")
  }

  lemma PrintsNumbers(n: nat)
    ensures IsPrinted(FormatNumber(n), n)
  {
    hide Decimal, Group, Denotes, OnlyDigits, ValueOf, AllDigits;
    DecimalValue(n);
    FormattedDenotes(n);
    GroupHead(Decimal(n));
    GroupChars(Decimal(n));
    CommasOf(Decimal(n));
    if n > 0 { NoLeadingZero(n); } else { Zero(); }
  }

  lemma Zero()
    ensures FormatNumber(0) == "0"
  {
  }

  lemma CommasOf(digits: string)
    requires AllDigits(digits)
    ensures forall i: nat :: i < |Group(digits)| ==> (Group(digits)[|Group(digits)| - 1 - i] == ',' <==> i % 4 == 3)
  {
    forall i: nat | i < |Group(digits)| ensures Group(digits)[|Group(digits)| - 1 - i] == ',' <==> i % 4 == 3 {
      CommaPlaces(digits, i);
    }
  }

  lemma {:induction false} GroupHead(digits: string)
    requires digits != ""
    ensures Group(digits) != "" && Group(digits)[0] == digits[0]
  {
    if |digits| > 3 { GroupHead(digits[..|digits| - 3]); }
  }

  lemma {:induction false} GroupChars(digits: string)
    requires AllDigits(digits)
    ensures forall i :: 0 <= i < |Group(digits)| ==> Group(digits)[i] == ',' || IsDigit(Group(digits)[i])
  {
    if |digits| > 3 {
      var head, tail := digits[..|digits| - 3], digits[|digits| - 3..];
      assert forall c :: c in head || c in tail ==> c in digits;
      GroupChars(head);
      forall i | 0 <= i < |Group(digits)| ensures Group(digits)[i] == ',' || IsDigit(Group(digits)[i]) {
        if i > |Group(head)| { assert Group(digits)[i] == tail[i - |Group(head)| - 1] && Group(digits)[i] in tail; }
      }
    } else {
      assert forall i :: 0 <= i < |digits| ==> digits[i] in digits;
    }
  }

  /** n without its last i decimal digits. */
  function Shifted(n: nat, i: nat): nat {
    if i == 0 then n else Shifted(n / 10, i - 1)
  }

  /** Digit i from the right is the remainder by ten of what is left of n after i divisions by ten. */
  lemma {:induction false} DigitAt(n: nat, i: nat)
    requires i < |Decimal(n)|
    ensures Decimal(n)[|Decimal(n)| - 1 - i] as int == '0' as int + Shifted(n, i) % 10
  {
    if i > 0 { DigitAt(n / 10, i - 1); }
  }

  // ----- No digit, no amount -----

  lemma {:induction false} NoDigitsLeft(text: string)
    ensures OnlyDigits(text) == "" <==> forall i :: 0 <= i < |text| ==> !('0' <= text[i] <= '9')
  {
    if text != "" {
      NoDigitsLeft(text[..|text| - 1]);
      assert forall i :: 0 <= i < |text| - 1 ==> text[..|text| - 1][i] == text[i];
    }
  }

  /** An input without a digit, the cleared field included, is no amount rather than zero; it leaves the field
      empty, and nothing else does. */
  lemma NullWithoutDigits(digitsOf: nat -> nat, input: Option<string>)
    ensures ParseAmount(input) == None <==> input.None? || forall i :: 0 <= i < |input.value| ==> !('0' <= input.value[i] <= '9')
    ensures input.Some? ==> (OnInput(digitsOf, input.value) == "" <==> ParseAmount(input) == None)
  {
    if input.Some? { NoDigitsLeft(input.value); }
    if ParseAmount(input).Some? && ParseAmount(input).value.Finite? { FormattedDenotes(digitsOf(ParseAmount(input).value.value)); }
  }

  lemma ReadsBack(digitsOf: nat -> nat, v: nat)
    requires PrintsFaithfully(digitsOf) && v < Overflow()
    ensures ToNumber(v) == Finite(Round(v)) == ToNumber(digitsOf(Round(v)))
  {
    hide Round, Overflow, Pow2;
    InfinityFrom(v);
    RoundsToNumber(v);
  }

  /** What the field shows: nothing without a digit, the sign for what overflows, and otherwise the grouped digits of
      a number that is read as what was typed. */
  lemma FieldShows(digitsOf: nat -> nat, input: string)
    requires PrintsFaithfully(digitsOf)
    ensures (forall i :: 0 <= i < |input| ==> !('0' <= input[i] <= '9')) ==> OnInput(digitsOf, input) == ""
    ensures (exists i :: 0 <= i < |input| && '0' <= input[i] <= '9') ==>
              if Denotes(input) >= Overflow() then OnInput(digitsOf, input) == "\U{221E}"
              else exists m: nat :: IsPrinted(OnInput(digitsOf, input), m) && ToNumber(m) == ToNumber(Denotes(input))
  {
    hide FormatNumber, IsPrinted, Round, Overflow, Pow2, OnlyDigits, ValueOf;
    var v := Denotes(input);
    NoDigitsLeft(input);
    InfinityFrom(v);
    if OnlyDigits(input) != "" && v < Overflow() {
      ReadsBack(digitsOf, v);
      PrintsNumbers(digitsOf(Round(v)));
    }
  }
}
