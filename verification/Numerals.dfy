/** Which addresses spell an id: the digits of an integer column's value, with no leading zero. */
module Numerals {
  import opened Basics

  const MAX_INT4: nat := 2_147_483_647

  predicate IsDigit(c: char) { '0' <= c <= '9' }

  predicate AllDigits(text: string) { forall i :: 0 <= i < |text| ==> IsDigit(text[i]) }

  function Digit(c: char): nat
    requires IsDigit(c)
  {
    c as nat - '0' as nat
  }

  function Value(text: string): nat
    requires AllDigits(text)
  {
    if text == "" then 0 else 10 * Value(text[..|text| - 1]) + Digit(text[|text| - 1])
  }

  /** /^[1-9]\d*$/, and no more than the column holds. */
  function NumericAddress(text: string): Option<nat> {
    if text != "" && AllDigits(text) && text[0] != '0' && Value(text) <= MAX_INT4 then Some(Value(text)) else None
  }

  function Numeral(n: nat): string {
    var last := ('0' as nat + n % 10) as char;
    if n < 10 then [last] else Numeral(n / 10) + [last]
  }

  lemma {:induction false} NumeralReadsBack(n: nat)
    requires n > 0
    ensures Numeral(n) != "" && AllDigits(Numeral(n)) && Numeral(n)[0] != '0' && Value(Numeral(n)) == n
  {
    if n < 10 {
      assert Numeral(n)[..0] == "";
    } else {
      NumeralReadsBack(n / 10);
      OneDigitMore(Numeral(n / 10), n % 10);
    }
  }

  lemma OneDigitMore(front: string, digit: nat)
    requires front != "" && AllDigits(front) && digit < 10
    ensures var text := front + [('0' as nat + digit) as char];
      text != "" && AllDigits(text) && text[0] == front[0] && Value(text) == 10 * Value(front) + digit
  {
    var text := front + [('0' as nat + digit) as char];
    assert text[..|text| - 1] == front;
  }

  lemma {:induction false} ReadingIsSpelling(text: string)
    requires text != "" && AllDigits(text) && text[0] != '0'
    ensures Value(text) > 0 && text == Numeral(Value(text))
    decreases |text|
  {
    var front, last := text[..|text| - 1], text[|text| - 1];
    assert text == front + [last];
    if front == "" {
      assert Value(text) == Digit(last);
    } else {
      ReadingIsSpelling(front);
      assert Value(text) / 10 == Value(front) && Value(text) % 10 == Digit(last);
    }
  }

  /** One spelling per id, and one id per spelling. */
  lemma OneSpellingPerId(text: string, n: nat)
    ensures NumericAddress(text) == Some(n) <==> 0 < n <= MAX_INT4 && text == Numeral(n)
  {
    if 0 < n <= MAX_INT4 {
      NumeralReadsBack(n);
    }
    if NumericAddress(text).Some? {
      ReadingIsSpelling(text);
    }
  }
}
