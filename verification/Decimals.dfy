/** Decimal numbers as text: without a sign, and without leading zeros but for zero itself. */
module Decimals {
  import opened Basics

  predicate IsDigit(c: char) { '0' <= c <= '9' }

  function DigitOf(n: nat): (c: char)
    requires n < 10
    ensures IsDigit(c)
  {
    '0' + n as char
  }

  function ValueOf(c: char): (n: nat)
    requires IsDigit(c)
    ensures n < 10 && DigitOf(n) == c
  {
    (c - '0') as nat
  }

  predicate AllDigits(text: string) { forall i :: 0 <= i < |text| ==> IsDigit(text[i]) }

  predicate IsCanonical(text: string) {
    text != "" && AllDigits(text) && (text == "0" || text[0] != '0')
  }

  function Printed(n: nat): (text: string)
    ensures IsCanonical(text)
  {
    if n < 10 then [DigitOf(n)] else Printed(n / 10) + [DigitOf(n % 10)]
  }

  function Parsed(text: string): nat
    requires AllDigits(text)
  {
    if text == "" then 0
    else
      var n := |text| - 1;
      10 * Parsed(text[..n]) + ValueOf(text[n])
  }

  /** Reading what was printed gives the number back. */
  lemma {:induction false} ParsedPrinted(n: nat)
    ensures Parsed(Printed(n)) == n
  {
    if n < 10 {
      assert [DigitOf(n)][..0] == [];
    } else {
      ParsedPrinted(n / 10);
      assert Printed(n)[..|Printed(n)| - 1] == Printed(n / 10);
    }
  }

  /** A canonical text is the one its number prints. */
  lemma {:induction false} PrintedParsed(text: string)
    requires IsCanonical(text)
    ensures Printed(Parsed(text)) == text
    ensures text[0] != '0' ==> Parsed(text) > 0
    decreases |text|
  {
    var n := |text| - 1;
    if n == 0 {
      assert text == [text[0]];
      assert text[..0] == "";
    } else {
      var init := text[..n];
      assert init[0] == text[0] != '0';
      PrintedParsed(init);
      assert text == init + [text[n]];
      assert Parsed(text) / 10 == Parsed(init) && Parsed(text) % 10 == ValueOf(text[n]);
    }
  }

  /** Different numbers are printed differently. */
  lemma PrintedIsInjective(m: nat, n: nat)
    requires Printed(m) == Printed(n)
    ensures m == n
  {
    ParsedPrinted(m);
    ParsedPrinted(n);
  }
}
