/** Record identifiers `S1, S2, ...` (broker ledger) and `L1, L2, ...` (insurer
    ledger), their decimal rendering and the two ways the source reads the number
    back: `int(key[1:])` and the regular expression `(\d+)$`. */
module Ids {
  import opened Wrappers

  datatype Ledger = Broker | Insurer

  /** The one-letter prefix of a ledger's identifiers. */
  function Prefix(l: Ledger): char {
    match l
    case Broker => 'S'
    case Insurer => 'L'
  }

  /** An identifier: the ledger it belongs to and its 1-based ordinal. */
  datatype Id = Id(ledger: Ledger, ordinal: nat)

  predicate IsDigit(c: char) {
    '0' <= c <= '9'
  }

  predicate AllDigits(s: string) {
    forall k :: 0 <= k < |s| ==> IsDigit(s[k])
  }

  function DigitChar(d: nat): (c: char)
    requires d < 10
    ensures IsDigit(c)
  {
    (d + '0' as int) as char
  }

  function DigitValue(c: char): nat
    requires IsDigit(c)
  {
    c as int - '0' as int
  }

  /** The decimal text of a non-negative integer, without leading zeros. */
  function DecimalString(n: nat): (s: string)
    ensures |s| > 0 && AllDigits(s)
    ensures |s| > 1 ==> s[0] != '0'
  {
    if n < 10 then [DigitChar(n)] else DecimalString(n / 10) + [DigitChar(n % 10)]
  }

  /** The value of a string of decimal digits, most significant first. */
  function DigitsValue(s: string): nat
    requires AllDigits(s)
  {
    if s == [] then 0 else 10 * DigitsValue(s[..|s| - 1]) + DigitValue(s[|s| - 1])
  }

  /** The value of a string of ASCII digits; every other string is a `ValueError`. */
  function ParseDecimal(s: string): Option<nat> {
    if s != [] && AllDigits(s) then Some(DigitsValue(s)) else None
  }

  /** Reading back what `str` wrote gives the number. */
  lemma {:induction false} DecimalRoundTrip(n: nat)
    ensures DigitsValue(DecimalString(n)) == n
  {
    if n >= 10 {
      var s := DecimalString(n);
      assert s[..|s| - 1] == DecimalString(n / 10);
      DecimalRoundTrip(n / 10);
    }
  }

  /** The prefix followed by the ordinal's decimal text: the identifier as it appears in the sheets. */
  function Render(id: Id): string {
    [Prefix(id.ledger)] + DecimalString(id.ordinal)
  }

  /** The number after the one-letter prefix, as the sort key reads it. */
  function NumericKey(key: string): Option<nat> {
    if key == [] then None else ParseDecimal(key[1..])
  }

  /** The longest run of digits that ends the string: the group of `(\d+)$`. */
  function TrailingDigits(s: string): (r: string)
    ensures AllDigits(r) && |r| <= |s| && r == s[|s| - |r|..]
  {
    if s == [] || !IsDigit(s[|s| - 1]) then ""
    else TrailingDigits(s[..|s| - 1]) + [s[|s| - 1]]
  }

  /** `extract_numeric_part`: the trailing number, or `None` where the regular
      expression finds no match (pandas would then fail converting NaN to int). */
  function ExtractNumericPart(s: string): Option<nat> {
    var t := TrailingDigits(s);
    if t == [] then None else Some(DigitsValue(t))
  }

  /** Both numeric readings of a rendered identifier give back its ordinal. */
  lemma NumericKeyOfRender(id: Id)
    ensures NumericKey(Render(id)) == Some(id.ordinal)
    ensures ExtractNumericPart(Render(id)) == Some(id.ordinal)
  {
    var s := Render(id);
    var d := DecimalString(id.ordinal);
    assert s[1..] == d;
    DecimalRoundTrip(id.ordinal);
    TrailingAllDigits([Prefix(id.ledger)], d);
  }

  lemma {:induction false} TrailingAllDigits(p: string, d: string)
    requires |p| == 1 && !IsDigit(p[0]) && AllDigits(d)
    ensures TrailingDigits(p + d) == d
    decreases |d|
  {
    if d != [] {
      var s := p + d;
      assert s[..|s| - 1] == p + d[..|d| - 1];
      TrailingAllDigits(p, d[..|d| - 1]);
      assert d == d[..|d| - 1] + [d[|d| - 1]];
    } else {
      assert p + d == p;
    }
  }

  /** Distinct identifiers render to distinct strings, so comparing `Id` values is
      comparing the source's index strings. */
  lemma RenderInjective(a: Id, b: Id)
    ensures Render(a) == Render(b) <==> a == b
  {
    if Render(a) == Render(b) {
      NumericKeyOfRender(a);
      NumericKeyOfRender(b);
      assert Prefix(a.ledger) == Render(a)[0];
    }
  }
}
