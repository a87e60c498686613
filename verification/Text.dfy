/** Decimal numerals and whitespace trimming, as the stores use them on the wire. */
module Text {

  datatype Option<+T> = None | Some(value: T)

  predicate IsDigit(c: char) {
    '0' <= c <= '9'
  }

  predicate AllDigits(s: string) {
    forall i | 0 <= i < |s| :: IsDigit(s[i])
  }

  function DigitValue(c: char): nat
    requires IsDigit(c)
  {
    c as int - '0' as int
  }

  /** The shortest base-ten numeral of `n`. */
  function Decimal(n: nat): (s: string)
    ensures |s| > 0 && AllDigits(s)
  {
    if n < 10 then ['0' + n as char] else Decimal(n / 10) + ['0' + (n % 10) as char]
  }

  function NatValue(s: string): nat
    requires AllDigits(s)
  {
    if s == [] then 0 else 10 * NatValue(s[..|s| - 1]) + DigitValue(s[|s| - 1])
  }

  lemma {:induction false} DecimalRoundTrip(n: nat)
    ensures NatValue(Decimal(n)) == n
  {
    var s := Decimal(n);
    if n >= 10 {
      DecimalRoundTrip(n / 10);
      assert s[..|s| - 1] == Decimal(n / 10);
    } else {
      assert s[..|s| - 1] == [];
    }
  }

  lemma DecimalInjective(m: nat, n: nat)
    requires Decimal(m) == Decimal(n)
    ensures m == n
  {
    DecimalRoundTrip(m);
    DecimalRoundTrip(n);
  }

  /** A numeral ends at the first ":", so what follows it can be told apart. */
  lemma NumeralUnique(m: nat, x: string, n: nat, y: string)
    requires Decimal(m) + ":" + x == Decimal(n) + ":" + y
    ensures m == n && x == y
  {
    var s := Decimal(m) + ":" + x;
    var i, j := |Decimal(m)|, |Decimal(n)|;
    assert s[i] == ':' && s[j] == ':';
    assert s[..i] == Decimal(m) && s[..j] == Decimal(n);
    assert forall k | 0 <= k < i :: s[k] == s[..i][k] && IsDigit(s[k]);
    assert forall k | 0 <= k < j :: s[k] == s[..j][k] && IsDigit(s[k]);
    assert i == j;
    DecimalInjective(m, n);
    assert x == s[i + 1..] && y == s[i + 1..];
  }

  function FormatInt(n: int): string {
    if n < 0 then "-" + Decimal(-n) else Decimal(n)
  }

  /** Reads a decimal integer with an optional minus sign; anything else is not a number. */
  function ToNumber(s: string): Option<int> {
    if s == "" then None
    else if AllDigits(s) then Some(NatValue(s) as int)
    else if s[0] == '-' && |s| > 1 && AllDigits(s[1..]) then Some(-(NatValue(s[1..]) as int))
    else None
  }

  lemma ToNumberOfFormat(n: int)
    ensures ToNumber(FormatInt(n)) == Some(n)
  {
    if n < 0 {
      DecimalRoundTrip(-n);
      assert FormatInt(n)[1..] == Decimal(-n);
      assert !IsDigit(FormatInt(n)[0]);
    } else {
      DecimalRoundTrip(n);
    }
  }

  predicate IsSpace(c: char) {
    c == ' ' || 9 as char <= c <= 13 as char || c == 0x85 as char || c == 0xA0 as char
  }

  function TrimLeft(s: string): string {
    if s != [] && IsSpace(s[0]) then TrimLeft(s[1..]) else s
  }

  function TrimRight(s: string): string {
    if s != [] && IsSpace(s[|s| - 1]) then TrimRight(s[..|s| - 1]) else s
  }

  function TrimSpace(s: string): string {
    TrimRight(TrimLeft(s))
  }

  function Plus(n: nat, r: Option<nat>): Option<nat> {
    if r.Some? then Some(n + r.value) else None
  }

  function IndexOf(s: string, c: char): (r: Option<nat>)
    ensures r.Some? ==> r.value < |s| && s[r.value] == c && forall i | 0 <= i < r.value :: s[i] != c
    ensures r.None? ==> forall i | 0 <= i < |s| :: s[i] != c
  {
    if s == "" then None else if s[0] == c then Some(0) else Plus(1, IndexOf(s[1..], c))
  }
}
