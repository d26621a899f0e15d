/** The parsed input documents, as an abstract element tree, and the PHP casts the
    engine applies to attribute text. */
module Xml {
  import opened OrderedMaps

  /** An XML element: tag name, attributes in document order, child elements in order. */
  datatype Elem = Elem(name: string, attributes: OMap<string, string>, children: seq<Elem>)

  /** Utilities::xmlHasAttributes: every listed attribute is present on the element. */
  predicate HasAttributes(e: Elem, names: seq<string>) {
    forall n :: n in names ==> n in e.attributes.values
  }

  predicate IsDigit(c: char) { '0' <= c <= '9' }

  predicate IsSpace(c: char) {
    c == ' ' || c == '\t' || c == '\n' || c == '\r' || c == '\U{B}' || c == '\U{C}'
  }

  /** Drops the leading white space PHP tolerates before a number. */
  function TrimStart(s: string): (r: string)
    ensures |r| <= |s|
    ensures r != [] ==> !IsSpace(r[0])
  {
    if s != [] && IsSpace(s[0]) then TrimStart(s[1..]) else s
  }

  /** The longest prefix of `s` made of decimal digits. */
  function LeadingDigits(s: string): (r: string)
    ensures |r| <= |s| && r == s[..|r|]
    ensures forall i :: 0 <= i < |r| ==> IsDigit(r[i])
  {
    if s != [] && IsDigit(s[0]) then [s[0]] + LeadingDigits(s[1..]) else []
  }

  /** The value of a string of decimal digits, most significant first. */
  function DigitsValue(d: string): (n: nat)
    requires forall i :: 0 <= i < |d| ==> IsDigit(d[i])
  {
    if d == [] then 0
    else
      assert IsDigit(d[|d| - 1]);
      DigitsValue(d[..|d| - 1]) * 10 + (d[|d| - 1] as int - '0' as int)
  }

  /** PHP's `(int)` cast of a string: optional white space and sign, then the leading
      run of digits; text without leading digits is 0. */
  function PhpInt(s: string): int {
    var t := TrimStart(s);
    if t != [] && t[0] == '-' then -(DigitsValue(LeadingDigits(t[1..])) as int)
    else if t != [] && t[0] == '+' then DigitsValue(LeadingDigits(t[1..]))
    else DigitsValue(LeadingDigits(t))
  }

  /** The decimal text of a natural number, as PHP writes an integer. */
  function Decimal(n: nat): (r: string)
    ensures r != [] && forall i :: 0 <= i < |r| ==> IsDigit(r[i])
  {
    if n < 10 then [('0' as int + n) as char]
    else Decimal(n / 10) + [('0' as int + n % 10) as char]
  }

  lemma {:induction false} DecimalValue(n: nat)
    ensures DigitsValue(Decimal(n)) == n
  {
    if n >= 10 {
      var d := Decimal(n);
      assert d[..|d| - 1] == Decimal(n / 10);
      DecimalValue(n / 10);
    }
  }

  lemma {:induction false} LeadingDigitsOfDigits(d: string)
    requires forall i :: 0 <= i < |d| ==> IsDigit(d[i])
    ensures LeadingDigits(d) == d
  {
    if d != [] {
      LeadingDigitsOfDigits(d[1..]);
    }
  }

  /** Casting the decimal text of an integer back gives the integer. */
  lemma PhpIntOfDecimal(n: nat)
    ensures PhpInt(Decimal(n)) == n
    ensures PhpInt("-" + Decimal(n)) == -(n as int)
  {
    var d := Decimal(n);
    assert TrimStart(d) == d;
    LeadingDigitsOfDigits(d);
    DecimalValue(n);
    assert ("-" + d)[1..] == d;
    assert TrimStart("-" + d) == "-" + d;
  }
}
