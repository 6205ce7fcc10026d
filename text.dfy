/**
 * The bits of JavaScript string building the import errors rely on:
 * rendering a line number in a template literal and Array.prototype.join.
 */
module Text {

  predicate IsDigit(c: char) {
    '0' <= c <= '9'
  }

  predicate AllDigits(s: string) {
    forall i :: 0 <= i < |s| ==> IsDigit(s[i])
  }

  function DigitChar(d: nat): (c: char)
    requires d < 10
    ensures IsDigit(c) && c as int - '0' as int == d
  {
    ('0' as int + d) as char
  }

  /** How `${n}` renders a non-negative integer: decimal, no leading zero. */
  function NatToString(n: nat): (s: string)
    ensures |s| >= 1 && AllDigits(s)
    ensures s[0] == '0' ==> n == 0
  {
    if n < 10 then [DigitChar(n)] else NatToString(n / 10) + [DigitChar(n % 10)]
  }

  /** Reads a string of decimal digits back as a number. */
  function ParseDecimal(s: string): nat
    requires AllDigits(s)
  {
    if s == [] then 0
    else ParseDecimal(s[..|s| - 1]) * 10 + (s[|s| - 1] as int - '0' as int)
  }

  /** The longest prefix of `s` made of digits. */
  function LeadingDigits(s: string): (d: string)
    ensures AllDigits(d) && d <= s
  {
    if s == [] || !IsDigit(s[0]) then [] else [s[0]] + LeadingDigits(s[1..])
  }

  lemma {:induction false} ParseNatToString(n: nat)
    ensures ParseDecimal(NatToString(n)) == n
  {
    if n >= 10 {
      ParseNatToString(n / 10);
      var s := NatToString(n);
      assert s[..|s| - 1] == NatToString(n / 10);
    }
  }

  lemma {:induction false} LeadingDigitsStop(d: string, rest: string)
    requires AllDigits(d)
    requires rest != [] && !IsDigit(rest[0])
    ensures LeadingDigits(d + rest) == d
  {
    if d != [] {
      assert (d + rest)[1..] == d[1..] + rest;
      LeadingDigitsStop(d[1..], rest);
    }
  }

  /** Array.prototype.join over strings. */
  function Join(parts: seq<string>, sep: string): (s: string)
    ensures parts != [] ==> parts[0] <= s
  {
    if parts == [] then ""
    else if |parts| == 1 then parts[0]
    else
      SplitAfterPrefix(parts[0], sep + Join(parts[1..], sep));
      assert parts[0] + sep + Join(parts[1..], sep) == parts[0] + (sep + Join(parts[1..], sep));
      parts[0] + sep + Join(parts[1..], sep)
  }

  /** `s.split(', ')`: the pieces between occurrences of the separator, in order. */
  function SplitSep(s: string): (r: seq<string>)
    ensures |r| >= 1
    decreases |s|
  {
    if s == [] then [[]]
    else if |s| >= 2 && s[0] == ',' && s[1] == ' ' then [[]] + SplitSep(s[2..])
    else
      var rest := SplitSep(s[1..]);
      [[s[0]] + rest[0]] + rest[1..]
  }

  /** A piece without a comma, then the separator, splits off as one part. */
  lemma {:induction false} SplitSepFront(a: string, b: string)
    requires ',' !in a
    ensures SplitSep(a + ", " + b) == [a] + SplitSep(b)
  {
    var s := a + ", " + b;
    if a == [] {
      assert s == ", " + b;
      assert s[2..] == b;
    } else {
      assert s[0] == a[0] && a[0] != ',';
      assert s[1..] == a[1..] + ", " + b;
      SplitSepFront(a[1..], b);
      assert [a[0]] + a[1..] == a;
    }
  }

  /** A piece without a comma does not split. */
  lemma {:induction false} SplitSepWhole(a: string)
    requires ',' !in a
    ensures SplitSep(a) == [a]
  {
    if a != [] {
      assert a[0] != ',';
      SplitSepWhole(a[1..]);
      assert [a[0]] + a[1..] == a;
    }
  }

  /** Splitting a join with ", " gives back the parts, when no part contains a comma. */
  lemma {:induction false} SplitJoin(parts: seq<string>)
    requires parts != []
    requires forall i :: 0 <= i < |parts| ==> ',' !in parts[i]
    ensures SplitSep(Join(parts, ", ")) == parts
  {
    if |parts| == 1 {
      SplitSepWhole(parts[0]);
    } else {
      SplitJoin(parts[1..]);
      SplitSepFront(parts[0], Join(parts[1..], ", "));
      assert [parts[0]] + parts[1..] == parts;
    }
  }

  /** A prefix of a concatenation, and what follows it. */
  lemma SplitAfterPrefix(p: string, t: string)
    ensures p <= p + t && (p + t)[|p|..] == t
  {
  }
}
