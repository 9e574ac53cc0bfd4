/** The string operations the command handler relies on: joining lines with a
    separator (Python's `sep.join(lines)`), its inverse (splitting at the
    separator), and the decimal rendering of a count inside an f-string. */
module Text {

  /** `[sep].join(lines)`: the lines with one separator between neighbours. */
  function Join(lines: seq<string>, sep: char): string
  {
    if |lines| == 0 then ""
    else if |lines| == 1 then lines[0]
    else lines[0] + [sep] + Join(lines[1..], sep)
  }

  /** Cuts `s` at every occurrence of `sep`; always yields at least one piece. */
  function Split(s: string, sep: char): (pieces: seq<string>)
    ensures |pieces| >= 1
  {
    if |s| == 0 then [""]
    else
      var rest := Split(s[1..], sep);
      if s[0] == sep then [""] + rest
      else [[s[0]] + rest[0]] + rest[1..]
  }

  predicate NoSeparator(lines: seq<string>, sep: char)
  {
    forall k :: 0 <= k < |lines| ==> sep !in lines[k]
  }

  /** Splitting a piece free of the separator, followed by anything, keeps
      the piece glued to the first piece of what follows. */
  lemma {:induction false} SplitPrefix(x: string, tail: string, sep: char)
    requires sep !in x
    ensures Split(x + tail, sep) == [x + Split(tail, sep)[0]] + Split(tail, sep)[1..]
  {
    if |x| > 0 {
      assert (x + tail)[1..] == x[1..] + tail;
      SplitPrefix(x[1..], tail, sep);
      assert [x[0]] + (x[1..] + Split(tail, sep)[0]) == x + Split(tail, sep)[0];
    } else {
      var r := Split(tail, sep);
      assert x + tail == tail;
      assert r == [r[0]] + r[1..];
      assert x + r[0] == r[0];
    }
  }

  /** Joining a non-empty list of separator-free lines and splitting the
      result at the separator gives the lines back: the joined text holds
      exactly one line per element, in order. */
  lemma {:induction false} SplitJoin(lines: seq<string>, sep: char)
    requires |lines| >= 1
    requires NoSeparator(lines, sep)
    ensures Split(Join(lines, sep), sep) == lines
  {
    if |lines| == 1 {
      SplitPrefix(lines[0], "", sep);
      assert lines[0] + "" == lines[0];
    } else {
      var rest := Join(lines[1..], sep);
      SplitJoin(lines[1..], sep);
      assert lines[0] + [sep] + rest == lines[0] + ([sep] + rest);
      SplitPrefix(lines[0], [sep] + rest, sep);
      assert ([sep] + rest)[1..] == rest;
      assert Split([sep] + rest, sep) == [""] + Split(rest, sep);
      assert lines[0] + "" == lines[0];
      assert lines == [lines[0]] + lines[1..];
    }
  }

  /** True when `prefix` begins `s`. */
  predicate StartsWith(s: string, prefix: string)
  {
    |prefix| <= |s| && s[..|prefix|] == prefix
  }

  function DigitChar(d: nat): (c: char)
    requires d < 10
    ensures '0' <= c <= '9'
  {
    "0123456789"[d]
  }

  function DigitValue(c: char): nat
    requires '0' <= c <= '9'
  {
    (c - '0') as nat
  }

  lemma DigitRoundTrip(d: nat)
    requires d < 10
    ensures DigitValue(DigitChar(d)) == d
  {
  }

  /** `str(n)` for a non-negative integer: its decimal digits, most
      significant first, with no leading zero. */
  function NatToString(n: nat): (s: string)
    ensures |s| >= 1
    ensures forall k :: 0 <= k < |s| ==> '0' <= s[k] <= '9'
    ensures |s| > 1 ==> s[0] != '0'
  {
    if n < 10 then [DigitChar(n)]
    else NatToString(n / 10) + [DigitChar(n % 10)]
  }

  /** Reads a string of decimal digits back as a number. */
  function ParseNat(s: string): nat
    requires forall k :: 0 <= k < |s| ==> '0' <= s[k] <= '9'
  {
    if |s| == 0 then 0
    else 10 * ParseNat(s[..|s| - 1]) + DigitValue(s[|s| - 1])
  }

  /** Rendering a count and reading it back gives the count: the text shown
      to the user determines the number it reports. */
  lemma {:induction false} ParseNatToString(n: nat)
    ensures ParseNat(NatToString(n)) == n
  {
    var s := NatToString(n);
    if n < 10 {
      DigitRoundTrip(n);
    } else {
      var q, d := n / 10, n % 10;
      ParseNatToString(q);
      DigitRoundTrip(d);
      assert s == NatToString(q) + [DigitChar(d)];
      assert s[..|s| - 1] == NatToString(q);
      assert s[|s| - 1] == DigitChar(d);
      assert n == 10 * q + d;
    }
  }

  /** Distinct counts are rendered as distinct texts. */
  lemma NatToStringInjective(a: nat, b: nat)
    requires NatToString(a) == NatToString(b)
    ensures a == b
  {
    ParseNatToString(a);
    ParseNatToString(b);
  }
}
