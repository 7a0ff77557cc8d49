/** The string operations the scorer and the pipeline apply to free text:
    `str.lower`, the `in` substring test, `str.startswith`, `str.strip`,
    `str.split` and the decimal rendering of integers in f-strings. */
module Text {

  // ---------------------------------------------------------------------
  // Lower-casing
  // ---------------------------------------------------------------------

  predicate IsUpper(c: char) {
    'A' <= c <= 'Z'
  }

  function LowerChar(c: char): (r: char)
    ensures !IsUpper(r)
    ensures IsUpper(c) ==> r as int == c as int + 32
    ensures !IsUpper(c) ==> r == c
  {
    if IsUpper(c) then (c as int + 32) as char else c
  }

  /** `s.lower()`, restricted to the ASCII letters. */
  function Lower(s: string): (r: string)
    ensures |r| == |s|
    ensures forall i :: 0 <= i < |s| ==> r[i] == LowerChar(s[i])
  {
    seq(|s|, i requires 0 <= i < |s| => LowerChar(s[i]))
  }

  /** Lower-casing leaves no upper-case letter and is idempotent. */
  lemma LowerIsLowerCase(s: string)
    ensures forall i :: 0 <= i < |s| ==> !IsUpper(Lower(s)[i])
    ensures Lower(Lower(s)) == Lower(s)
  {
  }

  // ---------------------------------------------------------------------
  // Prefix and substring tests
  // ---------------------------------------------------------------------

  /** `s.startswith(prefix)`. */
  predicate StartsWith(s: string, prefix: string) {
    |prefix| <= |s| && s[..|prefix|] == prefix
  }

  /** `needle in s`: some position of `s` starts a copy of `needle`. */
  predicate Contains(s: string, needle: string)
    decreases |s|
  {
    StartsWith(s, needle) || (|s| > 0 && Contains(s[1..], needle))
  }

  /** `needle` occurs in `s` starting at position `i`. */
  predicate OccursAt(s: string, needle: string, i: int) {
    0 <= i <= |s| - |needle| && s[i..i + |needle|] == needle
  }

  /** The recursive test finds exactly the occurrences a search over all
      positions finds. */
  lemma {:induction false} ContainsIff(s: string, needle: string)
    ensures Contains(s, needle) <==> exists i :: OccursAt(s, needle, i)
    decreases |s|
  {
    if StartsWith(s, needle) {
      assert OccursAt(s, needle, 0);
    } else if |s| > 0 {
      ContainsIff(s[1..], needle);
      if Contains(s[1..], needle) {
        var i :| OccursAt(s[1..], needle, i);
        assert OccursAt(s, needle, i + 1);
      }
      if exists i :: OccursAt(s, needle, i) {
        var i :| OccursAt(s, needle, i);
        assert i != 0;
        assert OccursAt(s[1..], needle, i - 1);
      }
    }
  }

  /** A needle found at some position occurs in the text. */
  lemma ContainsAt(s: string, needle: string, i: int)
    requires OccursAt(s, needle, i)
    ensures Contains(s, needle)
  {
    ContainsIff(s, needle);
  }

  /** A needle longer than the text never occurs in it. */
  lemma ContainsNotLonger(s: string, needle: string)
    requires |s| < |needle|
    ensures !Contains(s, needle)
  {
    ContainsIff(s, needle);
  }

  /** A needle holding a character absent from the text never occurs in it. */
  lemma ContainsNeedsChar(s: string, needle: string, c: char)
    requires c in needle && c !in s
    ensures !Contains(s, needle)
  {
    ContainsIff(s, needle);
    forall i | 0 <= i <= |s| - |needle| ensures !OccursAt(s, needle, i) {
      var k :| 0 <= k < |needle| && needle[k] == c;
      assert s[i..i + |needle|][k] == s[i + k];
    }
  }

  // ---------------------------------------------------------------------
  // Whitespace stripping
  // ---------------------------------------------------------------------

  /** `c.isspace()`: the characters Python treats as white space. */
  predicate IsSpace(c: char) {
    c == ' ' || c == '\t' || c == '\n' || c == '\r'
    || c == '\U{B}' || c == '\U{C}'
    || ('\U{1C}' <= c <= '\U{1F}')
    || c == '\U{85}' || c == '\U{A0}' || c == '\U{1680}'
    || ('\U{2000}' <= c <= '\U{200A}')
    || c == '\U{2028}' || c == '\U{2029}' || c == '\U{202F}'
    || c == '\U{205F}' || c == '\U{3000}'
  }

  /** Every character of `s` is white space. */
  predicate AllSpace(s: string) {
    forall k :: 0 <= k < |s| ==> IsSpace(s[k])
  }

  /** Where the text starts: the first index at or after `from` whose
      character is not white space, or `|s|` when there is none. */
  function TextStart(s: string, from: nat): (i: nat)
    requires from <= |s|
    ensures from <= i <= |s|
    decreases |s| - from
  {
    if from < |s| && IsSpace(s[from]) then TextStart(s, from + 1) else from
  }

  /** Where the text ends: the last index, not below `lo` and not above
      `stop`, that does not follow a white-space character. */
  function TextEnd(s: string, lo: nat, stop: nat): (j: nat)
    requires lo <= stop <= |s|
    ensures lo <= j <= stop
    decreases stop
  {
    if stop > lo && IsSpace(s[stop - 1]) then TextEnd(s, lo, stop - 1) else stop
  }

  /** `s.strip()`: the text between the leading and the trailing white space. */
  function Strip(s: string): string {
    var i := TextStart(s, 0);
    s[i..TextEnd(s, i, |s|)]
  }

  /** Everything `TextStart` passes over is white space, and it stops at a
      character that is not. */
  lemma {:induction false} TextStartSpec(s: string, from: nat)
    requires from <= |s|
    ensures forall k :: from <= k < TextStart(s, from) ==> IsSpace(s[k])
    ensures TextStart(s, from) == |s| || !IsSpace(s[TextStart(s, from)])
    decreases |s| - from
  {
    if from < |s| && IsSpace(s[from]) {
      TextStartSpec(s, from + 1);
    }
  }

  /** Everything `TextEnd` passes over is white space, and it stops after a
      character that is not, unless it reached `lo`. */
  lemma {:induction false} TextEndSpec(s: string, lo: nat, stop: nat)
    requires lo <= stop <= |s|
    ensures forall k :: TextEnd(s, lo, stop) <= k < stop ==> IsSpace(s[k])
    ensures TextEnd(s, lo, stop) == lo || !IsSpace(s[TextEnd(s, lo, stop) - 1])
    decreases stop
  {
    if stop > lo && IsSpace(s[stop - 1]) {
      TextEndSpec(s, lo, stop - 1);
    }
  }

  /** The stripped text is a slice of the input, everything cut off is
      white space, and it neither starts nor ends with white space. */
  lemma StripSpec(s: string)
    ensures exists i, j ::
      (0 <= i <= j <= |s| && Strip(s) == s[i..j] && AllSpace(s[..i]) && AllSpace(s[j..]))
    ensures Strip(s) == [] || (!IsSpace(Strip(s)[0]) && !IsSpace(Strip(s)[|Strip(s)| - 1]))
  {
    var i, j := StripBounds(s);
  }

  /** Where the stripped text starts and ends in the input. */
  lemma StripBounds(s: string) returns (i: nat, j: nat)
    ensures i <= j <= |s| && Strip(s) == s[i..j] && AllSpace(s[..i]) && AllSpace(s[j..])
    ensures Strip(s) == [] || (!IsSpace(Strip(s)[0]) && !IsSpace(Strip(s)[|Strip(s)| - 1]))
  {
    i := TextStart(s, 0);
    j := TextEnd(s, i, |s|);
    TextStartSpec(s, 0);
    TextEndSpec(s, i, |s|);
    assert AllSpace(s[..i]) by {
      forall k | 0 <= k < i ensures IsSpace(s[..i][k]) {
        assert s[..i][k] == s[k];
      }
    }
    assert AllSpace(s[j..]) by {
      forall k | 0 <= k < |s| - j ensures IsSpace(s[j..][k]) {
        assert s[j..][k] == s[j + k];
      }
    }
    assert Strip(s) == s[i..j];
    if i < j {
      assert Strip(s)[0] == s[i] && Strip(s)[|Strip(s)| - 1] == s[j - 1];
    }
  }

  /** Stripping twice strips nothing more. */
  lemma StripIdempotent(s: string)
    ensures Strip(Strip(s)) == Strip(s)
  {
    StripSpec(s);
    var r := Strip(s);
    assert TextStart(r, 0) == 0;
    assert TextEnd(r, 0, |r|) == |r|;
    assert r[0..|r|] == r;
  }

  // ---------------------------------------------------------------------
  // Splitting on a separator
  // ---------------------------------------------------------------------

  /** `s.split(sep)` for a one-character separator: the fields between the
      separators, empty ones included. */
  function Split(s: string, sep: char): (r: seq<string>)
    ensures |r| >= 1
    ensures forall k :: 0 <= k < |r| ==> sep !in r[k]
    ensures (|r| == 1) == (sep !in s)
    ensures sep !in s ==> r == [s]
  {
    if s == [] then [""]
    else
      var rest := Split(s[1..], sep);
      if s[0] == sep then [""] + rest
      else
        assert s == [s[0]] + s[1..];
        [[s[0]] + rest[0]] + rest[1..]
  }

  /** `sep.join(fields)`. */
  function Join(fields: seq<string>, sep: char): string
    requires |fields| >= 1
  {
    if |fields| == 1 then fields[0] else fields[0] + [sep] + Join(fields[1..], sep)
  }

  /** Joining the fields back with the separator gives the input again. */
  lemma {:induction false} JoinSplit(s: string, sep: char)
    ensures Join(Split(s, sep), sep) == s
    decreases |s|
  {
    if s != [] {
      var c, t := s[0], s[1..];
      assert s == [c] + t;
      var rest := Split(t, sep);
      JoinSplit(t, sep);
      if c == sep {
        SplitAfterSeparator(t, sep);
        JoinAfterEmpty(rest, sep);
      } else {
        SplitAfterChar(c, t, sep);
        var fields := [[c] + rest[0]] + rest[1..];
        assert fields[0][0] == c && fields[0][1..] == rest[0];
        assert [fields[0][1..]] + fields[1..] == rest;
        JoinFirstChar(fields, sep);
      }
    }
  }

  /** Joining after an empty first field starts with the separator. */
  lemma JoinAfterEmpty(fields: seq<string>, sep: char)
    requires |fields| >= 1
    ensures Join([""] + fields, sep) == [sep] + Join(fields, sep)
  {
    assert ([""] + fields)[1..] == fields;
  }

  /** Splitting text that starts with the separator gives an empty first field. */
  lemma SplitAfterSeparator(t: string, sep: char)
    ensures Split([sep] + t, sep) == [""] + Split(t, sep)
  {
    assert ([sep] + t)[1..] == t;
  }

  /** Splitting text that starts with another character puts it at the
      front of the first field. */
  lemma SplitAfterChar(c: char, t: string, sep: char)
    requires c != sep
    ensures Split([c] + t, sep) == [[c] + Split(t, sep)[0]] + Split(t, sep)[1..]
  {
    assert ([c] + t)[1..] == t;
  }

  /** Joining fields whose first field is not empty starts with that
      field's first character. */
  lemma JoinFirstChar(fields: seq<string>, sep: char)
    requires |fields| >= 1 && |fields[0]| > 0
    ensures Join(fields, sep) == [fields[0][0]] + Join([fields[0][1..]] + fields[1..], sep)
  {
    var f := fields[0];
    var shorter := [f[1..]] + fields[1..];
    assert f == [f[0]] + f[1..];
    if |fields| > 1 {
      assert shorter[1..] == fields[1..];
    }
  }

  /** Splitting a join of separator-free fields gives those fields again. */
  lemma {:induction false} SplitJoin(fields: seq<string>, sep: char)
    requires |fields| >= 1
    requires forall k :: 0 <= k < |fields| ==> sep !in fields[k]
    ensures Split(Join(fields, sep), sep) == fields
    decreases |fields|, |fields[0]|, 1
  {
    if fields[0] == [] {
      SplitJoinEmptyHead(fields, sep);
    } else {
      SplitJoinCharHead(fields, sep);
    }
  }

  lemma {:induction false} SplitJoinEmptyHead(fields: seq<string>, sep: char)
    requires |fields| >= 1 && fields[0] == []
    requires forall k :: 0 <= k < |fields| ==> sep !in fields[k]
    ensures Split(Join(fields, sep), sep) == fields
    decreases |fields|, 0, 0
  {
    if |fields| > 1 {
      var rest := fields[1..];
      SplitJoin(rest, sep);
      assert Join(fields, sep) == [sep] + Join(rest, sep);
      SplitAfterSeparator(Join(rest, sep), sep);
      assert fields == [""] + rest;
    }
  }

  lemma {:induction false} SplitJoinCharHead(fields: seq<string>, sep: char)
    requires |fields| >= 1 && fields[0] != []
    requires forall k :: 0 <= k < |fields| ==> sep !in fields[k]
    ensures Split(Join(fields, sep), sep) == fields
    decreases |fields|, |fields[0]|, 0
  {
    var f := fields[0];
    var shorter := [f[1..]] + fields[1..];
    assert f[0] != sep by { assert f[0] in f; }
    DropFirstCharSeparatorFree(fields, sep);
    SplitJoin(shorter, sep);
    JoinFirstChar(fields, sep);
    SplitAfterChar(f[0], Join(shorter, sep), sep);
    assert f == [f[0]] + f[1..];
    assert fields == [[f[0]] + f[1..]] + shorter[1..];
  }

  /** Dropping the first character of the first field keeps every field
      free of the separator. */
  lemma DropFirstCharSeparatorFree(fields: seq<string>, sep: char)
    requires |fields| >= 1 && fields[0] != []
    requires forall k :: 0 <= k < |fields| ==> sep !in fields[k]
    ensures forall k :: 0 <= k < |fields| ==> sep !in ([fields[0][1..]] + fields[1..])[k]
  {
    var shorter := [fields[0][1..]] + fields[1..];
    assert shorter[1..] == fields[1..];
  }

  /** `s.split(sep)[-1]`: the text after the last separator, or all of `s`
      when it has none. */
  function AfterLast(s: string, sep: char): (r: string)
  {
    var fields := Split(s, sep);
    fields[|fields| - 1]
  }

  /** The field after the last separator is a separator-free suffix of `s`,
      preceded in `s` by a separator unless it is all of `s`. */
  lemma {:induction false} AfterLastSpec(s: string, sep: char)
    ensures sep !in AfterLast(s, sep)
    ensures |AfterLast(s, sep)| <= |s| && AfterLast(s, sep) == s[|s| - |AfterLast(s, sep)|..]
    ensures |AfterLast(s, sep)| < |s| ==> s[|s| - |AfterLast(s, sep)| - 1] == sep
    ensures sep !in s ==> AfterLast(s, sep) == s
    decreases |s|
  {
    if s != [] {
      AfterLastSpec(s[1..], sep);
      var rest := Split(s[1..], sep);
      var r := AfterLast(s[1..], sep);
      if s[0] == sep || |rest| > 1 {
        assert AfterLast(s, sep) == r;
        if |rest| > 1 {
          assert sep in s[1..];
          assert r != s[1..];
        }
      } else {
        assert AfterLast(s, sep) == [s[0]] + r;
        assert r == s[1..];
        assert s == [s[0]] + s[1..];
      }
    }
  }

  // ---------------------------------------------------------------------
  // Decimal numerals
  // ---------------------------------------------------------------------

  predicate IsDigit(c: char) {
    '0' <= c <= '9'
  }

  predicate AllDigits(s: string) {
    forall i :: 0 <= i < |s| ==> IsDigit(s[i])
  }

  function DigitChar(d: nat): (c: char)
    requires d < 10
    ensures IsDigit(c)
  {
    ('0' as int + d) as char
  }

  function DigitValue(c: char): (d: nat)
    requires IsDigit(c)
    ensures d < 10
  {
    c as int - '0' as int
  }

  /** The value of a string of decimal digits, most significant first. */
  function DigitsValue(s: string): nat
    requires AllDigits(s)
  {
    if s == [] then 0 else DigitsValue(s[..|s| - 1]) * 10 + DigitValue(s[|s| - 1])
  }

  /** `str(n)` for a natural number: its shortest decimal numeral. */
  function NatToDecimal(n: nat): (r: string)
    ensures |r| >= 1 && AllDigits(r)
  {
    if n < 10 then [DigitChar(n)] else NatToDecimal(n / 10) + [DigitChar(n % 10)]
  }

  /** `str(n)` for any integer: a minus sign before negative numbers. */
  function IntToDecimal(n: int): string
  {
    if n < 0 then "-" + NatToDecimal(-n) else NatToDecimal(n)
  }

  /** Reading back the numeral of `n` gives `n`, and it has no leading zero. */
  lemma {:induction false} NatToDecimalRoundTrip(n: nat)
    ensures DigitsValue(NatToDecimal(n)) == n
    ensures n > 0 ==> NatToDecimal(n)[0] != '0'
  {
    var r := NatToDecimal(n);
    if n >= 10 {
      NatToDecimalRoundTrip(n / 10);
      assert r[..|r| - 1] == NatToDecimal(n / 10);
    }
  }

  /** Leading zeros do not change the value of a numeral. */
  lemma {:induction false} LeadingZeroValue(s: string)
    requires AllDigits(s)
    ensures AllDigits("0" + s) && DigitsValue("0" + s) == DigitsValue(s)
    decreases |s|
  {
    if s != [] {
      LeadingZeroValue(s[..|s| - 1]);
      assert ("0" + s)[..|s|] == "0" + s[..|s| - 1];
    }
  }

  function Pow10(k: nat): (p: nat)
    ensures p >= 1
  {
    if k == 0 then 1 else 10 * Pow10(k - 1)
  }

  /** The numeral of `n` has at most k digits exactly when n is below 10^k. */
  lemma {:induction false} NatToDecimalLength(n: nat, k: nat)
    requires 1 <= k
    ensures |NatToDecimal(n)| <= k <==> n < Pow10(k)
  {
    if n >= 10 && k > 1 {
      NatToDecimalLength(n / 10, k - 1);
    } else if n >= 10 {
      assert |NatToDecimal(n)| >= 2 by {
        assert |NatToDecimal(n)| == |NatToDecimal(n / 10)| + 1;
      }
    } else if k > 1 {
      assert Pow10(k) == 10 * Pow10(k - 1);
    }
  }

  /** The numeral of `n` padded with zeros on the left to `width` digits. */
  function ZeroPad(n: nat, width: nat): (r: string)
    ensures |r| >= width && AllDigits(r)
    decreases width
  {
    var d := NatToDecimal(n);
    if |d| >= width then d else "0" + ZeroPad(n, width - 1)
  }

  /** Padding keeps the value; the padded numeral of a number below
      10^width has exactly `width` digits. */
  lemma ZeroPadSpec(n: nat, width: nat)
    ensures DigitsValue(ZeroPad(n, width)) == n
    ensures 1 <= width && n < Pow10(width) ==> |ZeroPad(n, width)| == width
  {
    ZeroPadValue(n, width);
    if 1 <= width && n < Pow10(width) {
      ZeroPadLength(n, width);
    }
  }

  lemma {:induction false} ZeroPadValue(n: nat, width: nat)
    ensures DigitsValue(ZeroPad(n, width)) == n
    decreases width
  {
    if |NatToDecimal(n)| < width {
      ZeroPadValue(n, width - 1);
      LeadingZeroValue(ZeroPad(n, width - 1));
    } else {
      NatToDecimalRoundTrip(n);
    }
  }

  lemma {:induction false} ZeroPadLength(n: nat, width: nat)
    requires 1 <= width && n < Pow10(width)
    ensures |ZeroPad(n, width)| == width
    decreases width
  {
    if |NatToDecimal(n)| < width {
      NatToDecimalLength(n, width - 1);
      ZeroPadLength(n, width - 1);
    } else {
      NatToDecimalLength(n, width);
    }
  }
}
