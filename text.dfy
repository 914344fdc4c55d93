/**
 * The Python string semantics the repo backend relies on: whitespace,
 * str.strip, str.join, str.split, str(int), int(str), str.isnumeric and
 * textwrap.indent.  Python strings are modelled as sequences of code points.
 */
module PyText {
  import opened Wrappers

  /** str.isspace(): the characters `\s` matches in a str pattern and str.strip() removes. */
  predicate IsSpace(c: char) {
    || c == ' '
    || ('\t' <= c <= '\r')
    || ('\U{1c}' <= c <= '\U{1f}')
    || c == '\U{85}' || c == '\U{a0}' || c == '\U{1680}'
    || ('\U{2000}' <= c <= '\U{200a}')
    || c == '\U{2028}' || c == '\U{2029}' || c == '\U{202f}' || c == '\U{205f}' || c == '\U{3000}'
  }

  /** A string that str.strip() reduces to "". */
  predicate IsBlank(s: string) {
    forall i :: 0 <= i < |s| ==> IsSpace(s[i])
  }

  predicate IsDigit(c: char) {
    '0' <= c <= '9'
  }

  predicate AllDigits(s: string) {
    forall i :: 0 <= i < |s| ==> IsDigit(s[i])
  }

  /** s starts with the literal prefix p. */
  predicate StartsWith(s: string, p: string) {
    |p| <= |s| && s[..|p|] == p
  }

  /** str.lstrip(): the suffix of s after its leading whitespace. */
  function LStrip(s: string): string
    decreases |s|
  {
    if s != [] && IsSpace(s[0]) then LStrip(s[1..]) else s
  }

  /** str.rstrip(): the prefix of s before its trailing whitespace. */
  function RStrip(s: string): string
    decreases |s|
  {
    if s != [] && IsSpace(s[|s| - 1]) then RStrip(s[..|s| - 1]) else s
  }

  /** str.lstrip() removes a whitespace prefix and nothing more. */
  lemma {:induction false} LStripShape(s: string)
    ensures |LStrip(s)| <= |s| && LStrip(s) == s[|s| - |LStrip(s)|..]
    ensures forall i :: 0 <= i < |s| - |LStrip(s)| ==> IsSpace(s[i])
    ensures LStrip(s) != [] ==> !IsSpace(LStrip(s)[0])
    decreases |s|
  {
    if s != [] && IsSpace(s[0]) {
      LStripShape(s[1..]);
    }
  }

  /** str.rstrip() removes a whitespace suffix and nothing more. */
  lemma {:induction false} RStripShape(s: string)
    ensures |RStrip(s)| <= |s| && RStrip(s) == s[..|RStrip(s)|]
    ensures forall i :: |RStrip(s)| <= i < |s| ==> IsSpace(s[i])
    ensures RStrip(s) != [] ==> !IsSpace(RStrip(s)[|RStrip(s)| - 1])
    decreases |s|
  {
    if s != [] && IsSpace(s[|s| - 1]) {
      RStripShape(s[..|s| - 1]);
    }
  }

  /** str.strip(): s without its leading and trailing whitespace. */
  function Strip(s: string): (r: string)
    ensures |r| <= |s|
    ensures r != [] ==> !IsSpace(r[0]) && !IsSpace(r[|r| - 1])
    ensures r == [] <==> IsBlank(s)
    ensures (s == [] || (!IsSpace(s[0]) && !IsSpace(s[|s| - 1]))) ==> r == s
    ensures var i := |s| - |LStrip(s)|;
            0 <= i && i + |r| <= |s| && r == s[i..i + |r|] && IsBlank(s[..i]) && IsBlank(s[i + |r|..])
  {
    LStripShape(s);
    RStripShape(LStrip(s));
    StripCut(s, |s| - |LStrip(s)|, |RStrip(LStrip(s))|);
    RStrip(LStrip(s))
  }

  /** Cutting a whitespace prefix of length i, then keeping n characters of a whitespace-ended remainder. */
  lemma StripCut(s: string, i: nat, n: nat)
    requires i + n <= |s|
    requires forall k :: 0 <= k < i ==> IsSpace(s[k])
    requires forall k :: n <= k < |s| - i ==> IsSpace(s[i..][k])
    ensures IsBlank(s[..i]) && IsBlank(s[i + n..])
    ensures s[i..][..n] == s[i..i + n]
  {
    forall k | 0 <= k < i
      ensures IsSpace(s[..i][k])
    {
      assert s[..i][k] == s[k];
    }
    var tail := s[i + n..];
    forall k | 0 <= k < |tail|
      ensures IsSpace(tail[k])
    {
      assert tail[k] == s[i..][n + k];
    }
  }

  lemma StripIdempotent(s: string)
    ensures Strip(Strip(s)) == Strip(s)
  {
  }

  /** sep.join(parts). */
  function Join(parts: seq<string>, sep: string): string
    decreases |parts|
  {
    if |parts| == 0 then ""
    else if |parts| == 1 then parts[0]
    else parts[0] + sep + Join(parts[1..], sep)
  }

  /** s.split(sep) for a one-character separator: the maximal separator-free pieces, in order. */
  function Split(s: string, sep: char): (r: seq<string>)
    ensures |r| > 0
    decreases |s|
  {
    if s == [] then [""]
    else if s[0] == sep then [""] + Split(s[1..], sep)
    else
      var rest := Split(s[1..], sep);
      [[s[0]] + rest[0]] + rest[1..]
  }

  /** A separator-free prefix glues onto the first piece of what follows it. */
  lemma {:induction false} SplitPrefix(x: string, t: string, sep: char)
    requires sep !in x
    ensures Split(x + t, sep) == [x + Split(t, sep)[0]] + Split(t, sep)[1..]
    decreases |x|
  {
    if x != [] {
      assert (x + t)[1..] == x[1..] + t;
      SplitPrefix(x[1..], t, sep);
      assert [x[0]] + (x[1..] + Split(t, sep)[0]) == x + Split(t, sep)[0];
    } else {
      assert x + t == t;
      assert x + Split(t, sep)[0] == Split(t, sep)[0];
      assert Split(t, sep) == [Split(t, sep)[0]] + Split(t, sep)[1..];
    }
  }

  /** Splitting a join on its separator gives the parts back, when no part holds the separator. */
  lemma {:induction false} SplitJoin(parts: seq<string>, sep: char)
    requires |parts| > 0
    requires forall i :: 0 <= i < |parts| ==> sep !in parts[i]
    ensures Split(Join(parts, [sep]), sep) == parts
    decreases |parts|
  {
    if |parts| == 1 {
      SplitPrefix(parts[0], "", sep);
      assert parts[0] + "" == parts[0];
    } else {
      var tail := Join(parts[1..], [sep]);
      SplitJoin(parts[1..], sep);
      assert Join(parts, [sep]) == parts[0] + ([sep] + tail);
      SplitPrefix(parts[0], [sep] + tail, sep);
      assert ([sep] + tail)[1..] == tail;
      assert parts[0] + "" == parts[0];
      assert parts == [parts[0]] + parts[1..];
    }
  }

  /** The lines that are not empty, in order. */
  function NonEmptyLines(lines: seq<string>): (r: seq<string>)
    ensures forall i :: 0 <= i < |r| ==> r[i] != ""
    ensures |r| <= |lines|
  {
    if lines == [] then []
    else if lines[0] == "" then NonEmptyLines(lines[1..])
    else [lines[0]] + NonEmptyLines(lines[1..])
  }

  /** joinLines(*lines): the non-empty lines joined with newlines. */
  function JoinLines(lines: seq<string>): string {
    Join(NonEmptyLines(lines), "\n")
  }

  /** The line boundaries str.splitlines() recognises. */
  predicate IsLineBreak(c: char) {
    || c == '\n' || c == '\r' || c == '\U{0b}' || c == '\U{0c}'
    || ('\U{1c}' <= c <= '\U{1e}')
    || c == '\U{85}' || c == '\U{2028}' || c == '\U{2029}'
  }

  /** The length of the first line of s, its line boundary ("\r\n" counting as one) included. */
  function FirstLineLength(s: string): (n: nat)
    requires s != []
    ensures 0 < n <= |s|
    ensures forall i :: 0 <= i < n - 1 ==> !IsLineBreak(s[i]) || (i == n - 2 && s[i] == '\r')
    decreases |s|
  {
    if IsLineBreak(s[0]) then (if s[0] == '\r' && |s| > 1 && s[1] == '\n' then 2 else 1)
    else if |s| == 1 then 1
    else 1 + FirstLineLength(s[1..])
  }

  /** textwrap.indent(text, prefix): prefix is put before every line that is not blank. */
  function Indent(text: string, prefix: string): (r: string)
    ensures |r| >= |text|
    decreases |text|
  {
    if text == [] then []
    else
      var n := FirstLineLength(text);
      var line := text[..n];
      (if IsBlank(line) then line else prefix + line) + Indent(text[n..], prefix)
  }

  /** Blank text is left as it is. */
  lemma {:induction false} IndentBlank(text: string, prefix: string)
    requires IsBlank(text)
    ensures Indent(text, prefix) == text
    decreases |text|
  {
    if text != [] {
      var n := FirstLineLength(text);
      BlankSlices(text, n);
      IndentBlank(text[n..], prefix);
      TakeDrop(text, n);
    }
  }

  /**
   * A line followed by more text (the line ending in '\n'), or the last line:
   * textwrap.indent prefixes it exactly when it is not blank, then goes on
   * with the next line.
   */
  lemma IndentLine(line: string, rest: string, prefix: string)
    requires line != [] && (forall k :: 0 <= k < |line| - 1 ==> !IsLineBreak(line[k]))
    requires rest == [] || line[|line| - 1] == '\n'
    ensures Indent(line + rest, prefix) == (if IsBlank(line) then line else prefix + line) + Indent(rest, prefix)
  {
    LineFirst(line, rest);
    assert (line + rest)[..|line|] == line;
    assert (line + rest)[|line|..] == rest;
  }

  /** The first line of `line + rest` is `line`. */
  lemma {:induction false} LineFirst(line: string, rest: string)
    requires line != [] && (forall k :: 0 <= k < |line| - 1 ==> !IsLineBreak(line[k]))
    requires rest == [] || line[|line| - 1] == '\n'
    ensures FirstLineLength(line + rest) == |line|
    decreases |line|
  {
    var s := line + rest;
    assert s[0] == line[0];
    if |line| > 1 {
      assert s[1..] == line[1..] + rest;
      LineFirst(line[1..], rest);
    }
  }

  lemma TakeDrop<T>(s: seq<T>, n: nat)
    requires n <= |s|
    ensures s[..n] + s[n..] == s
  {
  }

  /** Both sides of a cut through blank text are blank. */
  lemma BlankSlices(text: string, n: nat)
    requires IsBlank(text) && n <= |text|
    ensures IsBlank(text[..n]) && IsBlank(text[n..])
  {
    forall i | 0 <= i < n
      ensures IsSpace(text[..n][i])
    {
      assert text[..n][i] == text[i];
    }
    forall i | 0 <= i < |text| - n
      ensures IsSpace(text[n..][i])
    {
      assert text[n..][i] == text[n + i];
    }
  }

  /** str.isnumeric(), restricted to the ASCII digits: non-empty and all digits. */
  predicate IsNumeric(s: string) {
    s != [] && AllDigits(s)
  }

  function DigitValue(c: char): (d: nat)
    requires IsDigit(c)
    ensures d < 10
  {
    c as int - '0' as int
  }

  function DigitChar(d: nat): (c: char)
    requires d < 10
    ensures IsDigit(c) && DigitValue(c) == d
  {
    ('0' as int + d) as char
  }

  /** str(n) for a natural number: its decimal digits, without leading zeros. */
  function NatToString(n: nat): (s: string)
    ensures IsNumeric(s)
    ensures s[0] == '0' ==> n == 0
    decreases n
  {
    if n < 10 then [DigitChar(n)]
    else NatToString(n / 10) + [DigitChar(n % 10)]
  }

  /** str(i) for a Python int. */
  function IntToString(i: int): (s: string)
    ensures s != [] && !IsSpace(s[0]) && !IsSpace(s[|s| - 1])
    ensures IsNumeric(s) <==> i >= 0
  {
    if i < 0 then "-" + NatToString(-i) else NatToString(i)
  }

  /** The value of a string of decimal digits. */
  function DigitsValue(s: string): nat
    requires AllDigits(s)
    decreases |s|
  {
    if s == [] then 0 else DigitsValue(s[..|s| - 1]) * 10 + DigitValue(s[|s| - 1])
  }

  /**
   * int(s) for a str: optional surrounding whitespace, an optional sign and
   * decimal digits.  None stands for the ValueError Python raises otherwise.
   */
  function ParseInt(s: string): Option<int> {
    var t := Strip(s);
    if t == [] then None
    else if t[0] == '-' || t[0] == '+' then
      var digits := t[1..];
      if IsNumeric(digits) then
        var v: int := DigitsValue(digits);
        Some(if t[0] == '-' then -v else v)
      else None
    else if AllDigits(t) then Some(DigitsValue(t))
    else None
  }

  lemma {:induction false} NatToStringValue(n: nat)
    ensures DigitsValue(NatToString(n)) == n
    decreases n
  {
    if n >= 10 {
      var s := NatToString(n);
      NatToStringValue(n / 10);
      assert s[..|s| - 1] == NatToString(n / 10);
    }
  }

  /** int(str(i)) == i. */
  lemma IntToStringParses(i: int)
    ensures ParseInt(IntToString(i)) == Some(i)
  {
    var s := IntToString(i);
    assert Strip(s) == s;
    if i < 0 {
      assert s[1..] == NatToString(-i);
      NatToStringValue(-i);
    } else {
      NatToStringValue(i);
    }
  }

  /** int() of a numeric string is the value of its digits. */
  lemma NumericParses(s: string)
    requires IsNumeric(s)
    ensures ParseInt(s) == Some(DigitsValue(s))
  {
    assert !IsSpace(s[0]) && !IsSpace(s[|s| - 1]);
  }
}
