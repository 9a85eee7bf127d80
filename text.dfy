/** The few Python string operations the program relies on: `str()` of a natural number,
    `int()` of a digit string, `str.split(sep)` with an explicit one-character separator
    and `str.splitlines()`. */
module Text {

  predicate IsDigit(c: char) { '0' <= c <= '9' }

  predicate IsAsciiLetter(c: char) { 'A' <= c <= 'Z' || 'a' <= c <= 'z' }

  predicate AllDigits(s: string) { forall i :: 0 <= i < |s| ==> IsDigit(s[i]) }

  function DigitChar(d: nat): (c: char)
    requires d < 10
    ensures IsDigit(c) && c as int - '0' as int == d
  {
    ('0' as int + d) as char
  }

  function DigitValue(c: char): nat
    requires IsDigit(c)
  {
    c as int - '0' as int
  }

  // ---------------------------------------------------------------------------
  // Decimal notation

  /** `str(n)` for a natural number: decimal digits without sign or leading zeros. */
  function NatToString(n: nat): (s: string)
    ensures |s| >= 1 && AllDigits(s)
    ensures s[0] == '0' ==> n == 0
    decreases n
  {
    if n < 10 then [DigitChar(n)] else NatToString(n / 10) + [DigitChar(n % 10)]
  }

  /** `int(s)` for a non-empty string of decimal digits (leading zeros are allowed);
      the empty string has value 0 here, which the program never asks for. */
  function DigitsValue(s: string): nat
    requires AllDigits(s)
    decreases |s|
  {
    if s == [] then 0 else DigitsValue(s[..|s| - 1]) * 10 + DigitValue(s[|s| - 1])
  }

  /** Reading back the decimal notation of a number gives the number. */
  lemma {:induction false} DigitsValueOfNatToString(n: nat)
    ensures DigitsValue(NatToString(n)) == n
    decreases n
  {
    if n >= 10 {
      var s := NatToString(n / 10);
      DigitsValueOfNatToString(n / 10);
      assert NatToString(n) == s + [DigitChar(n % 10)];
      assert (s + [DigitChar(n % 10)])[..|s|] == s;
    }
  }

  /** Different numbers have different decimal notations. */
  lemma NatToStringInjective(m: nat, n: nat)
    requires NatToString(m) == NatToString(n)
    ensures m == n
  {
    DigitsValueOfNatToString(m);
    DigitsValueOfNatToString(n);
  }

  // ---------------------------------------------------------------------------
  // str.split(sep)

  /** Index of the first occurrence of `c` in `s`, or `|s|` when there is none. */
  function FirstIndex(s: string, c: char): (i: nat)
    ensures i <= |s|
    ensures i < |s| ==> s[i] == c
    ensures forall k :: 0 <= k < i ==> s[k] != c
    decreases |s|
  {
    if s == [] then 0 else if s[0] == c then 0 else 1 + FirstIndex(s[1..], c)
  }

  /** Python's `s.split(sep)`: the pieces between separators, empty pieces kept, and
      always at least one piece. */
  function Split(s: string, sep: char): (fields: seq<string>)
    ensures |fields| >= 1
    ensures forall i :: 0 <= i < |fields| ==> sep !in fields[i]
    decreases |s|
  {
    var i := FirstIndex(s, sep);
    if i == |s| then [s] else [s[..i]] + Split(s[i + 1..], sep)
  }

  /** Python's `sep.join(fields)`. */
  function Join(fields: seq<string>, sep: char): string
    decreases |fields|
  {
    if fields == [] then ""
    else if |fields| == 1 then fields[0]
    else fields[0] + [sep] + Join(fields[1..], sep)
  }

  /** Splitting loses nothing: joining the pieces with the separator gives the string back. */
  lemma {:induction false} JoinSplit(s: string, sep: char)
    ensures Join(Split(s, sep), sep) == s
    decreases |s|
  {
    var i := FirstIndex(s, sep);
    if i < |s| {
      var tail := s[i + 1..];
      SplitFirst(s, sep);
      JoinCons(s[..i], Split(tail, sep), sep);
      JoinSplit(tail, sep);
      assert s == s[..i] + [sep] + tail;
    }
  }

  /** The first piece of a string that holds the separator ends at its first occurrence. */
  lemma SplitFirst(s: string, sep: char)
    requires FirstIndex(s, sep) < |s|
    ensures var i := FirstIndex(s, sep);
            Split(s, sep) == [s[..i]] + Split(s[i + 1..], sep)
  {
  }

  /** Joining a piece in front of at least one more. */
  lemma JoinCons(first: string, rest: seq<string>, sep: char)
    requires |rest| >= 1
    ensures Join([first] + rest, sep) == first + [sep] + Join(rest, sep)
  {
    assert ([first] + rest)[1..] == rest;
  }

  lemma FirstIndexAbsent(s: string, c: char)
    requires c !in s
    ensures FirstIndex(s, c) == |s|
  {
  }

  lemma FirstIndexAfterPrefix(p: string, c: char, rest: string)
    requires c !in p
    ensures FirstIndex(p + [c] + rest, c) == |p|
  {
    var s := p + [c] + rest;
    var i := FirstIndex(s, c);
    assert s[|p|] == c;
  }

  /** Splitting a join of separator-free pieces gives back exactly those pieces. */
  lemma {:induction false} SplitJoin(fields: seq<string>, sep: char)
    requires |fields| >= 1
    requires forall i :: 0 <= i < |fields| ==> sep !in fields[i]
    ensures Split(Join(fields, sep), sep) == fields
    decreases |fields|
  {
    if |fields| == 1 {
      FirstIndexAbsent(fields[0], sep);
    } else {
      var rest := Join(fields[1..], sep);
      var s := fields[0] + [sep] + rest;
      assert Join(fields, sep) == s;
      FirstIndexAfterPrefix(fields[0], sep, rest);
      assert s[..|fields[0]|] == fields[0];
      assert s[|fields[0]| + 1..] == rest;
      assert Split(s, sep) == [fields[0]] + Split(rest, sep);
      SplitJoin(fields[1..], sep);
      assert fields == [fields[0]] + fields[1..];
    }
  }

  // ---------------------------------------------------------------------------
  // str.splitlines()

  /** The line boundaries of Python's `str.splitlines`: \n, \r, \v, \f, the file, group
      and record separators, NEL and the Unicode line and paragraph separators
      (the pair \r\n counts as one boundary). */
  predicate IsLineBreak(c: char)
  {
    c == '\n' || c == '\r' || c == 11 as char || c == 12 as char || c == 28 as char
    || c == 29 as char || c == 30 as char || c == 133 as char || c == 0x2028 as char
    || c == 0x2029 as char
  }

  predicate NoLineBreak(s: string) { forall i :: 0 <= i < |s| ==> !IsLineBreak(s[i]) }

  /** Index of the first line boundary in `s`, or `|s|` when there is none. */
  function FirstLineBreak(s: string): (i: nat)
    ensures i <= |s|
    ensures i < |s| ==> IsLineBreak(s[i])
    ensures NoLineBreak(s[..i])
    ensures forall k :: 0 <= k < i ==> !IsLineBreak(s[k])
    decreases |s|
  {
    if s == [] then 0
    else if IsLineBreak(s[0]) then 0
    else
      var j := FirstLineBreak(s[1..]);
      assert s[..1 + j] == [s[0]] + s[1..][..j];
      1 + j
  }

  /** Width of the boundary at `i`: two characters for \r\n, otherwise one. */
  function BreakWidth(s: string, i: nat): nat
    requires i < |s|
  {
    if s[i] == '\r' && i + 1 < |s| && s[i + 1] == '\n' then 2 else 1
  }

  /** Python's `s.splitlines()`: the lines without their terminators; a final
      terminator does not open an empty last line. */
  function SplitLines(s: string): (lines: seq<string>)
    ensures forall i :: 0 <= i < |lines| ==> NoLineBreak(lines[i])
    ensures lines == [] <==> s == []
    ensures s != [] && NoLineBreak(s) ==> lines == [s]
    decreases |s|
  {
    if s == [] then []
    else
      var i := FirstLineBreak(s);
      if i == |s| then
        assert s[..i] == s;
        [s]
      else
        [s[..i]] + SplitLines(s[i + BreakWidth(s, i)..])
  }

  /** The text of `lines`, each one terminated by "\n". */
  function JoinLines(lines: seq<string>): string
    decreases |lines|
  {
    if lines == [] then "" else lines[0] + "\n" + JoinLines(lines[1..])
  }

  /** Joining break-free pieces with a separator that is no line boundary gives a
      single line. */
  lemma {:induction false} JoinNoLineBreak(fields: seq<string>, sep: char)
    requires !IsLineBreak(sep)
    requires forall i :: 0 <= i < |fields| ==> NoLineBreak(fields[i])
    ensures NoLineBreak(Join(fields, sep))
    decreases |fields|
  {
    if |fields| > 1 {
      JoinNoLineBreak(fields[1..], sep);
      var rest := Join(fields[1..], sep);
      var s := fields[0] + [sep] + rest;
      forall k | 0 <= k < |s| ensures !IsLineBreak(s[k]) {
        if k < |fields[0]| {
          assert s[k] == fields[0][k];
        } else if k > |fields[0]| {
          assert s[k] == rest[k - |fields[0]| - 1];
        }
      }
    }
  }

  /** Reading lines back from a text written one line per "\n" gives exactly those lines. */
  lemma {:induction false} SplitJoinLines(lines: seq<string>)
    requires forall i :: 0 <= i < |lines| ==> NoLineBreak(lines[i])
    ensures SplitLines(JoinLines(lines)) == lines
    decreases |lines|
  {
    if lines != [] {
      var rest := JoinLines(lines[1..]);
      assert JoinLines(lines) == lines[0] + "\n" + rest;
      FirstLineOfJoin(lines[0], rest);
      SplitJoinLines(lines[1..]);
      assert lines == [lines[0]] + lines[1..];
    }
  }

  /** A break-free line followed by any line boundary is split off as the first line;
      the boundary is dropped, and with it a "\n" that directly follows a "\r". With
      the two ensures of `SplitLines` this fixes `splitlines` on every text. */
  lemma SplitFirstLine(line: string, b: char, rest: string)
    requires NoLineBreak(line) && IsLineBreak(b)
    ensures SplitLines(line + [b] + rest)
            == [line] + SplitLines(if b == '\r' && rest != [] && rest[0] == '\n' then rest[1..] else rest)
  {
    var s := line + [b] + rest;
    var i := |line|;
    FirstLineBreakAt(line, b, rest);
    assert s[..i] == line;
    if b == '\r' && rest != [] && rest[0] == '\n' {
      assert BreakWidth(s, i) == 2;
      assert s[i + 2..] == rest[1..];
    } else {
      assert BreakWidth(s, i) == 1;
      assert s[i + 1..] == rest;
    }
  }

  lemma FirstLineBreakAt(line: string, b: char, rest: string)
    requires NoLineBreak(line) && IsLineBreak(b)
    ensures FirstLineBreak(line + [b] + rest) == |line|
  {
    var s := line + [b] + rest;
    assert s[|line|] == b;
    assert FirstLineBreak(s) <= |line|;
  }

  /** A break-free line followed by "\n" is split off as the first line. */
  lemma FirstLineOfJoin(line: string, rest: string)
    requires NoLineBreak(line)
    ensures SplitLines(line + "\n" + rest) == [line] + SplitLines(rest)
  {
    var s := line + "\n" + rest;
    var i := FirstLineBreak(s);
    assert s[|line|] == '\n';
    assert i == |line| && BreakWidth(s, i) == 1;
    assert s[..|line|] == line;
    assert s[|line| + 1..] == rest;
  }
}
