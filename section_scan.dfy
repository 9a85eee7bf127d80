/** The data-section scan shared by `bvDatToDb` and `ionDatToDb` (fileIO.py) and
    `datToDb` (bvParameters.py): the lines of a softBV parameter file, as `readlines`
    returns them (each with its "\n"), are walked with a `started` flag, and every line
    after the first "DATA_START\n" and before the next "DATA_END\n" is handed on to the
    database. Here the rows handed on are the result. */
module SectionScan {

  const DataStart: string := "DATA_START\n"
  const DataEnd: string := "DATA_END\n"

  /** The first index at or after `from` holding `x`, or `|lines|` when there is none. */
  function IndexFrom(lines: seq<string>, x: string, from: nat): (i: nat)
    requires from <= |lines|
    ensures from <= i <= |lines|
    ensures i < |lines| ==> lines[i] == x
    ensures forall k :: from <= k < i ==> lines[k] != x
    decreases |lines| - from
  {
    if from == |lines| then from
    else if lines[from] == x then from
    else IndexFrom(lines, x, from + 1)
  }

  /** Reference definition of the section: the slice strictly between the first
      "DATA_START\n" and the first "DATA_END\n" after it (or the end of the file). */
  function SectionRows(lines: seq<string>): (rows: seq<string>)
    ensures DataEnd !in rows
    ensures DataStart !in lines ==> rows == []
    ensures DataStart in lines ==>
              var s := IndexFrom(lines, DataStart, 0);
              && s + 1 + |rows| <= |lines| && lines[s + 1..s + 1 + |rows|] == rows
              && (s + 1 + |rows| == |lines| || lines[s + 1 + |rows|] == DataEnd)
  {
    var s := IndexFrom(lines, DataStart, 0);
    if s == |lines| then [] else lines[s + 1..IndexFrom(lines, DataEnd, s + 1)]
  }

  /** The loop of the three converters, with its `started` flag; `rows` collects what
      the loop body passes to the database. */
  method ScanSection(lines: seq<string>) returns (rows: seq<string>)
    ensures rows == SectionRows(lines)
  {
    var started := false;
    rows := [];
    var i := 0;
    ghost var s := IndexFrom(lines, DataStart, 0);
    while i < |lines|
      invariant 0 <= i <= |lines|
      invariant started <==> s < i
      invariant !started ==> rows == [] && forall k :: 0 <= k < i ==> lines[k] != DataStart
      invariant started ==> rows == lines[s + 1..i] && forall k :: s < k < i ==> lines[k] != DataEnd
    {
      var entry := lines[i];
      if started && entry == DataEnd {
        break;
      } else if started {
        rows := rows + [entry];
      } else if entry == DataStart {
        started := true;
      }
      i := i + 1;
    }
    if started {
      assert IndexFrom(lines, DataEnd, s + 1) == i;
    }
  }

  /** Searching past a prefix is searching the rest, offset by the prefix length. */
  lemma {:induction false} IndexFromShift(p: seq<string>, b: seq<string>, x: string, j: nat)
    requires j <= |b|
    ensures IndexFrom(p + b, x, |p| + j) == |p| + IndexFrom(b, x, j)
    decreases |b| - j
  {
    if j < |b| {
      assert (p + b)[|p| + j] == b[j];
      if b[j] != x {
        IndexFromShift(p, b, x, j + 1);
      }
    }
  }

  /** The first occurrence is found. */
  lemma FoundAt(lines: seq<string>, x: string, n: nat)
    requires n < |lines| && lines[n] == x
    requires forall k :: 0 <= k < n ==> lines[k] != x
    ensures IndexFrom(lines, x, 0) == n
  {
  }

  /** Lines before the first "DATA_START\n", among them any early "DATA_END\n", do not
      change the section. */
  lemma PreambleIgnored(preamble: seq<string>, rest: seq<string>)
    requires DataStart !in preamble
    ensures SectionRows(preamble + [DataStart] + rest) == SectionRows([DataStart] + rest)
  {
    var b := [DataStart] + rest;
    var a := preamble + b;
    assert preamble + [DataStart] + rest == a;
    var n := |preamble|;
    forall k | 0 <= k < n ensures a[k] != DataStart {
      assert a[k] == preamble[k];
    }
    assert a[n] == DataStart;
    FoundAt(a, DataStart, n);
    assert IndexFrom(b, DataStart, 0) == 0;
    IndexFromShift(preamble, b, DataEnd, 1);
    var f := IndexFrom(b, DataEnd, 1);
    assert a[n + 1..n + f] == b[1..f];
  }

  /** A terminated section yields exactly its body, even when the body contains
      another "DATA_START\n", and whatever follows the end marker. */
  lemma TerminatedSection(body: seq<string>, rest: seq<string>)
    requires DataEnd !in body
    ensures SectionRows([DataStart] + body + [DataEnd] + rest) == body
  {
    var a := [DataStart] + body + [DataEnd] + rest;
    assert IndexFrom(a, DataStart, 0) == 0;
    var e := IndexFrom(a, DataEnd, 1);
    assert a[|body| + 1] == DataEnd;
    assert a[1..|body| + 1] == body;
  }

  /** Without an end marker every line after the start is a row. */
  lemma UnterminatedSection(body: seq<string>)
    requires DataEnd !in body
    ensures SectionRows([DataStart] + body) == body
  {
    var a := [DataStart] + body;
    assert IndexFrom(a, DataStart, 0) == 0;
    var e := IndexFrom(a, DataEnd, 1);
    assert a[1..] == body;
  }

  /** A file without "DATA_START\n" has no rows. */
  lemma NoStartNoRows(lines: seq<string>)
    requires DataStart !in lines
    ensures SectionRows(lines) == []
  {
    var s := IndexFrom(lines, DataStart, 0);
  }

  /** The marker comparison is exact: an end marker without its "\n" (a last line with
      no line terminator) is an ordinary row. */
  lemma RepeatedStartAndBareEndAreRows()
    ensures SectionRows([DataEnd, DataStart, DataStart, "x\n", "DATA_END", DataEnd, "y\n"])
            == [DataStart, "x\n", "DATA_END"]
  {
    var a := [DataEnd, DataStart, DataStart, "x\n", "DATA_END", DataEnd, "y\n"];
    assert |DataEnd| != |DataStart| && |"x\n"| != |DataEnd| && |"DATA_END"| != |DataEnd|;
    assert IndexFrom(a, DataStart, 0) == 1 by {
      assert a[0] != DataStart;
    }
    assert IndexFrom(a, DataEnd, 2) == 5 by {
      assert IndexFrom(a, DataEnd, 5) == 5;
      assert IndexFrom(a, DataEnd, 4) == 5;
      assert IndexFrom(a, DataEnd, 3) == 5;
    }
    assert a[2..5] == [DataStart, "x\n", "DATA_END"];
  }
}
