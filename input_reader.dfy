/** The reader of `.inp` input descriptions, `BVStructure.__init__` (bv2.py). The text
    is split into lines with `splitlines` and each line into tab-separated fields:
    line 0 names the conductor, line 1 holds the lattice parameters, line 2 the volume,
    lines 3 to 5 the lattice vectors, line 6 is a header that is skipped, and every line
    from 7 on describes one site. A missing line or field is Python's IndexError. The
    numbers stay text here: the conversion of the vectors to floats is not modelled. */
module InputReader {
  import opened Outcomes
  import opened Text

  /** One site of the input: label, element, oxidation state and the three coordinates. */
  datatype SiteRecord = SiteRecord(
    siteLabel: string, element: string, oxState: string, a: string, b: string, c: string)

  datatype InputDescription = InputDescription(
    conductor: seq<string>, params: seq<string>, volume: string,
    vectors: seq<seq<string>>, sites: seq<SiteRecord>)

  datatype ReadError = IndexOutOfRange

  const Tab: char := '\t'

  /** The tab-separated fields of a line. */
  function Fields(line: string): (f: seq<string>)
    ensures |f| >= 1
  {
    Split(line, Tab)
  }

  /** The site of a line with at least six fields; further fields are ignored. */
  function SiteOf(data: seq<string>): (site: SiteRecord)
    requires |data| >= 6
    ensures SiteFields(site) == data[..6]
  {
    SiteRecord(data[0], data[1], data[2], data[3], data[4], data[5])
  }

  /** Lines 3 to 5 exist and have at least three fields each. */
  predicate VectorLinesOk(lines: seq<string>)
  {
    |lines| >= 6 && forall i :: 3 <= i < 6 ==> |Fields(lines[i])| >= 3
  }

  /** The first three fields of lines 3 to 5. */
  function VectorsOf(lines: seq<string>): (v: seq<seq<string>>)
    requires VectorLinesOk(lines)
    ensures |v| == 3 && forall i :: 0 <= i < 3 ==> |v[i]| == 3
  {
    seq(3, i requires 0 <= i < 3 => Fields(lines[i + 3])[..3])
  }

  /** Every line from 7 on has at least six fields. */
  predicate SiteLinesOk(lines: seq<string>)
  {
    forall i :: 7 <= i < |lines| ==> |Fields(lines[i])| >= 6
  }

  function SiteCount(lines: seq<string>): nat
  {
    if |lines| <= 7 then 0 else |lines| - 7
  }

  /** One site per line from 7 on. */
  function SitesOf(lines: seq<string>): (s: seq<SiteRecord>)
    requires SiteLinesOk(lines)
    ensures |s| == SiteCount(lines)
  {
    seq(SiteCount(lines), k requires 0 <= k < SiteCount(lines) => SiteOf(Fields(lines[k + 7])))
  }

  /** Reference definition of what the reader produces from the lines of the text: an
      IndexError unless every field it indexes exists. */
  function ReadLines(lines: seq<string>): (r: Result<InputDescription, ReadError>)
    ensures r.Ok? <==> VectorLinesOk(lines) && SiteLinesOk(lines)
    ensures r.Ok? ==> |r.value.vectors| == 3 && forall i :: 0 <= i < 3 ==> |r.value.vectors[i]| == 3
    ensures r.Ok? ==> |r.value.sites| == SiteCount(lines)
  {
    if !VectorLinesOk(lines) || !SiteLinesOk(lines) then Err(IndexOutOfRange)
    else
      Ok(InputDescription(Fields(lines[0]), Fields(lines[1]), Fields(lines[2])[0],
                          VectorsOf(lines), SitesOf(lines)))
  }

  /** The reader on the whole text. */
  function ReadText(text: string): Result<InputDescription, ReadError>
  {
    ReadLines(SplitLines(text))
  }

  /** `BVStructure.__init__`: the fields are read in the order of the source, the vector
      lines and the site lines each in their own loop. */
  method ReadInput(text: string) returns (r: Result<InputDescription, ReadError>)
    ensures r == ReadText(text)
  {
    var lines := SplitLines(text);
    if |lines| < 3 {
      return Err(IndexOutOfRange);
    }
    var conductor := Fields(lines[0]);
    var params := Fields(lines[1]);
    var volume := Fields(lines[2])[0];
    var vectors := ReadVectors(lines);
    if vectors.None? {
      return Err(IndexOutOfRange);
    }
    var sites := ReadSites(lines);
    if sites.None? {
      return Err(IndexOutOfRange);
    }
    r := Ok(InputDescription(conductor, params, volume, vectors.value, sites.value));
  }

  /** The loop over lines 3 to 5, with its inner loop over the first three fields. */
  method ReadVectors(lines: seq<string>) returns (r: Option<seq<seq<string>>>)
    ensures r.Some? <==> VectorLinesOk(lines)
    ensures r.Some? ==> r.value == VectorsOf(lines)
  {
    var vectors: seq<seq<string>> := [];
    for i := 3 to 6
      invariant |vectors| == i - 3 && (i > 3 ==> i <= |lines|)
      invariant forall k :: 3 <= k < i ==> |Fields(lines[k])| >= 3 && vectors[k - 3] == Fields(lines[k])[..3]
    {
      if i >= |lines| {
        return None;
      }
      var cols := Fields(lines[i]);
      if |cols| < 3 {
        return None;
      }
      var row: seq<string> := [];
      for j := 0 to 3
        invariant row == cols[..j]
      {
        row := row + [cols[j]];
      }
      vectors := vectors + [row];
    }
    r := Some(vectors);
  }

  /** The loop over the site lines, from line 7 to the end. */
  method ReadSites(lines: seq<string>) returns (r: Option<seq<SiteRecord>>)
    ensures r.Some? <==> SiteLinesOk(lines)
    ensures r.Some? ==> r.value == SitesOf(lines)
  {
    var sites: seq<SiteRecord> := [];
    var i := 7;
    while i < |lines|
      invariant 7 <= i && (i > 7 ==> i <= |lines|)
      invariant |sites| == i - 7
      invariant forall k :: 7 <= k < i ==> |Fields(lines[k])| >= 6 && sites[k - 7] == SiteOf(Fields(lines[k]))
    {
      var data := Fields(lines[i]);
      if |data| < 6 {
        return None;
      }
      sites := sites + [SiteOf(data)];
      i := i + 1;
    }
    r := Some(sites);
  }

  // ---------------------------------------------------------------------------
  // Properties

  /** Line 6 is never looked at. */
  lemma HeaderIgnored(lines: seq<string>, header: string)
    requires |lines| >= 7
    ensures ReadLines(lines[6 := header]) == ReadLines(lines)
  {
    var other := lines[6 := header];
    assert forall i :: 0 <= i < |lines| && i != 6 ==> other[i] == lines[i];
    if VectorLinesOk(lines) && SiteLinesOk(lines) {
      assert VectorsOf(other) == VectorsOf(lines);
      assert SitesOf(other) == SitesOf(lines);
    }
  }

  /** A field that can be written on one line between tabs. */
  predicate PlainField(s: string) { Tab !in s && NoLineBreak(s) }

  predicate PlainFields(fs: seq<string>) { forall i :: 0 <= i < |fs| ==> PlainField(fs[i]) }

  /** The fields of a site line, in the order read back. */
  function SiteFields(s: SiteRecord): seq<string>
  {
    [s.siteLabel, s.element, s.oxState, s.a, s.b, s.c]
  }

  /** A description the reader can produce from text and the writer can put on lines:
      plain, non-empty conductor and parameter lists, three vectors of three plain
      fields, plain volume and site fields. */
  predicate Writable(d: InputDescription)
  {
    && |d.conductor| >= 1 && PlainFields(d.conductor)
    && |d.params| >= 1 && PlainFields(d.params)
    && PlainField(d.volume)
    && |d.vectors| == 3 && (forall i :: 0 <= i < 3 ==> |d.vectors[i]| == 3 && PlainFields(d.vectors[i]))
    && (forall k :: 0 <= k < |d.sites| ==> PlainFields(SiteFields(d.sites[k])))
  }

  /** The lines of a description laid out as the reader expects them; each vector line
      ends with a tab, as `create_input_from_cif` writes it. */
  function RenderLines(d: InputDescription, header: string): seq<string>
    requires |d.vectors| == 3
  {
    [Join(d.conductor, Tab), Join(d.params, Tab), d.volume,
     Join(d.vectors[0] + [""], Tab), Join(d.vectors[1] + [""], Tab), Join(d.vectors[2] + [""], Tab),
     header]
    + seq(|d.sites|, k requires 0 <= k < |d.sites| => Join(SiteFields(d.sites[k]), Tab))
  }

  lemma PlainJoin(fs: seq<string>)
    requires |fs| >= 1 && PlainFields(fs)
    ensures Fields(Join(fs, Tab)) == fs
    ensures NoLineBreak(Join(fs, Tab))
  {
    SplitJoin(fs, Tab);
    JoinNoLineBreak(fs, Tab);
  }

  /** Each rendered line is one line, and splits into the fields it was made of. */
  lemma RenderedLines(d: InputDescription, header: string)
    requires Writable(d) && NoLineBreak(header)
    ensures var lines := RenderLines(d, header);
            && |lines| == 7 + |d.sites|
            && (forall i :: 0 <= i < |lines| ==> NoLineBreak(lines[i]))
            && Fields(lines[0]) == d.conductor && Fields(lines[1]) == d.params
            && Fields(lines[2]) == [d.volume]
            && (forall i :: 0 <= i < 3 ==> Fields(lines[i + 3]) == d.vectors[i] + [""])
            && (forall k :: 0 <= k < |d.sites| ==> Fields(lines[k + 7]) == SiteFields(d.sites[k]))
  {
    var lines := RenderLines(d, header);
    PlainJoin(d.conductor);
    PlainJoin(d.params);
    PlainJoin([d.volume]);
    assert Join([d.volume], Tab) == d.volume;
    forall i | 0 <= i < 3
      ensures Fields(lines[i + 3]) == d.vectors[i] + [""]
      ensures NoLineBreak(lines[i + 3])
    {
      assert PlainFields(d.vectors[i] + [""]);
      PlainJoin(d.vectors[i] + [""]);
    }
    forall k | 0 <= k < |d.sites|
      ensures Fields(lines[k + 7]) == SiteFields(d.sites[k])
      ensures NoLineBreak(lines[k + 7])
    {
      PlainJoin(SiteFields(d.sites[k]));
    }
  }

  /** Lines whose fields are those of a description with three three-field vectors are
      read back as that description. */
  lemma ReadFields(d: InputDescription, lines: seq<string>)
    requires |lines| == 7 + |d.sites|
    requires |d.vectors| == 3 && forall i :: 0 <= i < 3 ==> |d.vectors[i]| == 3
    requires Fields(lines[0]) == d.conductor && Fields(lines[1]) == d.params
    requires Fields(lines[2]) == [d.volume]
    requires forall i :: 0 <= i < 3 ==> Fields(lines[i + 3]) == d.vectors[i] + [""]
    requires forall k :: 0 <= k < |d.sites| ==> Fields(lines[k + 7]) == SiteFields(d.sites[k])
    ensures ReadLines(lines) == Ok(d)
  {
    forall i | 3 <= i < 6 ensures |Fields(lines[i])| >= 3 {
      assert Fields(lines[(i - 3) + 3]) == d.vectors[i - 3] + [""];
    }
    forall i | 7 <= i < |lines| ensures |Fields(lines[i])| >= 6 {
      assert Fields(lines[(i - 7) + 7]) == SiteFields(d.sites[i - 7]);
    }
    assert VectorsOf(lines) == d.vectors by {
      forall i | 0 <= i < 3 ensures VectorsOf(lines)[i] == d.vectors[i] {
        assert (d.vectors[i] + [""])[..3] == d.vectors[i];
      }
    }
    assert SitesOf(lines) == d.sites;
  }

  /** Reading a rendered description gives the description back, whatever the header. */
  lemma ReadRendered(d: InputDescription, header: string)
    requires Writable(d) && NoLineBreak(header)
    ensures ReadText(JoinLines(RenderLines(d, header))) == Ok(d)
  {
    var lines := RenderLines(d, header);
    RenderedLines(d, header);
    SplitJoinLines(lines);
    ReadFields(d, lines);
  }
}
