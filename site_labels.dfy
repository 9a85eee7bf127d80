/** Site numbering in `create_input_from_cif` (fileIO.py): a dictionary keeps, per site
    label, how many sites with that label have been written so far; each site is written
    as `label.N`, where N is that count before the site, and then the count goes up. */
module SiteLabels {
  import opened Text

  /** How many times `x` occurs in `s`. */
  function Occurrences(s: seq<string>, x: string): nat
    decreases |s|
  {
    if s == [] then 0
    else Occurrences(s[..|s| - 1], x) + (if s[|s| - 1] == x then 1 else 0)
  }

  /** The identifier `label.N` written for a site. */
  function SiteId(siteLabel: string, n: nat): (id: string)
    ensures |id| > |siteLabel| + 1 && id[..|siteLabel|] == siteLabel && id[|siteLabel|] == '.'
    ensures AllDigits(id[|siteLabel| + 1..]) && DigitsValue(id[|siteLabel| + 1..]) == n
  {
    var id := siteLabel + "." + NatToString(n);
    assert id[|siteLabel| + 1..] == NatToString(n);
    DigitsValueOfNatToString(n);
    id
  }

  /** The loop of lines 431-437: first every label's counter is set to 0, then each site
      takes its identifier from its label's counter, which is then incremented. */
  method NumberSites(labels: seq<string>) returns (ids: seq<string>)
    ensures |ids| == |labels|
    ensures forall j :: 0 <= j < |labels| ==> ids[j] == SiteId(labels[j], Occurrences(labels[..j], labels[j]))
    ensures forall i, j :: 0 <= i < j < |ids| ==> ids[i] != ids[j]
  {
    var counters := ZeroCounters(labels);
    assert labels[..0] == [];
    ids := [];
    for i := 0 to |labels|
      invariant Counted(labels, i, counters)
      invariant ids == Numbering(labels[..i])
    {
      var current := labels[i];
      assert counters[current] == Occurrences(labels[..i], current);
      var id := SiteId(current, counters[current]);
      assert labels[..i + 1][..i] == labels[..i];
      ids := ids + [id];
      CountersStep(labels, i, counters);
      counters := counters[current := counters[current] + 1];
    }
    assert labels[..|labels|] == labels;
    NumberingSpec(labels);
    NumberedIdsDistinct(labels, ids);
  }

  /** Reference definition of the identifiers written for `labels`, site by site. */
  ghost function Numbering(labels: seq<string>): (ids: seq<string>)
    ensures |ids| == |labels|
    decreases |labels|
  {
    if labels == [] then []
    else
      var init := labels[..|labels| - 1];
      Numbering(init) + [SiteId(labels[|labels| - 1], Occurrences(init, labels[|labels| - 1]))]
  }

  /** Entry `j` of the numbering is `label.N`, N counting the earlier sites with that
      label. */
  lemma {:induction false} NumberingAt(labels: seq<string>, j: nat)
    requires j < |labels|
    ensures Numbering(labels)[j] == SiteId(labels[j], Occurrences(labels[..j], labels[j]))
    decreases |labels|
  {
    var n := |labels| - 1;
    var init := labels[..n];
    if j < n {
      NumberingAt(init, j);
      assert init[j] == labels[j] && init[..j] == labels[..j];
    }
  }

  lemma NumberingSpec(labels: seq<string>)
    ensures |Numbering(labels)| == |labels|
    ensures forall j :: 0 <= j < |labels| ==>
              Numbering(labels)[j] == SiteId(labels[j], Occurrences(labels[..j], labels[j]))
  {
    forall j | 0 <= j < |labels|
      ensures Numbering(labels)[j] == SiteId(labels[j], Occurrences(labels[..j], labels[j]))
    {
      NumberingAt(labels, j);
    }
  }

  /** Identifiers numbered as `NumberSites` numbers them are pairwise different. */
  lemma NumberedIdsDistinct(labels: seq<string>, ids: seq<string>)
    requires |ids| == |labels|
    requires forall j :: 0 <= j < |labels| ==> ids[j] == SiteId(labels[j], Occurrences(labels[..j], labels[j]))
    ensures forall i, j :: 0 <= i < j < |ids| ==> ids[i] != ids[j]
  {
    SiteIdsDistinct(labels);
  }

  /** The first loop: every label present gets a counter of 0. */
  method ZeroCounters(labels: seq<string>) returns (counters: map<string, nat>)
    ensures forall k :: 0 <= k < |labels| ==> labels[k] in counters && counters[labels[k]] == 0
  {
    counters := map[];
    for i := 0 to |labels|
      invariant forall k :: 0 <= k < i ==> labels[k] in counters && counters[labels[k]] == 0
    {
      counters := counters[labels[i] := 0];
    }
  }

  /** Every label's counter holds its number of occurrences among the first `i` sites. */
  predicate Counted(labels: seq<string>, i: nat, counters: map<string, nat>)
    requires i <= |labels|
  {
    forall k :: 0 <= k < |labels| ==>
      labels[k] in counters && counters[labels[k]] == Occurrences(labels[..i], labels[k])
  }

  /** Incrementing the counter of site `i` accounts for that site. */
  lemma CountersStep(labels: seq<string>, i: nat, counters: map<string, nat>)
    requires i < |labels| && Counted(labels, i, counters)
    ensures Counted(labels, i + 1, counters[labels[i] := counters[labels[i]] + 1])
  {
    OccurrencesStep(labels, i);
  }

  lemma OccurrencesStep(s: seq<string>, i: nat)
    requires i < |s|
    ensures forall x :: Occurrences(s[..i + 1], x) == Occurrences(s[..i], x) + (if s[i] == x then 1 else 0)
  {
    assert s[..i + 1][..i] == s[..i];
  }

  lemma {:induction false} OccurrencesMonotone(s: seq<string>, x: string, i: nat, j: nat)
    requires i <= j <= |s|
    ensures Occurrences(s[..i], x) <= Occurrences(s[..j], x)
    decreases j - i
  {
    if i < j {
      OccurrencesMonotone(s, x, i, j - 1);
      assert s[..j][..j - 1] == s[..j - 1];
    }
  }

  /** In `label.N` the dot before the number is the last dot. */
  lemma LastDot(s: string, l: string, d: string)
    requires s == l + "." + d && AllDigits(d)
    ensures s[|l|] == '.'
    ensures forall k :: |l| < k < |s| ==> s[k] != '.'
  {
    forall k | |l| < k < |s| ensures s[k] != '.' {
      assert s[k] == d[k - |l| - 1];
    }
  }

  /** The label and the number can be read back from an identifier. */
  lemma SiteIdInjective(l1: string, n1: nat, l2: string, n2: nat)
    requires SiteId(l1, n1) == SiteId(l2, n2)
    ensures l1 == l2 && n1 == n2
  {
    var d1, d2 := NatToString(n1), NatToString(n2);
    var s := SiteId(l1, n1);
    LastDot(s, l1, d1);
    LastDot(s, l2, d2);
    assert |l1| == |l2| by {
      assert s[|l1|] == '.' && s[|l2|] == '.';
    }
    assert l1 == s[..|l1|] == l2;
    assert d1 == s[|l1| + 1..] == d2;
    NatToStringInjective(n1, n2);
  }

  /** The identifiers given to the sites are pairwise different. */
  lemma SiteIdsDistinct(labels: seq<string>)
    ensures forall i, j :: 0 <= i < j < |labels| ==>
              SiteId(labels[i], Occurrences(labels[..i], labels[i]))
              != SiteId(labels[j], Occurrences(labels[..j], labels[j]))
  {
    forall i, j | 0 <= i < j < |labels|
      ensures SiteId(labels[i], Occurrences(labels[..i], labels[i]))
              != SiteId(labels[j], Occurrences(labels[..j], labels[j]))
    {
      var x := labels[i];
      if labels[j] == x {
        assert labels[..i + 1][..i] == labels[..i];
        assert Occurrences(labels[..i + 1], x) == Occurrences(labels[..i], x) + 1;
        OccurrencesMonotone(labels, x, i + 1, j);
      }
      if SiteId(x, Occurrences(labels[..i], x)) == SiteId(labels[j], Occurrences(labels[..j], labels[j])) {
        SiteIdInjective(x, Occurrences(labels[..i], x), labels[j], Occurrences(labels[..j], labels[j]));
      }
    }
  }

  /** The first site with a label is numbered 0: `Pb1` becomes `Pb1.0`, a second `Pb1`
      becomes `Pb1.1`. */
  lemma FirstOccurrencesNumbered()
    ensures SiteId("Pb1", Occurrences([], "Pb1")) == "Pb1.0"
    ensures SiteId("Pb1", Occurrences(["Pb1", "F1"], "Pb1")) == "Pb1.1"
  {
    assert ["Pb1", "F1"][..1] == ["Pb1"];
    assert ["Pb1"][..0] == [];
  }
}
