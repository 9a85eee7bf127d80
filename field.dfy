/** The bond-valence sums behind the map (bv2.py): the value of one voxel in
    `BVStructure.populateMap`, the filter that removes the conductor, `deltaBV`, and the
    site sum of `findSiteBVS`. The bond valence `exp((r0 - ri) * ib)` is a parameter,
    of which only positivity is assumed where a proof needs it. */
module Field {
  import opened Outcomes
  import opened Distance

  /** `calcBV(r0, ri, ib)`. */
  type BondValence = (real, real, real) -> real

  ghost predicate PositiveBv(calcBV: BondValence)
  {
    forall r0, ri, ib :: calcBV(r0, ri, ib) > 0.0
  }

  lemma BvPositive(calcBV: BondValence, r0: real, ri: real, ib: real)
    requires PositiveBv(calcBV)
    ensures calcBV(r0, ri, ib) > 0.0
  {
  }

  /** A site of the buffer cell: its species string and its Cartesian position. */
  datatype BufferedSite = BufferedSite(species: string, position: Vec3)

  /** How the distance from a voxel to a site is measured: `calcDistanceWCutoff` as
      written (signed deltas), with absolute deltas as `calc_distance` does, or exactly. */
  datatype Metric = SignedCutoff | AbsoluteCutoff | Exact

  /** What the voxel loop works with: the cutoff radius, the square root, the (r0, ib)
      parameters of every species, the bond-valence formula and the distance used. */
  datatype FieldModel = FieldModel(
    rCutoff: real, sqrt: real -> real, params: string -> (real, real),
    calcBV: BondValence, metric: Metric)

  /** The value a voxel takes when some site is closer than 1 Å. */
  const ClashSentinel: real := 100.0

  function SiteDistance(m: FieldModel, pos: Vec3, s: BufferedSite): real
  {
    match m.metric
    case SignedCutoff => SignedCutoffDistance(m.sqrt, pos, s.position, m.rCutoff)
    case AbsoluteCutoff => CutoffDistance(m.sqrt, pos, s.position, m.rCutoff)
    case Exact => Euclidean(m.sqrt, pos, s.position)
  }

  /** `selectedAtoms`: the sites whose species is not the conductor, in order. */
  function SelectSites(sites: seq<BufferedSite>, conductor: string): (r: seq<BufferedSite>)
    ensures |r| <= |sites|
    ensures forall i :: 0 <= i < |r| ==> r[i].species != conductor && r[i] in sites
    ensures forall i :: 0 <= i < |sites| && sites[i].species != conductor ==> sites[i] in r
    ensures forall x :: multiset(r)[x] == if x.species != conductor then multiset(sites)[x] else 0
    decreases |sites|
  {
    if sites == [] then []
    else
      var init := sites[..|sites| - 1];
      var rest := SelectSites(init, conductor);
      var last := sites[|sites| - 1];
      assert sites == init + [last];
      assert multiset(sites) == multiset(init) + multiset{last};
      if last.species != conductor then
        assert multiset(rest + [last]) == multiset(rest) + multiset{last};
        rest + [last]
      else rest
  }

  /** Some site is closer than 1 Å. */
  predicate HasClash(m: FieldModel, pos: Vec3, sites: seq<BufferedSite>)
  {
    exists i :: 0 <= i < |sites| && SiteDistance(m, pos, sites[i]) < 1.0
  }

  /** The bond valence a site adds: nothing beyond the cutoff. */
  function Contribution(m: FieldModel, pos: Vec3, s: BufferedSite): real
  {
    var ri := SiteDistance(m, pos, s);
    if ri > m.rCutoff then 0.0
    else m.calcBV(m.params(s.species).0, ri, m.params(s.species).1)
  }

  /** The sum of the contributions of the sites, taken in order. */
  function BondSum(m: FieldModel, pos: Vec3, sites: seq<BufferedSite>): real
    decreases |sites|
  {
    if sites == [] then 0.0
    else BondSum(m, pos, sites[..|sites| - 1]) + Contribution(m, pos, sites[|sites| - 1])
  }

  /** Reference definition of a voxel's value: the sentinel on any clash, otherwise the
      bond-valence sum. */
  function VoxelValue(m: FieldModel, pos: Vec3, sites: seq<BufferedSite>): (v: real)
    ensures forall i :: 0 <= i < |sites| && SiteDistance(m, pos, sites[i]) < 1.0 ==> v == ClashSentinel
    ensures (forall i :: 0 <= i < |sites| ==> SiteDistance(m, pos, sites[i]) >= 1.0) ==>
              v == BondSum(m, pos, sites)
  {
    if HasClash(m, pos, sites) then ClashSentinel else BondSum(m, pos, sites)
  }

  /** The loop over `selectedAtoms` for one voxel (bv2.py, populateMap): a site closer
      than 1 Å sets the sum to 100 and ends the loop, a site beyond the cutoff is
      skipped, any other adds its bond valence. */
  method SiteLoop(m: FieldModel, pos: Vec3, sites: seq<BufferedSite>) returns (bvSum: real)
    ensures bvSum == VoxelValue(m, pos, sites)
  {
    bvSum := 0.0;
    var i := 0;
    while i < |sites|
      invariant 0 <= i <= |sites|
      invariant bvSum == BondSum(m, pos, sites[..i])
      invariant forall j :: 0 <= j < i ==> SiteDistance(m, pos, sites[j]) >= 1.0
    {
      var site := sites[i];
      var ri := SiteDistance(m, pos, site);
      if ri < 1.0 {
        bvSum := ClashSentinel;
        return;
      } else if ri > m.rCutoff {
        assert sites[..i + 1][..i] == sites[..i];
      } else {
        var (r0, ib) := m.params(site.species);
        bvSum := bvSum + m.calcBV(r0, ri, ib);
        assert sites[..i + 1][..i] == sites[..i];
      }
      i := i + 1;
    }
    assert sites[..i] == sites;
  }

  // ---------------------------------------------------------------------------
  // Properties of the voxel value

  /** With positive bond valences a sum is never negative. */
  lemma {:induction false} BondSumNonNegative(m: FieldModel, pos: Vec3, sites: seq<BufferedSite>)
    requires PositiveBv(m.calcBV)
    ensures BondSum(m, pos, sites) >= 0.0
    decreases |sites|
  {
    if sites != [] {
      BondSumNonNegative(m, pos, sites[..|sites| - 1]);
      var last := sites[|sites| - 1];
      var ri := SiteDistance(m, pos, last);
      BvPositive(m.calcBV, m.params(last.species).0, ri, m.params(last.species).1);
    }
  }

  /** Every voxel value is between 0 and the sum, or is the sentinel. */
  lemma VoxelValueRange(m: FieldModel, pos: Vec3, sites: seq<BufferedSite>)
    requires PositiveBv(m.calcBV)
    ensures VoxelValue(m, pos, sites) >= 0.0
    ensures VoxelValue(m, pos, sites) == ClashSentinel || !HasClash(m, pos, sites)
  {
    BondSumNonNegative(m, pos, sites);
  }

  /** A site farther than the cutoff changes nothing, when the cutoff is at least 1 Å. */
  lemma FarSiteIgnored(m: FieldModel, pos: Vec3, sites: seq<BufferedSite>, far: BufferedSite)
    requires IsSqrt(m.sqrt) && m.rCutoff >= 1.0
    requires Euclidean(m.sqrt, pos, far.position) > m.rCutoff
    ensures VoxelValue(m, pos, sites + [far]) == VoxelValue(m, pos, sites)
  {
    CutoffClassification(m.sqrt, pos, far.position, m.rCutoff);
    SignedAgreesOnClassification(m.sqrt, pos, far.position, m.rCutoff);
    var all := sites + [far];
    assert all[..|all| - 1] == sites;
    assert SiteDistance(m, pos, far) > m.rCutoff;
    if HasClash(m, pos, all) {
      var i :| 0 <= i < |all| && SiteDistance(m, pos, all[i]) < 1.0;
      assert i < |sites| && all[i] == sites[i];
    }
    if HasClash(m, pos, sites) {
      var i :| 0 <= i < |sites| && SiteDistance(m, pos, sites[i]) < 1.0;
      assert all[i] == sites[i];
    }
  }

  /** The early exit of the distance only saves work: with a cutoff of at least 1 Å each
      site's distance is classified (clash, beyond the cutoff, contributing) as its true
      distance is, and a contributing site gets its true distance. */
  lemma MetricIrrelevantForSite(m: FieldModel, pos: Vec3, s: BufferedSite)
    requires IsSqrt(m.sqrt) && m.rCutoff >= 1.0
    ensures var e := m.(metric := Exact);
            && (SiteDistance(m, pos, s) < 1.0 <==> SiteDistance(e, pos, s) < 1.0)
            && Contribution(m, pos, s) == Contribution(e, pos, s)
  {
    CutoffClassification(m.sqrt, pos, s.position, m.rCutoff);
    CutoffExactWithin(m.sqrt, pos, s.position, m.rCutoff);
    SignedAgreesOnClassification(m.sqrt, pos, s.position, m.rCutoff);
    CutoffExactWithin(m.sqrt, pos, s.position, m.rCutoff);
  }

  lemma {:induction false} BondSumMetricIrrelevant(m: FieldModel, pos: Vec3, sites: seq<BufferedSite>)
    requires IsSqrt(m.sqrt) && m.rCutoff >= 1.0
    ensures BondSum(m, pos, sites) == BondSum(m.(metric := Exact), pos, sites)
    decreases |sites|
  {
    if sites != [] {
      BondSumMetricIrrelevant(m, pos, sites[..|sites| - 1]);
      MetricIrrelevantForSite(m, pos, sites[|sites| - 1]);
    }
  }

  /** Hence every voxel gets the value it would get with exact distances, whichever
      distance function is used, the signed one of `calcDistanceWCutoff` included. */
  lemma VoxelValueMetricIrrelevant(m: FieldModel, pos: Vec3, sites: seq<BufferedSite>)
    requires IsSqrt(m.sqrt) && m.rCutoff >= 1.0
    ensures VoxelValue(m, pos, sites) == VoxelValue(m.(metric := Exact), pos, sites)
  {
    var e := m.(metric := Exact);
    BondSumMetricIrrelevant(m, pos, sites);
    forall i | 0 <= i < |sites|
      ensures SiteDistance(m, pos, sites[i]) < 1.0 <==> SiteDistance(e, pos, sites[i]) < 1.0
    {
      MetricIrrelevantForSite(m, pos, sites[i]);
    }
  }

  // ---------------------------------------------------------------------------
  // deltaBV

  /** `deltaBV`: the deviation from a valence of 1 for "F-" and "Na+", and None (the
      implicit return) for any other ion. */
  function DeltaBv(value: real, ion: string): (r: Option<real>)
    ensures r.Some? <==> ion == "F-" || ion == "Na+"
    ensures r.Some? ==> r.value >= 0.0 && (r.value == value - 1.0 || r.value == 1.0 - value)
  {
    if ion == "F-" || ion == "Na+" then Some(AbsReal(value - 1.0)) else None
  }

  /** The deviation vanishes exactly at a valence of 1 and is the same either side. */
  lemma DeltaBvZero(value: real, ion: string)
    requires ion == "F-" || ion == "Na+"
    ensures DeltaBv(value, ion) == Some(0.0) <==> value == 1.0
    ensures DeltaBv(1.0 + value, ion) == DeltaBv(1.0 - value, ion)
  {
  }

  // ---------------------------------------------------------------------------
  // findSiteBVS

  /** A neighbour found by `get_neighbors`: its species string, oxidation state and
      distance from the site. */
  datatype Neighbour = Neighbour(species: string, oxState: real, distance: real)

  /** The site whose sum is asked for: how many elements share it, and its oxidation
      state. */
  datatype SiteInfo = SiteInfo(elementCount: nat, oxState: real)

  datatype SiteBvsError =
    | Disordered                      // the site holds more than one element
    | MissingParams(species: string)  // KeyError in the parameter dictionary

  /** The fixed parameter dictionary of `findSiteBVS`. */
  function SiteBvParams(species: string): (p: Option<(real, real)>)
    ensures p.Some? <==> species == "Sn2+" || species == "Pb2+"
  {
    if species == "Sn2+" then Some((1.925, 2.702))
    else if species == "Pb2+" then Some((2.03, 2.702))
    else None
  }

  /** The exclusive-or of the source: exactly one of the two oxidation states is
      positive. */
  predicate Counterion(site: SiteInfo, n: Neighbour)
  {
    (n.oxState > 0.0) != (site.oxState > 0.0)
  }

  /** Reference definition of the accumulation over the neighbours, in order: a
      counter-ion adds its bond valence, or raises when its species has no parameters;
      any other neighbour is passed over. */
  function NeighbourSum(site: SiteInfo, ns: seq<Neighbour>, calcBV: BondValence): (r: Result<real, SiteBvsError>)
    ensures r.Ok? <==> forall i :: 0 <= i < |ns| && Counterion(site, ns[i]) ==> SiteBvParams(ns[i].species).Some?
    ensures r.Err? ==> exists i :: && 0 <= i < |ns| && Counterion(site, ns[i])
                                   && SiteBvParams(ns[i].species).None?
                                   && r.error == MissingParams(ns[i].species)
                                   && forall j :: 0 <= j < i && Counterion(site, ns[j]) ==>
                                                  SiteBvParams(ns[j].species).Some?
    decreases |ns|
  {
    if ns == [] then Ok(0.0)
    else
      assert forall i :: 0 <= i < |ns| - 1 ==> ns[..|ns| - 1][i] == ns[i];
      AddNeighbour(site, NeighbourSum(site, ns[..|ns| - 1], calcBV), ns[|ns| - 1], calcBV)
  }

  /** One step of the accumulation: an error stays, a counter-ion adds its bond valence
      or raises, any other neighbour leaves the sum as it is. */
  function AddNeighbour(site: SiteInfo, sum: Result<real, SiteBvsError>, n: Neighbour, calcBV: BondValence)
    : Result<real, SiteBvsError>
  {
    match sum
    case Err(e) => Err(e)
    case Ok(v) =>
      if !Counterion(site, n) then Ok(v)
      else
        match SiteBvParams(n.species)
        case None => Err(MissingParams(n.species))
        case Some(p) => Ok(v + calcBV(p.0, n.distance, p.1))
  }

  /** Appending a neighbour is one step of the accumulation. */
  lemma NeighbourSumAppend(site: SiteInfo, ns: seq<Neighbour>, n: Neighbour, calcBV: BondValence)
    ensures NeighbourSum(site, ns + [n], calcBV) == AddNeighbour(site, NeighbourSum(site, ns, calcBV), n, calcBV)
  {
    assert (ns + [n])[..|ns|] == ns;
  }

  /** `findSiteBVS`: a disordered site raises before any neighbour is looked at;
      otherwise the neighbours are summed in a loop. */
  method FindSiteBvs(site: SiteInfo, ns: seq<Neighbour>, calcBV: BondValence)
    returns (r: Result<real, SiteBvsError>)
    ensures site.elementCount != 1 ==> r == Err(Disordered)
    ensures site.elementCount == 1 ==> r == NeighbourSum(site, ns, calcBV)
  {
    if site.elementCount != 1 {
      return Err(Disordered);
    }
    var bvs := 0.0;
    for i := 0 to |ns|
      invariant NeighbourSum(site, ns[..i], calcBV) == Ok(bvs)
    {
      var atom := ns[i];
      assert ns[..i + 1][..i] == ns[..i];
      if Counterion(site, atom) {
        match SiteBvParams(atom.species)
        case None =>
          ErrorPersists(site, ns, i + 1, calcBV);
          return Err(MissingParams(atom.species));
        case Some(p) =>
          bvs := bvs + calcBV(p.0, atom.distance, p.1);
      }
    }
    assert ns[..|ns|] == ns;
    r := Ok(bvs);
  }

  /** Once the sum has raised, later neighbours do not matter. */
  lemma {:induction false} ErrorPersists(site: SiteInfo, ns: seq<Neighbour>, i: nat, calcBV: BondValence)
    requires i <= |ns| && NeighbourSum(site, ns[..i], calcBV).Err?
    ensures NeighbourSum(site, ns, calcBV) == NeighbourSum(site, ns[..i], calcBV)
    decreases |ns| - i
  {
    if i < |ns| {
      assert ns[..i + 1][..i] == ns[..i];
      ErrorPersists(site, ns, i + 1, calcBV);
    } else {
      assert ns[..i] == ns;
    }
  }

  /** The counter-ions among the neighbours, in order. */
  function Counterions(site: SiteInfo, ns: seq<Neighbour>): (r: seq<Neighbour>)
    ensures forall i :: 0 <= i < |r| ==> Counterion(site, r[i]) && r[i] in ns
    ensures forall x :: multiset(r)[x] == if Counterion(site, x) then multiset(ns)[x] else 0
    decreases |ns|
  {
    if ns == [] then []
    else
      var init := ns[..|ns| - 1];
      var rest := Counterions(site, init);
      var n := ns[|ns| - 1];
      assert ns == init + [n];
      assert multiset(ns) == multiset(init) + multiset{n};
      if Counterion(site, n) then rest + [n] else rest
  }

  /** Neighbours with the site's own sign make no difference: the sum over all
      neighbours is the sum over the counter-ions alone. */
  lemma {:induction false} OnlyCounterionsCount(site: SiteInfo, ns: seq<Neighbour>, calcBV: BondValence)
    ensures NeighbourSum(site, ns, calcBV) == NeighbourSum(site, Counterions(site, ns), calcBV)
    decreases |ns|
  {
    if ns != [] {
      var init := ns[..|ns| - 1];
      var n := ns[|ns| - 1];
      assert ns == init + [n];
      OnlyCounterionsCount(site, init, calcBV);
      CounterionsAppend(site, init, n);
      NeighbourSumAppend(site, init, n, calcBV);
      if Counterion(site, n) {
        NeighbourSumAppend(site, Counterions(site, init), n, calcBV);
      }
    }
  }

  /** Appending a neighbour appends it to the counter-ions exactly when it is one. */
  lemma CounterionsAppend(site: SiteInfo, ns: seq<Neighbour>, n: Neighbour)
    ensures Counterions(site, ns + [n])
            == if Counterion(site, n) then Counterions(site, ns) + [n] else Counterions(site, ns)
  {
    assert (ns + [n])[..|ns|] == ns;
  }

  /** Around an anion whose cation neighbours are all Pb2+ or Sn2+ the sum never fails
      and is not negative. */
  lemma {:induction false} LeadTinNeighboursSum(site: SiteInfo, ns: seq<Neighbour>, calcBV: BondValence)
    requires PositiveBv(calcBV)
    requires forall i :: 0 <= i < |ns| && Counterion(site, ns[i]) ==> ns[i].species in {"Pb2+", "Sn2+"}
    ensures NeighbourSum(site, ns, calcBV).Ok?
    ensures NeighbourSum(site, ns, calcBV).value >= 0.0
    decreases |ns|
  {
    if ns != [] {
      var init := ns[..|ns| - 1];
      assert forall i :: 0 <= i < |init| ==> init[i] == ns[i];
      LeadTinNeighboursSum(site, init, calcBV);
    }
  }
}
