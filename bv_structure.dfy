/** The map of `BVStructure` (bv2.py): `initaliseMap` sets up the buffer area, the
    Cartesian origin of the core cell and the voxel counts and allocates a zeroed map;
    `calcCartesian` places a voxel; `populateMap` writes every voxel of the map.
    The structure and its supercell come from pymatgen, which is not modelled: the
    lattice lengths of the core cell and the cutoff radius are given when the object
    is made, and the sites of the buffer cell when the map is populated. */
module BvMap {
  import opened Distance
  import opened Field
  import opened InputReader

  /** `math.ceil` on a real. */
  function Ceil(x: real): (c: int)
    ensures x <= c as real < x + 1.0
  {
    -((-x).Floor)
  }

  /** The number of copies of the cell along an axis: 3, or 5 when the cell is shorter
      than the cutoff radius. */
  function RepeatCount(length: real, rCutoff: real): (n: int)
    ensures n == 3 || n == 5
    ensures n == 5 <==> length < rCutoff
  {
    var n := 3;
    if length < rCutoff then n + 2 else n
  }

  /** `math.floor(n / 2)`: the index of the core cell among `n` copies. */
  function CoreIndex(n: int): (c: int)
    requires n >= 0
    ensures 2 * c <= n < 2 * c + 2
  {
    n / 2
  }

  /** `math.floor(n / 2) * length`: where the core cell starts along an axis. */
  function CoreCoordinate(n: int, length: real): real
    requires n >= 0
  {
    CoreIndex(n) as real * length
  }

  /** `position[i] += shift[i] * resolution`. */
  function Shifted(origin: real, step: int, resolution: real): real
  {
    origin + step as real * resolution
  }

  /** The core cell is the middle copy: index 2 of 5 and index 1 of 3. */
  lemma CoreIndexExamples()
    ensures CoreIndex(5) == 2 && CoreIndex(3) == 1
    ensures CoreIndex(RepeatCount(5.9306, 6.0)) == 2
  {
  }

  /** The buffer around the core cell reaches the cutoff radius on both sides whenever
      two cells span it; a cell shorter than half the cutoff is not covered. */
  lemma BufferMargin(length: real, rCutoff: real)
    requires length > 0.0 && 2.0 * length >= rCutoff
    ensures var n := RepeatCount(length, rCutoff);
            && CoreIndex(n) as real * length >= rCutoff
            && (n - 1 - CoreIndex(n)) as real * length >= rCutoff
  {
  }

  /** As written, a cell shorter than half the cutoff is not covered: a 2 Å cell with a
      6 Å cutoff gets 5 copies, which reach only 4 Å beyond the core cell on either
      side, where the covering count is 7. */
  lemma ShortCellUncovered()
    ensures RepeatCount(2.0, 6.0) == 5
    ensures CoreIndex(RepeatCount(2.0, 6.0)) as real * 2.0 < 6.0
    ensures CoveringRepeatCount(2.0, 6.0) == 7
  {
    assert Ceil(6.0 / 2.0) == 3;
  }

  /** The number of copies that reaches the cutoff on both sides of the core cell: the
      core cell and `ceil(cutoff / length)` copies on each side, and at least 3. */
  function CoveringRepeatCount(length: real, rCutoff: real): (n: int)
    requires length > 0.0
    ensures n >= 3 && n % 2 == 1
    ensures CoreIndex(n) as real * length >= rCutoff
    ensures (n - 1 - CoreIndex(n)) as real * length >= rCutoff
  {
    var c := Ceil(rCutoff / length);
    ScaleBounds(rCutoff, length, c as real);
    if c <= 1 then
      MulLe(length, c as real, 1.0);
      3
    else
      2 * c + 1
  }

  /** Whenever two cells span the cutoff the count of the source is already the
      covering one, so the two differ only for cells shorter than half the cutoff. */
  lemma CoveringAgrees(length: real, rCutoff: real)
    requires length > 0.0 && rCutoff > 0.0 && 2.0 * length >= rCutoff
    ensures CoveringRepeatCount(length, rCutoff) == RepeatCount(length, rCutoff)
  {
    var c := Ceil(rCutoff / length);
    ScaleBounds(rCutoff, length, c as real);
    CountBetween(length, rCutoff, c as real);
  }

  /** Where `c * length` lies in `[rCutoff, rCutoff + length)` and two cells span the
      cutoff, `c` is below 2 when the cell spans the cutoff and between 1 and 3 otherwise. */
  lemma CountBetween(length: real, rCutoff: real, c: real)
    requires length > 0.0 && rCutoff > 0.0 && 2.0 * length >= rCutoff
    requires rCutoff <= c * length < rCutoff + length
    ensures length >= rCutoff ==> c < 2.0
    ensures length < rCutoff ==> 1.0 < c < 3.0
  {
    assert c * length == length * c;
    if length >= rCutoff {
      RatioBelow(length, 2.0, c);
    } else {
      RatioAboveOne(length, c);
      RatioBelow(length, 3.0, c);
    }
  }

  /** `length * c < k * length` bounds `c` by `k`. */
  lemma RatioBelow(length: real, k: real, c: real)
    requires length > 0.0 && length * c < k * length
    ensures c < k
  {
    if c >= k {
      MulLe(length, k, c);
    }
  }

  /** `length * c > length` bounds `c` from below by 1. */
  lemma RatioAboveOne(length: real, c: real)
    requires length > 0.0 && length * c > length
    ensures c > 1.0
  {
    if c <= 1.0 {
      MulLe(length, c, 1.0);
    }
  }

  /** The number of voxels along an axis: `ceil(length / resolution)`. */
  function VoxelCount(length: real, resolution: real): (n: int)
    requires resolution > 0.0
    ensures length <= n as real * resolution < length + resolution
    ensures length > 0.0 ==> n >= 1
    ensures length > -resolution ==> n >= 0
  {
    var c := Ceil(length / resolution);
    ScaleBounds(length, resolution, c as real);
    c
  }

  /** Multiplying `len / r <= c < len / r + 1` by a positive `r`. */
  lemma ScaleBounds(len: real, r: real, c: real)
    requires r > 0.0 && len / r <= c < len / r + 1.0
    ensures len <= c * r < len + r
    ensures len > 0.0 ==> c > 0.0
    ensures len > -r ==> c > -1.0
  {
    var x := len / r;
    assert r * x == len;
    var y := x + 1.0;
    MulLt(r, c, y);
    assert r * c < r * y;
    assert r * y == r * x + r;
    assert r * c < len + r;
    MulLe(r, x, c);
    if c <= -1.0 {
      MulLe(r, c, -1.0);
    }
  }

  /** A voxel count covers the cell and no more than one voxel beyond it:
      `count·res ≥ length > (count−1)·res`; 5.9306 Å at 0.5 Å takes 12 voxels. */
  lemma VoxelCountBounds(length: real, resolution: real)
    requires resolution > 0.0
    ensures var n := VoxelCount(length, resolution);
            n as real * resolution >= length && length > (n - 1) as real * resolution
    ensures VoxelCount(5.9306, 0.5) == 12
  {
    var n := VoxelCount(length, resolution);
    assert (n - 1) as real * resolution == n as real * resolution - resolution;
    assert 5.9306 / 0.5 == 11.8612;
  }

  /** The position of voxel (h, k, l): the core origin shifted by the voxel indices
      times the resolution. */
  function VoxelPosition(origin: Vec3, h: int, k: int, l: int, resolution: real): Vec3
  {
    Vec3(Shifted(origin.x, h, resolution), Shifted(origin.y, k, resolution),
         Shifted(origin.z, l, resolution))
  }

  class BvStructure {
    /** What the reader produced. */
    const description: InputDescription
    /** `coreCell.lattice.lengths`. */
    const lengths: seq<real>
    const rCutoff: real

    var resolution: real
    var bufferArea: array?<int>
    var coreCartesian: array?<real>
    var voxelNumbers: array?<int>
    var bvMap: array3?<real>

    /** `initaliseMap` has run: every array exists with its shape, and the map has the
        voxel counts as its dimensions. */
    predicate MapReady()
      reads this, bufferArea, voxelNumbers, coreCartesian
    {
      && |lengths| == 3
      && bufferArea != null && coreCartesian != null && voxelNumbers != null && bvMap != null
      && bufferArea.Length == 3 && coreCartesian.Length == 3 && voxelNumbers.Length == 3
      && bvMap.Length0 == voxelNumbers[0] && bvMap.Length1 == voxelNumbers[1]
      && bvMap.Length2 == voxelNumbers[2]
      && resolution > 0.0
    }

    constructor (description: InputDescription, lengths: seq<real>, rCutoff: real)
      requires |lengths| == 3
      ensures this.description == description && this.lengths == lengths && this.rCutoff == rCutoff
      ensures bufferArea == null && coreCartesian == null && voxelNumbers == null && bvMap == null
    {
      this.description := description;
      this.lengths := lengths;
      this.rCutoff := rCutoff;
      resolution := 0.0;
      bufferArea := null;
      coreCartesian := null;
      voxelNumbers := null;
      bvMap := null;
    }

    /** `initaliseMap`: the per-axis loops of the source, then a zeroed map shaped by the
        voxel counts. */
    method InitialiseMap(res: real)
      requires |lengths| == 3 && res > 0.0
      requires forall i :: 0 <= i < 3 ==> lengths[i] > -res
      modifies this
      ensures MapReady() && resolution == res
      ensures fresh(bufferArea) && fresh(coreCartesian) && fresh(voxelNumbers) && fresh(bvMap)
      ensures forall i :: 0 <= i < 3 ==> bufferArea[i] == RepeatCount(lengths[i], rCutoff)
      ensures forall i :: 0 <= i < 3 ==>
                coreCartesian[i] == CoreCoordinate(RepeatCount(lengths[i], rCutoff), lengths[i])
      ensures forall i :: 0 <= i < 3 ==> voxelNumbers[i] == VoxelCount(lengths[i], res)
      ensures forall h, k, l :: 0 <= h < bvMap.Length0 && 0 <= k < bvMap.Length1 && 0 <= l < bvMap.Length2 ==>
                bvMap[h, k, l] == 0.0
    {
      resolution := res;
      var area := RepeatCounts();
      var origin := CoreOrigins(area);
      var counts := VoxelCounts(res);
      bufferArea, coreCartesian, voxelNumbers := area, origin, counts;
      bvMap := new real[counts[0], counts[1], counts[2]]((h, k, l) => 0.0);
    }

    /** The buffer-area loop of `initaliseMap`: every axis starts at 3 and gains 2 when
        the cell is shorter than the cutoff. */
    method RepeatCounts() returns (area: array<int>)
      requires |lengths| == 3
      ensures fresh(area) && area.Length == 3
      ensures forall i :: 0 <= i < 3 ==> area[i] == RepeatCount(lengths[i], rCutoff)
    {
      area := new int[3] [3, 3, 3];
      for i := 0 to 3
        invariant forall j :: 0 <= j < i ==> area[j] == RepeatCount(lengths[j], rCutoff)
        invariant forall j :: i <= j < 3 ==> area[j] == 3
      {
        if lengths[i] < rCutoff {
          area[i] := area[i] + 2;
        }
      }
    }

    /** The core-origin loop of `initaliseMap`. */
    method CoreOrigins(area: array<int>) returns (origin: array<real>)
      requires |lengths| == 3 && area.Length == 3
      requires forall i :: 0 <= i < 3 ==> area[i] >= 0
      ensures fresh(origin) && origin.Length == 3
      ensures forall i :: 0 <= i < 3 ==> origin[i] == CoreCoordinate(area[i], lengths[i])
    {
      origin := new real[3] [0.0, 0.0, 0.0];
      for i := 0 to 3
        invariant forall j :: 0 <= j < i ==> origin[j] == CoreCoordinate(area[j], lengths[j])
      {
        origin[i] := CoreCoordinate(area[i], lengths[i]);
      }
    }

    /** The voxel-number loop of `initaliseMap`. */
    method VoxelCounts(res: real) returns (counts: array<int>)
      requires |lengths| == 3 && res > 0.0
      requires forall i :: 0 <= i < 3 ==> lengths[i] > -res
      ensures fresh(counts) && counts.Length == 3
      ensures forall i :: 0 <= i < 3 ==> counts[i] == VoxelCount(lengths[i], res) >= 0
    {
      counts := new int[3] [0, 0, 0];
      for i := 0 to 3
        invariant forall j :: 0 <= j < i ==> counts[j] == VoxelCount(lengths[j], res) >= 0
      {
        counts[i] := VoxelCount(lengths[i], res);
      }
    }

    /** The Cartesian origin of the core cell. */
    function Origin(): Vec3
      reads this, coreCartesian
      requires coreCartesian != null && coreCartesian.Length == 3
    {
      Vec3(coreCartesian[0], coreCartesian[1], coreCartesian[2])
    }

    /** `calcCartesian`: a copy of the core origin, shifted axis by axis. */
    method CalcCartesian(shift: seq<int>) returns (position: array<real>)
      requires coreCartesian != null && coreCartesian.Length == 3 && |shift| >= 3
      ensures fresh(position) && position.Length == 3
      ensures forall i :: 0 <= i < 3 ==>
                position[i] == Shifted(coreCartesian[i], shift[i], resolution)
    {
      position := new real[3];
      position[0], position[1], position[2] := coreCartesian[0], coreCartesian[1], coreCartesian[2];
      for i := 0 to 3
        invariant forall j :: 0 <= j < i ==> position[j] == Shifted(coreCartesian[j], shift[j], resolution)
        invariant forall j :: i <= j < 3 ==> position[j] == coreCartesian[j]
      {
        position[i] := Shifted(position[i], shift[i], resolution);
      }
    }

    /** The value promised for voxel (h, k, l). */
    function Expected(m: FieldModel, sites: seq<BufferedSite>, h: int, k: int, l: int): real
      reads this, coreCartesian
      requires coreCartesian != null && coreCartesian.Length == 3
    {
      VoxelValue(m, VoxelPosition(Origin(), h, k, l, resolution), sites)
    }

    /** `populateMap`: the non-conductor sites are selected once, then the h/k/l loops
        write every voxel of the map with its value. */
    method PopulateMap(conductor: string, atoms: seq<BufferedSite>, m: FieldModel)
      requires MapReady() && m.rCutoff == rCutoff
      modifies bvMap
      ensures forall h, k, l :: 0 <= h < bvMap.Length0 && 0 <= k < bvMap.Length1 && 0 <= l < bvMap.Length2 ==>
                bvMap[h, k, l] == Expected(m, SelectSites(atoms, conductor), h, k, l)
    {
      var selected := SelectSites(atoms, conductor);
      for h := 0 to voxelNumbers[0]
        invariant forall a, b, c :: 0 <= a < h && 0 <= b < bvMap.Length1 && 0 <= c < bvMap.Length2 ==>
                    bvMap[a, b, c] == Expected(m, selected, a, b, c)
      {
        FillPlane(h, m, selected);
      }
    }

    /** The k and l loops of `populateMap` for one value of h. */
    method FillPlane(h: int, m: FieldModel, selected: seq<BufferedSite>)
      requires MapReady() && 0 <= h < bvMap.Length0
      modifies bvMap
      ensures forall b, c :: 0 <= b < bvMap.Length1 && 0 <= c < bvMap.Length2 ==>
                bvMap[h, b, c] == Expected(m, selected, h, b, c)
      ensures forall a, b, c :: 0 <= a < bvMap.Length0 && a != h && 0 <= b < bvMap.Length1 && 0 <= c < bvMap.Length2 ==>
                bvMap[a, b, c] == old(bvMap[a, b, c])
    {
      for k := 0 to voxelNumbers[1]
        invariant forall b, c :: 0 <= b < k && 0 <= c < bvMap.Length2 ==> bvMap[h, b, c] == Expected(m, selected, h, b, c)
        invariant forall a, b, c :: 0 <= a < bvMap.Length0 && a != h && 0 <= b < bvMap.Length1 && 0 <= c < bvMap.Length2 ==>
                    bvMap[a, b, c] == old(bvMap[a, b, c])
      {
        FillRow(h, k, m, selected);
      }
    }

    /** The l loop of `populateMap`: each voxel of a row is placed with `calcCartesian`
        and given the value of the site loop. */
    method FillRow(h: int, k: int, m: FieldModel, selected: seq<BufferedSite>)
      requires MapReady() && 0 <= h < bvMap.Length0 && 0 <= k < bvMap.Length1
      modifies bvMap
      ensures forall c :: 0 <= c < bvMap.Length2 ==> bvMap[h, k, c] == Expected(m, selected, h, k, c)
      ensures forall a, b, c :: (0 <= a < bvMap.Length0 && 0 <= b < bvMap.Length1 && 0 <= c < bvMap.Length2
                                 && (a != h || b != k)) ==> bvMap[a, b, c] == old(bvMap[a, b, c])
    {
      for l := 0 to voxelNumbers[2]
        invariant forall c :: 0 <= c < l ==> bvMap[h, k, c] == Expected(m, selected, h, k, c)
        invariant forall a, b, c :: (0 <= a < bvMap.Length0 && 0 <= b < bvMap.Length1 && 0 <= c < bvMap.Length2
                                   && (a != h || b != k)) ==> bvMap[a, b, c] == old(bvMap[a, b, c])
      {
        var bvSum := VoxelSum(h, k, l, m, selected);
        bvMap[h, k, l] := bvSum;
      }
    }

    /** The body of the l loop: the voxel is placed with `calcCartesian` and the site
        loop gives its value. */
    method VoxelSum(h: int, k: int, l: int, m: FieldModel, selected: seq<BufferedSite>) returns (bvSum: real)
      requires coreCartesian != null && coreCartesian.Length == 3
      ensures bvSum == Expected(m, selected, h, k, l)
    {
      var pos := CalcCartesian([h, k, l]);
      var p := Vec3(pos[0], pos[1], pos[2]);
      assert p == VoxelPosition(Origin(), h, k, l, resolution);
      bvSum := SiteLoop(m, p, selected);
    }
  }
}
