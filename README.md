# lone-pair-BV: a Dafny model of the bond-valence map core

This project models the core of lone-pair-BV, a Python program that computes bond-valence
sum (BVS) maps of crystal structures. The model covers five parts:

- **Ion notation** (`fileIO.py`, `bvParameters.py`). `Ion` writes an ion as `Pb2+` / `F-`.
  `interpretIon` and `Ion.from_string` read that notation back with the pattern
  `([A-Za-z]{,2})(\d*)(\+|-)`. The rest of this part is ion equality and hashing and the
  lone-pair element list.
- **Parameter files and queries** (`fileIO.py`, `bvParameters.py`).
  - The `DATA_START` / `DATA_END` section scan shared by `bvDatToDb`, `ionDatToDb` and
    `datToDb`.
  - The site numbering of `create_input_from_cif`.
  - The decision logic of `_params_error_check`, `get_bv_params` and `getParams`. What the
    database returns is an input.
- **The input reader** (`BVStructure.__init__`, `bv2.py`): a tab-separated `.inp` text
  becomes the conductor, the lattice parameters, the volume, three vectors and the sites.
- **Distances with a cutoff**: `calc_distance` (`fortran_speed.py`) and
  `BVStructure.calcDistanceWCutoff` (`bv2.py`).
- **The map** (`bv2.py`).
  - The class `BvMap.BvStructure` holds `initaliseMap`, `calcCartesian` and `populateMap`.
    Its fields (`bufferArea`, `coreCartesian`, `voxelNumbers`, the map) are arrays that
    its methods allocate and fill.
  - The value of one voxel and `deltaBV`.
  - The per-site sum of `findSiteBVS`.

Modules:

| module | file | what it holds |
|---|---|---|
| `Outcomes` | outcomes.dfy | `Option`, `Result` |
| `Text` | text.dfy | `str(n)`, `int(s)`, `str.split(sep)`, `str.splitlines()` |
| `IonNotation` | ion.dfy | `Ion`, the pattern search, `interpretIon`, `from_string`, `__eq__`, `__hash__`, lone pairs |
| `SectionScan` | section_scan.dfy | the `started` loop of the three converters |
| `SiteLabels` | site_labels.dfy | the `label.N` numbering of `create_input_from_cif` |
| `ParamLookup` | param_lookup.dfy | `_params_error_check`, `get_bv_params`, `getParams` |
| `Distance` | distance.dfy | `calc_distance`, `calcDistanceWCutoff` |
| `InputReader` | input_reader.dfy | `BVStructure.__init__` |
| `Field` | field.dfy | the voxel loop of `populateMap`, `deltaBV`, `findSiteBVS` |
| `BvMap` | bv_structure.dfy | class `BvStructure`: `initaliseMap`, `calcCartesian`, `populateMap` |

Several Python operations become parameters:

- `math.sqrt` is a parameter `sqrt`. Lemmas that need its meaning require `IsSqrt(sqrt)`:
  for every `x >= 0`, `sqrt(x) >= 0` and `sqrt(x) * sqrt(x) == x`.
- `calcBV` (`exp((r0 - ri) * ib)`) is a parameter. Some lemmas require it to be positive.
- The `rmin` and `d0` formulas of `fileIO.py` are parameters.
- The per-species parameter lookup of `populateMap` is a parameter.

Floating-point numbers are modelled as exact reals.

Where the code and its documentation disagree, the model follows the code. Where the code
cannot have meant what it does (see Findings), the model has both: a member for the code as
written and a corrected member, which the rest of the model uses. In particular:

- `Ion.from_string` always raises, and so does `Ion.__eq__` with a string
  (`IonNotation.FromStringAsWritten`, `IonNotation.IonEqualsAsWritten`). `IonNotation.FromString`
  and `IonNotation.IonEquals` are the corrected versions.
- `calcDistanceWCutoff` compares signed deltas with the cutoff, so a large negative delta
  does not stop it early.
- `getParams` reports a missing pair in tuple notation, `('Pb', 2)`. At that point the
  names hold the interpreted tuples, not the ion strings.

## Model

| member | source | states |
|---|---|---|
| Text.NatToString | fileIO.py:58 | `str(n)`: one or more decimal digits, with a leading `0` only for 0 |
| Text.DigitsValueOfNatToString | fileIO.py:83 | `int` of the decimal notation of `n` is `n` |
| Text.NatToStringInjective | fileIO.py:436 | different counts give different decimal notations |
| Text.FirstIndex | bv2.py:21 | the first index of the separator, every earlier character differs from it, or the length when it is absent |
| Text.Split | bv2.py:21-33 | `split("\t")` gives at least one field and no field holds the separator |
| Text.JoinSplit | bv2.py:21-33 | joining the fields of a split with the separator gives the line back |
| Text.SplitJoin | bv2.py:21-33 | splitting a join of separator-free fields gives exactly those fields |
| Text.FirstLineBreak | bv2.py:18 | the first line boundary of `splitlines`, with no boundary before it |
| Text.SplitLines | bv2.py:18 | `splitlines()`: no line contains a line boundary; the empty text has no lines, and a non-empty text without a boundary is one line |
| Text.SplitFirstLine | bv2.py:18 | a break-free line followed by any boundary is split off as the first line, and a `\n` right after a `\r` goes with it; with `SplitLines` this fixes the lines of every text |
| Text.JoinNoLineBreak | bv2.py:18-21 | break-free fields joined by a separator that is not a line boundary form a single line |
| Text.SplitJoinLines | bv2.py:18 | `splitlines` of lines each ended by `\n` gives exactly those lines |
| IonNotation.MagnitudeText | fileIO.py:58 | the magnitude part is all digits, and empty exactly when the state is -1, 0 or 1, and otherwise reads as the state's magnitude |
| IonNotation.IonString | fileIO.py:57-62 | the notation is the element, then digits, then `+` for a positive state and `-` otherwise; nothing stands between element and sign when the magnitude is at most 1, and otherwise the digits read as the magnitude |
| IonNotation.LetterRun | fileIO.py:46 | the `[A-Za-z]{,2}` part: at most two letters, stopping before a third letter or a non-letter |
| IonNotation.DigitRun | fileIO.py:46 | the `\d*` part: the longest run of digits |
| IonNotation.MatchAtIsThePattern | fileIO.py:46 | the greedy scanner matches at a position iff the pattern does, with the same (and only) split of letters, digits and sign |
| IonNotation.MatchOxState | bvParameters.py:151 | the state is the sign applied to the digits: not negative for `+`, not positive for `-`, of magnitude 1 without digits and the digits' value otherwise |
| IonNotation.SearchFrom | fileIO.py:78 | `search` gives the least position where the pattern matches, or no match when it matches nowhere |
| IonNotation.InterpretIon | bvParameters.py:141-151 | an error naming the text iff the pattern matches nowhere; otherwise the letters and signed state of the first match |
| IonNotation.FromString | fileIO.py:76-83 | the corrected `from_string`: fails exactly when `interpretIon` does and otherwise builds that ion |
| IonNotation.FromStringAsWritten | fileIO.py:76-83 | `from_string` as written: always an error, "cannot interpret" iff `interpretIon` fails and otherwise the missing argument `x` of `one_reducer` |
| IonNotation.FromStringAsWrittenFails | fileIO.py:76-83 | as written, `from_string("Pb2+")` raises over `one_reducer`'s missing argument, while the corrected one gives `Pb2+` |
| IonNotation.MatchAtLayout | fileIO.py:46 | a letter-digit-sign string matches at 0 with exactly that split |
| IonNotation.InterpretIonString | bvParameters.py:141-151 | an ion with at most two ASCII letters and a non-zero state is read back from its notation by both readers |
| IonNotation.IonEquals | fileIO.py:64-71 | `__eq__` with the corrected `from_string`: another ion compares by element and state; a string is parsed first, and an unparsable one raises; anything else is unequal |
| IonNotation.IonEqualsAsWritten | fileIO.py:64-83 | `__eq__` as written: comparing with any string raises, with `one_reducer`'s missing-argument error whenever the string is readable; other operands compare as in `IonEquals` |
| IonNotation.HashKey | fileIO.py:73-74 | the pair `__hash__` hashes loses nothing: it gives back the ion |
| IonNotation.EqualIonsShareHashKey | fileIO.py:64-74 | two ions are equal iff the pairs they hash agree |
| IonNotation.IonEqualsOwnString | fileIO.py:58-69 | with the corrected `from_string`, an ion equals its own notation |
| IonNotation.IonEqualsOwnStringAsWritten | fileIO.py:58-83 | as written, comparing an ion with its own notation raises over `one_reducer`'s missing argument |
| IonNotation.HasLonePair | fileIO.py:39-41 | true exactly for Pb, Sn, Bi, Sb and Tl |
| IonNotation.PossibleLonePair | fileIO.py:85-86 | decided by the element alone, and only two-letter elements qualify |
| SectionScan.IndexFrom | fileIO.py:360-371 | the first index at or after `from` holding the marker; no earlier index holds it |
| SectionScan.SectionRows | fileIO.py:360-371 | no rows without a start marker; otherwise the rows are the lines right after the first start marker, none of them an end marker, running up to the next end marker or the end of the file |
| SectionScan.ScanSection | fileIO.py:360-371 | the loop hands on exactly the lines strictly between the first `DATA_START\n` and the next `DATA_END\n` (or the end) |
| SectionScan.IndexFromShift | fileIO.py:360-371 | searching past a prefix is searching the rest, offset by the prefix's length |
| SectionScan.PreambleIgnored | fileIO.py:385-396 | lines before the first start marker, early end markers included, do not change the rows |
| SectionScan.TerminatedSection | bvParameters.py:213-224 | a terminated section gives its body, even if the body holds another start marker |
| SectionScan.UnterminatedSection | bvParameters.py:213-224 | without an end marker every line after the start is a row |
| SectionScan.NoStartNoRows | fileIO.py:360-371 | a file without a start marker gives no rows |
| SectionScan.RepeatedStartAndBareEndAreRows | fileIO.py:362-369 | a second start marker and an end marker without its `\n` are ordinary rows |
| SiteLabels.NumberSites | fileIO.py:427-437 | site `j` is written `label.N`, where N counts the earlier sites with that label; all identifiers are distinct |
| SiteLabels.SiteId | fileIO.py:436 | `label.N`: the label, a dot, then decimal digits whose value is N |
| SiteLabels.ZeroCounters | fileIO.py:431-432 | after the first loop every label has a counter of 0 |
| SiteLabels.OccurrencesMonotone | fileIO.py:435-437 | a label's count never falls as more sites are written |
| SiteLabels.LastDot | fileIO.py:436 | in `label.N` the dot before N is the last dot |
| SiteLabels.SiteIdInjective | fileIO.py:436 | an identifier determines its label and its number |
| SiteLabels.SiteIdsDistinct | fileIO.py:427-437 | the identifiers of different sites differ |
| SiteLabels.FirstOccurrencesNumbered | fileIO.py:431-437 | the first `Pb1` is `Pb1.0` and the next `Pb1.1` |
| ParamLookup.FirstRow | fileIO.py:258-264 | no row is an error naming both ions; otherwise the first row is used, with the warning iff there are several rows |
| ParamLookup.FirstRowIsReturned | bvParameters.py:162-168 | the row used is one of the rows returned, and a single row is used without warning |
| ParamLookup.CationOs | fileIO.py:280-281 | the state passed to `rmin` is one of the two, and positive for an opposite-sign pair |
| ParamLookup.GetBvParams | fileIO.py:266-295 | same-sign pair: `None` without `bvse`, and an error with it; opposite signs and no rows: the not-on-database error; otherwise the fields of the first row, with radii, rmin and d0 present iff `bvse` and computed from that row |
| ParamLookup.GetBvParamsBranchSymmetric | fileIO.py:273 | swapping the ions does not change whether a result or `None` is returned |
| ParamLookup.CationOsIsThePositiveOne | fileIO.py:280-281 | for an opposite-sign pair the cation's state does not depend on the order of the ions |
| ParamLookup.OppositeSigns | fileIO.py:273 | a negative product of states means one positive and one negative state |
| ParamLookup.GetParams | bvParameters.py:153-168 | the first ion is interpreted first, and an uninterpretable one is the error; otherwise the rows for the two interpreted ions decide, as in `FirstRow` |
| ParamLookup.PairText | bvParameters.py:164 | the tuple text `('element', n)`: the element between quotes, then the state in decimal, with a `-` exactly when it is negative |
| ParamLookup.PairTextExamples | bvParameters.py:164 | a missing pair is reported as `('Pb', 2)` and `('F', -1)` |
| ParamLookup.GetParamsOfIonStrings | bvParameters.py:153-168 | asking with two ions' notation queries exactly those ions and reports them in tuple notation |
| Distance.AbsReal | fortran_speed.py:10 | `abs`: non-negative, and plus or minus its argument |
| Distance.SquaredDistance | fortran_speed.py:17 | the sum of the squared deltas is non-negative |
| Distance.CutoffDistance | fortran_speed.py:5-17 | if an absolute delta exceeds the cutoff, the first such delta in the order x, y, z is returned; otherwise the Euclidean distance |
| Distance.SignedCutoffDistance | bv2.py:92-104 | as written: if a signed delta exceeds the cutoff, the first such delta in the order x, y, z is returned; otherwise the Euclidean distance |
| Distance.SquareMonotone | fortran_speed.py:17 | for non-negative numbers squares keep the order |
| Distance.AxisBelowEuclidean | fortran_speed.py:10-17 | no axis delta exceeds the distance |
| Distance.CutoffClassification | fortran_speed.py:5-17 | the result exceeds the cutoff iff the true distance does |
| Distance.CutoffBelowEuclidean | fortran_speed.py:5-17 | the result never exceeds the true distance |
| Distance.CutoffExactWithin | fortran_speed.py:5-17 | within the cutoff the result is the true distance |
| Distance.CutoffSymmetric | fortran_speed.py:5-17 | swapping the two points changes nothing |
| Distance.CutoffExamples | fortran_speed.py:5-17 | √3, √41, √61 and 13 (in both orders) for the points the test suite uses |
| Distance.SignedCutoffMissesNegativeDelta | bv2.py:97-104 | as written, (3,4,1)-(-10,0,-2) gives √194, not 13, and the result depends on the order of the points |
| Distance.SignedAgreesOnClassification | bv2.py:92-104 | the signed variant still exceeds the cutoff iff the true distance does, and agrees with `calc_distance` within the cutoff |
| InputReader.Fields | bv2.py:21-33 | `split("\t")` of a line has at least one field |
| InputReader.VectorsOf | bv2.py:25-29 | three vectors of three fields |
| InputReader.SiteOf | bv2.py:31-34 | a site record holds exactly the first six fields of its line, in order |
| InputReader.SitesOf | bv2.py:31-34 | one site per line from line 7 on |
| InputReader.ReadLines | bv2.py:18-36 | succeeds iff lines 3 to 5 exist with at least three fields and every line from 7 on has at least six; the result has a 3×3 vector block and one site per line from 7 on |
| InputReader.ReadInput | bv2.py:18-36 | the reader's loops give exactly `ReadLines` of the text's lines, an IndexError as `IndexOutOfRange` |
| InputReader.ReadVectors | bv2.py:26-29 | the vector loops succeed iff lines 3 to 5 exist with at least three fields, and take the first three |
| InputReader.ReadSites | bv2.py:31-34 | the site loop succeeds iff every line from 7 on has at least six fields, and takes the first six |
| InputReader.HeaderIgnored | bv2.py:26-32 | line 6 is never read |
| InputReader.PlainJoin | bv2.py:18-21 | a tab-joined line of plain fields splits back into those fields |
| InputReader.RenderedLines | bv2.py:18-34 | each line of a laid-out description is one line that splits into its fields |
| InputReader.ReadFields | bv2.py:18-36 | lines with a description's fields are read as that description |
| InputReader.ReadRendered | bv2.py:18-36 | reading the text of a laid-out description gives the description back, whatever the header line |
| Field.BvPositive | bv2.py:196-205 | a positive bond-valence formula is positive at every argument |
| Field.SelectSites | bv2.py:118-120 | the kept sites are the sites that are not the conductor, each kept as often as it occurs (as a multiset) |
| Field.VoxelValue | bv2.py:144-168 | a site closer than 1 Å makes the value the sentinel, whatever the other sites; with no such site it is the sum of the contributions |
| Field.SiteLoop | bv2.py:144-165 | the atom loop gives 100 if some site is closer than 1 Å, otherwise the sum of the bond valences within the cutoff |
| Field.BondSumNonNegative | bv2.py:144-165 | with positive bond valences the sum is not negative |
| Field.VoxelValueRange | bv2.py:144-168 | every voxel value is non-negative, and takes the sentinel whenever there is a clash |
| Field.FarSiteIgnored | bv2.py:158-159 | a site beyond the cutoff changes no voxel value, when the cutoff is at least 1 Å |
| Field.MetricIrrelevantForSite | bv2.py:147-165 | with a cutoff of at least 1 Å each site is classified and weighted as with exact distances |
| Field.BondSumMetricIrrelevant | bv2.py:147-165 | the sum is that of exact distances, for every distance variant |
| Field.VoxelValueMetricIrrelevant | bv2.py:144-168 | so a voxel's value does not depend on which distance variant is used |
| Field.DeltaBv | bv2.py:170-173 | the deviation from 1 for `F-` and `Na+`, and nothing for any other ion |
| Field.DeltaBvZero | bv2.py:170-173 | the deviation is 0 exactly at 1, and symmetric about 1 |
| Field.SiteBvParams | bv2.py:236 | parameters exist exactly for `Sn2+` and `Pb2+` |
| Field.NeighbourSum | bv2.py:251-268 | the sum succeeds iff every counter-ion has parameters; an error names a counter-ion without parameters, and every earlier counter-ion has them |
| Field.FindSiteBvs | bv2.py:228-270 | a disordered site raises before any neighbour is read; otherwise the counter-ion sum, raising at the first counter-ion without parameters |
| Field.ErrorPersists | bv2.py:251-262 | once the sum has raised, later neighbours do not matter |
| Field.Counterions | bv2.py:257 | the kept neighbours are the counter-ions of the list, each kept as often as it occurs (as a multiset) |
| Field.OnlyCounterionsCount | bv2.py:251-268 | neighbours with the site's own sign make no difference to the sum |
| Field.LeadTinNeighboursSum | bv2.py:236-270 | if every counter-ion is `Pb2+` or `Sn2+`, the sum succeeds and is not negative |
| BvMap.Ceil | bv2.py:74 | `math.ceil`: the least integer not below its argument |
| BvMap.RepeatCount | bv2.py:52-60 | 3 copies per axis, or 5 exactly when the cell is shorter than the cutoff |
| BvMap.CoreIndex | bv2.py:68 | `floor(n / 2)`, the middle copy |
| BvMap.CoreIndexExamples | bv2.py:52-68 | a 5.9306 Å cell with a 6 Å cutoff has its core cell at index 2 |
| BvMap.BufferMargin | bv2.py:51-60 | while two cells span the cutoff, the buffer reaches the cutoff on both sides of the core cell |
| BvMap.ShortCellUncovered | bv2.py:52-60 | as written, a 2 Å cell with a 6 Å cutoff gets 5 copies, which reach only 4 Å beyond the core cell; the covering count is 7 |
| BvMap.CoveringRepeatCount | bv2.py:52-60 | the corrected count: odd, at least 3, and reaching the cutoff on both sides of the core cell for every cell length |
| BvMap.CoveringAgrees | bv2.py:52-60 | whenever two cells span the cutoff, the corrected count is the count of the source |
| BvMap.VoxelCount | bv2.py:73-74 | the voxels cover the cell and run past it by less than one voxel; a cell of positive length has at least one, and any length above `-res` gives a count of at least 0 |
| BvMap.VoxelCountBounds | bv2.py:73-74 | `count·res ≥ length > (count−1)·res`; 5.9306 Å at 0.5 Å takes 12 voxels |
| BvMap.BvStructure.constructor | bv2.py:13-36 | the description, the core-cell lengths and the cutoff are set, and no map exists yet |
| BvMap.BvStructure.InitialiseMap | bv2.py:45-77 | the buffer area, the core origin and the voxel counts have the values above per axis, and the map is a zeroed array of those dimensions |
| BvMap.BvStructure.RepeatCounts | bv2.py:52-60 | the buffer-area loop gives `RepeatCount` per axis |
| BvMap.BvStructure.CoreOrigins | bv2.py:66-68 | the core-origin loop gives `floor(n/2) * length` per axis |
| BvMap.BvStructure.VoxelCounts | bv2.py:71-74 | the voxel-number loop gives `VoxelCount` per axis |
| BvMap.BvStructure.CalcCartesian | bv2.py:79-90 | a fresh copy of the core origin, shifted by `shift[i] * resolution` on each axis |
| BvMap.BvStructure.PopulateMap | bv2.py:107-168 | every voxel of the map holds the value of its position over the non-conductor sites |
| BvMap.BvStructure.FillPlane | bv2.py:137-168 | one h-plane is filled and the rest of the map is unchanged |
| BvMap.BvStructure.FillRow | bv2.py:138-168 | one (h, k) row is filled and the rest of the map is unchanged |
| BvMap.BvStructure.VoxelSum | bv2.py:141-165 | the atom loop at the position `calcCartesian` gives for (h, k, l) |

## Left out

- The SQLite database is not modelled: its connection, tables, SQL text, `create_entry`,
  `update_*` and its other queries. What the queries return is an input of
  `GetBvParams` and `GetParams`.
- The converters' per-row `split()` and `float()`/`int()` conversions are not modelled.
  `ScanSection` returns the rows those conversions would receive.
- SectionScan.ScanSection: in `bvDatToDb` each row is passed to `create_entry` with six
  arguments, but `create_entry` takes four. So that converter raises `TypeError` on its
  first data row, after `reset_database` has asked interactively for confirmation.
  `ScanSection` gives the rows the loop would hand on; the database calls are not modelled.
- `fileToDb` and `cifToDb` are not modelled.
- pymatgen is not modelled: `Structure`, `make_supercell`, `as_dataframe`, `get_neighbors`,
  `species_string`. The lattice lengths and the supercell sites are inputs of `BvStructure`.
- The neighbour list of `findSiteBVS` is an input.
- `BvMap.BvStructure.InitialiseMap` does not build `bufferCell`. Its sites are the `atoms`
  parameter of `PopulateMap`.
- `math.sqrt`, `calcBV`, `rmin` and `d0` are parameters, and floating point is exact real
  arithmetic. No rounding, `nan` or `inf` is modelled.
- Distance.CutoffDistance: `SquaredDistance` squares the signed deltas, which is the same
  as squaring the absolute ones.
- `BVStructure` never assigns `coreCell`, `rCutoff` or `BV_PARAMS`, though `initaliseMap`
  and `populateMap` read them:
  - the core-cell lengths and the cutoff are constructor parameters;
  - the per-species `(r0, ib)` lookup is the `params` field of `FieldModel`.
  `populateMap`'s own `bvParams` dictionary is never read, so it is not modelled.
- `populateMap` builds that dictionary with `db.getParams`, but `fileIO.BVDatabase` has no
  `getParams` (only `get_bv_params`). So as written `populateMap` raises `AttributeError`
  before the voxel loop whenever some site is not the conductor. `PopulateMap` models the
  voxel loop that would follow.
- BvMap.BvStructure.InitialiseMap: requires a positive resolution and lattice lengths above
  `-res`, which `initaliseMap` does not check. For a length at or below `-res`, `math.ceil`
  gives a negative count and `np.zeros` raises `ValueError`. A zero resolution is a
  division by zero, and a negative one is not modelled. A length in `(-res, 0]` gives
  0 voxels on that axis and an empty map, as `np.zeros` does.
- BvMap.BvStructure.CalcCartesian: takes integer shifts, which is how `populateMap` calls
  it. Fractional shifts are not modelled.
- ParamLookup.GetBvParams: the same-sign `bvse` branch passes five arguments to `execute`
  and indexes the ion objects, so it raises before any query. It is modelled as the
  single error `BrokenQuery`, and its radii row is not modelled.
- ParamLookup.GetBvParams: the "multiple entries" warning is not part of its result. It
  is the `ambiguous` flag of `FirstRow`.
- InputReader.ReadInput: the numbers stay text. The `float` conversion of the vectors, and
  the `ValueError` it raises on a non-number, are not modelled.
- InputReader.ReadInput: the `pandas.DataFrame` of the sites is a sequence of records.
- InputReader.RenderLines lays the sites out as the reader reads them (six fields). It
  does not model the eight-field site lines that `create_input_from_cif` writes, so no
  writer-to-reader round trip is claimed.
- The rest of `create_input_from_cif` is not modelled: the file writing, the composition
  and lone-pair columns, and the format checks. Only its site numbering is modelled. As
  written the function raises at fileIO.py:407, in `Ion.from_string`, before it numbers
  any site (first Findings row). `NumberSites` models the numbering the loop would do.
- IonNotation.DigitRun: `\d` in the ion pattern is ASCII digits only. Python's `\d` also matches
  other Unicode decimal digits.
- `exportMap`, `from_file`, `calcBV` itself, `calcPPDistance`, `calcPSDistance`,
  `calcSSDistance` and `bvsCif` are not modelled. They are I/O or pymatgen calls.
- `calc_distance_f` is not modelled. It calls a compiled extension.
- The module-level script code of `bv2.py` and `run.py` is not modelled.
- The `print` calls and the logging are not modelled.
- Ion.__init__'s `TypeError` for a non-string element cannot occur in the typed model.
- Ion.__hash__: Python's tuple hash is not modelled. Only the pair it hashes is, as
  `HashKey`.

## Findings

| source | as written | input that shows it | evidently intended | confidence | as-written member | corrected member |
|---|---|---|---|---|---|---|
| fileIO.py:76-83 | once the search matches, `from_string` has two defects on line 83. First, it calls `cls.one_reducer(result[2])`, but `one_reducer` (line 48) is a lambda of `self` and `x`, and read through the class it is unbound, so `x` is missing and this raises `TypeError`. Second, it would then pass `os=` to a constructor whose parameter is `ox_state`, which raises `TypeError` too. So every call that finds a match raises. So `Ion.__eq__` with a string always raises, and `create_input_from_cif` raises at line 407 before it writes any site | `Ion.from_string("Pb2+")`; `Ion("Pb", 2) == "Pb2+"` | call the converter bound, as the commented-out `core` version at lines 15 and 30 does through `self`, pass `ox_state=`, and so return `Ion("Pb", 2)`, the ion whose notation was read, and compare equal | not executed | IonNotation.FromStringAsWritten (IonNotation.FromStringAsWrittenFails), IonNotation.IonEqualsAsWritten (IonNotation.IonEqualsOwnStringAsWritten) | IonNotation.FromString (IonNotation.InterpretIonString), IonNotation.IonEquals (IonNotation.IonEqualsOwnString) |
| bv2.py:97-102 | `calcDistanceWCutoff` compares the signed deltas `point2 - point1` with the cutoff, so a large negative delta does not stop it | (3,4,1) to (-10,0,-2) with a 6 Å cutoff gives √194 instead of 13, the value test/test_BVStructure.py:168 expects; swapping the points gives 13 | compare the absolute deltas, as `calc_distance` in fortran_speed.py does | not executed | Distance.SignedCutoffDistance (Distance.SignedCutoffMissesNegativeDelta) | Distance.CutoffDistance (Distance.CutoffExamples, Distance.CutoffClassification) |
| bv2.py:52-60 | the buffer adds one cell on each side, or two when the cell is shorter than the cutoff. A cell shorter than half the cutoff is then not covered to the cutoff | a 2 Å cell with a 6 Å cutoff: 5 copies reach 4 Å beyond the core cell | enough copies to reach the cutoff on both sides, `2·ceil(cutoff/length) + 1` | not executed | BvMap.RepeatCount (BvMap.ShortCellUncovered) | BvMap.CoveringRepeatCount (BvMap.CoveringAgrees) |

`Field.VoxelValueMetricIrrelevant` proves that the second finding changes no map value when
the cutoff is at least 1 Å. Both variants classify each contact as the true distance does,
and within the cutoff both give the true distance.

`BvMap.CoveringAgrees` shows that the two repeat counts differ only for cells shorter than
half the cutoff. `BvMap.BvStructure.InitialiseMap` keeps the count of the source. The buffer
cell itself is not part of this model, so no later value depends on the choice.
