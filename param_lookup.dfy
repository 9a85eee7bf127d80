/** The decision logic around the bond-valence parameter queries: `_params_error_check`
    and `get_bv_params` (fileIO.py, class BVDatabase) and `getParams` (bvParameters.py).
    The SQL queries are not modelled; what the database returns is an input, the rows of
    the query for the pair asked about. The `rmin` and `d0` formulas (logarithm, square
    root and power) are parameters. */
module ParamLookup {
  import opened Outcomes
  import opened IonNotation
  import opened Text

  /** One row of the softBV query of `get_bv_params`, columns 0 to 12: r0, b, ib, cn,
      r_cutoff, the two radii, the two softnesses, the two periods and the two blocks. */
  datatype ParamRow = ParamRow(
    r0: real, b: real, ib: real, cn: real, rCutoff: real,
    i1Radius: real, i2Radius: real, i1Softness: real, i2Softness: real,
    i1Period: int, i2Period: int, i1Block: int, i2Block: int)

  /** `core.bvparam`; the BVSE-only fields are `None` when not asked for. */
  datatype BvParam = BvParam(
    r0: real, ib: real, cn: real, rCutoff: real,
    i1r: Option<real>, i2r: Option<real>, rmin: Option<real>, d0: Option<real>)

  datatype LookupError =
    | NotOnDatabase(ion1: string, ion2: string)  // no row for the pair
    | BrokenQuery                                // the same-sign BVSE branch, which cannot run
    | Uninterpretable(cause: IonError)           // an ion string that does not parse

  /** The row used, and whether the "multiple different database entries" warning was
      logged. */
  datatype Checked<R> = Checked(row: R, ambiguous: bool)

  /** `_params_error_check` / the row check of `getParams`: no row is an error, otherwise
      the first row is used, with a warning when there are several. */
  function FirstRow<R>(rows: seq<R>, ion1: string, ion2: string): (r: Result<Checked<R>, LookupError>)
    ensures r.Err? <==> |rows| == 0
    ensures r.Err? ==> r.error == NotOnDatabase(ion1, ion2)
    ensures r.Ok? ==> r.value.row == rows[0] && (r.value.ambiguous <==> |rows| > 1)
  {
    if |rows| == 0 then Err(NotOnDatabase(ion1, ion2))
    else Ok(Checked(rows[0], |rows| != 1))
  }

  /** The row taken is one of the rows returned, and a single row is taken without
      warning. */
  lemma FirstRowIsReturned<R>(x: R, rows: seq<R>, ion1: string, ion2: string)
    ensures FirstRow(rows, ion1, ion2).Ok? ==> FirstRow(rows, ion1, ion2).value.row in rows
    ensures FirstRow([x], ion1, ion2) == Ok(Checked(x, false))
    ensures FirstRow([x] + rows, ion1, ion2) == Ok(Checked(x, rows != []))
  {
  }

  /** The oxidation state `get_bv_params` hands to `rmin`: ion1's when positive,
      otherwise ion2's. */
  function CationOs(ion1: Ion, ion2: Ion): (os: int)
    ensures os == ion1.oxState || os == ion2.oxState
    ensures ion1.oxState * ion2.oxState < 0 ==> os > 0
  {
    if ion1.oxState > 0 then ion1.oxState else ion2.oxState
  }

  /** The `rmin` of fileIO.py: softness1, softness2, r0, b, cation oxidation state, cn. */
  type RminFormula = (real, real, real, real, int, real) -> real

  /** The `d0` of fileIO.py: b, os1, os2, block1, rmin, period1, period2. */
  type D0Formula = (real, int, int, int, real, int, int) -> real

  /** `get_bv_params`: an opposite-sign pair (product of the oxidation states below zero)
      looks its parameters up and, with `bvse`, derives rmin and d0 from the row; a
      same-sign pair returns None without `bvse`, and with it reaches a query that cannot
      run. */
  function GetBvParams(ion1: Ion, ion2: Ion, bvse: bool, rows: seq<ParamRow>,
                       rmin: RminFormula, d0: D0Formula): (r: Result<Option<BvParam>, LookupError>)
    ensures ion1.oxState * ion2.oxState >= 0 ==> r == (if bvse then Err(BrokenQuery) else Ok(None))
    ensures ion1.oxState * ion2.oxState < 0 && |rows| == 0 ==>
              r == Err(NotOnDatabase(IonString(ion1), IonString(ion2)))
    ensures ion1.oxState * ion2.oxState < 0 && |rows| > 0 ==>
              && r.Ok? && r.value.Some?
              && var p := r.value.value;
              && p.r0 == rows[0].r0 && p.ib == rows[0].ib && p.cn == rows[0].cn
              && p.rCutoff == rows[0].rCutoff
              && (bvse <==> p.i1r.Some?) && (bvse <==> p.i2r.Some?)
              && (bvse <==> p.rmin.Some?) && (bvse <==> p.d0.Some?)
              && (bvse ==> p.i1r.value == rows[0].i1Radius && p.i2r.value == rows[0].i2Radius)
    ensures r.Ok? && r.value.Some? && r.value.value.rmin.Some? ==>
              var row := rows[0];
              && r.value.value.rmin.value
                 == rmin(row.i1Softness, row.i2Softness, row.r0, row.b, CationOs(ion1, ion2), row.cn)
              && r.value.value.d0 == Some(d0(row.b, ion1.oxState, ion2.oxState, row.i1Block,
                                             r.value.value.rmin.value, row.i1Period, row.i2Period))
  {
    if ion1.oxState * ion2.oxState < 0 then
      match FirstRow(rows, IonString(ion1), IonString(ion2))
      case Err(e) => Err(e)
      case Ok(checked) =>
        var row := checked.row;
        if bvse then
          var rm := rmin(row.i1Softness, row.i2Softness, row.r0, row.b, CationOs(ion1, ion2), row.cn);
          var d := d0(row.b, ion1.oxState, ion2.oxState, row.i1Block, rm, row.i1Period, row.i2Period);
          Ok(Some(BvParam(row.r0, row.ib, row.cn, row.rCutoff,
                          Some(row.i1Radius), Some(row.i2Radius), Some(rm), Some(d))))
        else
          Ok(Some(BvParam(row.r0, row.ib, row.cn, row.rCutoff, None, None, None, None)))
    else if bvse then Err(BrokenQuery)
    else Ok(None)
  }

  /** The order of the two ions does not decide which branch is taken. */
  lemma GetBvParamsBranchSymmetric(ion1: Ion, ion2: Ion, bvse: bool, rows: seq<ParamRow>,
                                   rmin: RminFormula, d0: D0Formula)
    ensures GetBvParams(ion1, ion2, bvse, rows, rmin, d0).Ok?
            <==> GetBvParams(ion2, ion1, bvse, rows, rmin, d0).Ok?
    ensures GetBvParams(ion1, ion2, bvse, rows, rmin, d0) == Ok(None)
            <==> GetBvParams(ion2, ion1, bvse, rows, rmin, d0) == Ok(None)
  {
    assert ion1.oxState * ion2.oxState == ion2.oxState * ion1.oxState;
  }

  /** Whichever order an opposite-sign pair is given in, the cation's oxidation state is
      the positive one of the two. */
  lemma CationOsIsThePositiveOne(ion1: Ion, ion2: Ion)
    requires ion1.oxState * ion2.oxState < 0
    ensures CationOs(ion1, ion2) == CationOs(ion2, ion1)
  {
    OppositeSigns(ion1.oxState, ion2.oxState);
  }

  /** A negative product has one positive and one negative factor. */
  lemma OppositeSigns(a: int, b: int)
    requires a * b < 0
    ensures (a > 0 && b < 0) || (a < 0 && b > 0)
  {
  }

  /** A (r0, ib) pair, the row of the `getParams` query. */
  type R0Ib = (real, real)

  /** `getParams` (bvParameters.py): both ion strings are interpreted (the first one
      first) before the database is asked; then the rows are checked as in
      `_params_error_check`. `query` gives the rows stored for two interpreted ions. */
  function GetParams(ion1: string, ion2: string, query: ((string, int), (string, int)) -> seq<R0Ib>)
    : (r: Result<Checked<R0Ib>, LookupError>)
    ensures InterpretIon(ion1).Err? ==> r == Err(Uninterpretable(InterpretIon(ion1).error))
    ensures InterpretIon(ion1).Ok? && InterpretIon(ion2).Err? ==>
              r == Err(Uninterpretable(InterpretIon(ion2).error))
    ensures InterpretIon(ion1).Ok? && InterpretIon(ion2).Ok? ==>
              var rows := query(InterpretIon(ion1).value, InterpretIon(ion2).value);
              && (r.Err? <==> |rows| == 0)
              && (r.Ok? ==> r.value.row == rows[0] && (r.value.ambiguous <==> |rows| > 1))
  {
    match InterpretIon(ion1)
    case Err(e) => Err(Uninterpretable(e))
    case Ok(a) =>
      match InterpretIon(ion2)
      case Err(e) => Err(Uninterpretable(e))
      case Ok(b) => FirstRow(query(a, b), PairText(a), PairText(b))
  }

  /** How the error message prints an interpreted pair: by then the names hold the
      tuples, so the message shows Python's tuple notation, `('Pb', 2)`. */
  function PairText(p: (string, int)): (t: string)
    ensures |t| > |p.0| + 6 && t[..|p.0| + 5] == "('" + p.0 + "', " && t[|t| - 1] == ')'
    ensures var n := t[|p.0| + 5..|t| - 1];
            && (p.1 < 0 ==> n[0] == '-' && AllDigits(n[1..]) && DigitsValue(n[1..]) == -p.1)
            && (p.1 >= 0 ==> AllDigits(n) && DigitsValue(n) == p.1)
  {
    var t := "('" + p.0 + "', " + IntText(p.1) + ")";
    assert t[|p.0| + 5..|t| - 1] == IntText(p.1);
    assert t[..|p.0| + 5] == "('" + p.0 + "', ";
    assert p.1 < 0 ==> IntText(p.1)[1..] == NatToString(-p.1);
    DigitsValueOfNatToString(if p.1 < 0 then -p.1 else p.1);
    t
  }

  /** The pairs of lead(II) and fluoride are printed `('Pb', 2)` and `('F', -1)`. */
  lemma PairTextExamples()
    ensures PairText(("Pb", 2)) == "('Pb', 2)"
    ensures PairText(("F", -1)) == "('F', -1)"
  {
    assert NatToString(2) == "2" && NatToString(1) == "1";
  }

  /** `str` of an integer. */
  function IntText(n: int): string
  {
    if n < 0 then "-" + NatToString(-n) else NatToString(n)
  }

  /** Asking with the notation of two ions asks the database about exactly those ions;
      a missing pair is reported as `('Pb', 2)`. */
  lemma GetParamsOfIonStrings(a: Ion, b: Ion, query: ((string, int), (string, int)) -> seq<R0Ib>)
    requires |a.element| <= 2 && AllLetters(a.element) && a.oxState != 0
    requires |b.element| <= 2 && AllLetters(b.element) && b.oxState != 0
    ensures GetParams(IonString(a), IonString(b), query)
            == FirstRow(query((a.element, a.oxState), (b.element, b.oxState)),
                        PairText((a.element, a.oxState)), PairText((b.element, b.oxState)))
  {
    InterpretIonString(a);
    InterpretIonString(b);
  }
}
