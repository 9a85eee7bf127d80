/** Ion identities and their string notation (`Ion`, `core.hasLonePair` in fileIO.py and
    `interpretIon` in bvParameters.py).

    An ion is written as its element symbol, then the magnitude of the oxidation state
    when that magnitude exceeds one, then `+` for a positive and `-` for any other state:
    `Pb2+`, `F-`, `O2-`. It is read back with a regular-expression SEARCH for
    `([A-Za-z]{,2})(\d*)(\+|-)`; the oxidation state is the sign applied to the digits,
    and no digits mean 1. */
module IonNotation {
  import opened Outcomes
  import opened Text

  datatype Ion = Ion(element: string, oxState: int)

  datatype IonError =
    | CannotInterpret(text: string)        // the search found no match
    | MissingArgument(name: string)        // a function called without one of its parameters

  function Abs(n: int): nat { if n < 0 then -n else n }

  /** The middle part of the notation: the decimal magnitude, written only above one. */
  function MagnitudeText(oxState: int): (s: string)
    ensures AllDigits(s)
    ensures s == [] <==> Abs(oxState) <= 1
    ensures Abs(oxState) > 1 ==> DigitsValue(s) == Abs(oxState)
  {
    DigitsValueOfNatToString(Abs(oxState));
    if Abs(oxState) > 1 then NatToString(Abs(oxState)) else ""
  }

  function SignChar(oxState: int): char
  {
    if oxState > 0 then '+' else '-'
  }

  /** `Ion(element, ox_state).string`. */
  function IonString(ion: Ion): (s: string)
    ensures |s| > |ion.element| && s[..|ion.element|] == ion.element
    ensures s[|s| - 1] == (if ion.oxState > 0 then '+' else '-')
    ensures AllDigits(s[|ion.element|..|s| - 1])
    ensures |s| == |ion.element| + 1 <==> Abs(ion.oxState) <= 1
    ensures Abs(ion.oxState) > 1 ==> DigitsValue(s[|ion.element|..|s| - 1]) == Abs(ion.oxState)
  {
    var s := ion.element + MagnitudeText(ion.oxState) + [SignChar(ion.oxState)];
    assert s[|ion.element|..|s| - 1] == MagnitudeText(ion.oxState);
    s
  }

  // ---------------------------------------------------------------------------
  // The regular expression ([A-Za-z]{,2})(\d*)(\+|-)

  predicate IsSign(c: char) { c == '+' || c == '-' }

  predicate AllLetters(s: string) { forall i :: 0 <= i < |s| ==> IsAsciiLetter(s[i]) }

  /** The pattern's own meaning: at position `p`, `nl` letters (at most two), then `nd`
      digits, then a sign. Whatever choices a backtracking engine tries, a match at `p`
      is one such pair. */
  ghost predicate PatternMatchesAt(s: string, p: nat, nl: nat, nd: nat)
  {
    && p + nl + nd < |s|
    && nl <= 2
    && AllLetters(s[p..p + nl])
    && AllDigits(s[p + nl..p + nl + nd])
    && IsSign(s[p + nl + nd])
  }

  datatype IonMatch = IonMatch(letters: string, digits: string, sign: char)

  /** Greedy run of letters at `p`, stopping after two. */
  function LetterRun(s: string, p: nat): (n: nat)
    requires p <= |s|
    ensures n <= 2 && p + n <= |s| && AllLetters(s[p..p + n])
    ensures n < 2 ==> p + n == |s| || !IsAsciiLetter(s[p + n])
  {
    if p < |s| && IsAsciiLetter(s[p]) then
      if p + 1 < |s| && IsAsciiLetter(s[p + 1]) then 2 else 1
    else 0
  }

  /** Greedy run of digits at `p`. */
  function DigitRun(s: string, p: nat): (n: nat)
    requires p <= |s|
    ensures p + n <= |s| && AllDigits(s[p..p + n])
    ensures p + n == |s| || !IsDigit(s[p + n])
    decreases |s| - p
  {
    if p < |s| && IsDigit(s[p]) then
      var n := 1 + DigitRun(s, p + 1);
      assert s[p..p + n] == [s[p]] + s[p + 1..p + n];
      n
    else 0
  }

  /** The match of the pattern at position `p`, if there is one. */
  function MatchAt(s: string, p: nat): (m: Option<IonMatch>)
    requires p <= |s|
  {
    var nl := LetterRun(s, p);
    var nd := DigitRun(s, p + nl);
    if p + nl + nd < |s| && IsSign(s[p + nl + nd]) then
      Some(IonMatch(s[p..p + nl], s[p + nl..p + nl + nd], s[p + nl + nd]))
    else None
  }

  /** The greedy scanner is exactly the pattern: it matches at `p` iff some split matches
      there, and that split is unique, so it is the one `MatchAt` reports. */
  lemma MatchAtIsThePattern(s: string, p: nat, nl: nat, nd: nat)
    requires p <= |s|
    ensures PatternMatchesAt(s, p, nl, nd) ==>
              MatchAt(s, p) == Some(IonMatch(s[p..p + nl], s[p + nl..p + nl + nd], s[p + nl + nd]))
    ensures MatchAt(s, p).Some? ==> PatternMatchesAt(s, p, LetterRun(s, p), DigitRun(s, p + LetterRun(s, p)))
  {
    if PatternMatchesAt(s, p, nl, nd) {
      var gl := LetterRun(s, p);
      assert forall k :: p <= k < p + nl ==> IsAsciiLetter(s[k]) by {
        forall k | p <= k < p + nl ensures IsAsciiLetter(s[k]) {
          assert s[k] == s[p..p + nl][k - p];
        }
      }
      assert forall k :: p + nl <= k < p + nl + nd ==> IsDigit(s[k]) by {
        forall k | p + nl <= k < p + nl + nd ensures IsDigit(s[k]) {
          assert s[k] == s[p + nl..p + nl + nd][k - p - nl];
        }
      }
      if nl < gl {
        // the pattern would leave a letter where a digit or the sign must stand
        assert false;
      }
      if gl < nl {
        assert false;
      }
      var gd := DigitRun(s, p + nl);
      if nd < gd {
        assert false;
      }
      if gd < nd {
        assert false;
      }
    }
  }

  /** `ION_REGEX.search(s)` from position `p` on: the match at the least position
      `q >= p` where the pattern matches. */
  function SearchFrom(s: string, p: nat): (r: Option<(nat, IonMatch)>)
    requires p <= |s|
    ensures r.Some? ==> p <= r.value.0 <= |s| && MatchAt(s, r.value.0) == Some(r.value.1)
    ensures r.Some? ==> forall q :: p <= q < r.value.0 ==> MatchAt(s, q).None?
    ensures r.None? ==> forall q :: p <= q <= |s| ==> MatchAt(s, q).None?
    decreases |s| - p
  {
    match MatchAt(s, p)
    case Some(m) => Some((p, m))
    case None => if p == |s| then None else SearchFrom(s, p + 1)
  }

  function Search(s: string): Option<(nat, IonMatch)>
  {
    SearchFrom(s, 0)
  }

  /** `int(sign + digits)`, where no digits stand for "1". */
  function MatchOxState(m: IonMatch): (os: int)
    ensures m.sign == '+' ==> os >= 0
    ensures m.sign != '+' ==> os <= 0
    ensures m.digits == [] ==> Abs(os) == 1
    ensures m.digits != [] && AllDigits(m.digits) ==> Abs(os) == DigitsValue(m.digits)
  {
    var magnitude := if m.digits == [] then 1
                     else if AllDigits(m.digits) then DigitsValue(m.digits) else 0;
    if m.sign == '+' then magnitude else -magnitude
  }

  /** `interpretIon` (bvParameters.py): the (element, oxidation state) pair of the first
      match, or an error when the pattern matches nowhere. */
  function InterpretIon(text: string): (r: Result<(string, int), IonError>)
    ensures r.Err? <==> forall q :: 0 <= q <= |text| ==> MatchAt(text, q).None?
    ensures r.Err? ==> r.error == CannotInterpret(text)
    ensures r.Ok? ==>
              (exists q :: && 0 <= q <= |text| && MatchAt(text, q).Some?
                           && r.value == (MatchAt(text, q).value.letters, MatchOxState(MatchAt(text, q).value))
                           && forall q' :: 0 <= q' < q ==> MatchAt(text, q').None?)
  {
    match Search(text)
    case None => Err(CannotInterpret(text))
    case Some((q, m)) => Ok((m.letters, MatchOxState(m)))
  }

  /** `Ion.from_string` as the source calls it. Once the search has matched, the state
      argument calls `cls.one_reducer(result[2])`. Read through the class, that lambda of
      `self` and `x` is a plain function, so the digits land in `self` and `x` is missing.
      So every call raises: either nothing matched, or `x` is missing. (The `os` keyword
      passed to a constructor whose parameter is `ox_state` would raise next, but it is
      never reached.) */
  function FromStringAsWritten(text: string): (r: Result<Ion, IonError>)
    ensures r.Err?
    ensures InterpretIon(text).Err? ==> r.error == CannotInterpret(text)
    ensures InterpretIon(text).Ok? ==> r.error == MissingArgument("x")
  {
    match Search(text)
    case None => Err(CannotInterpret(text))
    case Some(_) => Err(MissingArgument("x"))
  }

  /** `Ion.from_string` with the constructor called as intended. */
  function FromString(text: string): (r: Result<Ion, IonError>)
    ensures r.Err? <==> InterpretIon(text).Err?
    ensures r.Ok? ==> r.value == Ion(InterpretIon(text).value.0, InterpretIon(text).value.1)
  {
    match InterpretIon(text)
    case Err(e) => Err(e)
    case Ok((element, oxState)) => Ok(Ion(element, oxState))
  }

  /** As written, `from_string` never returns an ion, not even for the notation the class
      itself produces. */
  lemma FromStringAsWrittenFails()
    ensures FromStringAsWritten("Pb2+") == Err(MissingArgument("x"))
    ensures FromString("Pb2+") == Ok(Ion("Pb", 2))
  {
    MatchAtLayout("Pb", "2", '+');
    assert "Pb" + "2" + ['+'] == "Pb2+";
    assert DigitsValue("2") == 2 by {
      assert "2"[..0] == "";
    }
  }

  // ---------------------------------------------------------------------------
  // Round trip

  /** A string laid out as letters, digits and a sign matches at its start with exactly
      that split. */
  lemma MatchAtLayout(e: string, mid: string, c: char)
    requires |e| <= 2 && AllLetters(e) && AllDigits(mid) && IsSign(c)
    ensures MatchAt(e + mid + [c], 0) == Some(IonMatch(e, mid, c))
  {
    var s := e + mid + [c];
    assert s[0..|e|] == e;
    assert s[|e|..|e| + |mid|] == mid;
    assert s[|e| + |mid|] == c;
    assert PatternMatchesAt(s, 0, |e|, |mid|);
    MatchAtIsThePattern(s, 0, |e|, |mid|);
  }

  /** The notation of an ion whose element is at most two ASCII letters and whose
      oxidation state is not zero is read back as that element and state, by both
      `interpretIon` and the corrected `from_string`. */
  lemma InterpretIonString(ion: Ion)
    requires |ion.element| <= 2 && AllLetters(ion.element) && ion.oxState != 0
    ensures InterpretIon(IonString(ion)) == Ok((ion.element, ion.oxState))
    ensures FromString(IonString(ion)) == Ok(ion)
  {
    var mid := MagnitudeText(ion.oxState);
    var m := IonMatch(ion.element, mid, SignChar(ion.oxState));
    MatchAtLayout(ion.element, mid, SignChar(ion.oxState));
    assert Search(IonString(ion)) == Some((0, m));
    if mid != [] {
      DigitsValueOfNatToString(Abs(ion.oxState));
    }
    assert MatchOxState(m) == ion.oxState;
  }

  // ---------------------------------------------------------------------------
  // Equality and hashing

  /** The right-hand operand of `Ion.__eq__`. */
  datatype Operand = IonOperand(ion: Ion) | TextOperand(text: string) | OtherOperand

  /** `Ion.__eq__` with `from_string` corrected: another ion compares by (element,
      oxidation state); a string is first parsed (and an unparsable one raises);
      anything else is unequal. */
  function IonEquals(self: Ion, other: Operand): (r: Result<bool, IonError>)
    ensures other.IonOperand? ==>
              r == Ok(self.element == other.ion.element && self.oxState == other.ion.oxState)
    ensures other.TextOperand? ==>
              (r.Err? <==> InterpretIon(other.text).Err?)
              && (r.Ok? ==> r.value == (InterpretIon(other.text).value == (self.element, self.oxState)))
    ensures other.OtherOperand? ==> r == Ok(false)
  {
    match other
    case IonOperand(o) => Ok(self.element == o.element && self.oxState == o.oxState)
    case TextOperand(t) =>
      (match FromString(t)
       case Err(e) => Err(e)
       case Ok(o) => Ok(self.element == o.element && self.oxState == o.oxState))
    case OtherOperand => Ok(false)
  }

  /** `Ion.__eq__` as written: a string goes through `from_string` as the source calls
      it, so comparing with any string raises; other operands compare as in
      `IonEquals`. */
  function IonEqualsAsWritten(self: Ion, other: Operand): (r: Result<bool, IonError>)
    ensures other.TextOperand? ==> r.Err?
    ensures other.TextOperand? && InterpretIon(other.text).Ok? ==> r == Err(MissingArgument("x"))
    ensures !other.TextOperand? ==> r == IonEquals(self, other)
  {
    match other
    case IonOperand(o) => Ok(self.element == o.element && self.oxState == o.oxState)
    case TextOperand(t) =>
      (match FromStringAsWritten(t)
       case Err(e) => Err(e)
       case Ok(o) => Ok(self.element == o.element && self.oxState == o.oxState))
    case OtherOperand => Ok(false)
  }

  /** `Ion.__hash__` hashes this pair; Python's hash of a tuple is not modelled, only the
      key it is computed from. */
  function HashKey(ion: Ion): (key: (string, int))
    ensures Ion(key.0, key.1) == ion
  {
    (ion.element, ion.oxState)
  }

  /** Equal ions have equal hash keys, and ions with equal keys are equal: hashing agrees
      with `__eq__` in both directions. */
  lemma EqualIonsShareHashKey(a: Ion, b: Ion)
    ensures IonEquals(a, IonOperand(b)) == Ok(true) <==> HashKey(a) == HashKey(b)
  {
  }

  /** With `from_string` corrected, an ion equals its own notation. */
  lemma IonEqualsOwnString(ion: Ion)
    requires |ion.element| <= 2 && AllLetters(ion.element) && ion.oxState != 0
    ensures IonEquals(ion, TextOperand(IonString(ion))) == Ok(true)
  {
    InterpretIonString(ion);
  }

  /** As written, comparing an ion with its own notation raises `TypeError` over the
      missing argument of `one_reducer` instead of answering `True`. */
  lemma IonEqualsOwnStringAsWritten(ion: Ion)
    requires |ion.element| <= 2 && AllLetters(ion.element) && ion.oxState != 0
    ensures IonEqualsAsWritten(ion, TextOperand(IonString(ion))) == Err(MissingArgument("x"))
  {
    InterpretIonString(ion);
  }

  // ---------------------------------------------------------------------------
  // Lone pairs

  const LonePairElements: seq<string> := ["Pb", "Sn", "Bi", "Sb", "Tl"]

  /** `core.hasLonePair`: membership in the whitelist of lone-pair elements. */
  function HasLonePair(element: string): (r: bool)
    ensures r <==> element == "Pb" || element == "Sn" || element == "Bi" || element == "Sb" || element == "Tl"
  {
    element in LonePairElements
  }

  /** `Ion.possible_lone_pair`: decided by the element alone, whatever the charge. */
  function PossibleLonePair(ion: Ion): (r: bool)
    ensures r <==> HasLonePair(ion.element)
    ensures r ==> |ion.element| == 2
  {
    ion.element in LonePairElements
  }
}
