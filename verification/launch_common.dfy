/**
 The resource heuristics shared by the three workflow launchers: the
 valence of a pseudopotential read from its UPF text, the electron count of
 a structure, the band count, the machine count guesses and the k-point
 pool count, and the namelist parameters handed to Quantum ESPRESSO.
 */
module LaunchCommon {
  import opened Common
  import opened Atoms

  // ---------------------------------------------------------------------------
  // Valence electrons from UPF text
  // ---------------------------------------------------------------------------

  /** A line that declares the valence: it mentions "valence" and "z" in any
      case. */
  predicate IsValenceLine(line: string) {
    HasSubstring(Lower(line), "valence") && HasSubstring(Lower(line), "z")
  }

  /** The valence a declaring line gives: the quoted value after a single `=`
      (UPF version 2), or the first of exactly three words (version 1);
      anything else cannot be parsed. */
  function ValenceOfLine(line: string): (r: Result<int>)
    ensures |Split(line, '=')| != 2 && |Words(line)| != 3 ==> r.Err?
    ensures |Split(line, '=')| == 2 ==>
      var value := ParseFloat(Strip(Strip(Split(line, '=')[1], Whitespace), {'"'}));
      && (r.Ok? <==> value.Some?)
      && (r.Ok? ==> r.value == TruncToInt(value.value))
    ensures |Split(line, '=')| != 2 && |Words(line)| == 3 ==>
      var value := ParseFloat(Words(line)[0]);
      && (r.Ok? <==> value.Some?)
      && (r.Ok? ==> r.value == TruncToInt(value.value))
  {
    var parts := Split(line, '=');
    if |parts| == 2 then
      match ParseIntOfFloat(Strip(Strip(parts[1], Whitespace), {'"'}))
      case None => Err("ValueError: could not convert string to float")
      case Some(v) => Ok(v)
    else if |Words(line)| == 3 then
      match ParseIntOfFloat(Words(line)[0])
      case None => Err("ValueError: could not convert string to float")
      case Some(v) => Ok(v)
    else Err("Could not parse the pseudopotential")
  }

  /** `parse_numelectrons_upfdata`: every declaring line is parsed, in order;
      the last one wins; a file without one leaves the count unbound. */
  function ParseValence(lines: seq<string>): Result<int> {
    ScanDeclarations(lines, None, IsValenceLine, ValenceOfLine)
  }

  /** The loop of `parse_numelectrons_upfdata` for any line test and line
      parser: the first failing declaration stops the scan. */
  function ScanDeclarations(lines: seq<string>, current: Option<int>,
                            declares: string -> bool, parse: string -> Result<int>): Result<int>
    decreases |lines|
  {
    if |lines| == 0 then
      if current.None? then Err("UnboundLocalError: no valence line") else Ok(current.value)
    else if declares(lines[0]) then
      match parse(lines[0])
      case Err(e) => Err(e)
      case Ok(v) => ScanDeclarations(lines[1..], Some(v), declares, parse)
    else ScanDeclarations(lines[1..], current, declares, parse)
  }

  /** The declaring lines of a file, in order. */
  function Declarations(lines: seq<string>, declares: string -> bool): (r: seq<string>)
    ensures forall l :: l in r <==> l in lines && declares(l)
    decreases |lines|
  {
    if |lines| == 0 then []
    else
      assert forall l :: l in lines <==> l == lines[0] || l in lines[1..];
      (if declares(lines[0]) then [lines[0]] else []) + Declarations(lines[1..], declares)
  }

  /** The scan succeeds exactly when every declaring line parses and there is
      at least one (or a value from before). */
  lemma {:induction false} ScanSucceeds(lines: seq<string>, current: Option<int>,
                                        declares: string -> bool, parse: string -> Result<int>)
    ensures ScanDeclarations(lines, current, declares, parse).Ok? <==>
      (forall l :: l in Declarations(lines, declares) ==> parse(l).Ok?)
      && (|Declarations(lines, declares)| > 0 || current.Some?)
    decreases |lines|
  {
    if |lines| > 0 {
      var rest := Declarations(lines[1..], declares);
      if declares(lines[0]) {
        assert Declarations(lines, declares) == [lines[0]] + rest;
        match parse(lines[0])
        case Err(_) =>
        case Ok(v) => ScanSucceeds(lines[1..], Some(v), declares, parse);
      } else {
        ScanSucceeds(lines[1..], current, declares, parse);
      }
    }
  }

  /** A successful scan returns the value of the last declaring line. */
  lemma {:induction false} ScanIsLastDeclaration(lines: seq<string>, current: Option<int>,
                                                 declares: string -> bool, parse: string -> Result<int>)
    requires ScanDeclarations(lines, current, declares, parse).Ok?
    ensures var d := Declarations(lines, declares);
      |d| > 0 ==> ScanDeclarations(lines, current, declares, parse) == parse(d[|d| - 1])
    ensures |Declarations(lines, declares)| == 0 ==>
      current.Some? && ScanDeclarations(lines, current, declares, parse) == Ok(current.value)
    decreases |lines|
  {
    if |lines| > 0 {
      var d := Declarations(lines, declares);
      var rest := Declarations(lines[1..], declares);
      if declares(lines[0]) {
        assert d == [lines[0]] + rest;
        var v := parse(lines[0]).value;
        ScanIsLastDeclaration(lines[1..], Some(v), declares, parse);
        if |rest| > 0 {
          assert d[|d| - 1] == rest[|rest| - 1];
        }
      } else {
        assert d == rest;
        ScanIsLastDeclaration(lines[1..], current, declares, parse);
      }
    }
  }

  /** The valence of a pseudopotential is the value of its last declaring
      line; it can be read exactly when every declaring line parses and there
      is at least one. */
  lemma ParseValenceIsLastLine(lines: seq<string>)
    ensures var d := Declarations(lines, IsValenceLine);
      ParseValence(lines).Ok? <==> |d| > 0 && forall l :: l in d ==> ValenceOfLine(l).Ok?
    ensures var d := Declarations(lines, IsValenceLine);
      ParseValence(lines).Ok? ==> ParseValence(lines) == ValenceOfLine(d[|d| - 1])
  {
    ScanSucceeds(lines, None, IsValenceLine, ValenceOfLine);
    if ParseValence(lines).Ok? {
      ScanIsLastDeclaration(lines, None, IsValenceLine, ValenceOfLine);
    }
  }

  /** `get_numelectrons_structure_upffamily`: the valences of all sites
      added up; an element without a pseudopotential or with an unreadable
      one is an error. */
  function NumElectrons(symbols: seq<string>, pseudos: map<string, seq<string>>): (r: Result<int>)
    ensures r.Ok? <==> forall i :: 0 <= i < |symbols| ==>
      symbols[i] in pseudos && ParseValence(pseudos[symbols[i]]).Ok?
    decreases |symbols|
  {
    if |symbols| == 0 then Ok(0)
    else if symbols[0] !in pseudos then Err("KeyError: no pseudopotential for " + symbols[0])
    else
      match ParseValence(pseudos[symbols[0]])
      case Err(e) => Err(e)
      case Ok(v) =>
        match NumElectrons(symbols[1..], pseudos)
        case Err(e) => Err(e)
        case Ok(rest) =>
          assert forall i :: 1 <= i < |symbols| ==> symbols[i] == symbols[1..][i - 1];
          Ok(v + rest)
  }

  /** The count of a single site is its element's valence. */
  lemma NumElectronsOfOne(sym: string, pseudos: map<string, seq<string>>)
    ensures NumElectrons([sym], pseudos) ==
      if sym !in pseudos then Err("KeyError: no pseudopotential for " + sym) else ParseValence(pseudos[sym])
  {
    assert [sym][1..] == [];
  }

  /** The count is additive over a split of the sites. */
  lemma {:induction false} NumElectronsAppend(a: seq<string>, b: seq<string>, pseudos: map<string, seq<string>>)
    requires NumElectrons(a, pseudos).Ok? && NumElectrons(b, pseudos).Ok?
    ensures NumElectrons(a + b, pseudos).Ok?
    ensures NumElectrons(a + b, pseudos).value == NumElectrons(a, pseudos).value + NumElectrons(b, pseudos).value
    decreases |a|
  {
    if |a| == 0 {
      assert a + b == b;
    } else {
      assert (a + b)[0] == a[0] && (a + b)[1..] == a[1..] + b;
      NumElectronsAppend(a[1..], b, pseudos);
    }
  }

  // ---------------------------------------------------------------------------
  // Bands and parameters
  // ---------------------------------------------------------------------------

  /** A namelist of pw.x input and the namelists of a parameter node. */
  type Namelist = map<string, Value>
  type Params = map<string, Namelist>

  /** `Float(text)`: aiida's float node converts the option text with
      Python's `float`, a ValueError when it is not a number. */
  function FloatNode(text: string): (r: Result<real>)
    ensures r.Ok? <==> ParseFloat(text).Some?
    ensures r.Ok? ==> r.value == ParseFloat(text).value
  {
    match ParseFloat(text)
    case None => Err("ValueError: could not convert string to float: " + text)
    case Some(x) => Ok(x)
  }

  /** `Int(text)`: aiida's integer node converts the option text with
      Python's `int`, a ValueError when it is not an integer. */
  function IntNode(text: string): (r: Result<int>)
    ensures r.Ok? <==> ParseInt(text).Some?
    ensures r.Ok? ==> r.value == ParseInt(text).value
  {
    match ParseInt(text)
    case None => Err("ValueError: invalid literal for int() with base 10: " + text)
    case Some(n) => Ok(n)
  }

  const MinBands: real := 20.0

  /** `nbnd`: the electron count times the ratio, at least 20. */
  function BandCount(nelec: int, ratio: real): (r: real)
    ensures r >= MinBands && r >= nelec as real * ratio
    ensures r == MinBands || r == nelec as real * ratio
  {
    MaxReal(nelec as real * ratio, MinBands)
  }

  /** `wf_setupparams` without the cell update: the base parameters with
      `SYSTEM.nbnd` set; a base without a SYSTEM namelist is a KeyError. */
  function SetBands(base: Params, nbnd: real): (r: Result<Params>)
    ensures r.Ok? <==> "SYSTEM" in base
    ensures r.Ok? ==> (&& r.value.Keys == base.Keys
                       && (forall k :: k in base && k != "SYSTEM" ==> r.value[k] == base[k])
                       && r.value["SYSTEM"].Keys == base["SYSTEM"].Keys + {"nbnd"}
                       && r.value["SYSTEM"]["nbnd"] == Real(nbnd)
                       && (forall k :: k in base["SYSTEM"] && k != "nbnd" ==> r.value["SYSTEM"][k] == base["SYSTEM"][k]))
  {
    if "SYSTEM" !in base then Err("KeyError: SYSTEM")
    else Ok(base["SYSTEM" := base["SYSTEM"]["nbnd" := Real(nbnd)]])
  }

  /** Setting the bands twice keeps only the second count. */
  lemma SetBandsTwice(base: Params, a: real, b: real)
    requires "SYSTEM" in base
    ensures SetBands(SetBands(base, a).value, b) == SetBands(base, b)
  {
    var once := SetBands(base, a).value;
    assert once["SYSTEM"]["nbnd" := Real(b)] == base["SYSTEM"]["nbnd" := Real(b)];
    assert once["SYSTEM" := once["SYSTEM"]["nbnd" := Real(b)]] == base["SYSTEM" := base["SYSTEM"]["nbnd" := Real(b)]];
  }

  // ---------------------------------------------------------------------------
  // Rounding and machine counts
  // ---------------------------------------------------------------------------

  /** Python 3 `round` on a float: to the nearest integer, ties to even. */
  function RoundHalfEven(x: real): (r: int)
    ensures -0.5 <= x - r as real <= 0.5
    ensures (x - r as real == 0.5 || r as real - x == 0.5) ==> r % 2 == 0
  {
    var f := x.Floor;
    var d := x - f as real;
    if d < 0.5 then f else if d > 0.5 then f + 1 else if f % 2 == 0 then f else f + 1
  }

  /** Python 2 `round` on a float: to the nearest integer, ties away from
      zero. */
  function RoundHalfAway(x: real): (r: int)
    ensures -0.5 <= x - r as real <= 0.5
    ensures x - r as real == 0.5 ==> x < 0.0
    ensures r as real - x == 0.5 ==> x > 0.0
  {
    if x >= 0.0 then (x + 0.5).Floor else -((-x + 0.5).Floor)
  }

  /** Both roundings are monotone. */
  lemma RoundingMonotone(x: real, y: real)
    requires x <= y
    ensures RoundHalfEven(x) <= RoundHalfEven(y)
    ensures RoundHalfAway(x) <= RoundHalfAway(y)
  {
  }

  /** The two roundings differ only on ties. */
  lemma RoundingsAgreeOffTies(x: real)
    requires x - (x.Floor as real) != 0.5
    ensures RoundHalfEven(x) == RoundHalfAway(x)
  {
  }

  /** `max(round(guess / 2) * 2, 2)`: an even count of at least 2 within one
      of the guess. */
  function EvenMachines(guess: real, halfEven: bool): (r: int)
    ensures r >= 2 && r % 2 == 0
    ensures guess >= 1.0 ==> -1.0 <= guess - r as real <= 1.0
  {
    Max((if halfEven then RoundHalfEven(guess / 2.0) else RoundHalfAway(guess / 2.0)) * 2, 2)
  }

  lemma EvenMachinesMonotone(g: real, h: real, halfEven: bool)
    requires g <= h
    ensures EvenMachines(g, halfEven) <= EvenMachines(h, halfEven)
  {
    RoundingMonotone(g / 2.0, h / 2.0);
  }

  /** `max(4, int(m / 2))`: the k-point pool guess. */
  function NkGuess(machines: int): (nk: int)
    ensures nk >= 4
    ensures machines < 8 ==> nk == 4
    ensures machines >= 8 ==> nk == machines / 2
  {
    Max(4, TruncDiv(machines, 2))
  }

  /** `nk_nump_evenlydivisible`: the processor count splits into `nk` pools. */
  predicate EvenlyDivisible(nk: int, nump: int)
    requires nk > 0
  {
    nump % nk == 0
  }

  /** For an even machine count of at least 8 the guess is half the machines,
      which always divides the processor count. */
  lemma NkGuessDividesLargeEven(machines: int, ppm: int)
    requires machines >= 8 && machines % 2 == 0
    ensures NkGuess(machines) == machines / 2
    ensures EvenlyDivisible(NkGuess(machines), machines * ppm)
  {
    var h := machines / 2;
    assert machines == 2 * h;
    assert machines * ppm == h * (2 * ppm);
    MultipleMod(h, 2 * ppm);
  }

  lemma MultipleMod(h: int, k: int)
    requires h > 0
    ensures (h * k) % h == 0
  {
    var q := (h * k) / h;
    var r := (h * k) % h;
    assert h * (k - q) == r by {
      assert h * k == h * q + r;
    }
    var t := k - q;
    if t > 0 {
      ProductAtLeast(h, t);
    }
  }

  lemma ProductAtLeast(h: nat, t: nat)
    requires t > 0
    ensures h * t >= h
  {
    assert h * t == h + h * (t - 1);
  }

  // ---------------------------------------------------------------------------
  // Job options
  // ---------------------------------------------------------------------------

  datatype JobOptions = JobOptions(
    maxWallclockSeconds: int,
    numMachines: int,
    maxMemoryKb: Option<int>,
    queueName: Option<string>)

  const DebugMachines: int := 2
  const DebugWallclockSeconds: int := 30 * 60

  /** The debug queue: two machines for half an hour. */
  function DebugOptions(o: JobOptions): (r: JobOptions)
    ensures r.numMachines == DebugMachines && r.maxWallclockSeconds == DebugWallclockSeconds
    ensures r.queueName == Some("debug") && r.maxMemoryKb == o.maxMemoryKb
  {
    o.(numMachines := DebugMachines, maxWallclockSeconds := DebugWallclockSeconds, queueName := Some("debug"))
  }

  lemma DebugOptionsIdempotent(o: JobOptions)
    ensures DebugOptions(DebugOptions(o)) == DebugOptions(o)
  {
  }
}
