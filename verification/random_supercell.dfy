/**
 Random FCC supercells: a pure supercell of the first matrix element with the
 concentration-weighted average lattice size, whose every site is then given
 an element drawn with the given concentrations, and whose atoms are rattled.

 The uniform draws, the seeds and ase's `rattle` and supercell builder are
 parameters.
 */
module RandomSupercell {
  import opened Common
  import opened Atoms
  import opened Vacancies
  import SoluteSupercell

  type Candidate = SoluteSupercell.Candidate

  /** `gen_ase_supercell(lattice, shape, element)`, `Atoms.rattle(stdev,
      seed)`, and the uniform draws of `np.random.RandomState(seed)`. */
  datatype Toolkit = Toolkit(
    supercell: (real, seq<string>, string) -> Structure,
    rattle: (Structure, real, int) -> Structure,
    generator: int -> (nat -> real))

  /** The two seeds `random.randint` draws for one sample. */
  datatype Sample = Sample(matrixSeed: int, displacementSeed: int)

  datatype Options = Options(
    matrixElements: string,
    latticeSizes: string,
    concentrations: string,
    randomDisplacement: real,
    numberSamples: int,
    supercellShape: string)

  // ---------------------------------------------------------------------------
  // Drawing an element
  // ---------------------------------------------------------------------------

  /** `np.sum`, added from the front. */
  function Sum(xs: seq<real>): real
    decreases |xs|
  {
    if |xs| == 0 then 0.0 else Sum(xs[..|xs| - 1]) + xs[|xs| - 1]
  }

  /** `np.allclose(a, b)` with numpy's default tolerances. */
  predicate AllClose(a: real, b: real) {
    AbsReal(a - b) <= 0.00000001 + 0.00001 * AbsReal(b)
  }

  /** The cumulative sum `np.cumsum(c)[i]`. */
  function Cumulative(c: seq<real>, i: nat): real
    requires i < |c|
  {
    Sum(c[..i + 1])
  }

  /** The scan from `i`: the first cumulative sum that reaches the draw. */
  function SelectFrom(c: seq<real>, draw: real, i: nat): (r: Option<nat>)
    requires i <= |c|
    ensures r.Some? ==> (&& i <= r.value < |c|
                         && draw <= Cumulative(c, r.value)
                         && forall j :: i <= j < r.value ==> draw > Cumulative(c, j))
    ensures r.None? ==> forall j :: i <= j < |c| ==> draw > Cumulative(c, j)
    decreases |c| - i
  {
    if i == |c| then None
    else if draw <= Cumulative(c, i) then Some(i)
    else SelectFrom(c, draw, i + 1)
  }

  /** `determine_selection`: concentrations that do not sum to one are
      refused; otherwise the first index whose cumulative concentration
      reaches the draw, and an error when none does. */
  function DetermineSelection(c: seq<real>, draw: real): (r: Result<nat>)
    ensures r.Ok? <==> AllClose(Sum(c), 1.0) && exists j :: 0 <= j < |c| && draw <= Cumulative(c, j)
    ensures r.Ok? ==> (&& r.value < |c|
                       && draw <= Cumulative(c, r.value)
                       && forall j :: 0 <= j < r.value ==> draw > Cumulative(c, j))
  {
    if !AllClose(Sum(c), 1.0) then Err("concentrations do not sum to 1")
    else
      match SelectFrom(c, draw, 0)
      case Some(i) => Ok(i)
      case None => Err("Error: no selection chosen!")
  }

  /** With non-negative concentrations the cumulative sums never decrease. */
  lemma {:induction false} CumulativeGrows(c: seq<real>, j: nat, k: nat)
    requires forall i :: 0 <= i < |c| ==> c[i] >= 0.0
    requires j <= k < |c|
    ensures Cumulative(c, j) <= Cumulative(c, k)
    decreases k - j
  {
    if j < k {
      CumulativeGrows(c, j, k - 1);
      assert c[..k + 1][..k] == c[..k];
    }
  }

  /** With non-negative concentrations, element `i` is drawn exactly when
      the draw falls in its own slice of the cumulative sums:
      above `cumsum[i-1]` and at most `cumsum[i]`. */
  lemma SelectionInterval(c: seq<real>, draw: real, i: nat)
    requires forall k :: 0 <= k < |c| ==> c[k] >= 0.0
    requires AllClose(Sum(c), 1.0) && i < |c|
    ensures DetermineSelection(c, draw) == Ok(i)
      <==> draw <= Cumulative(c, i) && (i == 0 || Cumulative(c, i - 1) < draw)
  {
    if draw <= Cumulative(c, i) && (i == 0 || Cumulative(c, i - 1) < draw) {
      forall j | 0 <= j < i ensures draw > Cumulative(c, j) {
        CumulativeGrows(c, j, i - 1);
      }
      var r := DetermineSelection(c, draw);
      assert r.Ok?;
    }
  }

  /** Concentrations that sum to exactly one always select an element for a
      draw in `[0, 1]`: the last cumulative sum is the total. */
  lemma UnitSumAlwaysSelects(c: seq<real>, draw: real)
    requires |c| >= 1 && Sum(c) == 1.0 && draw <= 1.0
    ensures DetermineSelection(c, draw).Ok?
  {
    assert c[..|c|] == c;
    assert draw <= Cumulative(c, |c| - 1);
  }

  // ---------------------------------------------------------------------------
  // The averaged lattice
  // ---------------------------------------------------------------------------

  /** The normalisation: the concentrations of the non-negative lattice sizes. */
  function Weight(lattices: seq<real>, c: seq<real>): real
    requires |lattices| == |c|
    decreases |c|
  {
    if |c| == 0 then 0.0
    else
      var n := |c| - 1;
      Weight(lattices[..n], c[..n]) + (if lattices[n] >= 0.0 then c[n] else 0.0)
  }

  /** Some lattice size is non-negative. */
  predicate AnyIncluded(lattices: seq<real>) {
    exists i :: 0 <= i < |lattices| && lattices[i] >= 0.0
  }

  /** `x * c / norm` summed over the non-negative lattice sizes `x`; with no
      such size the sum is empty and nothing is divided. */
  function Terms(lattices: seq<real>, c: seq<real>, norm: real): real
    requires |lattices| == |c| && norm != 0.0
    decreases |c|
  {
    if |c| == 0 then 0.0
    else
      var n := |c| - 1;
      Terms(lattices[..n], c[..n], norm) + (if lattices[n] >= 0.0 then lattices[n] * c[n] / norm else 0.0)
  }

  /** `get_averaged_lattice`: mismatched lists are refused. Negative sizes
      take no part. When the included concentrations sum to zero, numpy
      yields a non-finite number, which the model reports as an error. */
  function AveragedLattice(lattices: seq<real>, c: seq<real>): (r: Result<real>)
    ensures |lattices| != |c| ==> r.Err?
    ensures |lattices| == |c| ==> (r.Ok? <==> Weight(lattices, c) != 0.0 || !AnyIncluded(lattices))
    ensures |lattices| == |c| && !AnyIncluded(lattices) ==> r == Ok(0.0)
  {
    if |lattices| != |c| then Err("Number of lattices must match concentrations")
    else if !AnyIncluded(lattices) then Ok(0.0)
    else
      var norm := Weight(lattices, c);
      if norm == 0.0 then Err("the averaged lattice is not a finite number")
      else Ok(Terms(lattices, c, norm))
  }

  /** The non-negative lattice sizes and their concentrations, in order. */
  function Included(lattices: seq<real>, c: seq<real>): (r: (seq<real>, seq<real>))
    requires |lattices| == |c|
    ensures |r.0| == |r.1|
    ensures forall i :: 0 <= i < |r.0| ==> r.0[i] >= 0.0
    decreases |c|
  {
    if |c| == 0 then ([], [])
    else
      var n := |c| - 1;
      var rest := Included(lattices[..n], c[..n]);
      if lattices[n] >= 0.0 then (rest.0 + [lattices[n]], rest.1 + [c[n]]) else rest
  }

  /** Dropping the negative lattice sizes (with their concentrations)
      changes neither the normalisation nor the weighted sum, so the average
      is that of the non-negative sizes alone. */
  lemma NegativeSizesIgnored(lattices: seq<real>, c: seq<real>)
    requires |lattices| == |c|
    ensures var kept := Included(lattices, c);
      AveragedLattice(kept.0, kept.1) == AveragedLattice(lattices, c)
  {
    var kept := Included(lattices, c);
    IncludedWeight(lattices, c);
    IncludedAny(lattices, c);
    var norm := Weight(lattices, c);
    if norm != 0.0 {
      IncludedTerms(lattices, c, norm);
    }
  }

  lemma {:induction false} IncludedWeight(lattices: seq<real>, c: seq<real>)
    requires |lattices| == |c|
    ensures Weight(Included(lattices, c).0, Included(lattices, c).1) == Weight(lattices, c)
    decreases |c|
  {
    if |c| > 0 {
      var n := |c| - 1;
      IncludedWeight(lattices[..n], c[..n]);
      var rest := Included(lattices[..n], c[..n]);
      if lattices[n] >= 0.0 {
        var l2, c2 := rest.0 + [lattices[n]], rest.1 + [c[n]];
        assert l2[..|rest.0|] == rest.0 && c2[..|rest.1|] == rest.1;
      }
    }
  }

  lemma {:induction false} IncludedAny(lattices: seq<real>, c: seq<real>)
    requires |lattices| == |c|
    ensures AnyIncluded(Included(lattices, c).0) <==> AnyIncluded(lattices)
    decreases |c|
  {
    if |c| > 0 {
      var n := |c| - 1;
      IncludedAny(lattices[..n], c[..n]);
      var rest := Included(lattices[..n], c[..n]);
      assert AnyIncluded(lattices) <==> AnyIncluded(lattices[..n]) || lattices[n] >= 0.0 by {
        if AnyIncluded(lattices) {
          var i :| 0 <= i < |lattices| && lattices[i] >= 0.0;
          if i < n { assert lattices[..n][i] == lattices[i]; }
        }
        if AnyIncluded(lattices[..n]) {
          var i :| 0 <= i < n && lattices[..n][i] >= 0.0;
          assert lattices[i] == lattices[..n][i];
        }
      }
      if lattices[n] >= 0.0 {
        var l2 := rest.0 + [lattices[n]];
        assert l2[|rest.0|] == lattices[n];
      }
    }
  }

  lemma {:induction false} IncludedTerms(lattices: seq<real>, c: seq<real>, norm: real)
    requires |lattices| == |c| && norm != 0.0
    ensures Terms(Included(lattices, c).0, Included(lattices, c).1, norm) == Terms(lattices, c, norm)
    decreases |c|
  {
    if |c| > 0 {
      var n := |c| - 1;
      IncludedTerms(lattices[..n], c[..n], norm);
      var rest := Included(lattices[..n], c[..n]);
      if lattices[n] >= 0.0 {
        var l2, c2 := rest.0 + [lattices[n]], rest.1 + [c[n]];
        assert l2[..|rest.0|] == rest.0 && c2[..|rest.1|] == rest.1;
      }
    }
  }

  /** The weighted sum divided once, by the normalisation. */
  lemma {:induction false} TermsAreWeightedSum(lattices: seq<real>, c: seq<real>, norm: real)
    requires |lattices| == |c| && norm != 0.0
    ensures Terms(lattices, c, norm) == WeightedSum(lattices, c) / norm
    decreases |c|
  {
    if |c| > 0 {
      var n := |c| - 1;
      TermsAreWeightedSum(lattices[..n], c[..n], norm);
      var ws := WeightedSum(lattices[..n], c[..n]);
      var x := if lattices[n] >= 0.0 then lattices[n] * c[n] else 0.0;
      assert Terms(lattices, c, norm) == ws / norm + x / norm;
      assert WeightedSum(lattices, c) == ws + x;
      DivideSum(ws, x, norm);
    }
  }

  lemma DivideSum(a: real, b: real, d: real)
    requires d != 0.0
    ensures a / d + b / d == (a + b) / d
  {
  }

  /** The included sizes times their concentrations. */
  function WeightedSum(lattices: seq<real>, c: seq<real>): real
    requires |lattices| == |c|
    decreases |c|
  {
    if |c| == 0 then 0.0
    else
      var n := |c| - 1;
      WeightedSum(lattices[..n], c[..n]) + (if lattices[n] >= 0.0 then lattices[n] * c[n] else 0.0)
  }

  /** `lo * w <= s <= hi * w`: a sum `s` of weights `w` times values
      between `lo` and `hi`. */
  predicate ScaledBetween(lo: real, hi: real, w: real, s: real) {
    lo * w <= s <= hi * w
  }

  /** Between bounds of the included sizes, with non-negative included
      concentrations, the weighted sum is between the bounds times the
      normalisation. */
  lemma {:induction false} WeightedSumBounds(lattices: seq<real>, c: seq<real>, lo: real, hi: real)
    requires |lattices| == |c|
    requires forall i :: 0 <= i < |c| && lattices[i] >= 0.0 ==> c[i] >= 0.0 && lo <= lattices[i] <= hi
    ensures ScaledBetween(lo, hi, Weight(lattices, c), WeightedSum(lattices, c))
    decreases |c|
  {
    if |c| > 0 {
      var n := |c| - 1;
      var ls, cs := lattices[..n], c[..n];
      forall i | 0 <= i < n && ls[i] >= 0.0 ensures cs[i] >= 0.0 && lo <= ls[i] <= hi {
        assert ls[i] == lattices[i] && cs[i] == c[i];
      }
      WeightedSumBounds(ls, cs, lo, hi);
      var w, s := Weight(ls, cs), WeightedSum(ls, cs);
      var v := if lattices[n] >= 0.0 then c[n] else 0.0;
      var x := if lattices[n] >= 0.0 then lattices[n] * c[n] else 0.0;
      assert Weight(lattices, c) == w + v;
      assert WeightedSum(lattices, c) == s + x;
      StepBounds(lo, hi, lattices[n], c[n], v, x);
      AddBounds(lo, hi, w, s, v, x);
    }
  }

  lemma StepBounds(lo: real, hi: real, l: real, cn: real, v: real, x: real)
    requires l >= 0.0 ==> cn >= 0.0 && lo <= l <= hi
    requires v == (if l >= 0.0 then cn else 0.0) && x == (if l >= 0.0 then l * cn else 0.0)
    ensures ScaledBetween(lo, hi, v, x)
  {
    if l >= 0.0 {
      ProductBounds(lo, l, hi, cn);
    }
  }

  lemma AddBounds(lo: real, hi: real, w: real, s: real, v: real, x: real)
    requires ScaledBetween(lo, hi, w, s) && ScaledBetween(lo, hi, v, x)
    ensures ScaledBetween(lo, hi, w + v, s + x)
  {
    assert lo * (w + v) == lo * w + lo * v;
    assert hi * (w + v) == hi * w + hi * v;
  }

  lemma ProductBounds(lo: real, x: real, hi: real, w: real)
    requires lo <= x <= hi && w >= 0.0
    ensures lo * w <= x * w <= hi * w
  {
  }

  /** The averaged lattice is a weighted mean: with non-negative
      concentrations it lies between the smallest and the largest included
      lattice size. */
  lemma AverageBetweenIncluded(lattices: seq<real>, c: seq<real>, lo: real, hi: real)
    requires |lattices| == |c| && AnyIncluded(lattices)
    requires forall i :: 0 <= i < |c| && lattices[i] >= 0.0 ==> c[i] >= 0.0 && lo <= lattices[i] <= hi
    requires AveragedLattice(lattices, c).Ok?
    ensures lo <= AveragedLattice(lattices, c).value <= hi
  {
    var w := Weight(lattices, c);
    assert AveragedLattice(lattices, c) == Ok(Terms(lattices, c, w));
    WeightedSumBounds(lattices, c, lo, hi);
    TermsAreWeightedSum(lattices, c, w);
    WeightPositive(lattices, c);
    DivideBounds(lo, WeightedSum(lattices, c), hi, w);
  }

  /** With non-negative included concentrations the normalisation is never
      negative. */
  lemma {:induction false} WeightPositive(lattices: seq<real>, c: seq<real>)
    requires |lattices| == |c|
    requires forall i :: 0 <= i < |c| && lattices[i] >= 0.0 ==> c[i] >= 0.0
    ensures Weight(lattices, c) >= 0.0
    decreases |c|
  {
    if |c| > 0 {
      WeightPositive(lattices[..|c| - 1], c[..|c| - 1]);
    }
  }

  lemma DivideBounds(lo: real, s: real, hi: real, w: real)
    requires w > 0.0 && lo * w <= s <= hi * w
    ensures lo <= s / w <= hi
  {
  }

  // ---------------------------------------------------------------------------
  // Randomising the occupation
  // ---------------------------------------------------------------------------

  /** `randomize_asestructure` from site `i` of the `n` the loop was set up
      for: each site draws an element; "Vac" deletes the site, anything else
      re-labels it. */
  function Randomize(s: Structure, elements: seq<string>, c: seq<real>, draw: nat -> real, i: nat, n: nat): (r: Result<Structure>)
    requires i <= n
    decreases n - i
  {
    if i == n then Ok(s)
    else
      match DetermineSelection(c, draw(i))
      case Err(e) => Err(e)
      case Ok(k) =>
        if k >= |elements| then Err("IndexError: list index out of range")
        else if elements[k] == VacancyUser then
          if i < |s.atoms| then Randomize(Structure(s.cell, s.atoms[..i] + s.atoms[i + 1..]), elements, c, draw, i + 1, n)
          else Err("IndexError: atom index out of range")
        else
          match SetSymbol(s, i, elements[k])
          case Err(e) => Err(e)
          case Ok(t) => Randomize(t, elements, c, draw, i + 1, n)
  }

  /** Without "Vac" in the list and with as many elements as concentrations,
      randomising site by site keeps the cell, the positions and the number
      of atoms, gives every site from `i` on the element its own draw
      selects, and leaves the earlier sites alone. */
  lemma {:induction false} RandomizeRelabels(s: Structure, elements: seq<string>, c: seq<real>, draw: nat -> real, i: nat)
    requires i <= |s.atoms| && |elements| == |c| && VacancyUser !in elements
    requires forall j :: i <= j < |s.atoms| ==> DetermineSelection(c, draw(j)).Ok?
    ensures var r := Randomize(s, elements, c, draw, i, |s.atoms|);
      && r.Ok?
      && r.value.cell == s.cell
      && |r.value.atoms| == |s.atoms|
      && (forall j :: 0 <= j < i ==> r.value.atoms[j] == s.atoms[j])
      && (forall j :: i <= j < |s.atoms| ==>
            r.value.atoms[j] == Atom(elements[DetermineSelection(c, draw(j)).value], s.atoms[j].position))
    decreases |s.atoms| - i
  {
    if i < |s.atoms| {
      var k := DetermineSelection(c, draw(i)).value;
      assert elements[k] in elements;
      var t := SetSymbol(s, i, elements[k]).value;
      assert Randomize(s, elements, c, draw, i, |s.atoms|) == Randomize(t, elements, c, draw, i + 1, |s.atoms|);
      RandomizeRelabels(t, elements, c, draw, i + 1);
    }
  }

  /** A prepared element list never holds "Vac": the user's vacancy is the
      internal symbol there, so the deleting branch of the randomiser is never
      taken by the generator. */
  lemma PreparedHasNoVac(arg: string)
    ensures VacancyUser !in SoluteSupercell.PrepElementList(Some(arg))
  {
    var r := SoluteSupercell.PrepElementList(Some(arg));
    assert IsVacancySpelling(VacancyUser) by {
      assert Lower(VacancyUser) == "vac";
    }
    forall i | 0 <= i < |r| ensures r[i] != VacancyUser {
      var fields := Split(arg, ',');
      assert r[i] == InternalSymbol(fields[i]);
    }
  }

  // ---------------------------------------------------------------------------
  // The script
  // ---------------------------------------------------------------------------

  /** `[float(x) for x in fields]`: the first field that is not a number fails. */
  function ParseFloats(fields: seq<string>): (r: Result<seq<real>>)
    ensures r.Ok? <==> forall i :: 0 <= i < |fields| ==> ParseFloat(fields[i]).Some?
    ensures r.Ok? ==> |r.value| == |fields| && forall i :: 0 <= i < |fields| ==> r.value[i] == ParseFloat(fields[i]).value
  {
    if forall i :: 0 <= i < |fields| ==> ParseFloat(fields[i]).Some? then
      Ok(seq(|fields|, i requires 0 <= i < |fields| => ParseFloat(fields[i]).value))
    else Err("ValueError: could not convert string to float")
  }

  /** The validated command line: the shape fields, the elements, and the
      lattice sizes and concentrations, one of each per element. */
  datatype Inputs = Inputs(shape: seq<string>, elements: seq<string>, lattices: seq<real>, concentrations: seq<real>)

  /** The checks of `launch` in order: three shape fields, numeric lists, then
      one lattice size and one concentration per element. */
  function Validate(o: Options): (r: Result<Inputs>)
    ensures r.Ok? ==> |r.value.shape| == 3
    ensures r.Ok? ==> |r.value.elements| >= 1
    ensures r.Ok? ==> |r.value.lattices| == |r.value.elements| && |r.value.concentrations| == |r.value.elements|
    ensures |Split(o.supercellShape, ',')| != 3 ==> r.Err?
    ensures r.Ok? ==> r.value.elements == SoluteSupercell.PrepElementList(Some(o.matrixElements))
    ensures r.Ok? <==>
      && |Split(o.supercellShape, ',')| == 3
      && ParseFloats(Split(o.latticeSizes, ',')).Ok?
      && ParseFloats(Split(o.concentrations, ',')).Ok?
      && |Split(o.latticeSizes, ',')| == |SoluteSupercell.PrepElementList(Some(o.matrixElements))|
      && |Split(o.concentrations, ',')| == |SoluteSupercell.PrepElementList(Some(o.matrixElements))|
    ensures r.Ok? ==>
      && r.value.shape == Split(o.supercellShape, ',')
      && r.value.lattices == ParseFloats(Split(o.latticeSizes, ',')).value
      && r.value.concentrations == ParseFloats(Split(o.concentrations, ',')).value
  {
    var shape := Split(o.supercellShape, ',');
    if |shape| != 3 then Err("supercell_shape must be of the form Nx,Ny,Nz")
    else
      var elements := SoluteSupercell.PrepElementList(Some(o.matrixElements));
      match ParseFloats(Split(o.latticeSizes, ','))
      case Err(e) => Err(e)
      case Ok(lattices) =>
        match ParseFloats(Split(o.concentrations, ','))
        case Err(e) => Err(e)
        case Ok(c) =>
          if |lattices| != |elements| || |c| != |elements| then
            Err("unequal matrix_elements, lattice_sizes or concentrations")
          else Ok(Inputs(shape, elements, lattices, c))
  }

  /** The extras every sample starts from. */
  function BaseExtras(inputs: Inputs, average: real, stdev: real): (e: Extras)
    ensures "average_lattice" in e && e["average_lattice"] == Real(average)
    ensures SoluteSupercell.MatrixElementsKey in e && e[SoluteSupercell.MatrixElementsKey] == Texts(inputs.elements)
  {
    map[SoluteSupercell.MatrixElementsKey := Texts(inputs.elements),
        "lattice_sizes" := Reals(inputs.lattices),
        "average_lattice" := Real(average),
        "concentrations" := Reals(inputs.concentrations),
        "supercell_shape" := Texts(inputs.shape),
        "random_displacement_stdev" := Real(stdev)]
  }

  /** The candidate of one sample, given the draws its sites are
      occupied with. */
  function SampleFrom(tk: Toolkit, base: Structure, inputs: Inputs, extras: Extras, stdev: real, sample: Sample, draws: nat -> real): (r: Result<Candidate>)
    ensures r.Ok? <==> Randomize(base, inputs.elements, inputs.concentrations, draws, 0, |base.atoms|).Ok?
    ensures r.Ok? ==> (&& "matrix_seed" in r.value.extras && r.value.extras["matrix_seed"] == Int(sample.matrixSeed)
                       && "displacement_seed" in r.value.extras && r.value.extras["displacement_seed"] == Int(sample.displacementSeed))
    ensures r.Ok? ==> (r.value.structure
      == tk.rattle(Randomize(base, inputs.elements, inputs.concentrations, draws, 0, |base.atoms|).value, stdev, sample.displacementSeed))
  {
    match Randomize(base, inputs.elements, inputs.concentrations, draws, 0, |base.atoms|)
    case Err(e) => Err(e)
    case Ok(occupied) =>
      Ok(SoluteSupercell.Candidate(
        tk.rattle(occupied, stdev, sample.displacementSeed),
        extras["matrix_seed" := Int(sample.matrixSeed)]["displacement_seed" := Int(sample.displacementSeed)]))
  }

  /** The sample as the script makes it: the generator seeded with the
      matrix seed is drawn once and discarded, and the sites are occupied
      with draws of numpy's global, unseeded generator. */
  function OneSampleAsWritten(tk: Toolkit, base: Structure, inputs: Inputs, extras: Extras, stdev: real, sample: Sample, globalDraws: nat -> real): (r: Result<Candidate>)
    ensures r.Ok? <==> Randomize(base, inputs.elements, inputs.concentrations, globalDraws, 0, |base.atoms|).Ok?
    ensures r.Ok? ==> (&& "matrix_seed" in r.value.extras && r.value.extras["matrix_seed"] == Int(sample.matrixSeed)
                       && r.value.structure
                          == tk.rattle(Randomize(base, inputs.elements, inputs.concentrations, globalDraws, 0, |base.atoms|).value,
                                       stdev, sample.displacementSeed))
  {
    var discarded := tk.generator(sample.matrixSeed)(0);
    SampleFrom(tk, base, inputs, extras, stdev, sample, globalDraws)
  }

  /** The recorded seeds do not fix the occupation of the script's samples:
      with one site, two elements at half each and the same seeds, two
      runs whose global draws differ store the same extras over different
      elements. */
  lemma AsWrittenSeedDoesNotFixOccupation(tk: Toolkit, extras: Extras)
    ensures var base := Structure([], [Atom("Al", [0.0, 0.0, 0.0])]);
      var inputs := Inputs(["1", "1", "1"], ["Al", "Mg"], [4.05, 4.05], [0.5, 0.5]);
      var sample := Sample(7, 11);
      var first := OneSampleAsWritten(tk, base, inputs, extras, 0.0, sample, _ => 0.25);
      var second := OneSampleAsWritten(tk, base, inputs, extras, 0.0, sample, _ => 0.75);
      && first.Ok? && second.Ok?
      && first.value.extras == second.value.extras
      && Randomize(base, inputs.elements, inputs.concentrations, _ => 0.25, 0, 1).value.atoms[0].symbol == "Al"
      && Randomize(base, inputs.elements, inputs.concentrations, _ => 0.75, 0, 1).value.atoms[0].symbol == "Mg"
  {
    var c := [0.5, 0.5];
    assert c[..1] == [0.5] && c[..2] == c;
    assert [0.5][..0] == [];
    assert Sum(c) == 1.0;
    assert Cumulative(c, 0) == 0.5 && Cumulative(c, 1) == 1.0;
    assert DetermineSelection(c, 0.25) == Ok(0);
    assert DetermineSelection(c, 0.75) == Ok(1);
  }

  /** One sample with the evidently intended randomness: the sites are
      occupied with the draws of the generator seeded with the recorded
      matrix seed, so a stored structure can be rebuilt from its extras. */
  function OneSample(tk: Toolkit, base: Structure, inputs: Inputs, extras: Extras, stdev: real, sample: Sample): (r: Result<Candidate>)
    ensures r.Ok? ==> (&& "matrix_seed" in r.value.extras && r.value.extras["matrix_seed"].Int?
                       && "displacement_seed" in r.value.extras && r.value.extras["displacement_seed"].Int?)
    ensures r.Ok? ==> var seed := r.value.extras["matrix_seed"];
      && Randomize(base, inputs.elements, inputs.concentrations, tk.generator(seed.i), 0, |base.atoms|).Ok?
      && r.value.structure
           == tk.rattle(Randomize(base, inputs.elements, inputs.concentrations, tk.generator(seed.i), 0, |base.atoms|).value,
                        stdev, r.value.extras["displacement_seed"].i)
    ensures r.Ok? <==> Randomize(base, inputs.elements, inputs.concentrations, tk.generator(sample.matrixSeed), 0, |base.atoms|).Ok?
  {
    SampleFrom(tk, base, inputs, extras, stdev, sample, tk.generator(sample.matrixSeed))
  }

  /** The sample loop: `n` samples in order; the first that fails stops
      the script. */
  function Samples(tk: Toolkit, base: Structure, inputs: Inputs, extras: Extras, stdev: real, samples: nat -> Sample, n: nat): (r: Result<seq<Candidate>>)
    ensures r.Ok? <==> forall k :: 0 <= k < n ==> OneSample(tk, base, inputs, extras, stdev, samples(k)).Ok?
    ensures r.Ok? ==> |r.value| == n
    ensures r.Ok? ==> forall k :: 0 <= k < n ==> OneSample(tk, base, inputs, extras, stdev, samples(k)) == Ok(r.value[k])
  {
    var each := seq(n, k requires 0 <= k < n => OneSample(tk, base, inputs, extras, stdev, samples(k)));
    assert forall k :: 0 <= k < n ==> each[k] == OneSample(tk, base, inputs, extras, stdev, samples(k));
    Collect(each)
  }

  /** `launch`: validate, average the lattice, build the pure supercell of the
      first element, then one randomised sample per requested sample. */
  function Launch(tk: Toolkit, o: Options, samples: nat -> Sample): (r: Result<seq<Candidate>>)
    ensures Validate(o).Err? ==> r.Err?
    ensures Validate(o).Ok? && AveragedLattice(Validate(o).value.lattices, Validate(o).value.concentrations).Err? ==> r.Err?
    ensures Validate(o).Ok? && AveragedLattice(Validate(o).value.lattices, Validate(o).value.concentrations).Ok? ==>
      var inputs := Validate(o).value;
      var average := AveragedLattice(inputs.lattices, inputs.concentrations).value;
      r == Samples(tk, tk.supercell(average, inputs.shape, inputs.elements[0]), inputs,
                   BaseExtras(inputs, average, o.randomDisplacement), o.randomDisplacement, samples, Max(0, o.numberSamples))
    ensures r.Ok? ==> |r.value| == Max(0, o.numberSamples)
    ensures r.Ok? ==> Validate(o).Ok? && AveragedLattice(Validate(o).value.lattices, Validate(o).value.concentrations).Ok?
    ensures r.Ok? ==>
      var inputs := Validate(o).value;
      var average := AveragedLattice(inputs.lattices, inputs.concentrations).value;
      var base := tk.supercell(average, inputs.shape, inputs.elements[0]);
      forall k :: 0 <= k < |r.value| ==>
        OneSample(tk, base, inputs, BaseExtras(inputs, average, o.randomDisplacement), o.randomDisplacement, samples(k)) == Ok(r.value[k])
  {
    match Validate(o)
    case Err(e) => Err(e)
    case Ok(inputs) =>
      match AveragedLattice(inputs.lattices, inputs.concentrations)
      case Err(e) => Err(e)
      case Ok(average) =>
        var base := tk.supercell(average, inputs.shape, inputs.elements[0]);
        Samples(tk, base, inputs, BaseExtras(inputs, average, o.randomDisplacement), o.randomDisplacement,
                samples, Max(0, o.numberSamples))
  }
}
