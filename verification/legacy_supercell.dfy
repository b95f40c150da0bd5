/**
 The older solute-supercell generator. Compared with `SoluteSupercell` it has
 no duplicate check, no cut-offs (every neighbour shell is written), no
 matrix-element check, no special case for an empty element list, and it keeps
 the list of already used first solutes with `+=` on a string, which extends
 the list by the string's characters rather than by the element name.
 */
module LegacySupercell {
  import opened Common
  import opened Atoms
  import opened Vacancies
  import SoluteSupercell

  type Candidate = SoluteSupercell.Candidate
  type NnTable = SoluteSupercell.NnTable

  /** `prep_elementlist`: one element per comma field, vacancy spellings made
      internal; an empty argument is a single empty field. */
  function PrepElementList(s: string): (r: seq<string>)
    ensures |r| == |Split(s, ',')| >= 1
    ensures forall i :: 0 <= i < |r| ==>
      (r[i] == VacancyInternal <==> IsVacancySpelling(Split(s, ',')[i]) || Split(s, ',')[i] == VacancyInternal)
    ensures s == [] ==> r == [""]
  {
    InternalSymbols(Split(s, ','))
  }

  /** The extras conversion of this generator: "No" reads "Vac", nothing else
      is touched. */
  function ConvertExtras(e: Extras): (r: Extras)
    ensures r.Keys == e.Keys
    ensures forall k :: k in r ==> r[k] != Text(VacancyInternal)
    ensures forall k :: k in e && e[k] == Text(VacancyInternal) ==> r[k] == Text(VacancyUser)
    ensures forall k :: k in e && e[k] != Text(VacancyInternal) ==> r[k] == e[k]
  {
    map k | k in e :: UserValue(e[k])
  }

  /** `store_asestructure`: sorted, vacancies deleted, and appended to the
      group with its converted extras, the atom count and the formula, unless
      this is a dry run. */
  function Store(tk: SoluteSupercell.Toolkit, group: seq<SoluteSupercell.StoredNode>, c: Candidate, dryrun: bool): (r: seq<SoluteSupercell.StoredNode>)
    ensures dryrun ==> r == group
    ensures !dryrun ==>
      && |r| == |group| + 1 && r[..|group|] == group
      && r[|group|].structure == SoluteSupercell.PrepareForStorage(tk, c.structure)
      && r[|group|].extras.Keys == c.extras.Keys + {"num_atoms", "chem_formula"}
      && r[|group|].extras["num_atoms"] == Int(|r[|group|].structure.atoms|)
      && r[|group|].extras["chem_formula"] == Text(tk.formula(r[|group|].structure))
      && forall k :: k in c.extras && k != "num_atoms" && k != "chem_formula" ==>
           r[|group|].extras[k] == UserValue(c.extras[k])
  {
    if dryrun then group
    else
      var t := SoluteSupercell.PrepareForStorage(tk, c.structure);
      var ex := ConvertExtras(c.extras)["num_atoms" := Int(|t.atoms|)]["chem_formula" := Text(tk.formula(t))];
      group + [SoluteSupercell.StoredNode(t, ex)]
  }

  // ---------------------------------------------------------------------------
  // The list of first solutes already used
  // ---------------------------------------------------------------------------

  /** The characters of a string, each as a one-character string: what `+=`
      appends when its right-hand side is a string. */
  function Characters(s: string): (r: seq<string>)
    ensures forall x :: x in r <==> |x| == 1 && x[0] in s
  {
    var r := seq(|s|, i requires 0 <= i < |s| => [s[i]]);
    assert forall x :: |x| == 1 && x[0] in s ==> x in r by {
      forall x | |x| == 1 && x[0] in s
        ensures x in r
      {
        var i :| 0 <= i < |s| && s[i] == x[0];
        assert r[i] == x;
      }
    }
    r
  }

  /** The skip list as the code builds it after `fp` first solutes. */
  function SkipListAsWritten(firsts: seq<string>, fp: nat): (r: seq<string>)
    requires fp <= |firsts|
    ensures forall x :: x in r <==> |x| == 1 && exists j :: 0 <= j < fp && x[0] in firsts[j]
  {
    if fp == 0 then []
    else
      var prev := SkipListAsWritten(firsts, fp - 1);
      prev + Characters(firsts[fp - 1])
  }

  /** The skip list the help text describes: the first solutes already used. */
  function SkipList(firsts: seq<string>, fp: nat): seq<string>
    requires fp <= |firsts|
  {
    firsts[..fp]
  }

  // ---------------------------------------------------------------------------
  // Pair enumeration
  // ---------------------------------------------------------------------------

  /** (second solute position, shell) for every second solute not in the
      skip list, and every shell after the first solute's own site. */
  function PairsFrom(table: NnTable, seconds: seq<string>, skip: seq<string>, sp: nat): (r: seq<(nat, nat)>)
    ensures forall q :: q in r <==> sp <= q.0 < |seconds| && seconds[q.0] !in skip && 1 <= q.1 < |table|
    decreases |seconds| - sp
  {
    if sp >= |seconds| then []
    else
      var rest := PairsFrom(table, seconds, skip, sp + 1);
      if seconds[sp] in skip then rest
      else
        var n := if |table| >= 1 then |table| - 1 else 0;
        var block := seq(n, t requires 0 <= t < n => (sp, t + 1));
        assert forall q: (nat, nat) :: q in block <==> q.0 == sp && 1 <= q.1 < |table| by {
          forall q: (nat, nat) | q.0 == sp && 1 <= q.1 < |table|
            ensures q in block
          {
            assert block[q.1 - 1] == q;
          }
        }
        block + rest
  }

  /** The pairs written after first solute `fp`, as the code builds them. */
  function PairsAsWritten(table: NnTable, firsts: seq<string>, seconds: seq<string>, fp: nat): seq<(nat, nat)>
    requires fp <= |firsts|
  {
    PairsFrom(table, seconds, SkipListAsWritten(firsts, fp), 0)
  }

  /** The pairs written after first solute `fp`, skipping earlier first solutes. */
  function Pairs(table: NnTable, firsts: seq<string>, seconds: seq<string>, fp: nat): seq<(nat, nat)>
    requires fp <= |firsts|
  {
    PairsFrom(table, seconds, SkipList(firsts, fp), 0)
  }

  /** The intended rule: a pair is written exactly when the second solute is
      not an earlier first solute, at every shell from the first neighbour on. */
  lemma PairEnumeration(table: NnTable, firsts: seq<string>, seconds: seq<string>, fp: nat, sp: nat, nn: nat)
    requires fp <= |firsts|
    ensures (sp, nn) in Pairs(table, firsts, seconds, fp) <==>
      sp < |seconds| && seconds[sp] !in firsts[..fp] && 1 <= nn < |table|
  {
  }

  /** As written, a second solute is skipped exactly when it is a single
      character occurring in an earlier first solute's name. */
  lemma PairEnumerationAsWritten(table: NnTable, firsts: seq<string>, seconds: seq<string>, fp: nat, sp: nat, nn: nat)
    requires fp <= |firsts|
    ensures (sp, nn) in PairsAsWritten(table, firsts, seconds, fp) <==>
      && sp < |seconds|
      && !(|seconds[sp]| == 1 && exists j :: 0 <= j < fp && seconds[sp][0] in firsts[j])
      && 1 <= nn < |table|
  {
  }

  /** With first and second solutes Mg,Si, the code still writes the Si-Mg
      pairs it means to skip, because "Mg" is not among the characters M, g. */
  lemma AsWrittenRepeatsReversedPair(table: NnTable)
    requires |table| >= 2
    ensures (0, 1) in PairsAsWritten(table, ["Mg", "Si"], ["Mg", "Si"], 1)
    ensures (0, 1) !in Pairs(table, ["Mg", "Si"], ["Mg", "Si"], 1)
  {
    PairEnumerationAsWritten(table, ["Mg", "Si"], ["Mg", "Si"], 1, 0, 1);
    PairEnumeration(table, ["Mg", "Si"], ["Mg", "Si"], 1, 0, 1);
    assert ["Mg", "Si"][..1] == ["Mg"];
  }

  /** With first solutes Cu,Al and second solute C, the code skips carbon next
      to aluminium, because "C" is a character of "Cu". */
  lemma AsWrittenDropsSingleLetterElement(table: NnTable)
    requires |table| >= 2
    ensures (0, 1) !in PairsAsWritten(table, ["Cu", "Al"], ["C"], 1)
    ensures (0, 1) in Pairs(table, ["Cu", "Al"], ["C"], 1)
  {
    PairEnumerationAsWritten(table, ["Cu", "Al"], ["C"], 1, 0, 1);
    assert "C"[0] in ["Cu", "Al"][0];
    PairEnumeration(table, ["Cu", "Al"], ["C"], 1, 0, 1);
    assert ["Cu", "Al"][..1] == ["Cu"];
  }

  // ---------------------------------------------------------------------------
  // Launch
  // ---------------------------------------------------------------------------

  /** The command line; the lattice size is the option's text. */
  datatype Options = Options(
    latticeSize: string,
    supercellShape: string,
    matrixElement: string,
    firstSolutes: string,
    secondSolutes: string)

  function PairExtras(single: Extras, second: string, index: nat, distance: real): Extras {
    single["sol2_element" := Text(second)]["sol2_index" := Int(index)]["sol2_distance" := Real(distance)]
  }

  /** Every pair's shell names a site of `s`. */
  predicate SitesExist(s: Structure, table: NnTable, pairs: seq<(nat, nat)>)
    requires forall q :: q in pairs ==> q.1 < |table|
  {
    forall t :: 0 <= t < |pairs| ==> table[pairs[t].1].1 < |s.atoms|
  }

  /** The pair loop: one candidate per pair, in order; a shell whose site is
      missing from the structure is an IndexError. */
  function PairCandidates(single: Candidate, table: NnTable, seconds: seq<string>, pairs: seq<(nat, nat)>): (r: Result<seq<Candidate>>)
    requires forall q :: q in pairs ==> q.0 < |seconds| && q.1 < |table|
    ensures r.Ok? <==> SitesExist(single.structure, table, pairs)
    ensures r.Ok? ==> |r.value| == |pairs|
    ensures r.Ok? ==> forall t :: 0 <= t < |pairs| ==>
      var (sp, nn) := pairs[t];
      && OnlySiteChanged(single.structure, r.value[t].structure, table[nn].1, seconds[sp])
      && r.value[t].extras == PairExtras(single.extras, seconds[sp], table[nn].1, table[nn].0)
  {
    if !SitesExist(single.structure, table, pairs) then Err("IndexError: atom index out of range")
    else
      assert forall t :: 0 <= t < |pairs| ==> pairs[t] in pairs;
      Ok(seq(|pairs|, t requires 0 <= t < |pairs| =>
        SoluteSupercell.Candidate(SetSymbol(single.structure, table[pairs[t].1].1, seconds[pairs[t].0]).value,
                                  PairExtras(single.extras, seconds[pairs[t].0], table[pairs[t].1].1, table[pairs[t].1].0))))
  }

  function FirstBlock(pure: Candidate, table: NnTable, firsts: seq<string>, seconds: seq<string>, fp: nat): (r: Result<seq<Candidate>>)
    requires fp < |firsts|
    ensures r.Ok? <==> |pure.structure.atoms| > 0 && SitesExist(pure.structure, table, Pairs(table, firsts, seconds, fp))
    ensures r.Ok? ==> |r.value| == 1 + |Pairs(table, firsts, seconds, fp)|
    ensures r.Ok? ==> OnlySiteChanged(pure.structure, r.value[0].structure, 0, firsts[fp])
    ensures r.Ok? ==> r.value[0].extras == SoluteSupercell.SingleExtras(pure.extras, firsts[fp])
    ensures r.Ok? ==> forall t :: 0 <= t < |Pairs(table, firsts, seconds, fp)| ==>
      var (sp, nn) := Pairs(table, firsts, seconds, fp)[t];
      && OnlySiteChanged(r.value[0].structure, r.value[1 + t].structure, table[nn].1, seconds[sp])
      && r.value[1 + t].extras == PairExtras(r.value[0].extras, seconds[sp], table[nn].1, table[nn].0)
  {
    var single :- SetSymbol(pure.structure, 0, firsts[fp]);
    var sc := SoluteSupercell.Candidate(single, SoluteSupercell.SingleExtras(pure.extras, firsts[fp]));
    var pairs := Pairs(table, firsts, seconds, fp);
    assert forall q :: q in pairs ==> q.0 < |seconds| && q.1 < |table|;
    var rest :- PairCandidates(sc, table, seconds, pairs);
    Ok([sc] + rest)
  }

  function Blocks(pure: Candidate, table: NnTable, firsts: seq<string>, seconds: seq<string>, fp: nat): Result<seq<Candidate>>
    requires fp <= |firsts|
    decreases |firsts| - fp
  {
    if fp == |firsts| then Ok([])
    else
      match FirstBlock(pure, table, firsts, seconds, fp)
      case Err(why) => Err(why)
      case Ok(block) =>
        match Blocks(pure, table, firsts, seconds, fp + 1)
        case Err(why) => Err(why)
        case Ok(rest) => Ok(block + rest)
  }

  /** `launch`, with the skip list corrected to hold element names: the
      lattice size, the shape, then the pure cell followed by the first-solute
      blocks. */
  function Launch(tk: SoluteSupercell.Toolkit, o: Options): (r: Result<seq<Candidate>>)
    ensures ParseFloat(o.latticeSize).None? ==> r.Err?
    ensures |Split(o.supercellShape, ',')| != 3 ==> r.Err?
    ensures r.Ok? ==> |r.value| >= 1 + |PrepElementList(o.firstSolutes)|
    ensures ParseFloat(o.latticeSize).Some? && |Split(o.supercellShape, ',')| == 3 ==>
      var a := ParseFloat(o.latticeSize).value;
      var shape := Split(o.supercellShape, ',');
      var pure := SoluteSupercell.Candidate(tk.supercell(a, shape, o.matrixElement),
                                            SoluteSupercell.BaseExtras(a, shape, o.matrixElement));
      (r.Ok? <==> Blocks(pure, tk.nnTable(pure.structure), PrepElementList(o.firstSolutes), PrepElementList(o.secondSolutes), 0).Ok?)
    ensures r.Ok? ==> (&& ParseFloat(o.latticeSize).Some?
                       && |Split(o.supercellShape, ',')| == 3
                       && var a := ParseFloat(o.latticeSize).value;
                          var shape := Split(o.supercellShape, ',');
                          var pure := SoluteSupercell.Candidate(tk.supercell(a, shape, o.matrixElement),
                                                                SoluteSupercell.BaseExtras(a, shape, o.matrixElement));
                          var blocks := Blocks(pure, tk.nnTable(pure.structure),
                                               PrepElementList(o.firstSolutes), PrepElementList(o.secondSolutes), 0);
                          && blocks.Ok?
                          && r.value == [pure] + blocks.value)
  {
    match ParseFloat(o.latticeSize)
    case None => Err("ValueError: could not convert string to float: " + o.latticeSize)
    case Some(a) =>
      var shape := Split(o.supercellShape, ',');
      if |shape| != 3 then Err("supercell_shape must be of the form Nx,Ny,Nz")
      else
        var firsts := PrepElementList(o.firstSolutes);
        var seconds := PrepElementList(o.secondSolutes);
        var pure := SoluteSupercell.Candidate(tk.supercell(a, shape, o.matrixElement), SoluteSupercell.BaseExtras(a, shape, o.matrixElement));
        var table := tk.nnTable(pure.structure);
        match Blocks(pure, table, firsts, seconds, 0)
        case Err(why) => Err(why)
        case Ok(blocks) =>
          BlocksAtLeast(pure, table, firsts, seconds, 0);
          Ok([pure] + blocks)
  }

  lemma {:induction false} BlocksAtLeast(pure: Candidate, table: NnTable, firsts: seq<string>, seconds: seq<string>, fp: nat)
    requires fp <= |firsts|
    ensures Blocks(pure, table, firsts, seconds, fp).Ok? ==> |Blocks(pure, table, firsts, seconds, fp).value| >= |firsts| - fp
    decreases |firsts| - fp
  {
    if fp < |firsts| {
      BlocksAtLeast(pure, table, firsts, seconds, fp + 1);
    }
  }

  /** Storing every candidate: a dry run stores nothing, otherwise each
      candidate is appended, none suppressed. */
  function StoreAll(tk: SoluteSupercell.Toolkit, group: seq<SoluteSupercell.StoredNode>, cs: seq<Candidate>, dryrun: bool): (r: seq<SoluteSupercell.StoredNode>)
    ensures dryrun ==> r == group
    ensures !dryrun ==> |r| == |group| + |cs| && r[..|group|] == group
    decreases |cs|
  {
    if |cs| == 0 then group
    else
      var g := Store(tk, group, cs[0], dryrun);
      var r := StoreAll(tk, g, cs[1..], dryrun);
      assert !dryrun ==> r[..|group|] == r[..|g|][..|group|];
      r
  }
}
