/**
 The solute-supercell generator: a pure FCC supercell of the matrix element,
 one single-solute cell per first solute (at site 0), and for each second
 solute one cell per nearest-neighbour shell of site 0, each written to a
 structure group unless an equal structure is already there.

 Generation and storage are modelled separately: `Launch` yields the ordered
 list of candidate (structure, extras) pairs, and `StoreAll` feeds them one by
 one through `Store`, which owns the group and its once-loaded cache.
 */
module SoluteSupercell {
  import opened Common
  import opened Atoms
  import opened Vacancies

  const MatrixElementsKey: string := "matrix_elements"

  // ---------------------------------------------------------------------------
  // Element lists
  // ---------------------------------------------------------------------------

  /** `prep_elementlist`: no list for a missing or empty argument, otherwise
      one element per comma field with vacancy spellings made internal. */
  function PrepElementList(arg: Option<string>): (r: seq<string>)
    ensures arg.None? || arg.value == [] ==> r == []
    ensures arg.Some? && arg.value != [] ==>
      var fields := Split(arg.value, ',');
      && |r| == |fields|
      && forall i :: 0 <= i < |r| ==>
           (r[i] == VacancyInternal <==> IsVacancySpelling(fields[i]) || fields[i] == VacancyInternal)
           && (!IsVacancySpelling(fields[i]) ==> r[i] == fields[i])
  {
    if arg.None? || |arg.value| == 0 then [] else InternalSymbols(Split(arg.value, ','))
  }

  /** Without vacancy spellings the list is the comma fields themselves:
      joining it gives the argument back. */
  lemma PrepElementListRoundTrip(s: string)
    requires s != []
    requires forall i :: 0 <= i < |Split(s, ',')| ==> !IsVacancySpelling(Split(s, ',')[i])
    ensures Join(PrepElementList(Some(s)), ',') == s
  {
    var fields := Split(s, ',');
    assert PrepElementList(Some(s)) == fields;
    JoinSplit(s, ',');
  }

  /** Conversely, a list of comma-free, non-vacancy element names survives
      being joined and prepared. */
  lemma PrepElementListOfJoin(elements: seq<string>)
    requires |elements| >= 1 && (|elements| > 1 || elements[0] != [])
    requires forall i :: 0 <= i < |elements| ==> ',' !in elements[i] && !IsVacancySpelling(elements[i])
    ensures PrepElementList(Some(Join(elements, ','))) == elements
  {
    JoinIsNotEmpty(elements);
    SplitJoin(elements, ',');
    InternalSymbolsOfNames(elements);
  }

  lemma JoinIsNotEmpty(elements: seq<string>)
    requires |elements| >= 1 && (|elements| > 1 || elements[0] != [])
    requires forall i :: 0 <= i < |elements| ==> ',' !in elements[i]
    ensures Join(elements, ',') != []
  {
    SplitJoin(elements, ',');
  }

  // ---------------------------------------------------------------------------
  // Extras
  // ---------------------------------------------------------------------------

  /** The value stored for one extras key: "No" reads "Vac"; under
      'matrix_elements' the (already converted) value is iterated, so a list is
      converted element by element, a string becomes its list of characters,
      and anything else is not iterable. */
  function ConvertValue(key: string, v: Value): Result<Value> {
    var u := UserValue(v);
    if key != MatrixElementsKey then Ok(u)
    else
      match u
      case Texts(items) => Ok(Texts(seq(|items|, i requires 0 <= i < |items| => UserSymbol(items[i]))))
      case Text(t) => Ok(Texts(seq(|t|, i requires 0 <= i < |t| => [t[i]])))
      case _ => Err("TypeError: extras value is not iterable")
  }

  predicate Iterable(v: Value) { v.Text? || v.Texts? }

  /** The extras conversion loop of `store_asestructure`. */
  function ConvertExtras(e: Extras): (r: Result<Extras>)
    ensures r.Ok? <==> (MatrixElementsKey in e ==> Iterable(e[MatrixElementsKey]))
    ensures r.Ok? ==> r.value.Keys == e.Keys
    ensures r.Ok? ==> forall k :: k in e && k != MatrixElementsKey ==> r.value[k] == UserValue(e[k])
    ensures r.Ok? && MatrixElementsKey in e ==>
      r.value[MatrixElementsKey].Texts?
      && forall i :: 0 <= i < |r.value[MatrixElementsKey].items| ==>
           r.value[MatrixElementsKey].items[i] != VacancyInternal
    ensures r.Ok? && MatrixElementsKey in e && e[MatrixElementsKey].Texts? ==>
      var items := e[MatrixElementsKey].items;
      && |r.value[MatrixElementsKey].items| == |items|
      && forall i :: 0 <= i < |items| ==> r.value[MatrixElementsKey].items[i] == UserSymbol(items[i])
    ensures r.Ok? && MatrixElementsKey in e && e[MatrixElementsKey].Text? ==>
      var t := UserSymbol(e[MatrixElementsKey].text);
      && |r.value[MatrixElementsKey].items| == |t|
      && forall i :: 0 <= i < |t| ==> r.value[MatrixElementsKey].items[i] == [t[i]]
  {
    if MatrixElementsKey in e && ConvertValue(MatrixElementsKey, e[MatrixElementsKey]).Err? then
      Err("TypeError: extras value is not iterable")
    else
      Ok(map k | k in e :: ConvertValue(k, e[k]).value)
  }

  /** No stored extras value is the internal vacancy symbol. */
  lemma ConvertedHasNoInternalSymbol(e: Extras)
    requires ConvertExtras(e).Ok?
    ensures forall k :: k in ConvertExtras(e).value ==> ConvertExtras(e).value[k] != Text(VacancyInternal)
  {
  }

  /** Converting converted extras changes nothing. The generator hands each
      later candidate a copy of extras that an earlier store already converted
      in place; this is why that aliasing does not change what gets stored. */
  lemma ConvertExtrasIdempotent(e: Extras)
    requires ConvertExtras(e).Ok?
    ensures ConvertExtras(ConvertExtras(e).value) == ConvertExtras(e)
  {
    var c := ConvertExtras(e).value;
    assert MatrixElementsKey in c ==> Iterable(c[MatrixElementsKey]);
    var c2 := ConvertExtras(c);
    assert c2.Ok?;
    forall k | k in c
      ensures ConvertValue(k, c[k]) == Ok(c[k])
    {
      if k == MatrixElementsKey {
        var items := c[k].items;
        var items2 := seq(|items|, i requires 0 <= i < |items| => UserSymbol(items[i]));
        assert items2 == items;
      }
    }
    assert c2.value == c;
  }

  // ---------------------------------------------------------------------------
  // Storage with duplicate suppression
  // ---------------------------------------------------------------------------

  /** ase and pandas as used by the generator, uninterpreted. */
  datatype Toolkit = Toolkit(
    sort: Structure -> Structure,
    formula: Structure -> string,
    allClose: (seq<Vec>, seq<Vec>) -> bool,
    supercell: (real, seq<string>, string) -> Structure,
    nnTable: Structure -> seq<(real, nat)>)

  function Positions(s: Structure): (r: seq<Vec>)
    ensures |r| == |s.atoms|
  {
    seq(|s.atoms|, i requires 0 <= i < |s.atoms| => s.atoms[i].position)
  }

  /** Equal chemical formula, cells and positions all close. */
  predicate SameStructure(tk: Toolkit, a: Structure, b: Structure) {
    tk.formula(a) == tk.formula(b) && tk.allClose(a.cell, b.cell) && tk.allClose(Positions(a), Positions(b))
  }

  /** The scan over the cached group structures. */
  function AlreadyInGroup(tk: Toolkit, t: Structure, cache: seq<Structure>): (r: bool)
    ensures r <==> exists x :: x in cache && SameStructure(tk, t, x)
    decreases |cache|
  {
    if |cache| == 0 then false
    else if SameStructure(tk, t, cache[0]) then true
    else
      assert forall x :: x in cache <==> x == cache[0] || x in cache[1..];
      AlreadyInGroup(tk, t, cache[1..])
  }

  datatype StoredNode = StoredNode(structure: Structure, extras: Extras)

  /** The structure group, and the module-level cache of its structures. */
  datatype Db = Db(cache: seq<Structure>, group: seq<StoredNode>)

  function GroupStructures(group: seq<StoredNode>): seq<Structure> {
    seq(|group|, i requires 0 <= i < |group| => group[i].structure)
  }

  /** The cache after a check: loaded from the group only while it is empty;
      a dry run has no group, so it loads nothing. */
  function LoadCache(db: Db, dryrun: bool): seq<Structure> {
    if |db.cache| > 0 then db.cache else if dryrun then [] else GroupStructures(db.group)
  }

  /** Sorted, with every vacancy site deleted. */
  function PrepareForStorage(tk: Toolkit, s: Structure): (t: Structure)
    ensures forall i :: 0 <= i < |t.atoms| ==> !IsVacancySite(t.atoms[i])
    ensures t.cell == tk.sort(s).cell
    ensures forall a :: a in t.atoms <==> a in tk.sort(s).atoms && !IsVacancySite(a)
    ensures |t.atoms| + VacancyCount(tk.sort(s).atoms) == |tk.sort(s).atoms|
  {
    var sorted := tk.sort(s);
    var t := Structure(sorted.cell, RemoveVacancies(sorted.atoms));
    assert forall i :: 0 <= i < |t.atoms| ==> t.atoms[i] in t.atoms;
    t
  }

  datatype Candidate = Candidate(structure: Structure, extras: Extras)

  datatype StoreResult = StoreResult(db: Db, stored: Option<StoredNode>)

  /** `store_asestructure`. */
  function Store(tk: Toolkit, db: Db, c: Candidate, dryrun: bool): (r: Result<StoreResult>)
    ensures r.Ok? <==> ConvertExtras(c.extras).Ok?
    ensures r.Ok? ==> r.value.db.cache == LoadCache(db, dryrun)
    ensures r.Ok? ==> (r.value.stored.Some? <==>
      !dryrun && !AlreadyInGroup(tk, PrepareForStorage(tk, c.structure), LoadCache(db, dryrun)))
    ensures r.Ok? && r.value.stored.None? ==> r.value.db.group == db.group
    ensures r.Ok? && r.value.stored.Some? ==>
      var node := r.value.stored.value;
      var ex := ConvertExtras(c.extras).value;
      && r.value.db.group == db.group + [node]
      && node.structure == PrepareForStorage(tk, c.structure)
      && node.extras.Keys == ex.Keys + {"num_atoms", "chem_formula"}
      && node.extras["num_atoms"] == Int(|node.structure.atoms|)
      && node.extras["chem_formula"] == Text(tk.formula(node.structure))
      && forall k :: k in ex && k != "num_atoms" && k != "chem_formula" ==> node.extras[k] == ex[k]
  {
    var t := PrepareForStorage(tk, c.structure);
    var ex :- ConvertExtras(c.extras);
    var cache := LoadCache(db, dryrun);
    if AlreadyInGroup(tk, t, cache) || dryrun then Ok(StoreResult(db.(cache := cache), None))
    else
      var node := StoredNode(t, ex["num_atoms" := Int(|t.atoms|)]["chem_formula" := Text(tk.formula(t))]);
      Ok(StoreResult(Db(cache, db.group + [node]), Some(node)))
  }

  /** Once loaded, the cache never changes, so structures stored later are
      not seen by the duplicate check. */
  lemma CacheLoadedOnce(tk: Toolkit, db: Db, c: Candidate, dryrun: bool)
    requires |db.cache| > 0
    requires Store(tk, db, c, dryrun).Ok?
    ensures Store(tk, db, c, dryrun).value.db.cache == db.cache
  {
  }

  /** Into a group that starts empty, storing a candidate twice in a row
      stores it once: the first check loads an empty cache, so the second
      check loads the group again and finds the stored structure. */
  lemma NoDuplicateStored(tk: Toolkit, db: Db, c: Candidate)
    requires db.cache == [] && db.group == []
    requires Store(tk, db, c, false).Ok?
    requires tk.allClose(PrepareForStorage(tk, c.structure).cell, PrepareForStorage(tk, c.structure).cell)
    requires tk.allClose(Positions(PrepareForStorage(tk, c.structure)), Positions(PrepareForStorage(tk, c.structure)))
    ensures Store(tk, db, c, false).value.stored.Some?
    ensures var db1 := Store(tk, db, c, false).value.db;
      Store(tk, db1, c, false).Ok? && Store(tk, db1, c, false).value.stored.None?
  {
    var t := PrepareForStorage(tk, c.structure);
    var db1 := Store(tk, db, c, false).value.db;
    assert db1.cache == [];
    assert GroupStructures(db1.group)[0] == t;
    assert t in GroupStructures(db1.group);
  }

  /** The candidates, stored in order; the first failure stops the run. */
  function StoreAll(tk: Toolkit, db: Db, cs: seq<Candidate>, dryrun: bool): (r: Result<Db>)
    ensures r.Ok? ==> |db.group| <= |r.value.group| <= |db.group| + |cs|
    ensures r.Ok? ==> r.value.group[..|db.group|] == db.group
    ensures r.Ok? && dryrun ==> r.value.group == db.group
    decreases |cs|
  {
    if |cs| == 0 then Ok(db)
    else
      var s :- Store(tk, db, cs[0], dryrun);
      var rest := StoreAll(tk, s.db, cs[1..], dryrun);
      if rest.Ok? then
        assert rest.value.group[..|db.group|] == s.db.group[..|s.db.group|][..|db.group|];
        rest
      else rest
  }

  // ---------------------------------------------------------------------------
  // Enumeration
  // ---------------------------------------------------------------------------

  /** The command line; the lattice size is the option's text. */
  datatype Options = Options(
    latticeSize: string,
    supercellShape: string,
    matrixElement: string,
    firstSolutes: Option<string>,
    secondSolutes: Option<string>,
    singleSoluteOnly: bool,
    maximumNnIndex: Option<int>,
    maximumNnDistance: Option<real>)

  /** A nearest-neighbour table: (distance, site index) per shell, nearest
      first, row 0 being site 0 itself. */
  type NnTable = seq<(real, nat)>

  /** After writing shell i, the enumeration stops at either cut-off. */
  predicate StopsAfter(o: Options, table: NnTable, i: nat)
    requires i < |table|
  {
    || (o.maximumNnIndex.Some? && i >= o.maximumNnIndex.value)
    || (o.maximumNnDistance.Some? && table[i].0 >= o.maximumNnDistance.value)
  }

  /** The shells visited from shell i on. */
  function Shells(o: Options, table: NnTable, i: nat): (r: seq<nat>)
    ensures forall t :: 0 <= t < |r| ==> r[t] == i + t
    ensures forall j :: j in r <==> i <= j < |table| && forall k :: i <= k < j ==> !StopsAfter(o, table, k)
    decreases |table| - i
  {
    if i >= |table| then []
    else if StopsAfter(o, table, i) then [i]
    else [i] + Shells(o, table, i + 1)
  }

  /** The (second solute position, shell) pairs written after first solute
      `fp`, second solutes from position `sp` on. */
  function PairsFrom(o: Options, table: NnTable, firsts: seq<string>, seconds: seq<string>, fp: nat, sp: nat): (r: seq<(nat, nat)>)
    requires fp < |firsts|
    ensures forall q :: q in r <==>
      && sp <= q.0 < |seconds|
      && seconds[q.0] !in firsts[..fp]
      && q.1 in Shells(o, table, 1)
    decreases |seconds| - sp
  {
    if sp >= |seconds| then []
    else
      var rest := PairsFrom(o, table, firsts, seconds, fp, sp + 1);
      if seconds[sp] in firsts[..fp] then rest
      else
        var shells := Shells(o, table, 1);
        var block := seq(|shells|, t requires 0 <= t < |shells| => (sp, shells[t]));
        assert forall q :: q in block <==> q.0 == sp && q.1 in shells by {
          forall q: (nat, nat) | q.0 == sp && q.1 in shells
            ensures q in block
          {
            var t :| 0 <= t < |shells| && shells[t] == q.1;
            assert block[t] == q;
          }
        }
        block + rest
  }

  /** The pairs for first solute `fp`: none with single solutes only. */
  function Pairs(o: Options, table: NnTable, firsts: seq<string>, seconds: seq<string>, fp: nat): (r: seq<(nat, nat)>)
    requires fp < |firsts|
    ensures forall q :: q in r ==> q.0 < |seconds| && q.1 < |table|
  {
    if o.singleSoluteOnly then [] else PairsFrom(o, table, firsts, seconds, fp, 0)
  }

  /** A pair is generated exactly when single solutes only is off, the second
      solute is not an earlier first solute, and the shell is at or after the
      first neighbour shell and not past a cut-off. */
  lemma PairEnumeration(o: Options, table: NnTable, firsts: seq<string>, seconds: seq<string>, fp: nat, sp: nat, nn: nat)
    requires fp < |firsts|
    ensures (sp, nn) in Pairs(o, table, firsts, seconds, fp) <==>
      && !o.singleSoluteOnly
      && sp < |seconds|
      && seconds[sp] !in firsts[..fp]
      && 1 <= nn < |table|
      && forall k :: 1 <= k < nn ==> !StopsAfter(o, table, k)
  {
  }

  /** The extras of the pure cell: lattice size, shape and matrix element. */
  function BaseExtras(a: real, shape: seq<string>, matrixElement: string): (e: Extras)
    ensures e.Keys == {"lattice_size", "supercell_shape", "matrix_element"}
    ensures e["lattice_size"] == Real(a) && e["supercell_shape"] == Texts(shape)
    ensures e["matrix_element"] == Text(matrixElement)
  {
    map["lattice_size" := Real(a), "supercell_shape" := Texts(shape), "matrix_element" := Text(matrixElement)]
  }

  function SingleExtras(base: Extras, first: string): Extras {
    base["sol1_element" := Text(first)]["sol1_index" := Int(0)]
  }

  function PairExtras(single: Extras, second: string, index: nat, nn: nat, distance: real): Extras {
    single["sol2_element" := Text(second)]["sol2_index" := Int(index)]["sol2_nn" := Int(nn)]["sol1sol2_distance" := Real(distance)]
  }

  /** One candidate per pair: the single-solute cell with the pair's shell
      site re-labelled. */
  function PairCandidates(single: Candidate, table: NnTable, seconds: seq<string>, pairs: seq<(nat, nat)>): (r: Result<seq<Candidate>>)
    requires forall q :: q in pairs ==> q.0 < |seconds| && q.1 < |table|
    ensures r.Ok? <==> forall t :: 0 <= t < |pairs| ==> table[pairs[t].1].1 < |single.structure.atoms|
    ensures r.Ok? ==> |r.value| == |pairs|
    ensures r.Ok? ==> forall t :: 0 <= t < |pairs| ==> IsPairCandidate(single, table, seconds, pairs[t], r.value[t])
    decreases |pairs|
  {
    if |pairs| == 0 then Ok([])
    else
      var (sp, nn) := pairs[0];
      assert pairs[0] in pairs;
      assert forall q :: q in pairs[1..] ==> q in pairs;
      match SetSymbol(single.structure, table[nn].1, seconds[sp])
      case Err(why) => Err(why)
      case Ok(s) =>
        match PairCandidates(single, table, seconds, pairs[1..])
        case Err(why) =>
          assert !(table[pairs[1..][0].1].1 < |single.structure.atoms|) || exists t :: 0 <= t < |pairs[1..]| && !(table[pairs[1..][t].1].1 < |single.structure.atoms|);
          Err(why)
        case Ok(rest) =>
          var c := Candidate(s, PairExtras(single.extras, seconds[sp], table[nn].1, nn, table[nn].0));
          PairCandidatesCons(single, table, seconds, pairs, c, rest);
          Ok([c] + rest)
  }

  /** Candidate `c` is the single-solute cell with the site of the pair's
      shell made the second solute, carrying the pair's extras. */
  predicate IsPairCandidate(single: Candidate, table: NnTable, seconds: seq<string>, pair: (nat, nat), c: Candidate)
    requires pair.0 < |seconds| && pair.1 < |table|
  {
    && OnlySiteChanged(single.structure, c.structure, table[pair.1].1, seconds[pair.0])
    && c.extras == PairExtras(single.extras, seconds[pair.0], table[pair.1].1, pair.1, table[pair.1].0)
  }

  /** The step of the pair loop: a first candidate in front of the
      candidates of the remaining pairs. */
  lemma PairCandidatesCons(single: Candidate, table: NnTable, seconds: seq<string>, pairs: seq<(nat, nat)>, c: Candidate, rest: seq<Candidate>)
    requires |pairs| > 0 && forall q :: q in pairs ==> q.0 < |seconds| && q.1 < |table|
    requires IsPairCandidate(single, table, seconds, pairs[0], c)
    requires |rest| == |pairs| - 1
    requires forall t :: 0 <= t < |rest| ==> pairs[1..][t] in pairs && IsPairCandidate(single, table, seconds, pairs[1..][t], rest[t])
    ensures forall t :: 0 <= t < |pairs| ==> pairs[t] in pairs && IsPairCandidate(single, table, seconds, pairs[t], ([c] + rest)[t])
  {
    forall t | 1 <= t < |pairs| ensures pairs[t] == pairs[1..][t - 1] && ([c] + rest)[t] == rest[t - 1] {}
  }

  /** The single-solute cell of a first solute: the pure cell with site 0
      made that solute. */
  function Single(pure: Candidate, first: string): (r: Result<Candidate>)
    ensures r.Ok? <==> |pure.structure.atoms| > 0
    ensures r.Ok? ==>
      && OnlySiteChanged(pure.structure, r.value.structure, 0, first)
      && r.value.extras == SingleExtras(pure.extras, first)
  {
    var single :- SetSymbol(pure.structure, 0, first);
    Ok(Candidate(single, SingleExtras(pure.extras, first)))
  }

  /** The candidates of first solute `fp`: its single-solute cell, then one
      candidate per enumerated pair made from that cell. */
  function FirstBlock(o: Options, pure: Candidate, table: NnTable, firsts: seq<string>, seconds: seq<string>, fp: nat): (r: Result<seq<Candidate>>)
    requires fp < |firsts|
    ensures r.Ok? ==> |r.value| == 1 + |Pairs(o, table, firsts, seconds, fp)|
    ensures r.Ok? ==>
      && OnlySiteChanged(pure.structure, r.value[0].structure, 0, firsts[fp])
      && r.value[0].extras == SingleExtras(pure.extras, firsts[fp])
    ensures r.Ok? <==>
      && Single(pure, firsts[fp]).Ok?
      && PairCandidates(Single(pure, firsts[fp]).value, table, seconds, Pairs(o, table, firsts, seconds, fp)).Ok?
    ensures r.Ok? ==> r.value == [Single(pure, firsts[fp]).value]
                           + PairCandidates(Single(pure, firsts[fp]).value, table, seconds, Pairs(o, table, firsts, seconds, fp)).value
  {
    var sc :- Single(pure, firsts[fp]);
    var pairs := Pairs(o, table, firsts, seconds, fp);
    var rest :- PairCandidates(sc, table, seconds, pairs);
    Ok([sc] + rest)
  }

  function Blocks(o: Options, pure: Candidate, table: NnTable, firsts: seq<string>, seconds: seq<string>, fp: nat): (r: Result<seq<Candidate>>)
    requires fp <= |firsts|
    decreases |firsts| - fp
  {
    if fp == |firsts| then Ok([])
    else
      match FirstBlock(o, pure, table, firsts, seconds, fp)
      case Err(why) => Err(why)
      case Ok(block) =>
        match Blocks(o, pure, table, firsts, seconds, fp + 1)
        case Err(why) => Err(why)
        case Ok(rest) => Ok(block + rest)
  }

  /** `launch`: the input checks, then the pure cell followed by the block of
      every first solute. */
  function Launch(tk: Toolkit, o: Options): (r: Result<seq<Candidate>>)
    ensures ParseFloat(o.latticeSize).None? ==> r.Err?
    ensures |Split(o.supercellShape, ',')| != 3 ==> r.Err?
    ensures o.matrixElement in PrepElementList(o.firstSolutes) + PrepElementList(o.secondSolutes) ==> r.Err?
    ensures ParseFloat(o.latticeSize).Some? && |Split(o.supercellShape, ',')| == 3
            && o.matrixElement !in PrepElementList(o.firstSolutes) + PrepElementList(o.secondSolutes) ==>
      var a := ParseFloat(o.latticeSize).value;
      var shape := Split(o.supercellShape, ',');
      var pure := Candidate(tk.supercell(a, shape, o.matrixElement), BaseExtras(a, shape, o.matrixElement));
      var blocks := Blocks(o, pure, tk.nnTable(pure.structure), PrepElementList(o.firstSolutes), PrepElementList(o.secondSolutes), 0);
      && (r.Ok? <==> blocks.Ok?)
      && (r.Ok? ==> r.value == [pure] + blocks.value)
  {
    match ParseFloat(o.latticeSize)
    case None => Err("ValueError: could not convert string to float: " + o.latticeSize)
    case Some(a) =>
      var shape := Split(o.supercellShape, ',');
      if |shape| != 3 then Err("supercell_shape must be of the form Nx,Ny,Nz")
      else
        var firsts := PrepElementList(o.firstSolutes);
        var seconds := PrepElementList(o.secondSolutes);
        if o.matrixElement in firsts then Err("cannot have the matrix element as a first solute")
        else if o.matrixElement in seconds then Err("cannot have the matrix element as a second solute")
        else
          var pure := Candidate(tk.supercell(a, shape, o.matrixElement), BaseExtras(a, shape, o.matrixElement));
          var blocks :- Blocks(o, pure, tk.nnTable(pure.structure), firsts, seconds, 0);
          Ok([pure] + blocks)
  }

  /** The input checks, in the order they are made. */
  lemma LaunchRejects(tk: Toolkit, o: Options)
    ensures ParseFloat(o.latticeSize).None? ==>
      Launch(tk, o) == Err("ValueError: could not convert string to float: " + o.latticeSize)
    ensures (ParseFloat(o.latticeSize).Some? && |Split(o.supercellShape, ',')| != 3) ==>
      Launch(tk, o) == Err("supercell_shape must be of the form Nx,Ny,Nz")
    ensures (&& ParseFloat(o.latticeSize).Some?
             && |Split(o.supercellShape, ',')| == 3
             && o.matrixElement in PrepElementList(o.firstSolutes)) ==>
      Launch(tk, o) == Err("cannot have the matrix element as a first solute")
    ensures (&& ParseFloat(o.latticeSize).Some?
             && |Split(o.supercellShape, ',')| == 3
             && o.matrixElement !in PrepElementList(o.firstSolutes)
             && o.matrixElement in PrepElementList(o.secondSolutes)) ==>
      Launch(tk, o) == Err("cannot have the matrix element as a second solute")
  {
  }

  /** Number of pairs over first solutes fp.. */
  function PairTotal(o: Options, table: NnTable, firsts: seq<string>, seconds: seq<string>, fp: nat): nat
    requires fp <= |firsts|
    decreases |firsts| - fp
  {
    if fp == |firsts| then 0
    else |Pairs(o, table, firsts, seconds, fp)| + PairTotal(o, table, firsts, seconds, fp + 1)
  }

  lemma {:induction false} BlocksCount(o: Options, pure: Candidate, table: NnTable, firsts: seq<string>, seconds: seq<string>, fp: nat)
    requires fp <= |firsts|
    requires Blocks(o, pure, table, firsts, seconds, fp).Ok?
    ensures |Blocks(o, pure, table, firsts, seconds, fp).value| == |firsts| - fp + PairTotal(o, table, firsts, seconds, fp)
    decreases |firsts| - fp
  {
    if fp < |firsts| {
      var block := FirstBlock(o, pure, table, firsts, seconds, fp);
      var rest := Blocks(o, pure, table, firsts, seconds, fp + 1);
      assert block.Ok? && rest.Ok?;
      assert |block.value| == 1 + |Pairs(o, table, firsts, seconds, fp)|;
      BlocksCount(o, pure, table, firsts, seconds, fp + 1);
    }
  }

  /** A successful launch yields the pure cell first, then one single-solute
      cell per first solute and one cell per enumerated pair. */
  lemma LaunchCount(tk: Toolkit, o: Options)
    requires Launch(tk, o).Ok?
    ensures ParseFloat(o.latticeSize).Some?
    ensures var a := ParseFloat(o.latticeSize).value;
      var shape := Split(o.supercellShape, ',');
      var firsts := PrepElementList(o.firstSolutes);
      var seconds := PrepElementList(o.secondSolutes);
      var pure := tk.supercell(a, shape, o.matrixElement);
      var cs := Launch(tk, o).value;
      && |cs| == 1 + |firsts| + PairTotal(o, tk.nnTable(pure), firsts, seconds, 0)
      && cs[0] == Candidate(pure, BaseExtras(a, shape, o.matrixElement))
  {
    var a := ParseFloat(o.latticeSize).value;
    var shape := Split(o.supercellShape, ',');
    var firsts := PrepElementList(o.firstSolutes);
    var seconds := PrepElementList(o.secondSolutes);
    var pure := Candidate(tk.supercell(a, shape, o.matrixElement), BaseExtras(a, shape, o.matrixElement));
    BlocksCount(o, pure, tk.nnTable(pure.structure), firsts, seconds, 0);
  }
}
