/**
 Antisite defects: for every input structure, every symmetry-distinct site
 (one representative per class of equivalent sites) is re-labelled with every
 solute element it does not already hold, optionally after growing the
 structure to a target atom count by repeating it along its shortest lattice
 vector, one repeat at a time.

 The symmetry analysis (pymatgen's `SpacegroupAnalyzer`), `np.linalg.norm`
 and ase's `Atoms.repeat` are the `Toolkit`; the database is the
 `Environment`.
 */
module Antisite {
  import opened Common
  import opened Atoms
  import SoluteSupercell

  type Candidate = SoluteSupercell.Candidate

  /** One class of symmetry-equivalent sites: the index of its first site,
      that site's species and the class's Wyckoff symbol. */
  datatype SiteClass = SiteClass(firstIndex: nat, species: string, wyckoff: string)

  /** A unique site as the generator records it: the site index, the species
      numbered by its occurrence ("Al1", "Al2", "Mg1"), the Wyckoff symbol. */
  datatype UniqueSite = UniqueSite(siteIndex: nat, elementIndex: string, wyckoff: string)

  datatype Toolkit = Toolkit(
    norm: Vec -> real,
    repeat: (Structure, seq<nat>) -> Structure,
    equivalentSites: Structure -> seq<SiteClass>)

  /** A stored structure node. */
  datatype Node = Node(uuid: string, structure: Structure)

  /** The database: the structures of a group by name, and `load_node` of a
      node or uuid, which fails for an unknown one. */
  datatype Environment = Environment(groupMembers: string -> seq<Node>, load: string -> Result<Node>)

  datatype Options = Options(
    inputGroup: Option<string>,
    inputStructures: Option<string>,
    targetSupercellsize: Option<string>,
    soluteElements: string,
    structureComments: string)

  // ---------------------------------------------------------------------------
  // The shortest lattice vector
  // ---------------------------------------------------------------------------

  /** `i` is the first position of a least value of `norms`. */
  predicate IsFirstMinimum(norms: seq<real>, i: nat) {
    && i < |norms|
    && (forall j :: 0 <= j < |norms| ==> norms[i] <= norms[j])
    && (forall j :: 0 <= j < i ==> norms[i] < norms[j])
  }

  /** There is only one first position of a least value. */
  lemma FirstMinimumUnique(norms: seq<real>, i: nat, k: nat)
    requires IsFirstMinimum(norms, i) && IsFirstMinimum(norms, k)
    ensures i == k
  {
    assert norms[i] == norms[k];
  }

  /** The first least value, found from the back: a shorter prefix's answer
      is kept unless the last value is strictly smaller. */
  function FirstMinimum(norms: seq<real>): (i: nat)
    requires |norms| >= 1
    ensures IsFirstMinimum(norms, i)
    decreases |norms|
  {
    if |norms| == 1 then 0
    else
      var j := FirstMinimum(norms[..|norms| - 1]);
      if norms[|norms| - 1] < norms[j] then |norms| - 1 else j
  }

  /** `get_smallestcellindex` on the norms of the lattice vectors: a scan
      that replaces the best index only on a strictly shorter vector, so ties
      go to the earliest. */
  method SmallestCellIndex(norms: seq<real>) returns (index: nat)
    requires |norms| >= 1
    ensures IsFirstMinimum(norms, index)
    ensures index == FirstMinimum(norms)
  {
    var smallest := norms[0];
    index := 0;
    var i := 0;
    while i < |norms|
      invariant 0 <= i <= |norms|
      invariant index < |norms| && smallest == norms[index]
      invariant index <= i || (i == 0 && index == 0)
      invariant forall j :: 0 <= j < i ==> smallest <= norms[j]
      invariant forall j :: 0 <= j < index ==> smallest < norms[j]
    {
      if norms[i] < smallest {
        index := i;
        smallest := norms[i];
      }
      i := i + 1;
    }
    FirstMinimumUnique(norms, index, FirstMinimum(norms));
  }

  // ---------------------------------------------------------------------------
  // Growing the supercell
  // ---------------------------------------------------------------------------

  /** An ase lattice always has three rows; a missing row reads as the zero
      vector. */
  function Row(cell: seq<Vec>, i: nat): Vec {
    if i < |cell| then cell[i] else [0.0, 0.0, 0.0]
  }

  /** The norms of the three lattice vectors. */
  function CellNorms(tk: Toolkit, s: Structure): (r: seq<real>)
    ensures |r| == 3
  {
    [tk.norm(Row(s.cell, 0)), tk.norm(Row(s.cell, 1)), tk.norm(Row(s.cell, 2))]
  }

  predicate ValidRepeats(reps: seq<nat>) {
    |reps| == 3 && reps[0] >= 1 && reps[1] >= 1 && reps[2] >= 1
  }

  function Product(reps: seq<nat>): nat
    requires |reps| == 3
  {
    reps[0] * reps[1] * reps[2]
  }

  /** The lattice-vector norms of the repeated structure: repeating scales
      lattice vector `i` by `reps[i]`, and the norm scales with it. */
  function Scaled(norms: seq<real>, reps: seq<nat>): (r: seq<real>)
    requires |norms| == 3 && |reps| == 3
    ensures |r| == 3
    ensures forall i :: 0 <= i < 3 ==> r[i] == reps[i] as real * norms[i]
  {
    [reps[0] as real * norms[0], reps[1] as real * norms[1], reps[2] as real * norms[2]]
  }

  /** One more repeat along any axis adds at least one copy of the cell. */
  lemma ProductGrows(reps: seq<nat>, i: nat)
    requires ValidRepeats(reps) && i < 3
    ensures ValidRepeats(reps[i := reps[i] + 1])
    ensures Product(reps[i := reps[i] + 1]) >= Product(reps) + 1
  {
    var a, b, c := reps[0], reps[1], reps[2];
    assert b * c >= 1 && a * c >= 1 && a * b >= 1;
    if i == 0 {
      assert (a + 1) * b * c == a * b * c + b * c;
    } else if i == 1 {
      assert a * (b + 1) * c == a * b * c + a * c;
    } else {
      assert a * b * (c + 1) == a * b * c + a * b;
    }
  }

  /** `n` atoms per copy: one copy more is `n` atoms more. */
  lemma MoreCopies(n: nat, p: nat, q: nat)
    requires q >= p + 1
    ensures n * q >= n * p + n
  {
    assert n * q == n * (p + 1) + n * (q - p - 1);
  }

  /** The supercell search from `reps`: while the repeated structure of `n`
      atoms per cell has fewer than `target` atoms, add one repeat along its
      currently shortest lattice vector. */
  function Grow(norms: seq<real>, n: nat, target: int, reps: seq<nat>): (r: seq<nat>)
    requires |norms| == 3 && ValidRepeats(reps)
    requires n >= 1 || target <= 0
    ensures ValidRepeats(r)
    ensures n * Product(r) >= target
    ensures forall i :: 0 <= i < 3 ==> r[i] >= reps[i]
    ensures n * Product(reps) >= target ==> r == reps
    decreases target - n * Product(reps)
  {
    if n * Product(reps) >= target then reps
    else
      var i := FirstMinimum(Scaled(norms, reps));
      ProductGrows(reps, i);
      MoreCopies(n, Product(reps), Product(reps[i := reps[i] + 1]));
      Grow(norms, n, target, reps[i := reps[i] + 1])
  }

  /** `generate_supercell`'s repeats: start from one cell and grow. */
  method GenerateSupercell(norms: seq<real>, n: nat, target: int) returns (reps: seq<nat>)
    requires |norms| == 3
    requires n >= 1 || target <= 0
    ensures ValidRepeats(reps) && n * Product(reps) >= target
    ensures reps == Grow(norms, n, target, [1, 1, 1])
  {
    reps := [1, 1, 1];
    while n * Product(reps) < target
      invariant ValidRepeats(reps)
      invariant Grow(norms, n, target, reps) == Grow(norms, n, target, [1, 1, 1])
      decreases target - n * Product(reps)
    {
      var i := SmallestCellIndex(Scaled(norms, reps));
      ProductGrows(reps, i);
      MoreCopies(n, Product(reps), Product(reps[i := reps[i] + 1]));
      reps := reps[i := reps[i] + 1];
    }
  }

  /** A structure that already has the target count is not repeated. */
  lemma GrowStopsAtTarget(norms: seq<real>, n: nat, target: int)
    requires |norms| == 3 && n >= target
    ensures Grow(norms, n, target, [1, 1, 1]) == [1, 1, 1]
  {
  }

  /** Repeats whose largest entry exceeds the smallest by at most one, and
      that never increase from axis to axis. */
  predicate Even(reps: seq<nat>) {
    |reps| == 3 && reps[0] >= reps[1] >= reps[2] && reps[2] + 1 >= reps[0]
  }

  /** A cell whose three lattice vectors have the same length grows evenly:
      the shortest vector of the repeated cell is on the first axis with the
      fewest repeats, so the repeats go x, y, z, x, y, z, ... */
  lemma {:induction false} CubicGrowsEvenly(norms: seq<real>, n: nat, target: int, reps: seq<nat>)
    requires |norms| == 3 && norms[0] == norms[1] == norms[2] > 0.0
    requires ValidRepeats(reps) && Even(reps)
    requires n >= 1 || target <= 0
    ensures Even(Grow(norms, n, target, reps))
    decreases target - n * Product(reps)
  {
    if n * Product(reps) < target {
      var i := CubicStep(norms, reps);
      var next := GrowStep(norms, n, target, reps);
      CubicGrowsEvenly(norms, n, target, next);
    }
  }

  /** One round of the search loop: the repeats it moves to, which hold more
      atoms and lead to the same result. */
  lemma GrowStep(norms: seq<real>, n: nat, target: int, reps: seq<nat>) returns (next: seq<nat>)
    requires |norms| == 3 && ValidRepeats(reps)
    requires n >= 1 || target <= 0
    requires n * Product(reps) < target
    ensures var i := FirstMinimum(Scaled(norms, reps)); next == reps[i := reps[i] + 1]
    ensures ValidRepeats(next)
    ensures n * Product(next) > n * Product(reps)
    ensures Grow(norms, n, target, reps) == Grow(norms, n, target, next)
  {
    var i := FirstMinimum(Scaled(norms, reps));
    next := reps[i := reps[i] + 1];
    ProductGrows(reps, i);
    MoreCopies(n, Product(reps), Product(next));
  }

  /** One step of a cubic search: the first axis with the fewest repeats is
      the shortest, and repeating it keeps the repeats even. */
  lemma CubicStep(norms: seq<real>, reps: seq<nat>) returns (i: nat)
    requires |norms| == 3 && norms[0] == norms[1] == norms[2] > 0.0
    requires ValidRepeats(reps) && Even(reps)
    ensures i == FirstMinimum(Scaled(norms, reps))
    ensures Even(reps[i := reps[i] + 1])
  {
    var scaled := Scaled(norms, reps);
    var c := norms[0];
    i := if reps[0] == reps[2] then 0 else if reps[1] == reps[2] then 1 else 2;
    forall j | 0 <= j < 3 ensures scaled[i] <= scaled[j] {
      RepeatsOrdered(reps[i], reps[j], c);
    }
    forall j | 0 <= j < i ensures scaled[i] < scaled[j] {
      RepeatsStrictlyOrdered(reps[i], reps[j], c);
    }
    FirstMinimumUnique(scaled, i, FirstMinimum(scaled));
  }

  lemma RepeatsOrdered(a: nat, b: nat, c: real)
    requires a <= b && c > 0.0
    ensures a as real * c <= b as real * c
  {
  }

  lemma RepeatsStrictlyOrdered(a: nat, b: nat, c: real)
    requires a < b && c > 0.0
    ensures a as real * c < b as real * c
  {
  }

  // ---------------------------------------------------------------------------
  // Unique sites
  // ---------------------------------------------------------------------------

  /** How often `x` occurs in `xs`. */
  function Occurrences(xs: seq<string>, x: string): nat {
    multiset(xs)[x]
  }

  /** `get_unique_sites`: each class's first site, its species followed by
      how many classes up to and including this one have that species, and
      its Wyckoff symbol. */
  function UniqueSites(classes: seq<SiteClass>): (r: seq<UniqueSite>)
    ensures |r| == |classes|
    ensures forall i :: 0 <= i < |classes| ==>
      && r[i].siteIndex == classes[i].firstIndex
      && r[i].wyckoff == classes[i].wyckoff
  {
    var species := seq(|classes|, i requires 0 <= i < |classes| => classes[i].species);
    seq(|classes|, i requires 0 <= i < |classes| =>
      UniqueSite(classes[i].firstIndex,
                 classes[i].species + NatToString(Occurrences(species[..i + 1], species[i])),
                 classes[i].wyckoff))
  }

  /** The species of the classes, in order. */
  function Species(classes: seq<SiteClass>): (r: seq<string>)
    ensures |r| == |classes|
    ensures forall i :: 0 <= i < |classes| ==> r[i] == classes[i].species
  {
    seq(|classes|, i requires 0 <= i < |classes| => classes[i].species)
  }

  /** The number in a label is the rank of the class among the classes of
      its species: the first such class is 1, the next 2, and so on. */
  lemma LabelCountsOccurrences(classes: seq<SiteClass>, i: nat)
    requires i < |classes|
    ensures var species := Species(classes);
      UniqueSites(classes)[i].elementIndex
        == classes[i].species + NatToString(Occurrences(species[..i + 1], species[i]))
    ensures Occurrences(Species(classes)[..i + 1], classes[i].species) >= 1
  {
    var species := Species(classes);
    assert species[..i + 1] == species[..i] + [species[i]];
  }

  /** A later class of the same species counts higher. */
  lemma OccurrencesIncrease(species: seq<string>, i: nat, j: nat)
    requires i < j < |species| && species[i] == species[j]
    ensures Occurrences(species[..i + 1], species[i]) < Occurrences(species[..j + 1], species[j])
  {
    assert species[..j + 1] == species[..i + 1] + species[i + 1..j] + [species[j]];
  }

  /** No character of `s` is a digit. */
  predicate NoDigit(s: string) { forall i :: 0 <= i < |s| ==> !IsDigit(s[i]) }

  /** The position of the first digit of `s`, or its length. */
  function FirstDigit(s: string): (k: nat)
    ensures k <= |s|
    ensures forall i :: 0 <= i < k ==> !IsDigit(s[i])
    ensures k < |s| ==> IsDigit(s[k])
  {
    if |s| == 0 || IsDigit(s[0]) then 0 else 1 + FirstDigit(s[1..])
  }

  /** In a label the number starts right after the species. */
  lemma {:induction false} FirstDigitOfLabel(a: string, d: string)
    requires NoDigit(a) && |d| >= 1 && IsDigit(d[0])
    ensures FirstDigit(a + d) == |a|
    decreases |a|
  {
    if |a| == 0 {
      assert a + d == d;
    } else {
      assert (a + d)[0] == a[0];
      assert (a + d)[1..] == a[1..] + d;
      FirstDigitOfLabel(a[1..], d);
    }
  }

  /** A label splits uniquely into a digit-free species and its number. */
  lemma LabelSplits(a: string, da: string, b: string, db: string)
    requires NoDigit(a) && NoDigit(b)
    requires |da| >= 1 && AllDigits(da) && |db| >= 1 && AllDigits(db)
    requires a + da == b + db
    ensures a == b && da == db
  {
    var s := a + da;
    FirstDigitOfLabel(a, da);
    FirstDigitOfLabel(b, db);
    assert a == s[..|a|] == b;
    assert da == s[|a|..] == db;
  }

  /** Species names have no digits (they are chemical symbols), so the labels
      of different classes are different. */
  lemma LabelsDistinct(classes: seq<SiteClass>, i: nat, j: nat)
    requires i < j < |classes|
    requires forall k :: 0 <= k < |classes| ==> NoDigit(classes[k].species)
    ensures UniqueSites(classes)[i].elementIndex != UniqueSites(classes)[j].elementIndex
  {
    var species := Species(classes);
    LabelCountsOccurrences(classes, i);
    LabelCountsOccurrences(classes, j);
    var ni := Occurrences(species[..i + 1], species[i]);
    var nj := Occurrences(species[..j + 1], species[j]);
    if UniqueSites(classes)[i].elementIndex == UniqueSites(classes)[j].elementIndex {
      LabelSplits(classes[i].species, NatToString(ni), classes[j].species, NatToString(nj));
      assert ni == nj;
      OccurrencesIncrease(species, i, j);
    }
  }

  // ---------------------------------------------------------------------------
  // Antisite candidates
  // ---------------------------------------------------------------------------

  /** The extras of one unique site, on top of the node's. */
  function SiteExtras(base: Extras, site: UniqueSite): (e: Extras)
    ensures "site_index" in e && e["site_index"] == Int(site.siteIndex)
    ensures "element_index" in e && e["element_index"] == Text(site.elementIndex)
    ensures "wyckoff" in e && e["wyckoff"] == Text(site.wyckoff)
  {
    base["site_index" := Int(site.siteIndex)]["element_index" := Text(site.elementIndex)]["wyckoff" := Text(site.wyckoff)]
  }

  /** The candidate that puts `e` on site `i`. */
  function Antisite(s: Structure, i: nat, extras: Extras, e: string): Candidate
    requires i < |s.atoms|
  {
    SoluteSupercell.Candidate(SetSymbol(s, i, e).value, extras["element_new" := Text(e)])
  }

  /** The element loop of one site: every element the site does not already
      hold, in order, re-labels that one site. */
  function Substitutions(s: Structure, i: nat, extras: Extras, elements: seq<string>): (r: seq<Candidate>)
    requires i < |s.atoms|
    ensures |r| <= |elements|
    ensures forall c :: c in r ==>
      exists e :: e in elements && e != s.atoms[i].symbol && c == Antisite(s, i, extras, e)
    ensures forall e :: e in elements && e != s.atoms[i].symbol ==> Antisite(s, i, extras, e) in r
    decreases |elements|
  {
    if |elements| == 0 then []
    else
      var rest := Substitutions(s, i, extras, elements[1..]);
      assert forall e :: e in elements[1..] ==> e in elements;
      if elements[0] == s.atoms[i].symbol then rest
      else [Antisite(s, i, extras, elements[0])] + rest
  }

  /** Every antisite changes its structure at exactly one site, to a
      different element. */
  lemma AntisiteChangesOneSite(s: Structure, i: nat, extras: Extras, elements: seq<string>, c: Candidate)
    requires i < |s.atoms| && c in Substitutions(s, i, extras, elements)
    ensures OnlySiteChanged(s, c.structure, i, c.structure.atoms[i].symbol)
    ensures c.structure.atoms[i].symbol != s.atoms[i].symbol
    ensures c.structure.atoms[i].symbol in elements
  {
  }

  /** All sites' element loops; every site index is within the structure. */
  function AllSubstitutions(s: Structure, extras: Extras, sites: seq<UniqueSite>, elements: seq<string>): (r: seq<Candidate>)
    requires forall k :: 0 <= k < |sites| ==> sites[k].siteIndex < |s.atoms|
    ensures forall c :: c in r ==>
      exists k :: 0 <= k < |sites| && c in Substitutions(s, sites[k].siteIndex, SiteExtras(extras, sites[k]), elements)
    decreases |sites|
  {
    if |sites| == 0 then []
    else
      var rest := AllSubstitutions(s, extras, sites[1..], elements);
      assert forall k :: 0 <= k < |sites| - 1 ==> sites[1..][k] == sites[k + 1];
      Substitutions(s, sites[0].siteIndex, SiteExtras(extras, sites[0]), elements) + rest
  }

  /** Every site's element loop contributes all its candidates. */
  lemma {:induction false} AllSubstitutionsComplete(s: Structure, extras: Extras, sites: seq<UniqueSite>, elements: seq<string>,
                                                    k: nat, c: Candidate)
    requires forall j :: 0 <= j < |sites| ==> sites[j].siteIndex < |s.atoms|
    requires k < |sites| && c in Substitutions(s, sites[k].siteIndex, SiteExtras(extras, sites[k]), elements)
    ensures c in AllSubstitutions(s, extras, sites, elements)
    decreases |sites|
  {
    if k > 0 {
      assert sites[1..][k - 1] == sites[k];
      AllSubstitutionsComplete(s, extras, sites[1..], elements, k - 1, c);
    }
  }

  /** The site loop: a site index past the end of the structure is an
      IndexError as soon as an element is tried on it. */
  function SiteLoop(s: Structure, extras: Extras, sites: seq<UniqueSite>, elements: seq<string>): (r: Result<seq<Candidate>>)
    ensures r.Ok? <==> |elements| == 0 || forall k :: 0 <= k < |sites| ==> sites[k].siteIndex < |s.atoms|
    ensures r.Ok? && |elements| == 0 ==> r.value == []
    ensures r.Ok? && |elements| > 0 ==> r.value == AllSubstitutions(s, extras, sites, elements)
  {
    if |elements| == 0 then Ok([])
    else if exists k :: 0 <= k < |sites| && sites[k].siteIndex >= |s.atoms| then
      Err("IndexError: site index out of range")
    else Ok(AllSubstitutions(s, extras, sites, elements))
  }

  /** The structure the antisites are made in: the node's own, or with a
      target size the repeated one once the node's own is too small (an
      `int` target, and an empty structure never reaching a positive
      target). */
  function Supercell(tk: Toolkit, s: Structure, target: Option<string>): (r: Result<(Structure, Option<int>)>)
    ensures target.None? ==> r == Ok((s, None))
    ensures target.Some? && ParseInt(target.value).None? ==> r.Err?
    ensures r.Ok? && target.Some? ==>
      var t := ParseInt(target.value).value;
      && r.value.1 == Some(t)
      && (|s.atoms| >= 1 || t <= 0)
      && (|s.atoms| >= t ==> r.value.0 == s)
      && (|s.atoms| < t ==> r.value.0 == tk.repeat(s, Grow(CellNorms(tk, s), |s.atoms|, t, [1, 1, 1])))
  {
    match target
    case None => Ok((s, None))
    case Some(text) =>
      match ParseInt(text)
      case None => Err("ValueError: invalid literal for int(): " + text)
      case Some(t) =>
        if |s.atoms| == 0 && t > 0 then Err("the supercell search never ends for an empty structure")
        else if |s.atoms| >= t then Ok((s, Some(t)))
        else Ok((tk.repeat(s, Grow(CellNorms(tk, s), |s.atoms|, t, [1, 1, 1])), Some(t)))
  }

  /** Every candidate of the site loop changes one site of `s`, to a
      different element from the solute list. */
  lemma SiteLoopChangesOneSite(s: Structure, extras: Extras, sites: seq<UniqueSite>, elements: seq<string>)
    requires SiteLoop(s, extras, sites, elements).Ok?
    ensures forall c :: c in SiteLoop(s, extras, sites, elements).value ==> ChangesOneSite(s, c.structure, elements)
  {
    forall c | c in SiteLoop(s, extras, sites, elements).value
      ensures ChangesOneSite(s, c.structure, elements)
    {
      var k :| 0 <= k < |sites| && c in Substitutions(s, sites[k].siteIndex, SiteExtras(extras, sites[k]), elements);
      AntisiteChangesOneSite(s, sites[k].siteIndex, SiteExtras(extras, sites[k]), elements, c);
    }
  }

  /** `t` is `s` with one site re-labelled to a different element from
      `elements`. */
  predicate ChangesOneSite(s: Structure, t: Structure, elements: seq<string>) {
    exists i :: 0 <= i < |s.atoms| && |t.atoms| == |s.atoms|
      && OnlySiteChanged(s, t, i, t.atoms[i].symbol)
      && t.atoms[i].symbol != s.atoms[i].symbol
      && t.atoms[i].symbol in elements
  }

  /** The extras every candidate of a node starts from. */
  function NodeExtras(node: Node, o: Options, target: Option<int>): (e: Extras)
    ensures "input_structure" in e && e["input_structure"] == Text(node.uuid)
    ensures target.Some? <==> "target_supercellsize" in e
  {
    var base := map["input_structure" := Text(node.uuid), "structure_comments" := Text(o.structureComments)];
    if target.Some? then base["target_supercellsize" := Int(target.value)] else base
  }

  /** The loop body for one node: its unique sites (found before any
      repetition), the optional supercell, then the site and element loops. */
  function NodeCandidates(tk: Toolkit, node: Node, o: Options, elements: seq<string>): (r: Result<seq<Candidate>>)
    ensures Supercell(tk, node.structure, o.targetSupercellsize).Err? ==> r.Err?
    ensures r.Ok? ==> var grown := Supercell(tk, node.structure, o.targetSupercellsize);
      && grown.Ok?
      && forall c :: c in r.value ==> ChangesOneSite(grown.value.0, c.structure, elements)
  {
    var sites := UniqueSites(tk.equivalentSites(node.structure));
    match Supercell(tk, node.structure, o.targetSupercellsize)
    case Err(e) => Err(e)
    case Ok(grown) =>
      var extras := NodeExtras(node, o, grown.1);
      var r := SiteLoop(grown.0, extras, sites, elements);
      if r.Ok? then SiteLoopChangesOneSite(grown.0, extras, sites, elements); r
      else r
  }

  /** The input nodes: the group's structures, or the listed nodes loaded
      one by one; neither is an error. */
  function InputNodes(o: Options, env: Environment): (r: Result<seq<Node>>)
    ensures (o.inputGroup.None? || o.inputGroup.value == []) && (o.inputStructures.None? || o.inputStructures.value == [])
      ==> r.Err?
    ensures o.inputGroup.Some? && o.inputGroup.value != [] ==> r == Ok(env.groupMembers(o.inputGroup.value))
    ensures r.Ok? && !(o.inputGroup.Some? && o.inputGroup.value != []) ==>
      var ids := Split(o.inputStructures.value, ',');
      |r.value| == |ids| && forall k :: 0 <= k < |ids| ==> env.load(ids[k]) == Ok(r.value[k])
  {
    if o.inputGroup.Some? && o.inputGroup.value != [] then Ok(env.groupMembers(o.inputGroup.value))
    else if o.inputStructures.Some? && o.inputStructures.value != [] then LoadAll(env, Split(o.inputStructures.value, ','))
    else Err("Must use either input group or input structures")
  }

  /** `[load_node(x) for x in ids]`: the first unknown id fails. */
  function LoadAll(env: Environment, ids: seq<string>): (r: Result<seq<Node>>)
    ensures r.Ok? <==> forall k :: 0 <= k < |ids| ==> env.load(ids[k]).Ok?
    ensures r.Ok? ==> |r.value| == |ids| && forall k :: 0 <= k < |ids| ==> env.load(ids[k]) == Ok(r.value[k])
    decreases |ids|
  {
    if |ids| == 0 then Ok([])
    else
      match env.load(ids[0])
      case Err(e) => Err(e)
      case Ok(n) =>
        match LoadAll(env, ids[1..])
        case Err(e) =>
          assert exists k :: 0 <= k < |ids| && env.load(ids[k]).Err? by {
            var k :| 0 <= k < |ids| - 1 && env.load(ids[1..][k]).Err?;
            assert ids[1..][k] == ids[k + 1];
          }
          Err(e)
        case Ok(rest) => Ok([n] + rest)
  }

  /** The loop body for every node, in node order. */
  function NodeResults(tk: Toolkit, nodes: seq<Node>, o: Options, elements: seq<string>): (rs: seq<Result<seq<Candidate>>>)
    ensures |rs| == |nodes| && forall k :: 0 <= k < |nodes| ==> rs[k] == NodeCandidates(tk, nodes[k], o, elements)
  {
    seq(|nodes|, k requires 0 <= k < |nodes| => NodeCandidates(tk, nodes[k], o, elements))
  }

  /** The node loop: every node's candidates in node order; the first node
      that fails stops the script. */
  function NodeLoop(tk: Toolkit, nodes: seq<Node>, o: Options, elements: seq<string>): (r: Result<seq<Candidate>>)
    ensures r.Ok? <==> forall k :: 0 <= k < |nodes| ==> NodeCandidates(tk, nodes[k], o, elements).Ok?
  {
    var parts :- Collect(NodeResults(tk, nodes, o, elements));
    Ok(Concat(parts))
  }

  /** Every candidate of a successful node loop comes from one node's loop
      body, and every node's candidates are in it. */
  lemma NodeLoopCandidates(tk: Toolkit, nodes: seq<Node>, o: Options, elements: seq<string>, c: Candidate)
    requires NodeLoop(tk, nodes, o, elements).Ok?
    ensures c in NodeLoop(tk, nodes, o, elements).value <==>
      exists k :: 0 <= k < |nodes| && NodeCandidates(tk, nodes[k], o, elements).Ok?
        && c in NodeCandidates(tk, nodes[k], o, elements).value
  {
    var rs := NodeResults(tk, nodes, o, elements);
    var parts := Collect(rs).value;
    InConcat(parts, c);
    assert forall k :: 0 <= k < |nodes| ==> rs[k] == Ok(parts[k]);
  }

  /** Every candidate the node loop produces re-labels one site of its
      node's (grown) structure to a different solute. */
  lemma NodeLoopChangesOneSite(tk: Toolkit, nodes: seq<Node>, o: Options, elements: seq<string>, c: Candidate)
    requires NodeLoop(tk, nodes, o, elements).Ok? && c in NodeLoop(tk, nodes, o, elements).value
    ensures exists k :: (0 <= k < |nodes| && Supercell(tk, nodes[k].structure, o.targetSupercellsize).Ok?
      && ChangesOneSite(Supercell(tk, nodes[k].structure, o.targetSupercellsize).value.0, c.structure, elements))
  {
    NodeLoopCandidates(tk, nodes, o, elements, c);
    var k :| 0 <= k < |nodes| && NodeCandidates(tk, nodes[k], o, elements).Ok?
      && c in NodeCandidates(tk, nodes[k], o, elements).value;
    assert Supercell(tk, nodes[k].structure, o.targetSupercellsize).Ok?;
  }

  /** `launch`: the input nodes, the solute list, then the node loop. */
  function Launch(tk: Toolkit, o: Options, env: Environment): (r: Result<seq<Candidate>>)
    ensures InputNodes(o, env).Err? ==> r.Err?
    ensures InputNodes(o, env).Ok? ==>
      r == NodeLoop(tk, InputNodes(o, env).value, o, SoluteSupercell.PrepElementList(Some(o.soluteElements)))
  {
    var nodes :- InputNodes(o, env);
    NodeLoop(tk, nodes, o, SoluteSupercell.PrepElementList(Some(o.soluteElements)))
  }
}
