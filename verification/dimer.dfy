/**
 Dimers in a cubic box: for every first element, the lone atom, and then
 that atom with a second element at each separation along x. A second
 element that already served as a first element is skipped, so each
 unordered pair is generated once.
 */
module Dimer {
  import opened Common
  import opened Atoms
  import opened Displacements
  import SoluteSupercell

  type Candidate = SoluteSupercell.Candidate

  /** The command line; the box edge is text, "15" by default, and read as an
      integer because its default is one. */
  datatype Options = Options(
    boxSize: string,
    dimerSeparation: string,
    firstElements: string,
    secondElements: string)

  /** The cubic, periodic box of edge `b`. */
  function BoxCell(b: real): seq<Vec> {
    [[b, 0.0, 0.0], [0.0, b, 0.0], [0.0, 0.0, b]]
  }

  const Origin: Vec := [0.0, 0.0, 0.0]

  /** The lone first atom at the origin, stored with empty pair fields. */
  function Single(b: real, first: string): (c: Candidate)
    ensures c.structure == Structure(BoxCell(b), [Atom(first, Origin)])
    ensures "second_element" in c.extras && c.extras["second_element"] == Text("")
    ensures "atomatom_distance" in c.extras && c.extras["atomatom_distance"] == Text("")
  {
    SoluteSupercell.Candidate(
      Structure(BoxCell(b), [Atom(first, Origin)]),
      map["box_size" := Real(b), "firstdimer_element" := Text(first),
          "second_element" := Text(""), "atomatom_distance" := Text("")])
  }

  /** The dimer of `first` at the origin and `second` at `(d, 0, 0)`. */
  function Pair(b: real, first: string, second: string, d: real): (c: Candidate)
    ensures |c.structure.atoms| == 2
    ensures c.structure.atoms[0] == Atom(first, Origin) && c.structure.atoms[1] == Atom(second, [d, 0.0, 0.0])
    ensures "second_element" in c.extras && c.extras["second_element"] == Text(second)
    ensures "atomatom_distance" in c.extras && c.extras["atomatom_distance"] == Real(d)
  {
    SoluteSupercell.Candidate(
      Structure(BoxCell(b), [Atom(first, Origin), Atom(second, [d, 0.0, 0.0])]),
      map["box_size" := Real(b), "firstdimer_element" := Text(first),
          "second_element" := Text(second), "atomatom_distance" := Real(d)])
  }

  /** One dimer per separation, in order. */
  function Separations(b: real, first: string, second: string, seps: seq<real>): (r: seq<Candidate>)
    ensures |r| == |seps|
    ensures forall k :: 0 <= k < |seps| ==> r[k] == Pair(b, first, second, seps[k])
  {
    seq(|seps|, k requires 0 <= k < |seps| => Pair(b, first, second, seps[k]))
  }

  /** The body of the second-element loop: nothing for a skipped element,
      otherwise one dimer per separation. */
  function SecondBlock(b: real, first: string, second: string, seps: seq<real>, skip: seq<string>): seq<Candidate> {
    if second in skip then [] else Separations(b, first, second, seps)
  }

  /** The second-element loop for one first element, in list order. */
  function Seconds(b: real, first: string, seconds: seq<string>, seps: seq<real>, skip: seq<string>): seq<Candidate> {
    Concat(seq(|seconds|, j requires 0 <= j < |seconds| => SecondBlock(b, first, seconds[j], seps, skip)))
  }

  /** One pass of the second-element loop generates the dimers of `first`
      and `second` at every separation, unless `second` is skipped. */
  lemma SecondBlockMembers(b: real, first: string, second: string, seps: seq<real>, skip: seq<string>, c: Candidate)
    ensures c in SecondBlock(b, first, second, seps, skip) <==>
      second !in skip && exists k :: 0 <= k < |seps| && c == Pair(b, first, second, seps[k])
  {
    if second !in skip && exists k :: 0 <= k < |seps| && c == Pair(b, first, second, seps[k]) {
      var k :| 0 <= k < |seps| && c == Pair(b, first, second, seps[k]);
      assert Separations(b, first, second, seps)[k] == c;
    }
  }

  /** Every dimer of the second-element loop pairs `first` with a second
      element not in `skip`, at one of the separations. */
  lemma SecondsSound(b: real, first: string, seconds: seq<string>, seps: seq<real>, skip: seq<string>, c: Candidate)
    requires c in Seconds(b, first, seconds, seps, skip)
    ensures exists j, k ::
      0 <= j < |seconds| && 0 <= k < |seps| && seconds[j] !in skip && c == Pair(b, first, seconds[j], seps[k])
  {
    var parts := seq(|seconds|, j requires 0 <= j < |seconds| => SecondBlock(b, first, seconds[j], seps, skip));
    InConcat(parts, c);
    var j :| 0 <= j < |seconds| && c in parts[j];
    SecondBlockMembers(b, first, seconds[j], seps, skip, c);
  }

  /** Every second element not in `skip` is paired with `first` at every
      separation. */
  lemma SecondsComplete(b: real, first: string, seconds: seq<string>, seps: seq<real>, skip: seq<string>, j: nat, k: nat)
    requires j < |seconds| && k < |seps| && seconds[j] !in skip
    ensures Pair(b, first, seconds[j], seps[k]) in Seconds(b, first, seconds, seps, skip)
  {
    var parts := seq(|seconds|, j requires 0 <= j < |seconds| => SecondBlock(b, first, seconds[j], seps, skip));
    var c := Pair(b, first, seconds[j], seps[k]);
    SecondBlockMembers(b, first, seconds[j], seps, skip, c);
    assert c in parts[j];
    InConcat(parts, c);
  }

  /** The body of the first-element loop at position `f`: the lone atom,
      then its dimers with every second element that was not an earlier
      first element. */
  function FirstBlock(b: real, firsts: seq<string>, seconds: seq<string>, seps: seq<real>, f: nat): seq<Candidate>
    requires f < |firsts|
  {
    [Single(b, firsts[f])] + Seconds(b, firsts[f], seconds, seps, firsts[..f])
  }

  /** The first-element loop, in list order. */
  function Blocks(b: real, firsts: seq<string>, seconds: seq<string>, seps: seq<real>): seq<Candidate> {
    Concat(seq(|firsts|, f requires 0 <= f < |firsts| => FirstBlock(b, firsts, seconds, seps, f)))
  }

  /** The first-element loop generates exactly every first element's lone
      atom and the dimers of every first element with a second element that
      was not an earlier first element, at every separation. */
  lemma BlocksMembers(b: real, firsts: seq<string>, seconds: seq<string>, seps: seq<real>, c: Candidate)
    ensures c in Blocks(b, firsts, seconds, seps) <==>
      exists f :: 0 <= f < |firsts| && (c == Single(b, firsts[f]) || c in Seconds(b, firsts[f], seconds, seps, firsts[..f]))
  {
    var parts := seq(|firsts|, f requires 0 <= f < |firsts| => FirstBlock(b, firsts, seconds, seps, f));
    InConcat(parts, c);
    if exists f :: 0 <= f < |firsts| && (c == Single(b, firsts[f]) || c in Seconds(b, firsts[f], seconds, seps, firsts[..f])) {
      var f :| 0 <= f < |firsts| && (c == Single(b, firsts[f]) || c in Seconds(b, firsts[f], seconds, seps, firsts[..f]));
      assert c in parts[f];
    }
  }

  /** Every first element's lone atom, and every permitted dimer at every
      separation, is generated. */
  lemma BlocksComplete(b: real, firsts: seq<string>, seconds: seq<string>, seps: seq<real>, f: nat, j: nat, k: nat)
    requires f < |firsts| && j < |seconds| && k < |seps|
    ensures Single(b, firsts[f]) in Blocks(b, firsts, seconds, seps)
    ensures seconds[j] !in firsts[..f] ==> Pair(b, firsts[f], seconds[j], seps[k]) in Blocks(b, firsts, seconds, seps)
  {
    BlocksMembers(b, firsts, seconds, seps, Single(b, firsts[f]));
    if seconds[j] !in firsts[..f] {
      var c := Pair(b, firsts[f], seconds[j], seps[k]);
      SecondsComplete(b, firsts[f], seconds, seps, firsts[..f], j, k);
      BlocksMembers(b, firsts, seconds, seps, c);
    }
  }

  /** `launch`: box size, separations, then the two element lists; one lone
      atom per first element and the permitted dimers. */
  function Launch(o: Options): (r: Result<seq<Candidate>>)
    ensures ParseInt(o.boxSize).None? ==> r.Err?
    ensures r.Ok? <==> ParseInt(o.boxSize).Some? && DisplacementsArray(o.dimerSeparation).Ok?
    ensures r.Ok? ==> (&& ParseInt(o.boxSize).Some?
                       && DisplacementsArray(o.dimerSeparation).Ok?
                       && r.value == Blocks(ParseInt(o.boxSize).value as real,
                                            SoluteSupercell.PrepElementList(Some(o.firstElements)),
                                            SoluteSupercell.PrepElementList(Some(o.secondElements)),
                                            DisplacementsArray(o.dimerSeparation).value))
  {
    match ParseInt(o.boxSize)
    case None => Err("Invalid value for '-bsz': " + o.boxSize + " is not a valid integer")
    case Some(n) =>
      var b := n as real;
      match DisplacementsArray(o.dimerSeparation)
      case Err(e) => Err(e)
      case Ok(seps) =>
        var firsts := SoluteSupercell.PrepElementList(Some(o.firstElements));
        var seconds := SoluteSupercell.PrepElementList(Some(o.secondElements));
        Ok(Blocks(b, firsts, seconds, seps))
  }

  /** No dimer repeats an earlier pair in reverse: when `x` (position `p`)
      comes before `y` (position `q`) among the first elements and `y` does
      not also occur at or before `p`, no dimer with `y` first and `x` second
      is generated. */
  lemma NoReversedPair(b: real, firsts: seq<string>, seconds: seq<string>, seps: seq<real>, p: nat, q: nat, c: Candidate)
    requires p < q < |firsts|
    requires forall f :: 0 <= f < |firsts| && firsts[f] == firsts[q] ==> p < f
    requires c in Blocks(b, firsts, seconds, seps) && |c.structure.atoms| == 2
    ensures !(c.structure.atoms[0].symbol == firsts[q] && c.structure.atoms[1].symbol == firsts[p])
  {
    BlocksMembers(b, firsts, seconds, seps, c);
    var f :| 0 <= f < |firsts| && (c == Single(b, firsts[f]) || c in Seconds(b, firsts[f], seconds, seps, firsts[..f]));
    SecondsSound(b, firsts[f], seconds, seps, firsts[..f], c);
    var j, k :| 0 <= j < |seconds| && 0 <= k < |seps| && seconds[j] !in firsts[..f]
      && c == Pair(b, firsts[f], seconds[j], seps[k]);
    if c.structure.atoms[0].symbol == firsts[q] {
      assert firsts[..f][p] == firsts[p];
    }
  }
}
