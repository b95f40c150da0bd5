/**
 Solute triplets: a pure FCC supercell of the matrix element in which sites
 0, 1 and 2 take the three elements of every size-3 combination with
 replacement of the triplet elements (`itertools.combinations_with_replacement`).
 */
module Triplet {
  import opened Common
  import opened Atoms
  import SoluteSupercell

  type Candidate = SoluteSupercell.Candidate

  /** `gen_ase_supercell(lattice, shape, element)`. */
  datatype Toolkit = Toolkit(supercell: (real, seq<string>, string) -> Structure)

  datatype Options = Options(
    latticeSize: string,
    supercellShape: string,
    matrixElement: string,
    tripletElements: string)

  // ---------------------------------------------------------------------------
  // Combinations with replacement
  // ---------------------------------------------------------------------------

  /** Three positions of the element list, `i <= j <= k`. */
  datatype Triple = Triple(i: nat, j: nat, k: nat)

  predicate Ordered(t: Triple, n: nat) {
    t.i <= t.j <= t.k < n
  }

  /** Lexicographic order of position triples. */
  predicate Before(a: Triple, b: Triple) {
    a.i < b.i || (a.i == b.i && (a.j < b.j || (a.j == b.j && a.k < b.k)))
  }

  /** Strictly increasing: in particular no triple twice. */
  predicate Increasing(ts: seq<Triple>) {
    forall p, q :: 0 <= p < q < |ts| ==> Before(ts[p], ts[q])
  }

  /** The innermost loop: `(i, j, k)` for every `k` from `k0` up to `n`. */
  function Thirds(i: nat, j: nat, k0: nat, n: nat): (r: seq<Triple>)
    requires k0 <= n
    ensures |r| == n - k0
    decreases n - k0
  {
    if k0 == n then [] else [Triple(i, j, k0)] + Thirds(i, j, k0 + 1, n)
  }

  /** The `p`-th triple of the innermost loop has third position `k0 + p`. */
  lemma {:induction false} ThirdsAt(i: nat, j: nat, k0: nat, n: nat)
    requires k0 <= n
    ensures forall p :: 0 <= p < n - k0 ==> Thirds(i, j, k0, n)[p] == Triple(i, j, k0 + p)
    decreases n - k0
  {
    if k0 < n {
      ThirdsAt(i, j, k0 + 1, n);
      var r := Thirds(i, j, k0, n);
      assert r == [Triple(i, j, k0)] + Thirds(i, j, k0 + 1, n);
      forall p | 0 <= p < n - k0 ensures r[p] == Triple(i, j, k0 + p) {
        if p > 0 {
          assert r[p] == Thirds(i, j, k0 + 1, n)[p - 1];
        }
      }
    }
  }

  /** The middle loop: for every `j` from `j0` up to `n`, the thirds from `j`. */
  function Seconds(i: nat, j0: nat, n: nat): seq<Triple>
    requires j0 <= n
    decreases n - j0
  {
    if j0 == n then [] else Thirds(i, j0, j0, n) + Seconds(i, j0 + 1, n)
  }

  /** The outer loop: for every `i` from `i0` up to `n`, the seconds from `i`. */
  function Firsts(i0: nat, n: nat): seq<Triple>
    requires i0 <= n
    decreases n - i0
  {
    if i0 == n then [] else Seconds(i0, i0, n) + Firsts(i0 + 1, n)
  }

  /** The position triples of `combinations_with_replacement(range(n), 3)`. */
  function Triples(n: nat): (r: seq<Triple>)
    ensures forall t :: t in r ==> Ordered(t, n)
  {
    FirstsSound(0, n);
    Firsts(0, n)
  }

  lemma {:induction false} SecondsSound(i: nat, j0: nat, n: nat)
    requires j0 <= n
    ensures forall t :: t in Seconds(i, j0, n) ==> t.i == i && j0 <= t.j <= t.k < n
    decreases n - j0
  {
    if j0 < n {
      var head, tail := Thirds(i, j0, j0, n), Seconds(i, j0 + 1, n);
      SecondsSound(i, j0 + 1, n);
      ThirdsAt(i, j0, j0, n);
      assert Seconds(i, j0, n) == head + tail;
      forall t: Triple | t in head + tail ensures t.i == i && j0 <= t.j <= t.k < n {
        if t !in head {
          assert t in tail;
        }
      }
    }
  }

  lemma {:induction false} FirstsSound(i0: nat, n: nat)
    requires i0 <= n
    ensures forall t :: t in Firsts(i0, n) ==> i0 <= t.i && Ordered(t, n)
    decreases n - i0
  {
    if i0 < n {
      var head, tail := Seconds(i0, i0, n), Firsts(i0 + 1, n);
      SecondsSound(i0, i0, n);
      FirstsSound(i0 + 1, n);
      assert Firsts(i0, n) == head + tail;
      forall t: Triple | t in head + tail ensures i0 <= t.i && Ordered(t, n) {
        if t !in head {
          assert t in tail;
        }
      }
    }
  }

  /** Joining two increasing runs, every element of the first before every
      element of the second, is increasing. */
  lemma ConcatIncreasing(a: seq<Triple>, b: seq<Triple>)
    requires Increasing(a) && Increasing(b)
    requires forall x, y :: x in a && y in b ==> Before(x, y)
    ensures Increasing(a + b)
  {
    forall p, q | 0 <= p < q < |a + b| ensures Before((a + b)[p], (a + b)[q]) {
      if q < |a| {
        assert (a + b)[p] == a[p] && (a + b)[q] == a[q];
      } else if p >= |a| {
        assert (a + b)[p] == b[p - |a|] && (a + b)[q] == b[q - |a|];
      } else {
        assert (a + b)[p] in a && (a + b)[q] in b;
      }
    }
  }

  lemma {:induction false} SecondsIncreasing(i: nat, j0: nat, n: nat)
    requires j0 <= n
    ensures Increasing(Seconds(i, j0, n))
    decreases n - j0
  {
    if j0 < n {
      var head := Thirds(i, j0, j0, n);
      ThirdsAt(i, j0, j0, n);
      SecondsIncreasing(i, j0 + 1, n);
      SecondsSound(i, j0 + 1, n);
      forall x, y | x in head && y in Seconds(i, j0 + 1, n) ensures Before(x, y) { }
      ConcatIncreasing(head, Seconds(i, j0 + 1, n));
    }
  }

  lemma {:induction false} FirstsIncreasing(i0: nat, n: nat)
    requires i0 <= n
    ensures Increasing(Firsts(i0, n))
    decreases n - i0
  {
    if i0 < n {
      SecondsIncreasing(i0, i0, n);
      FirstsIncreasing(i0 + 1, n);
      SecondsSound(i0, i0, n);
      FirstsSound(i0 + 1, n);
      ConcatIncreasing(Seconds(i0, i0, n), Firsts(i0 + 1, n));
    }
  }

  /** The triples come in strictly increasing lexicographic order, so none
      is generated twice. */
  lemma TriplesIncreasing(n: nat)
    ensures Increasing(Triples(n))
  {
    FirstsIncreasing(0, n);
  }

  /** Position `q` of `b` is position `|a| + q` of `a + b`. */
  lemma AppendAt<T>(a: seq<T>, b: seq<T>, q: nat)
    requires q < |b|
    ensures |a| + q < |a + b| && (a + b)[|a| + q] == b[q]
  {
  }

  /** Where the middle loop from `j0` generates `t`. */
  lemma {:induction false} SecondsIndex(i: nat, j0: nat, n: nat, t: Triple) returns (p: nat)
    requires j0 <= n && t.i == i && j0 <= t.j <= t.k < n
    ensures p < |Seconds(i, j0, n)| && Seconds(i, j0, n)[p] == t
    decreases n - j0
  {
    var head, tail := Thirds(i, j0, j0, n), Seconds(i, j0 + 1, n);
    assert Seconds(i, j0, n) == head + tail;
    if t.j == j0 {
      ThirdsAt(i, j0, j0, n);
      p := t.k - j0;
    } else {
      var q := SecondsIndex(i, j0 + 1, n, t);
      p := |head| + q;
      AppendAt(head, tail, q);
    }
  }

  /** The blocks of the outer loop from `i0`: one middle loop per first position. */
  function Blocks(i0: nat, n: nat): (r: seq<seq<Triple>>)
    requires i0 <= n
  {
    seq(n - i0, d requires 0 <= d < n - i0 => Seconds(i0 + d, i0 + d, n))
  }

  /** The outer loop is the concatenation of its blocks. */
  lemma {:induction false} FirstsConcat(i0: nat, n: nat)
    requires i0 <= n
    ensures Firsts(i0, n) == Concat(Blocks(i0, n))
    decreases n - i0
  {
    if i0 < n {
      FirstsConcat(i0 + 1, n);
      var b := Blocks(i0, n);
      assert b[0] == Seconds(i0, i0, n);
      assert b[1..] == Blocks(i0 + 1, n);
    }
  }

  /** Every triple with first position `i` is generated by the middle loop for `i`. */
  lemma SecondsContains(i: nat, n: nat, t: Triple)
    requires t.i == i && i <= t.j <= t.k < n
    ensures t in Seconds(i, i, n)
  {
    var p := SecondsIndex(i, i, n, t);
  }

  /** Every ordered position triple is generated. */
  lemma TriplesComplete(n: nat, t: Triple)
    requires Ordered(t, n)
    ensures t in Triples(n)
  {
    SecondsContains(t.i, n, t);
    assert t in Blocks(0, n)[t.i];
    InConcat(Blocks(0, n), t);
    FirstsConcat(0, n);
  }

  /** `m (m + 1)`, twice the number of pairs `j <= k` among `m` positions. */
  function Pairs2(m: nat): nat {
    m * (m + 1)
  }

  /** `m (m + 1) (m + 2)`, six times the number of ordered triples among
      `m` positions. */
  function Triples6(m: nat): nat {
    m * (m + 1) * (m + 2)
  }

  lemma {:induction false} SecondsCount(i: nat, j0: nat, n: nat)
    requires j0 <= n
    ensures 2 * |Seconds(i, j0, n)| == Pairs2(n - j0)
    decreases n - j0
  {
    if j0 < n {
      SecondsCount(i, j0 + 1, n);
      assert |Seconds(i, j0, n)| == (n - j0) + |Seconds(i, j0 + 1, n)|;
      PairStep(n - j0);
    }
  }

  lemma PairStep(m: nat)
    requires m >= 1
    ensures Pairs2(m) == 2 * m + Pairs2(m - 1)
  {
  }

  lemma {:induction false} FirstsCount(i0: nat, n: nat)
    requires i0 <= n
    ensures 6 * |Firsts(i0, n)| == Triples6(n - i0)
    decreases n - i0
  {
    if i0 < n {
      SecondsCount(i0, i0, n);
      FirstsCount(i0 + 1, n);
      assert |Firsts(i0, n)| == |Seconds(i0, i0, n)| + |Firsts(i0 + 1, n)|;
      CountStep(n - i0);
    }
  }

  lemma CountStep(m: nat)
    requires m >= 1
    ensures Triples6(m) == 3 * Pairs2(m) + Triples6(m - 1)
  {
    var p := m * (m + 1);
    assert (m - 1) * m * (m + 1) == (m - 1) * p;
    assert m * (m + 1) * (m + 2) == (m + 2) * p;
  }

  /** There are `n (n + 1) (n + 2) / 6` of them. */
  lemma TriplesCount(n: nat)
    ensures 6 * |Triples(n)| == n * (n + 1) * (n + 2)
  {
    FirstsCount(0, n);
  }

  /** The element triplets: the elements at each triple of positions, in
      the order of the triples. */
  function Triplets(elements: seq<string>): (r: seq<seq<string>>)
    ensures |r| == |Triples(|elements|)|
    ensures forall p :: 0 <= p < |r| ==>
      var t := Triples(|elements|)[p];
      Ordered(t, |elements|) && r[p] == [elements[t.i], elements[t.j], elements[t.k]]
  {
    var ts := Triples(|elements|);
    assert forall p :: 0 <= p < |ts| ==> ts[p] in ts;
    seq(|ts|, p requires 0 <= p < |ts| => [elements[ts[p].i], elements[ts[p].j], elements[ts[p].k]])
  }

  // ---------------------------------------------------------------------------
  // Triplet structures
  // ---------------------------------------------------------------------------

  /** `s` with sites 0, 1 and 2 taking the three elements of `t`, in order;
      a structure of fewer than three atoms is an IndexError. */
  function Substitute(s: Structure, t: seq<string>): (r: Result<Structure>)
    requires |t| == 3
    ensures r.Ok? <==> |s.atoms| >= 3
    ensures r.Ok? ==> (&& r.value.cell == s.cell
                       && |r.value.atoms| == |s.atoms|
                       && (forall p :: 0 <= p < 3 ==> r.value.atoms[p] == Atom(t[p], s.atoms[p].position))
                       && (forall p :: 3 <= p < |s.atoms| ==> r.value.atoms[p] == s.atoms[p]))
  {
    var first :- SetSymbol(s, 0, t[0]);
    var second :- SetSymbol(first, 1, t[1]);
    SetSymbol(second, 2, t[2])
  }

  /** The extras of one triplet: a fresh copy of the shared extras and the
      triplet itself. */
  function TripletExtras(base: Extras, t: seq<string>): (e: Extras)
    ensures e.Keys == base.Keys + {"triplet"}
    ensures e["triplet"] == Texts(t)
    ensures forall k :: k in base && k != "triplet" ==> e[k] == base[k]
  {
    base["triplet" := Texts(t)]
  }

  /** The triplet loop over the pure supercell. */
  function TripletCandidates(pure: Structure, base: Extras, triplets: seq<seq<string>>): (r: Result<seq<Candidate>>)
    requires forall p :: 0 <= p < |triplets| ==> |triplets[p]| == 3
    ensures r.Ok? <==> |triplets| == 0 || |pure.atoms| >= 3
    ensures r.Ok? ==> |r.value| == |triplets|
    ensures r.Ok? ==> forall p :: 0 <= p < |triplets| ==>
      && Substitute(pure, triplets[p]) == Ok(r.value[p].structure)
      && r.value[p].extras == TripletExtras(base, triplets[p])
  {
    if |triplets| > 0 && |pure.atoms| < 3 then Err("IndexError: atom index out of range")
    else
      Ok(seq(|triplets|, p requires 0 <= p < |triplets| =>
        SoluteSupercell.Candidate(Substitute(pure, triplets[p]).value, TripletExtras(base, triplets[p]))))
  }

  /** `launch`: the lattice size, the shape, the pure supercell, then one
      structure per triplet. */
  function Launch(tk: Toolkit, o: Options): (r: Result<seq<Candidate>>)
    ensures ParseFloat(o.latticeSize).None? ==> r.Err?
    ensures |Split(o.supercellShape, ',')| != 3 ==> r.Err?
    ensures r.Ok? ==>
      var elements := SoluteSupercell.PrepElementList(Some(o.tripletElements));
      6 * |r.value| == |elements| * (|elements| + 1) * (|elements| + 2)
    ensures ParseFloat(o.latticeSize).Some? && |Split(o.supercellShape, ',')| == 3 ==>
      var a := ParseFloat(o.latticeSize).value;
      var shape := Split(o.supercellShape, ',');
      r == TripletCandidates(tk.supercell(a, shape, o.matrixElement),
                             SoluteSupercell.BaseExtras(a, shape, o.matrixElement),
                             Triplets(SoluteSupercell.PrepElementList(Some(o.tripletElements))))
    ensures r.Ok? ==> (&& ParseFloat(o.latticeSize).Some?
                       && |Split(o.supercellShape, ',')| == 3
                       && var a := ParseFloat(o.latticeSize).value;
                          var shape := Split(o.supercellShape, ',');
                          r == TripletCandidates(tk.supercell(a, shape, o.matrixElement),
                                                 SoluteSupercell.BaseExtras(a, shape, o.matrixElement),
                                                 Triplets(SoluteSupercell.PrepElementList(Some(o.tripletElements)))))
  {
    match ParseFloat(o.latticeSize)
    case None => Err("ValueError: could not convert string to float: " + o.latticeSize)
    case Some(a) =>
      var shape := Split(o.supercellShape, ',');
      if |shape| != 3 then Err("supercell_shape must be of the form Nx,Ny,Nz")
      else
        var base := SoluteSupercell.BaseExtras(a, shape, o.matrixElement);
        var pure := tk.supercell(a, shape, o.matrixElement);
        var elements := SoluteSupercell.PrepElementList(Some(o.tripletElements));
        var triplets := Triplets(elements);
        TriplesCount(|elements|);
        TripletCandidates(pure, base, triplets)
  }
}
