/**
 The value lists the structure generators read from the command line
 (`get_displacements_array`): `start,stop,step` is numpy's `arange`, any
 other text a single number. Also the cell edits the generators make: a
 lattice row moved by multiples of others, one cell entry increased.
 */
module Displacements {
  import opened Common
  import opened Atoms

  /** `math.ceil` on a real. */
  function Ceil(x: real): (n: int)
    ensures n as real - 1.0 < x <= n as real
  {
    -((-x).Floor)
  }

  /** `np.arange(start, stop, step)`: `start + i * step` for every `i` that
      keeps the value on the near side of `stop`; a zero step divides by
      zero. */
  function Arange(start: real, stop: real, step: real): (r: Result<seq<real>>)
    ensures r.Ok? <==> step != 0.0
    ensures r.Ok? ==> forall i :: 0 <= i < |r.value| ==> r.value[i] == start + i as real * step
  {
    if step == 0.0 then Err("ZeroDivisionError: arange step is zero")
    else
      var n := Max(0, Ceil((stop - start) / step));
      Ok(seq(n, i requires 0 <= i < n => start + i as real * step))
  }

  /** With a positive step, arange lists exactly the progression from `start`
      below `stop`: every element is in `[start, stop)`, and one more step
      would reach `stop`. */
  lemma ArangeAscending(start: real, stop: real, step: real)
    requires step > 0.0
    ensures var r := Arange(start, stop, step).value;
      && (forall i :: 0 <= i < |r| ==> start <= r[i] < stop)
      && start + |r| as real * step >= stop
  {
    var r := Arange(start, stop, step).value;
    var q := (stop - start) / step;
    assert q * step == stop - start;
    forall i | 0 <= i < |r| ensures start <= r[i] < stop {
      assert (i as real) < q;
      ProductBelow(i as real, q, step);
    }
    if |r| > 0 {
      assert q <= |r| as real;
      ProductBelowOrEqual(q, |r| as real, step);
    } else {
      assert q <= 0.0;
      ProductBelowOrEqual(q, 0.0, step);
    }
  }

  /** With a negative step, arange counts down from `start` to just above
      `stop`. */
  lemma ArangeDescending(start: real, stop: real, step: real)
    requires step < 0.0
    ensures var r := Arange(start, stop, step).value;
      && (forall i :: 0 <= i < |r| ==> stop < r[i] <= start)
      && start + |r| as real * step <= stop
  {
    var r := Arange(start, stop, step).value;
    var up := Arange(-start, -stop, -step).value;
    assert |up| == |r| by {
      assert (-stop - -start) / -step == (stop - start) / step;
    }
    ArangeAscending(-start, -stop, -step);
    forall i | 0 <= i < |r| ensures stop < r[i] <= start {
      assert r[i] == -up[i];
    }
  }

  lemma ProductBelow(a: real, b: real, c: real)
    requires a < b && c > 0.0
    ensures a * c < b * c
  {
  }

  lemma ProductBelowOrEqual(a: real, b: real, c: real)
    requires a <= b && c > 0.0
    ensures a * c <= b * c
  {
  }

  /** `get_displacements_array`: three comma-separated numbers are an arange,
      anything else one number; text that is not a number is a ValueError. */
  function DisplacementsArray(s: string): (r: Result<seq<real>>)
    ensures |Split(s, ',')| != 3 ==> (r.Ok? <==> ParseFloat(s).Some?)
    ensures |Split(s, ',')| != 3 && r.Ok? ==> r.value == [ParseFloat(s).value]
    ensures |Split(s, ',')| == 3 ==> var fields := Split(s, ',');
      if ParseFloat(fields[0]).Some? && ParseFloat(fields[1]).Some? && ParseFloat(fields[2]).Some?
      then r == Arange(ParseFloat(fields[0]).value, ParseFloat(fields[1]).value, ParseFloat(fields[2]).value)
      else r.Err?
  {
    var fields := Split(s, ',');
    if |fields| == 3 then
      match (ParseFloat(fields[0]), ParseFloat(fields[1]), ParseFloat(fields[2]))
      case (Some(lo), Some(hi), Some(inc)) => Arange(lo, hi, inc)
      case _ => Err("ValueError: could not convert string to float")
    else
      match ParseFloat(s)
      case Some(v) => Ok([v])
      case None => Err("ValueError: could not convert string to float: " + s)
  }

  /** Three comma-free fields joined by commas split back into themselves. */
  lemma SplitThree(lo: string, hi: string, inc: string)
    requires ',' !in lo && ',' !in hi && ',' !in inc
    ensures Split(lo + "," + hi + "," + inc, ',') == [lo, hi, inc]
  {
    SplitAtSep(lo, hi + "," + inc, ',');
    SplitAtSep(hi, inc, ',');
    SplitNoSep(inc, ',');
    assert lo + "," + hi + "," + inc == lo + [','] + (hi + [','] + inc);
  }

  /** The three-field form reads back the range it was written from. */
  lemma DisplacementsOfRange(lo: string, hi: string, inc: string)
    requires ',' !in lo && ',' !in hi && ',' !in inc
    requires ParseFloat(lo).Some? && ParseFloat(hi).Some? && ParseFloat(inc).Some?
    ensures DisplacementsArray(lo + "," + hi + "," + inc)
      == Arange(ParseFloat(lo).value, ParseFloat(hi).value, ParseFloat(inc).value)
  {
    SplitThree(lo, hi, inc);
  }

  // ---------------------------------------------------------------------------
  // Cell edits
  // ---------------------------------------------------------------------------

  /** Component `i` of a vector, zero past its end. */
  function Coord(v: Vec, i: nat): real {
    if i < |v| then v[i] else 0.0
  }

  /** `v + c * u`, with the length of `v`. */
  function AddScaled(v: Vec, u: Vec, c: real): (r: Vec)
    ensures |r| == |v|
    ensures forall i :: 0 <= i < |v| ==> r[i] == v[i] + c * Coord(u, i)
  {
    seq(|v|, i requires 0 <= i < |v| => v[i] + c * Coord(u, i))
  }

  /** The tilted-cell shift: the third lattice row moved by `dx * a1 + dy * a2`;
      a cell without a third row is an IndexError. */
  function Tilt(s: Structure, a1: Vec, a2: Vec, dx: real, dy: real): (r: Result<Structure>)
    ensures r.Ok? <==> |s.cell| >= 3
    ensures r.Ok? ==> (&& r.value.atoms == s.atoms
                       && |r.value.cell| == |s.cell|
                       && (forall k :: 0 <= k < |s.cell| && k != 2 ==> r.value.cell[k] == s.cell[k])
                       && |r.value.cell[2]| == |s.cell[2]|
                       && (forall i :: 0 <= i < |s.cell[2]| ==>
                             r.value.cell[2][i] == s.cell[2][i] + dx * Coord(a1, i) + dy * Coord(a2, i)))
  {
    if |s.cell| < 3 then Err("IndexError: cell has no third row")
    else Ok(s.(cell := s.cell[2 := AddScaled(AddScaled(s.cell[2], a1, dx), a2, dy)]))
  }

  /** Tilting by nothing changes nothing. */
  lemma TiltByZero(s: Structure, a1: Vec, a2: Vec)
    requires |s.cell| >= 3
    ensures Tilt(s, a1, a2, 0.0, 0.0) == Ok(s)
  {
    var t := Tilt(s, a1, a2, 0.0, 0.0).value;
    assert t.cell[2] == s.cell[2];
    assert t.cell == s.cell;
  }

  /** `cell[2][2] += v`: the height of the cell raised by `v`. */
  function Heighten(s: Structure, v: real): (r: Result<Structure>)
    ensures r.Ok? <==> |s.cell| >= 3 && |s.cell[2]| >= 3
    ensures r.Ok? ==> (&& r.value.atoms == s.atoms
                       && |r.value.cell| == |s.cell|
                       && (forall k :: 0 <= k < |s.cell| && k != 2 ==> r.value.cell[k] == s.cell[k])
                       && r.value.cell[2] == s.cell[2][2 := s.cell[2][2] + v])
  {
    if |s.cell| < 3 || |s.cell[2]| < 3 then Err("IndexError: cell has no third row")
    else Ok(s.(cell := s.cell[2 := s.cell[2][2 := s.cell[2][2] + v]]))
  }

  /** `u / c` for the lattice vector of a single repeat. */
  function Divide(u: Vec, c: real): (r: Vec)
    requires c != 0.0
    ensures |r| == |u|
    ensures forall i :: 0 <= i < |u| ==> r[i] * c == u[i]
  {
    seq(|u|, i requires 0 <= i < |u| => u[i] / c)
  }
}
