/**
 Atomistic structures as the scripts see them through ase: a cell (three lattice
 vectors) and an ordered list of atoms, each a chemical symbol and a Cartesian
 position. Node "extras" are string-keyed maps of simple values.
 */
module Atoms {
  import opened Common

  type Vec = seq<real>

  datatype Atom = Atom(symbol: string, position: Vec)

  datatype Structure = Structure(cell: seq<Vec>, atoms: seq<Atom>)

  /** The values stored under extras keys and in Quantum ESPRESSO namelists. */
  datatype Value =
    | Text(text: string)
    | Texts(items: seq<string>)
    | Real(r: real)
    | Reals(values: seq<real>)
    | Int(i: int)
    | Bool(b: bool)

  type Extras = map<string, Value>

  function Symbols(atoms: seq<Atom>): (r: seq<string>)
    ensures |r| == |atoms|
    ensures forall i :: 0 <= i < |atoms| ==> r[i] == atoms[i].symbol
  {
    seq(|atoms|, i requires 0 <= i < |atoms| => atoms[i].symbol)
  }

  /** `structure[i].symbol = sym`; an index past the end raises IndexError. */
  function SetSymbol(s: Structure, i: nat, sym: string): (r: Result<Structure>)
    ensures r.Ok? <==> i < |s.atoms|
    ensures r.Ok? ==> OnlySiteChanged(s, r.value, i, sym)
  {
    if i < |s.atoms| then
      Ok(Structure(s.cell, s.atoms[i := Atom(sym, s.atoms[i].position)]))
    else Err("IndexError: atom index out of range")
  }

  /** `t` is `s` with exactly site `i` re-labelled `sym`: same cell, same
      positions, every other site untouched. */
  predicate OnlySiteChanged(s: Structure, t: Structure, i: nat, sym: string) {
    && i < |s.atoms|
    && t.cell == s.cell
    && |t.atoms| == |s.atoms|
    && t.atoms[i] == Atom(sym, s.atoms[i].position)
    && (forall j :: 0 <= j < |s.atoms| && j != i ==> t.atoms[j] == s.atoms[j])
  }
}
