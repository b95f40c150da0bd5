/**
 The vacancy encoding shared by the solute-supercell generators. ase only
 accepts symbols from the periodic table, so a vacancy the user writes as
 "Vac" (any capitalisation) is carried through the structure as the symbol of
 Nobelium, "No", and turned back into "Vac" in the stored metadata. Vacancy
 sites are deleted before a structure is stored.
 */
module Vacancies {
  import opened Common
  import opened Atoms

  const VacancyInternal: string := "No"
  const VacancyUser: string := "Vac"

  /** A comma field the user meant as a vacancy. */
  predicate IsVacancySpelling(field: string) {
    Lower(field) == Lower(VacancyUser)
  }

  /** The symbol a comma field stands for inside a structure. */
  function InternalSymbol(field: string): string {
    if IsVacancySpelling(field) then VacancyInternal else field
  }

  /** The metadata value of a symbol: the internal vacancy symbol reads "Vac". */
  function UserSymbol(sym: string): string {
    if sym == VacancyInternal then VacancyUser else sym
  }

  /** Every comma field, in order, with vacancy spellings made internal. */
  function InternalSymbols(fields: seq<string>): (r: seq<string>)
    ensures |r| == |fields|
    ensures forall i :: 0 <= i < |fields| ==> r[i] == InternalSymbol(fields[i])
  {
    seq(|fields|, i requires 0 <= i < |fields| => InternalSymbol(fields[i]))
  }

  /** Names that are not vacancy spellings pass through unchanged. */
  lemma InternalSymbolsOfNames(fields: seq<string>)
    requires forall i :: 0 <= i < |fields| ==> !IsVacancySpelling(fields[i])
    ensures InternalSymbols(fields) == fields
  {
  }

  /** The encoding round trip: a field written into the structure and read back
      into the metadata is "Vac" for any vacancy spelling (and for a literal
      "No"), and the field itself otherwise. */
  lemma SymbolRoundTrip(field: string)
    ensures UserSymbol(InternalSymbol(field))
      == if IsVacancySpelling(field) || field == VacancyInternal then VacancyUser else field
  {
  }

  /** `value == "No"` is replaced by "Vac"; every other value is kept. */
  function UserValue(v: Value): (r: Value)
    ensures r != Text(VacancyInternal)
    ensures v == Text(VacancyInternal) ==> r == Text(VacancyUser)
    ensures v != Text(VacancyInternal) ==> r == v
  {
    if v == Text(VacancyInternal) then Text(VacancyUser) else v
  }

  predicate IsVacancySite(a: Atom) {
    a.symbol == VacancyInternal || a.symbol == VacancyUser
  }

  function VacancyCount(atoms: seq<Atom>): nat
    decreases |atoms|
  {
    if |atoms| == 0 then 0
    else (if IsVacancySite(atoms[0]) then 1 else 0) + VacancyCount(atoms[1..])
  }

  /** Delete every site whose symbol is "No" or "Vac", keeping the order of
      the others. */
  function RemoveVacancies(atoms: seq<Atom>): (r: seq<Atom>)
    ensures forall a :: a in r <==> a in atoms && !IsVacancySite(a)
    ensures |r| + VacancyCount(atoms) == |atoms|
    decreases |atoms|
  {
    if |atoms| == 0 then []
    else
      var rest := RemoveVacancies(atoms[1..]);
      assert forall a :: a in atoms <==> a == atoms[0] || a in atoms[1..];
      if IsVacancySite(atoms[0]) then rest else [atoms[0]] + rest
  }

  /** The deletion keeps the order of the remaining sites: it works site by
      site, so deleting from two halves and joining them is the same as
      deleting from the whole. */
  lemma {:induction false} RemoveVacanciesAppend(a: seq<Atom>, b: seq<Atom>)
    ensures RemoveVacancies(a + b) == RemoveVacancies(a) + RemoveVacancies(b)
    decreases |a|
  {
    if |a| > 0 {
      var head := if IsVacancySite(a[0]) then [] else [a[0]];
      assert (a + b)[0] == a[0];
      assert (a + b)[1..] == a[1..] + b;
      assert RemoveVacancies(a + b) == head + RemoveVacancies(a[1..] + b);
      assert RemoveVacancies(a) == head + RemoveVacancies(a[1..]);
      RemoveVacanciesAppend(a[1..], b);
    } else {
      assert a + b == b;
    }
  }

  /** A single site is kept exactly when it is not a vacancy. */
  lemma RemoveVacanciesOfOne(x: Atom)
    ensures RemoveVacancies([x]) == if IsVacancySite(x) then [] else [x]
  {
    assert [x][1..] == [];
  }

  /** A structure without vacancy sites is stored as it is. */
  lemma {:induction false} RemoveVacanciesKeepsClean(atoms: seq<Atom>)
    requires forall i :: 0 <= i < |atoms| ==> !IsVacancySite(atoms[i])
    ensures RemoveVacancies(atoms) == atoms
    decreases |atoms|
  {
    if |atoms| > 0 {
      RemoveVacanciesKeepsClean(atoms[1..]);
      assert [atoms[0]] + atoms[1..] == atoms;
    }
  }

  /** Deleting vacancies twice deletes nothing more. */
  lemma RemoveVacanciesIdempotent(atoms: seq<Atom>)
    ensures RemoveVacancies(RemoveVacancies(atoms)) == RemoveVacancies(atoms)
  {
    var r := RemoveVacancies(atoms);
    forall i | 0 <= i < |r|
      ensures !IsVacancySite(r[i])
    {
      assert r[i] in r;
    }
    RemoveVacanciesKeepsClean(r);
  }
}
