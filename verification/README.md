# aiida-alloy structure generators, launchers and exporter, in Dafny

This project models the core of aiida-alloy, a set of scripts that build
databases of first-principles alloy calculations on top of AiiDA. There are
three groups of scripts:

- **Structure generators.** The solute-supercell, antisite, dimer,
  triplet, random-supercell, stacking-fault and surface generators, the
  legacy supercell generator, and the OQMD dump loader. Each one
  enumerates candidate structures with their metadata ("extras") and
  stores them into a structure group. Duplicates are skipped, and a dry
  run stores nothing.
- **Workflow launchers.** The current Quantum ESPRESSO launcher, the
  legacy launcher and the hard-coded SCF launcher. They compute
  machine counts, band counts and job settings, and submit one
  workflow per structure. They support a dry run and a debug mode.
- **`ElasticWorkChain` and the runner exporter.** The work chain relaxes
  a structure, deforms it, relaxes every deformation and fits an elastic
  tensor. The exporter turns relaxation trajectories into runner-format
  training data.

The model has these parts:

- **Data.** Structures, atoms and extras values are datatypes.
- **Operations.** Every operation is a pure function over `Result`/`Option`.
  The error paths of the scripts are `Err` values carrying their messages;
  the few that are not modelled are listed under "Left out".
- **Library calls.** Calls into ase, pymatgen, spglib, pandas, numpy and
  AiiDA are function-typed fields of a `Toolkit`/`Library` value passed in.
- **Environment.** The database, the sub-process results and the random
  draws are parameters.

Each generator's enumeration is written once, as the ordered list of
candidates it produces. Storage is then a fold over that list.

Modules (one file each):

| module | file | models |
|---|---|---|
| `Common` | common.dfy | Result/Option, Python string helpers (split, join, lower, strip, words), decimal parsing, truncating division |
| `Atoms` | atoms.dfy | atoms, structures, extras values, relabelling a site |
| `Vacancies` | vacancies.dfy | the vacancy convention shared by the generators ("No" inside a structure, "Vac" in metadata) |
| `SoluteSupercell` | solute_supercell.dfy | aiida_create_solutesupercell_structures.py |
| `LegacySupercell` | legacy_supercell.dfy | generate_supercell_structures.py |
| `Antisite` | antisite.dfy | aiida_create_antisite_structures.py |
| `Dimer` | dimer.dfy | aiida_create_dimer_structures.py |
| `Triplet` | triplet.dfy | aiida_create_triplet_structures.py |
| `RandomSupercell` | random_supercell.dfy | aiida_create_randomsupercell_structures.py |
| `StackingFault` | stacking_fault.dfy | aiida_create_stackingfault_structures.py |
| `Surface` | surface.dfy | aiida_create_surface_structures.py |
| `Displacements` | displacements.dfy | numpy `arange`/`ceil` and the fault displacement arithmetic |
| `OqmdLoad` | oqmd_load.dfy | aiida_load_oqmd_dump.py |
| `RunnerExport` | runner_export.dfy | aiida_export_group_to_runner.py |
| `LaunchCommon` | launch_common.dfy | the helpers the three launchers share (valence parsing, band counts, rounding, machine counts) |
| `Launcher` | launcher.dfy | aiida_launch_workflow_alalloy.py |
| `LegacyLauncher` | legacy_launcher.dfy | launch_workflow_alalloy.py |
| `ScfLauncher` | scf_launcher.dfy | launch_workflow_alalloy_scf_hardcoded.py |
| `Tensors` | tensors.dfy | the strain and tensor algebra `ElasticWorkChain` relies on |
| `ElasticWorkChain` | elastic_workchain.dfy | aiida_alloy/workflows/ElasticWorkChain.py |

## Model

| member | source | states |
|---|---|---|
| Vacancies.InternalSymbols | aiida_create_solutesupercell_structures.py:23-25 | every comma field is kept in order; a field spelling "vac" in any case becomes the internal symbol "No" |
| Vacancies.InternalSymbolsOfNames | aiida_create_solutesupercell_structures.py:24-25 | a list without vacancy spellings passes through unchanged |
| Vacancies.SymbolRoundTrip | aiida_create_solutesupercell_structures.py:18-25 | a field written into a structure and read back into metadata is the field itself, except that a vacancy spelling reads back as "Vac" |
| Vacancies.UserValue | aiida_create_solutesupercell_structures.py:127-128 | the internal vacancy symbol "No" is stored as "Vac", so a stored value is never "No"; every other value is kept as it is |
| Vacancies.RemoveVacancies | aiida_create_solutesupercell_structures.py:135-138 | the kept sites are exactly the sites whose symbol is neither "No" nor "Vac", and the number deleted is the vacancy count; together with RemoveVacanciesAppend and RemoveVacanciesOfOne, the kept sites stay in their original order |
| Vacancies.RemoveVacanciesKeepsClean | aiida_create_solutesupercell_structures.py:135-138 | a structure without vacancy sites is stored unchanged |
| Vacancies.RemoveVacanciesIdempotent | aiida_create_solutesupercell_structures.py:135-138 | deleting the vacancies a second time deletes nothing more |
| Vacancies.RemoveVacanciesAppend | aiida_create_solutesupercell_structures.py:135-138 | deleting the vacancies of two joined site lists is the same as deleting them from each list and joining the results |
| Vacancies.RemoveVacanciesOfOne | aiida_create_solutesupercell_structures.py:135-138 | a single site is deleted exactly when it is a vacancy |
| SoluteSupercell.PrepElementList | aiida_create_solutesupercell_structures.py:20-26 | a missing or empty argument gives no elements; otherwise one element per comma field, with vacancy spellings made internal |
| SoluteSupercell.PrepElementListRoundTrip | aiida_create_solutesupercell_structures.py:20-26 | for a non-empty argument without vacancy spellings, joining the list with commas gives back the argument |
| SoluteSupercell.PrepElementListOfJoin | aiida_create_solutesupercell_structures.py:20-26 | a comma-free element list without vacancy spellings, joined with commas and parsed again, is the same list |
| SoluteSupercell.JoinIsNotEmpty | aiida_create_solutesupercell_structures.py:21 | a list with two elements, or with one non-empty element, joins to a non-empty argument, so it is not taken for a missing one |
| SoluteSupercell.ConvertExtras | aiida_create_solutesupercell_structures.py:127-133 | the conversion fails exactly when `matrix_elements` holds a value that cannot be iterated. Otherwise it keeps the keys and maps "No" to "Vac" in every other value. A list of `matrix_elements` becomes the list of its items, each mapped from "No" to "Vac". A single text becomes the list of its characters, taken after that mapping. No item of the result is "No" |
| SoluteSupercell.ConvertedHasNoInternalSymbol | aiida_create_solutesupercell_structures.py:127-133 | no converted extras value is the internal vacancy symbol |
| SoluteSupercell.ConvertExtrasIdempotent | aiida_create_solutesupercell_structures.py:127-133 | converting already converted extras changes nothing |
| SoluteSupercell.AlreadyInGroup | aiida_create_solutesupercell_structures.py:104-119 | true exactly when some cached structure has the same chemical formula and a close cell and close positions |
| SoluteSupercell.PrepareForStorage | aiida_create_solutesupercell_structures.py:123-138 | the structure that is checked and stored keeps the cell of the sorted structure. Its sites are exactly the non-vacancy sites of the sorted structure, so it has no vacancy site, and the number of sites removed is the vacancy count |
| SoluteSupercell.Store | aiida_create_solutesupercell_structures.py:97-163 | storing fails only in the extras conversion. The cache is loaded from the group whenever it is empty before a check, so it is reloaded for as long as the group is empty, and it is never loaded on a dry run. A node is stored exactly when this is not a dry run and no equal structure is cached. A stored node is appended to the group with the converted extras plus `num_atoms` and `chem_formula`. Otherwise the group is unchanged |
| SoluteSupercell.CacheLoadedOnce | aiida_create_solutesupercell_structures.py:99-102 | once the cache holds a structure it never changes, so structures stored later in the same run are not seen by the duplicate check |
| SoluteSupercell.NoDuplicateStored | aiida_create_solutesupercell_structures.py:99-144 | into a group that starts empty, storing the same candidate twice in a row stores it once: the first check loads an empty cache, so the second reloads the group and finds the stored structure (its cell and positions compare close to themselves) |
| SoluteSupercell.StoreAll | aiida_create_solutesupercell_structures.py:237-273 | storing a candidate list only appends to the group, at most one node per candidate; a dry run appends nothing |
| SoluteSupercell.Shells | aiida_create_solutesupercell_structures.py:260-278 | the shells visited are consecutive from the start shell. A shell is visited exactly when it lies in the table and no earlier shell met the index or distance cut-off |
| SoluteSupercell.PairsFrom | aiida_create_solutesupercell_structures.py:252-278 | a (second solute, shell) pair is generated exactly when that second solute was not an earlier first solute and the shell is visited |
| SoluteSupercell.PairEnumeration | aiida_create_solutesupercell_structures.py:252-280 | a pair is generated exactly when single-solute-only is off, the second solute is not an earlier first solute, and the shell is between 1 and the table size and no earlier shell from 1 on met a cut-off |
| SoluteSupercell.PairCandidates | aiida_create_solutesupercell_structures.py:260-273 | the enumeration succeeds exactly when the site of every pair's shell exists. It yields one candidate per pair; each differs from the single-solute cell only at the shell's site, which carries the second solute, and the extras record element, index, shell and distance |
| SoluteSupercell.Single | aiida_create_solutesupercell_structures.py:244-249 | the single-solute cell exists exactly when the pure cell has a site. It differs from the pure cell only at site 0, which carries the first solute, and its extras are the base extras with the `sol1_*` entries |
| SoluteSupercell.FirstBlock | aiida_create_solutesupercell_structures.py:242-273 | a first solute's block succeeds exactly when its single-solute cell exists and the enumeration over its pairs succeeds. It is that single-solute cell (site 0 relabelled, `sol1_*` extras), followed by the pair candidates of the enumerated pairs, in order |
| SoluteSupercell.LaunchRejects | aiida_create_solutesupercell_structures.py:206-219 | a lattice size that is not a number is a ValueError first, then a shape without exactly three fields is rejected, then the matrix element among the first solutes, then the matrix element among the second solutes, each with its own message |
| SoluteSupercell.BlocksCount | aiida_create_solutesupercell_structures.py:242-280 | the first-solute blocks hold one single-solute cell per first solute plus one cell per enumerated pair |
| SoluteSupercell.Launch | aiida_create_solutesupercell_structures.py:206-280 | the four input errors are reported in the source's order: the lattice size, the shape, then the matrix element among the solutes. After them, the run succeeds exactly when the blocks of all first solutes succeed, and then yields the pure cell with its base extras, followed by those blocks |
| SoluteSupercell.LaunchCount | aiida_create_solutesupercell_structures.py:228-280 | a successful run generates the pure cell first, with the base extras, then 1 + number of first solutes + number of pairs candidates in total |
| LegacySupercell.PrepElementList | generate_supercell_structures.py:69-73 | one element per comma field, so an empty argument is one empty element; an element is the internal vacancy symbol exactly when its field spells "vac" or already is "No" |
| LegacySupercell.ConvertExtras | generate_supercell_structures.py:78-80 | keeps the keys; every value "No" becomes "Vac", so none is "No" afterwards, and every other value is unchanged |
| LegacySupercell.Store | generate_supercell_structures.py:75-102 | a dry run leaves the group alone. Otherwise exactly one node is appended, with no duplicate check: the sorted structure without vacancies, with its converted extras, `num_atoms`, and a `chem_formula` that is the formula of the stored structure |
| LegacySupercell.StoreAll | generate_supercell_structures.py:150-184 | a dry run stores nothing; otherwise every candidate is appended, none suppressed, after the existing group |
| LegacySupercell.Characters | generate_supercell_structures.py:186 | `list += string` adds exactly the one-character strings of the string's characters |
| LegacySupercell.SkipListAsWritten | generate_supercell_structures.py:157-186 | after some first solutes, the skip list holds exactly the single characters of their names, not the names |
| LegacySupercell.PairsFrom | generate_supercell_structures.py:168-184 | a (second solute, shell) pair is written exactly when the second solute is not in the skip list and the shell is from 1 to the end of the table |
| LegacySupercell.PairEnumeration | generate_supercell_structures.py:115-120 | with the skip list the help text describes, a pair is written exactly when the second solute is not an earlier first solute, at every shell from 1 on |
| LegacySupercell.PairEnumerationAsWritten | generate_supercell_structures.py:168-186 | as written, a second solute is skipped exactly when it is a single character occurring in an earlier first solute's name |
| LegacySupercell.AsWrittenRepeatsReversedPair | generate_supercell_structures.py:186 | with first and second solutes Mg,Si, the code still writes the Si-Mg pair the help text says it skips; the corrected enumeration does not |
| LegacySupercell.AsWrittenDropsSingleLetterElement | generate_supercell_structures.py:186 | with first solutes Cu,Al and second solute C, the code skips carbon after aluminium because "C" is a character of "Cu"; the corrected enumeration keeps it |
| LegacySupercell.PairCandidates | generate_supercell_structures.py:173-184 | one candidate per pair; each differs from the single-solute cell only at the shell's site, which carries the second solute; the extras record element, index and distance |
| LegacySupercell.FirstBlock | generate_supercell_structures.py:158-184 | a first solute's block succeeds exactly when site 0 and the site of every enumerated shell exist; it is the single-solute cell (site 0 relabelled, `sol1_*` extras) followed, pair by pair, by that cell with the shell's site relabelled to the second solute and the pair's extras. The pairs are those of the corrected skip list (Findings row 1) |
| LegacySupercell.Launch | generate_supercell_structures.py:132-186 | a lattice size that is not a number or a shape without three fields is rejected. Otherwise the run succeeds exactly when the first-solute blocks over the parsed lists succeed. A successful run yields the pure cell with its base extras, followed by those blocks, at least one cell per first solute. The skip list is the corrected one (Findings row 1) |
| LegacySupercell.BlocksAtLeast | generate_supercell_structures.py:158-166 | each first solute contributes at least its single-solute cell |
| Antisite.FirstMinimumUnique | aiida_create_antisite_structures.py:22-30 | the first position of a least norm is unique, so the scan's answer is determined |
| Antisite.FirstMinimum | aiida_create_antisite_structures.py:22-30 | the index returned holds a least norm and no earlier index holds one as small |
| Antisite.SmallestCellIndex | aiida_create_antisite_structures.py:22-30 | the scan with a strict `<` returns the first position of the least lattice-vector norm |
| Antisite.Scaled | aiida_create_antisite_structures.py:39-41 | repeating a cell `r` times along an axis makes that lattice vector `r` times as long |
| Antisite.Grow | aiida_create_antisite_structures.py:32-42 | the search ends with at least the target number of atoms, only ever adds repeats, and does nothing when the structure is already big enough |
| Antisite.GenerateSupercell | aiida_create_antisite_structures.py:32-42 | the `while` loop, one repeat at a time along the shortest lattice vector of the current supercell, ends with the repeats of the search from one cell, reaching the target size |
| Antisite.GrowStopsAtTarget | aiida_create_antisite_structures.py:35-37 | a structure that already has the target size is not repeated |
| Antisite.CubicGrowsEvenly | aiida_create_antisite_structures.py:32-42 | for a cell with three lattice vectors of equal length, the repeats grow x, y, z in turn and never differ by more than one |
| Antisite.CubicStep | aiida_create_antisite_structures.py:39-40 | in such a cell the first axis with the fewest repeats is the one repeated next |
| Antisite.UniqueSites | aiida_create_antisite_structures.py:44-59 | one unique site per symmetry class, in class order, with the class's first site index and Wyckoff symbol |
| Antisite.LabelCountsOccurrences | aiida_create_antisite_structures.py:51-55 | a class's label is its species followed by the number of classes of that species up to and including it, which is at least 1 |
| Antisite.OccurrencesIncrease | aiida_create_antisite_structures.py:52 | a later class of the same species gets a higher count |
| Antisite.FirstDigitOfLabel | aiida_create_antisite_structures.py:55 | in a label the number starts right after the digit-free species |
| Antisite.LabelSplits | aiida_create_antisite_structures.py:55 | a label splits in only one way into a digit-free species and a number |
| Antisite.LabelsDistinct | aiida_create_antisite_structures.py:51-55 | for digit-free species names, no two unique sites get the same `element_index` label |
| Antisite.SiteExtras | aiida_create_antisite_structures.py:124-127 | the extras of a site record its index, its label and its Wyckoff symbol |
| Antisite.Substitutions | aiida_create_antisite_structures.py:129-137 | at most one candidate per solute element; every candidate puts an element on the site; every element different from the site's current one yields its candidate |
| Antisite.AntisiteChangesOneSite | aiida_create_antisite_structures.py:130-135 | each candidate differs from the input at exactly that site, now holding a different element from the solute list |
| Antisite.AllSubstitutions | aiida_create_antisite_structures.py:122-137 | every candidate of the site loop belongs to one unique site's element loop |
| Antisite.AllSubstitutionsComplete | aiida_create_antisite_structures.py:122-137 | every candidate of every unique site's element loop is a candidate of the site loop |
| Antisite.SiteLoop | aiida_create_antisite_structures.py:122-137 | the site loop fails (an IndexError) exactly when there is a solute element and some unique-site index is past the end of the structure; with no solute elements it yields nothing |
| Antisite.SiteLoopChangesOneSite | aiida_create_antisite_structures.py:122-137 | every candidate changes one site of the structure to a different solute element |
| Antisite.Supercell | aiida_create_antisite_structures.py:116-121 | without a target the node's structure is used; a target that is not an integer is an error; a structure that already has the target size is used as it is; otherwise it is repeated by the supercell search from one cell |
| Antisite.NodeExtras | aiida_create_antisite_structures.py:107-118 | the extras record the node's uuid, and they hold `target_supercellsize` exactly when a target is given |
| Antisite.NodeCandidates | aiida_create_antisite_structures.py:107-137 | a node fails when its supercell does; otherwise every candidate changes one site of its (grown) structure to a different solute element |
| Antisite.InputNodes | aiida_create_antisite_structures.py:96-102 | the input group wins; else the listed nodes are loaded in order; with neither the script stops with its message |
| Antisite.LoadAll | aiida_create_antisite_structures.py:99-100 | loading succeeds exactly when every id loads, and then yields one node per id, in order |
| Antisite.NodeResults | aiida_create_antisite_structures.py:106-137 | one loop-body result per input node, in node order |
| Antisite.NodeLoop | aiida_create_antisite_structures.py:106-137 | the node loop succeeds exactly when every node's loop body does |
| Antisite.NodeLoopCandidates | aiida_create_antisite_structures.py:106-137 | a candidate is produced exactly when some node's loop body produces it |
| Antisite.NodeLoopChangesOneSite | aiida_create_antisite_structures.py:106-137 | every candidate re-labels one site of some input node's (grown) structure to a different solute element |
| Antisite.Launch | aiida_create_antisite_structures.py:96-137 | a failure to find the input nodes stops the script; otherwise the result is the node loop over those nodes with the parsed solute list |
| Dimer.Single | aiida_create_dimer_structures.py:69-78 | the lone first atom sits at the origin of the cubic box, stored with empty second-element and distance extras |
| Dimer.Pair | aiida_create_dimer_structures.py:80-91 | a dimer has two atoms: the first element at the origin and the second at the separation along x, with both recorded in the extras |
| Dimer.Separations | aiida_create_dimer_structures.py:87-91 | one dimer per separation, in order |
| Dimer.SecondBlockMembers | aiida_create_dimer_structures.py:81-91 | one pass of the second-element loop yields exactly the dimers of the pair at every separation, or nothing when the second element was an earlier first element |
| Dimer.SecondsSound | aiida_create_dimer_structures.py:81-91 | every dimer of the second-element loop pairs the first element with a second element that is not skipped, at one of the separations |
| Dimer.SecondsComplete | aiida_create_dimer_structures.py:81-91 | every second element that is not skipped is paired at every separation |
| Dimer.BlocksMembers | aiida_create_dimer_structures.py:67-93 | the first-element loop yields exactly each first element's lone atom and its dimers with second elements that were not earlier first elements |
| Dimer.BlocksComplete | aiida_create_dimer_structures.py:67-93 | every lone atom, and every permitted dimer at every separation, is generated |
| Dimer.Launch | aiida_create_dimer_structures.py:58-93 | the run succeeds exactly when the box size is an integer (the option's type follows its integer default) and the separation parses. Then the result is the first-element loop over the parsed lists and separations |
| Dimer.NoReversedPair | aiida_create_dimer_structures.py:36-37 | if x comes before y among the first elements, and y does not also occur at or before x's position, no dimer with y first and x second is generated, as the help text promises |
| Triplet.Thirds | aiida_create_triplet_structures.py:58-59 | the innermost loop of `combinations_with_replacement` yields one triple per third position from its start to the end |
| Triplet.ThirdsAt | aiida_create_triplet_structures.py:58-59 | the p-th triple of the innermost loop has third position start + p |
| Triplet.Triples | aiida_create_triplet_structures.py:58-59 | every generated position triple is ordered, i <= j <= k < n |
| Triplet.SecondsSound | aiida_create_triplet_structures.py:58-59 | the middle loop for i yields only triples with first position i and ordered later positions |
| Triplet.FirstsSound | aiida_create_triplet_structures.py:58-59 | the outer loop yields only ordered triples |
| Triplet.SecondsIncreasing | aiida_create_triplet_structures.py:58-59 | the middle loop yields its triples in strictly increasing lexicographic order |
| Triplet.FirstsIncreasing | aiida_create_triplet_structures.py:58-59 | the outer loop yields its triples in strictly increasing lexicographic order |
| Triplet.TriplesIncreasing | aiida_create_triplet_structures.py:58-59 | the triples come in strictly increasing lexicographic order, so none is generated twice |
| Triplet.SecondsIndex | aiida_create_triplet_structures.py:58-59 | every triple with the middle loop's first position and later ordered positions is at some position of that loop |
| Triplet.FirstsConcat | aiida_create_triplet_structures.py:58-59 | the outer loop is the middle loops for each first position, one after another |
| Triplet.SecondsContains | aiida_create_triplet_structures.py:58-59 | the middle loop for i yields every ordered triple with first position i |
| Triplet.TriplesComplete | aiida_create_triplet_structures.py:58-59 | every ordered position triple is generated, so together with the soundness lemmas the triples are exactly the ordered ones |
| Triplet.SecondsCount | aiida_create_triplet_structures.py:58-59 | the middle loop from j0 yields (n - j0)(n - j0 + 1)/2 triples |
| Triplet.FirstsCount | aiida_create_triplet_structures.py:58-59 | the outer loop from i0 yields m(m + 1)(m + 2)/6 triples, m = n - i0 |
| Triplet.TriplesCount | aiida_create_triplet_structures.py:58-59 | there are n(n + 1)(n + 2)/6 triples of n positions, the number of multisets of size three |
| Triplet.Triplets | aiida_create_triplet_structures.py:57-59 | one element triplet per ordered position triple, in the same order, holding the elements at those positions |
| Triplet.Substitute | aiida_create_triplet_structures.py:64-67 | a structure of at least three atoms gets the triplet on sites 0, 1 and 2 with positions and every other site unchanged; fewer atoms is an IndexError |
| Triplet.TripletExtras | aiida_create_triplet_structures.py:61-62 | each triplet's extras are the base extras plus the triplet |
| Triplet.TripletCandidates | aiida_create_triplet_structures.py:60-70 | the loop fails exactly when there is a triplet and the supercell has fewer than three atoms; otherwise one candidate per triplet, in order |
| Triplet.Launch | aiida_create_triplet_structures.py:42-70 | a lattice size that is not a number or a shape without three fields is an error. For a numeric size and a three-field shape, the result is the triplet loop over the pure supercell at that size, with the shared base extras and the triplets of the parsed element list. A successful run yields n(n + 1)(n + 2)/6 structures for n triplet elements |
| RandomSupercell.SelectFrom | aiida_create_randomsupercell_structures.py:16-19 | the scan returns the first index from its start whose cumulative concentration reaches the draw, or nothing when no cumulative sum does |
| RandomSupercell.DetermineSelection | aiida_create_randomsupercell_structures.py:12-20 | the selection succeeds exactly when the concentrations sum to one within numpy's tolerances and some cumulative sum reaches the draw; it then returns the first such index |
| RandomSupercell.CumulativeGrows | aiida_create_randomsupercell_structures.py:16 | with non-negative concentrations the cumulative sums never decrease |
| RandomSupercell.SelectionInterval | aiida_create_randomsupercell_structures.py:12-20 | with non-negative concentrations summing to one, element i is selected exactly when the draw lies above the cumulative sum before i and at or below the one at i |
| RandomSupercell.UnitSumAlwaysSelects | aiida_create_randomsupercell_structures.py:15-20 | concentrations summing to exactly one always select an element for a draw of `np.random.rand()`, which is below one, so the "no selection" error cannot happen |
| RandomSupercell.AveragedLattice | aiida_create_randomsupercell_structures.py:34-44 | mismatched lists are refused. With no non-negative size the average is 0. Otherwise it fails exactly when the included concentrations sum to zero |
| RandomSupercell.Included | aiida_create_randomsupercell_structures.py:38-43 | the sizes kept are non-negative, each with its concentration |
| RandomSupercell.NegativeSizesIgnored | aiida_create_randomsupercell_structures.py:50-52 | dropping the sizes marked -1 (any negative size) and their concentrations changes neither the normalisation nor the average |
| RandomSupercell.IncludedWeight | aiida_create_randomsupercell_structures.py:38-40 | the normalisation of the kept sizes is the normalisation of all sizes |
| RandomSupercell.IncludedAny | aiida_create_randomsupercell_structures.py:38-43 | some size is kept exactly when some size is non-negative |
| RandomSupercell.IncludedTerms | aiida_create_randomsupercell_structures.py:41-43 | the averaged sum over the kept sizes equals that over all sizes |
| RandomSupercell.TermsAreWeightedSum | aiida_create_randomsupercell_structures.py:41-43 | dividing every term by the normalisation is dividing the weighted sum once |
| RandomSupercell.WeightedSumBounds | aiida_create_randomsupercell_structures.py:38-43 | when the included sizes lie between two bounds and their concentrations are non-negative, the weighted sum lies between the bounds times the normalisation |
| RandomSupercell.AverageBetweenIncluded | aiida_create_randomsupercell_structures.py:34-44 | the averaged lattice is a weighted mean: with non-negative concentrations it lies between any lower and upper bound of the included lattice sizes |
| RandomSupercell.WeightPositive | aiida_create_randomsupercell_structures.py:38-40 | with non-negative included concentrations the normalisation is not negative |
| RandomSupercell.RandomizeRelabels | aiida_create_randomsupercell_structures.py:22-32 | without "Vac" in the list, randomising keeps the cell, the positions and the atom count, and gives every site the element its own draw selects |
| RandomSupercell.PreparedHasNoVac | aiida_create_randomsupercell_structures.py:27-29 | a prepared element list never holds "Vac" (a vacancy is "No" there), so the deleting branch is never taken |
| RandomSupercell.ParseFloats | aiida_create_randomsupercell_structures.py:85-86 | the list parses exactly when every field is a number (surrounding whitespace allowed, as `float` allows it), and then holds those numbers in order |
| RandomSupercell.Validate | aiida_create_randomsupercell_structures.py:81-90 | the options pass exactly when the shape has three fields, every lattice size and concentration parses with `float`, and there are as many of each as matrix elements; the shape, lattice sizes and concentrations passed on are then those fields and parsed numbers |
| RandomSupercell.BaseExtras | aiida_create_randomsupercell_structures.py:93-100 | the extras record the averaged lattice and the element list |
| RandomSupercell.SampleFrom | aiida_create_randomsupercell_structures.py:105-115 | a sample fails exactly when occupying its sites fails; otherwise it is the occupied structure rattled with the displacement seed, and both seeds are recorded |
| RandomSupercell.OneSampleAsWritten | aiida_create_randomsupercell_structures.py:22-25 | as written, the sites are occupied with the global generator's draws, while the extras record the matrix seed, which played no part |
| RandomSupercell.AsWrittenSeedDoesNotFixOccupation | aiida_create_randomsupercell_structures.py:107-110 | two runs with the same recorded seeds can store the same extras over different occupations (Al in one run, Mg in the other) |
| RandomSupercell.OneSample | aiida_create_randomsupercell_structures.py:105-115 | with the intended seeding, a stored structure is determined by its recorded seeds: it is the occupation drawn by the generator of the recorded matrix seed, rattled with the recorded displacement seed |
| RandomSupercell.Samples | aiida_create_randomsupercell_structures.py:105-115 | with the intended seeding (Findings row 5), the loop succeeds exactly when every sample does, and then yields one candidate per sample, in order |
| RandomSupercell.Launch | aiida_create_randomsupercell_structures.py:81-115 | a failed validation or average stops the script. Otherwise the result is the sample loop on the supercell of the first element at the averaged lattice size, with the base extras, run for the requested number of samples (none for a negative number), with the intended seeding (Findings row 5) |
| Displacements.Ceil | aiida_create_stackingfault_structures.py:19 | the ceiling is the least integer at or above its argument, as numpy's `arange` uses to count its elements |
| Displacements.Arange | aiida_create_stackingfault_structures.py:19 | a zero step is an error; otherwise element i is start + i * step |
| Displacements.ArangeAscending | aiida_create_stackingfault_structures.py:19 | with a positive step every element lies in [start, stop) and one more step would reach stop, so no value of the progression below stop is missing |
| Displacements.ArangeDescending | aiida_create_stackingfault_structures.py:19 | with a negative step every element lies in (stop, start] and one more step would reach stop |
| Displacements.DisplacementsArray | aiida_create_stackingfault_structures.py:14-22 | three comma fields that are all numbers give the arange of those numbers, and a field that is not a number is a ValueError; other text is read as one number (a ValueError if it is not one) and yields that single displacement |
| Displacements.DisplacementsOfRange | aiida_create_stackingfault_structures.py:15-19 | `start,stop,step` written from three numbers reads back as the arange of exactly those numbers |
| Displacements.AddScaled | aiida_create_stackingfault_structures.py:217-218 | each component of the row is moved by the factor times the same component of the other vector |
| Displacements.Tilt | aiida_create_stackingfault_structures.py:216-218 | the tilt fails exactly when the cell has no third row; otherwise only the third lattice row changes, by dx * a1 + dy * a2, and the atoms are untouched |
| Displacements.TiltByZero | aiida_create_stackingfault_structures.py:216-218 | a zero displacement leaves the structure unchanged |
| Displacements.Heighten | aiida_create_surface_structures.py:119-120 | raising the cell fails exactly when the cell has no third row with a third component; otherwise only that component changes, by the given amount |
| Displacements.Divide | aiida_create_stackingfault_structures.py:181-183 | the vector of a single repeat, multiplied by the repeat count, gives back the cell row |
| StackingFault.StablePoint | aiida_create_stackingfault_structures.py:140-146 | the stable stacking point is named `stable_stacking` (at (0, 2/3) for the orthogonal cell and (1/3, 1/3) for the primitive one) |
| StackingFault.Fcc111Base | aiida_create_stackingfault_structures.py:115-151 | the FCC (111) slab keeps the x repeats, doubles y for the orthogonal cell and triples z; its directions and orthogonality flag follow the cell shape; its special points are the undistorted one and the stable stacking |
| StackingFault.MissingKey | aiida_create_stackingfault_structures.py:159-166 | nothing is missing exactly when every required key is present; otherwise the key reported is a required key that is absent |
| StackingFault.MakeBase | aiida_create_stackingfault_structures.py:114-177 | the FCC (111) choice without a lattice size or element is refused; with neither choice the script stops; a custom node succeeds exactly when its extras hold label and directions, and is repeated, loses `_aiida_hash` and has only the undistorted point; every base records its repeat counts |
| StackingFault.Grid | aiida_create_stackingfault_structures.py:187 | the grid has one displacement per pair of an x and a y displacement |
| StackingFault.GridIndex | aiida_create_stackingfault_structures.py:187 | the grid is x-outer, y-inner: entry i * (number of y) + j is (x_i, y_j) |
| StackingFault.PointsPlan | aiida_create_stackingfault_structures.py:190-195 | one displacement per special point, in order, each at that point and labelled with its name |
| StackingFault.FindPoint | aiida_create_stackingfault_structures.py:199-207 | a point is found exactly when some point has that name, and the one found carries it |
| StackingFault.Names | aiida_create_stackingfault_structures.py:195 | the list of names holds each special point's name, in order |
| StackingFault.SolutePoint | aiida_create_stackingfault_structures.py:197-208 | a solute run succeeds exactly when a stable stacking point exists (and, for the reference solute, an undistorted one); it uses the undistorted point for the reference solute and the stable stacking otherwise |
| StackingFault.PlanAsWritten | aiida_create_stackingfault_structures.py:190-215 | as written, without either flag the plan is the user's grid |
| StackingFault.AsWrittenMislabelsSoluteFault | aiida_create_stackingfault_structures.py:190-215 | with special points only and solutes on an FCC (111) slab, the one structure generated is the stable stacking fault, but it is stored labelled `undistorted` |
| StackingFault.Plan | aiida_create_stackingfault_structures.py:185-215 | the plan is the grid by default, the labelled special points under special-points-only, and the single solute point when solutes are placed (it fails exactly when that point does) |
| StackingFault.PlanLabelsAreOwnPoints | aiida_create_stackingfault_structures.py:190-215 | in the corrected plan every label names the special point whose displacement it carries, and a solute run has exactly one displacement |
| StackingFault.PlansAgreeOffTheCombination | aiida_create_stackingfault_structures.py:190-215 | the corrected plan and the code agree whenever special-points-only and solutes are not combined |
| StackingFault.UnitVector | aiida_create_stackingfault_structures.py:181-183 | the single-repeat vector exists exactly when the cell has that row |
| StackingFault.Distorted | aiida_create_stackingfault_structures.py:210-219 | the loop fails exactly when there is a displacement and the cell has no third row; otherwise one tilted structure per displacement, in order |
| StackingFault.FirstOccurrences | aiida_create_stackingfault_structures.py:225 | `drop_duplicates` keeps only positions whose layer tag has not appeared before, in increasing order |
| StackingFault.FirstOccurrencesComplete | aiida_create_stackingfault_structures.py:225 | every tag among the atoms keeps its first position |
| StackingFault.LayerFrame | aiida_create_stackingfault_structures.py:24-36 | the table builds exactly when every layer tag has a distance; each row is an atom, its layer and that layer's distance |
| StackingFault.LayerFrameRowsAreLayers | aiida_create_stackingfault_structures.py:224-225 | the table has one row per distinct layer: no layer twice, and every atom's layer has a row |
| StackingFault.SoluteLayers | aiida_create_stackingfault_structures.py:226-230 | the solutes go on the first half of the layers; only layer 0 for the reference solute; only the last layer of the first half for the test solute, which wins over the reference solute |
| StackingFault.MaxLayer | aiida_create_stackingfault_structures.py:239 | an absent or empty maximum imposes no limit |
| StackingFault.Visited | aiida_create_stackingfault_structures.py:231-240 | the layers visited are a prefix of the planned ones: all of them without a maximum, otherwise every one before the first at or past the maximum, that one included |
| StackingFault.SoluteExtras | aiida_create_stackingfault_structures.py:223-237 | the extras record the solute, its atom index, its layer distance, and as `sol1layer_index` the integer part of that distance |
| StackingFault.LayerCandidates | aiida_create_stackingfault_structures.py:231-238 | the layer loop succeeds exactly when every visited layer is a row of the table whose atom exists; then each candidate differs from the fault only at that layer's first atom, which carries the solute |
| StackingFault.SoluteCandidates | aiida_create_stackingfault_structures.py:221-240 | the solute loop succeeds exactly when there is no solute or every visited layer is in the table; it then yields one candidate per solute and visited layer |
| StackingFault.SoluteCandidatesBlocks | aiida_create_stackingfault_structures.py:221-240 | every candidate of the solute loop is the k-th layer candidate of some solute e, at position e * (number of layers) + k, and every such layer candidate appears |
| StackingFault.AllSoluteCandidatesBlocks | aiida_create_stackingfault_structures.py:222-238 | solutes are the outer loop and layers the inner one: the candidate at position e * (number of layers) + k is the k-th layer candidate of the e-th solute |
| StackingFault.LayerCandidatesCons | aiida_create_stackingfault_structures.py:231-238 | one step of the layer loop: a candidate for the first layer followed by candidates for the remaining layers are candidates for every layer, in order |
| StackingFault.Launch | aiida_create_stackingfault_structures.py:114-240 | a base that cannot be made stops the script, and a successful run had repeat counts of at least one |
| StackingFault.Solutes | aiida_create_stackingfault_structures.py:221-240 | without solute elements the solute stage adds nothing |
| StackingFault.LaunchGridCount | aiida_create_stackingfault_structures.py:185-219 | without solutes or special points, a run stores one structure per point of the x-by-y displacement grid |
| Surface.Table | aiida_create_surface_structures.py:78-110 | exactly the three choices of the help text are accepted, each with the directions the help text lists; (111) doubles the y repeats and triples z, the others double z |
| Surface.SlabExtras | aiida_create_surface_structures.py:68-108 | the extras hold exactly ten keys. They record the lattice size and type, the plane in braces, the matrix element, the three periodic repeats and the three directions of the table row |
| Surface.Vacuums | aiida_create_surface_structures.py:117-121 | one slab per vacuum thickness, in order, each the undistorted slab with its height raised by that thickness and the thickness recorded |
| Surface.Undistorted | aiida_create_surface_structures.py:64-113 | a lattice size that is not a number, or a surface outside the table, stops the script; a slab built has a cell height to raise |
| Surface.Launch | aiida_create_surface_structures.py:64-121 | the run succeeds exactly when the slab and the vacuum list do; it is then the vacuum loop over the undistorted slab, its extras and the parsed thicknesses, one structure per thickness |
| Surface.HeightenAdds | aiida_create_surface_structures.py:119-120 | raising the height twice raises it by the sum, and a zero thickness leaves the slab unchanged, so each slab differs from the undistorted one by its own thickness alone |
| Surface.SurfaceNamesSplit | aiida_create_surface_structures.py:65-66 | each valid choice splits into the lattice type FCC and its plane's Miller indices |
| OqmdLoad.ParsePair | aiida_load_oqmd_dump.py:31 | a segment parses exactly when it holds a comma; the key and label are the comma-free fields before and after its first comma, up to the next comma or the end |
| OqmdLoad.FirstTwoFields | aiida_load_oqmd_dump.py:31 | the first two fields of a split, with the separator between them, open the text |
| OqmdLoad.KeysOfStep | aiida_load_oqmd_dump.py:31 | the keys of the pairs are those of all but the last pair plus the last key |
| OqmdLoad.MapOf | aiida_load_oqmd_dump.py:31 | the dictionary holds every key of the pairs and nothing else, and a key repeated later takes its last label |
| OqmdLoad.AsExtras | aiida_load_oqmd_dump.py:31 | every label is kept as a text value under its own key |
| OqmdLoad.ParseExtras | aiida_load_oqmd_dump.py:30-33 | no option gives no extras; an option parses exactly when every pipe-separated segment holds a comma |
| OqmdLoad.ParsePairOfJoin | aiida_load_oqmd_dump.py:31 | a key and label without commas or pipes, joined by a comma, parse back to themselves |
| OqmdLoad.ParseExtrasRoundTrip | aiida_load_oqmd_dump.py:15-17 | pairs without commas or pipes, written as `key1,label1\|key2,label2`, parse back to the dictionary of those pairs |
| OqmdLoad.EmptyExtrasRejected | aiida_load_oqmd_dump.py:30-31 | an empty option is not "no extras": its single empty segment has no comma, an IndexError |
| OqmdLoad.Basename | aiida_load_oqmd_dump.py:41 | the base name holds no slash |
| OqmdLoad.BasenameOfPath | aiida_load_oqmd_dump.py:40-41 | the base name of a path `glob` reports is the directory entry's own name |
| OqmdLoad.DumpFiles | aiida_load_oqmd_dump.py:40-41 | the files kept are the entries' paths whose base name holds no dot, every such entry kept |
| OqmdLoad.DumpFilesByName | aiida_load_oqmd_dump.py:41 | an entry is kept exactly when its own name holds no dot, whatever the directory's name holds |
| OqmdLoad.Merge | aiida_load_oqmd_dump.py:54-56 | the metadata's own values always win; a user extra is added only under a key the metadata lacks |
| OqmdLoad.MergeIdempotent | aiida_load_oqmd_dump.py:54-56 | merging the same extras twice changes nothing, and merging no extras leaves the metadata as it is |
| OqmdLoad.Load | aiida_load_oqmd_dump.py:43-56 | a file fails exactly when its POSCAR cannot be read (even without metadata) or its existing metadata cannot be parsed; it is skipped exactly when it has no metadata file; otherwise it yields the structure with the merged metadata |
| OqmdLoad.Entries | aiida_load_oqmd_dump.py:43-57 | the loop succeeds exactly when every file loads; it then hands on exactly the loaded candidates, at most one per file |
| OqmdLoad.EntriesStep | aiida_load_oqmd_dump.py:43-57 | the entries of a list are the first file's candidate, if any, then the entries of the rest |
| OqmdLoad.LoadAllNeedsEntries | aiida_load_oqmd_dump.py:43-57 | the interleaved read-and-store loop succeeds only when every file loads |
| OqmdLoad.LoadAllStoresEntries | aiida_load_oqmd_dump.py:43-57 | when every file loads, reading and storing file by file is the same as loading every entry and then storing them in order |
| OqmdLoad.LaunchStoresEntries | aiida_load_oqmd_dump.py:43-57 | a successful interleaved loop is the store of the entries |
| OqmdLoad.Launch | aiida_load_oqmd_dump.py:30-57 | a malformed extras option stops the script; a successful run stores the loaded entries of the dot-free dump files, in `glob` order |
| RunnerExport.LatticeLines | aiida_export_group_to_runner.py:50-55 | a record has one lattice line per cell row, in row order |
| RunnerExport.AtomRows | aiida_export_group_to_runner.py:67-77 | a record has one atom line per atom, in atom order |
| RunnerExport.LinesShape | aiida_export_group_to_runner.py:42-83 | a record's lines are begin and comment, the lattice lines, the atom lines, then energy, charge and end |
| RunnerExport.TakeLatticeOf | aiida_export_group_to_runner.py:50-55 | the lattice block can be read back exactly from the lines written for it |
| RunnerExport.TakeAtomsOf | aiida_export_group_to_runner.py:67-77 | the atom block can be read back exactly from the lines written for it |
| RunnerExport.DecodeLines | aiida_export_group_to_runner.py:42-83 | every record can be read back from its lines, whatever follows them, so the record format is unambiguous |
| RunnerExport.DecodeAllLines | aiida_export_group_to_runner.py:321-358 | a file of records written one after another reads back as the same records in the same order |
| RunnerExport.ScaleRows | aiida_export_group_to_runner.py:50-51 | the cell is converted from angstrom to Bohr radii entry by entry |
| RunnerExport.AtomLines | aiida_export_group_to_runner.py:57-78 | positions are converted to Bohr radii and forces to Hartree per Bohr radius; absent forces are zeros; a short element or force list fails with an index error |
| RunnerExport.StructureRecord | aiida_export_group_to_runner.py:86-98 | a plain structure is written with the given uuid. Its lattice rows and atom positions are the structure's own, converted to Bohr, and each atom has its own element, zero forces, energy 0 and charge 0 |
| RunnerExport.PwBaseRecord | aiida_export_group_to_runner.py:121-141 | a PwBaseWorkChain is written from its newest scf calculation, with that calculation's energy in Hartree. The lattice rows are its cell in Bohr, and the atom lines are its positions and symbols with its final forces. The record fails exactly when that calculation has no final forces |
| RunnerExport.CandidatesAsWritten | aiida_export_group_to_runner.py:230-237 | the candidate steps as written fail exactly when only relaxed structures are asked for a relax with a final scf, or when there are no steps |
| RunnerExport.OnlyRelaxedWithFinalScfFails | aiida_export_group_to_runner.py:230-237 | `--write_only_relaxed` on any relax with a final scf raises instead of writing the final scf only |
| RunnerExport.Candidates | aiida_export_group_to_runner.py:230-236 | the intended candidates: every step, only the last step, or none (the final scf then stands for the relaxed structure) |
| RunnerExport.CandidatesAgree | aiida_export_group_to_runner.py:230-237 | the intended and the as-written candidate lists agree wherever the code does not raise, and it raises only on the combination above |
| RunnerExport.FilterSteps | aiida_export_group_to_runner.py:238-247 | the filtering loop writes exactly the steps the reference filter keeps |
| RunnerExport.KeptFromCandidates | aiida_export_group_to_runner.py:239-244 | the filter writes only candidate steps, never more of them than there are |
| RunnerExport.KeptEndsWithFinal | aiida_export_group_to_runner.py:241 | the final candidate step is always written, and written last |
| RunnerExport.KeptKeepsZero | aiida_export_group_to_runner.py:241 | step 0 is always written when it is a candidate |
| RunnerExport.KeptSpacing | aiida_export_group_to_runner.py:240-246 | every written step other than step 0 and the final candidate is at least the tolerance away in energy from the step written before it (from step 0's energy for the first) |
| RunnerExport.RelaxStepsAsWritten | aiida_export_group_to_runner.py:198-247 | a relax without steps writes nothing, and one with steps, a final scf and `--write_only_relaxed` always fails |
| RunnerExport.TrimmedEnergies | aiida_export_group_to_runner.py:210-212 | after exit status 401 the energies are cut to as many as there are forces; otherwise they are kept; either way they are a prefix of the parsed energies |
| RunnerExport.LengthChecks | aiida_export_group_to_runner.py:214-223 | the export goes on only when cells, positions, energies and forces all have one entry per step, and the first mismatch names its array |
| RunnerExport.StepRecords | aiida_export_group_to_runner.py:238-254 | the step records are written exactly when every written step's record can be built, one per step |
| RunnerExport.StepRecordContents | aiida_export_group_to_runner.py:42-83 | a step record is built exactly when the elements and the forces cover the step's positions; it carries the relax uuid, the step index, the cell and positions in Bohr radii, the elements, the forces in Hartree per Bohr radius, the converted energy and charge 0 |
| RunnerExport.StepRecordsAt | aiida_export_group_to_runner.py:238-254 | record k of the step records is the record of written step k |
| RunnerExport.FinalScfRecord | aiida_export_group_to_runner.py:256-261 | a relax without base work chains has no final scf record. Otherwise the record is the PwBaseWorkChain record of its newest base work chain, tagged `final_scf` and carrying the uuid of its relax |
| RunnerExport.WrittenSteps | aiida_export_group_to_runner.py:238-247 | the written steps are candidates, and the last candidate is the last step written |
| RunnerExport.RelaxRecords | aiida_export_group_to_runner.py:196-263 | with the corrected candidate list (Findings row 2), a relax writes nothing without steps, fails on a length mismatch, writes the last step only (`trajectory_step` -1) or nothing but the final scf with `--write_only_relaxed`, and otherwise writes filtered steps ending with the last one, followed by the final scf when there is one |
| RunnerExport.RelaxRecordsWriteKeptSteps | aiida_export_group_to_runner.py:196-263 | a relax that passed the length checks writes exactly the records of the steps the energy filter keeps from the candidate list, in order, then the final scf record when there is one, and fails exactly when one of them cannot be built |
| RunnerExport.ListSizeAppend | aiida_export_group_to_runner.py:351-354 | the size of a worklist, counting the children elastic work chains add, is additive over concatenation |
| RunnerExport.Triage | aiida_export_group_to_runner.py:321-358 | a node without an integer exit status, or without an input structure when `--output_elements` is on and the node is not skipped for exit status 104, stops the export; nodes with exit status 104 and nodes outside `--output_elements` are skipped; structures and pw work chains are written (relaxes with the corrected candidate list, Findings row 2); an elastic work chain hands over its children; anything else is skipped |
| RunnerExport.Then | aiida_export_group_to_runner.py:321-358 | records of consecutive nodes are concatenated in order, and the first failure stops the export |
| RunnerExport.ThenEmpty | aiida_export_group_to_runner.py:321-358 | a node that writes nothing leaves the file unchanged |
| RunnerExport.ThenAssociative | aiida_export_group_to_runner.py:321-358 | writing node by node does not depend on how the nodes are grouped |
| RunnerExport.ExportGroup | aiida_export_group_to_runner.py:321-358 | the loop over a growing node list produces the export of the worklist, elastic children included, node by node as `Triage` decides (relaxes with the corrected candidate list, Findings row 2) |
| RunnerExport.ExportFlatPrefix | aiida_export_group_to_runner.py:321-358 | without elastic work chains, the export of two lists is the export of the first followed by that of the second |
| RunnerExport.ElasticChildrenLast | aiida_export_group_to_runner.py:351-354 | an elastic work chain's children are written after every node that follows it in the group |
| RunnerExport.ExportStructures | aiida_export_group_to_runner.py:321-341 | a group of plain structures, unfiltered, each with an integer exit status other than 104, is written one record per structure, in group order |
| LaunchCommon.ValenceOfLine | aiida_launch_workflow_alalloy.py:70-75 | a line with one `=` gives the truncated number after it, stripped of blanks and quotes; otherwise a line of three words gives its first word as a truncated number; a value that is not a number, or a line of neither form, cannot be parsed |
| LaunchCommon.Declarations | aiida_launch_workflow_alalloy.py:68-69 | the declaring lines of a pseudopotential are exactly its lines that mention "valence" and "z" in any case |
| LaunchCommon.ScanSucceeds | aiida_launch_workflow_alalloy.py:66-76 | the line scan succeeds exactly when every declaring line parses and some line declares the valence (otherwise `num_e` is unbound) |
| LaunchCommon.ScanIsLastDeclaration | aiida_launch_workflow_alalloy.py:66-76 | a successful scan returns the value of the last declaring line |
| LaunchCommon.ParseValenceIsLastLine | aiida_launch_workflow_alalloy.py:66-76 | the valence of a pseudopotential is read exactly when every declaring line parses and there is one, and is then the last declaring line's value |
| LaunchCommon.NumElectrons | aiida_launch_workflow_alalloy.py:64-94 | the electron count exists exactly when every site's element has a pseudopotential whose valence can be read |
| LaunchCommon.NumElectronsOfOne | aiida_launch_workflow_alalloy.py:90-92 | a single site contributes its element's valence |
| LaunchCommon.NumElectronsAppend | aiida_launch_workflow_alalloy.py:90-92 | the electron count is additive over any split of the sites |
| LaunchCommon.BandCount | aiida_launch_workflow_alalloy.py:200-201 | the band count is the larger of electrons times ratio and 20 |
| LaunchCommon.SetBands | aiida_launch_workflow_alalloy.py:202-203 | setting the bands changes only `SYSTEM.nbnd`; a base parameter node without SYSTEM fails |
| LaunchCommon.SetBandsTwice | aiida_launch_workflow_alalloy.py:202-203 | setting the bands twice keeps only the second count |
| LaunchCommon.RoundHalfEven | aiida_launch_workflow_alalloy.py:116 | Python 3 `round`: the nearest integer, ties to the even one |
| LaunchCommon.RoundHalfAway | launch_workflow_alalloy.py:102 | Python 2 `round`: the nearest integer, ties away from zero |
| LaunchCommon.RoundingMonotone | aiida_launch_workflow_alalloy.py:116 | both roundings preserve order |
| LaunchCommon.RoundingsAgreeOffTies | launch_workflow_alalloy.py:102 | the Python 2 and Python 3 roundings differ only on ties |
| LaunchCommon.EvenMachines | aiida_launch_workflow_alalloy.py:116 | the forced machine count is even, at least 2, and within one of the guess |
| LaunchCommon.EvenMachinesMonotone | aiida_launch_workflow_alalloy.py:116 | a larger guess never gives fewer machines |
| LaunchCommon.NkGuess | aiida_launch_workflow_alalloy.py:130 | the pool guess is 4 for fewer than 8 machines, and half the machines, truncated, for 8 or more |
| LaunchCommon.NkGuessDividesLargeEven | aiida_launch_workflow_alalloy.py:130-142 | for an even machine count of at least 8 the pool guess is half the machines and divides any process count |
| LaunchCommon.DebugOptions | aiida_launch_workflow_alalloy.py:413-417 | the debug queue gets two machines for half an hour and keeps the memory setting |
| LaunchCommon.DebugOptionsIdempotent | aiida_launch_workflow_alalloy.py:413-417 | switching to the debug queue twice is the same as once |
| Launcher.NumMachines | aiida_launch_workflow_alalloy.py:107-117 | the machine count is even, at least 2, and within one of the quadratic guess from the electron count |
| Launcher.NumMachinesMonotone | aiida_launch_workflow_alalloy.py:107-117 | more electrons never ask for fewer machines |
| Launcher.NumMachinesExamples | aiida_launch_workflow_alalloy.py:112-116 | 0 electrons need 2 machines and 1000 electrons need 10 |
| Launcher.GetNk | aiida_launch_workflow_alalloy.py:120-144 | one pool on a single-process computer. Otherwise the pool count is the guess, accepted exactly when it divides the process count |
| Launcher.GetNkOfLargeCount | aiida_launch_workflow_alalloy.py:107-144 | a computed machine count of at least 8 always admits its pool guess |
| Launcher.CellPress | aiida_launch_workflow_alalloy.py:374-383 | there is a CELL namelist exactly when the base has one or a pressure threshold or z-only cell relaxation is asked for; it carries the asked settings and the base's other entries |
| Launcher.SetupParams | aiida_launch_workflow_alalloy.py:184-209 | the parameters are the base with the band count set in SYSTEM and the command-line namelists laid over it, replacing same-named ones; every other namelist is kept; a base without SYSTEM fails |
| Launcher.DeleteVcCards | aiida_launch_workflow_alalloy.py:211-215 | the parameters lose their CELL namelist and nothing else |
| Launcher.DeleteVcCardsIdempotent | aiida_launch_workflow_alalloy.py:211-215 | removing the CELL namelist twice is the same as once |
| Launcher.DeleteVcCardsWithoutCell | aiida_launch_workflow_alalloy.py:211-215 | parameters without CELL are left unchanged |
| Launcher.ElasticNamespacesAsWritten | aiida_launch_workflow_alalloy.py:483-509 | as written, the two relax namespaces share one `pw` dictionary, so both end up with the vc-relax parameters |
| Launcher.ElasticRelaxGetsCellAsWritten | aiida_launch_workflow_alalloy.py:483-509 | as written, the fixed-cell relaxations of an elastic run still get the CELL namelist |
| Launcher.ElasticNamespaces | aiida_launch_workflow_alalloy.py:483-509 | as intended, the initial relax is a vc-relax with the full parameters and the elastic relax a fixed-cell relax without CELL, both with the same settings and options |
| Launcher.ElasticNamespacesCompared | aiida_launch_workflow_alalloy.py:483-509 | the two versions agree on the initial relax and differ on the elastic relax exactly when the parameters have a CELL namelist |
| Launcher.ParseReals | aiida_launch_workflow_alalloy.py:511-513 | the strain list parses exactly when every comma-separated field is a float, field by field |
| Launcher.ParseStrains | aiida_launch_workflow_alalloy.py:511-513 | a parsed strain list has one entry per comma-separated field |
| Launcher.ElasticOwnInputs | aiida_launch_workflow_alalloy.py:511-515 | the elastic work chain keeps its default strains unless strains are given, and uses all strains exactly when `--use_all_strains` is set |
| Launcher.BuildInputs | aiida_launch_workflow_alalloy.py:436-517 | scf runs get a base work chain and relax runs a relax work chain without CELL; vc-relax runs keep the full parameters; elastic runs relax their deformations without CELL, as intended (Findings row 3) |
| Launcher.JobOptionsFor | aiida_launch_workflow_alalloy.py:407-418 | the job gets the requested machines and wall-clock time, the memory in kB when given, and the debug queue when submitting in debug mode |
| Launcher.SettingsFor | aiida_launch_workflow_alalloy.py:420-434 | the command line is `-nk` with the pool count, then `-ndiag` when a non-empty value is given; coordinates are fixed in z for every atom exactly when `--z_movement_only` is set |
| Launcher.GivenReal | aiida_launch_workflow_alalloy.py:380-381 | a falsy option gives nothing; a given one is read with `float`, a ValueError when it is not a number |
| Launcher.GivenInt | aiida_launch_workflow_alalloy.py:397-398 | a falsy option gives nothing; a given one is read with `int`, a ValueError when it is not an integer |
| Launcher.Prepare | aiida_launch_workflow_alalloy.py:336-434 | the conventional-structure option fails; too large structures are skipped; a pressure threshold or band ratio that is not a number, and a k-point density, node count or memory that is not an integer, fail; without a node count the machines asked for are the electron-based guess, plus 4 for relax and vc-relax, and the structure is skipped exactly when that exceeds the maximum; a prepared submission then uses that count, the given node count or the debug machines, asks for the given memory in kB, and carries the parameters, settings and pools computed for it |
| Launcher.RequestedMachines | aiida_launch_workflow_alalloy.py:397-402 | a given node count is used as it is; otherwise the electron-based guess, plus 4 for relax and vc-relax |
| Launcher.RelaxAsksForFourMore | aiida_launch_workflow_alalloy.py:400-402 | relax and vc-relax ask for exactly 4 machines more than scf for the same electrons (and elastic asks for as many as scf), so at least 6 |
| Launcher.RelaxPreparesFourMore | aiida_launch_workflow_alalloy.py:397-418 | without a node count or debug submission, a structure prepared for relax or vc-relax gets 4 machines more than the same structure prepared for scf |
| Launcher.Parameters | aiida_launch_workflow_alalloy.py:373-391 | the pressure threshold is read with `float`, then the band ratio with `Float`; either failure is its ValueError; otherwise the parameters exist exactly when the electrons can be counted and SYSTEM exists, and are the band-set base with the cell namelist laid over it |
| Launcher.Pools | aiida_launch_workflow_alalloy.py:420-423 | a non-empty `--npools` is used as given; otherwise the pool guess, which fails exactly when it does not divide the processes |
| Launcher.Decisions | aiida_launch_workflow_alalloy.py:335-434 | the loop body is applied to every uncalculated structure, in order |
| Launcher.LaunchFrom | aiida_launch_workflow_alalloy.py:524-545 | each launched work chain belongs to a prepared structure, carries that structure's inputs, and launches follow the structure order |
| Launcher.Launch | aiida_launch_workflow_alalloy.py:335-545 | each launched work chain belongs to a structure that is small enough and prepares, with that structure's inputs (the intended elastic namespaces, Findings row 3), in structure order |
| Launcher.DryRunLaunchesNothing | aiida_launch_workflow_alalloy.py:525-533 | a dry run launches nothing |
| Launcher.DebugLaunchesAtMostOne | aiida_launch_workflow_alalloy.py:534-545 | in either debug mode at most one work chain starts and none is added to the group; otherwise every one is submitted and grouped |
| Launcher.EveryPreparedIsLaunched | aiida_launch_workflow_alalloy.py:335-545 | without debug or dry run, every structure that prepares is launched |
| LegacyLauncher.ParseCalcMethod | launch_workflow_alalloy.py:204-206 | exactly the names scf, relax and vc-relax are accepted, each as its own method |
| LegacyLauncher.AtomCount | launch_workflow_alalloy.py:97-100 | the atom count is the `num_atoms` extra when present and the structure's length otherwise |
| LegacyLauncher.NumMachines | launch_workflow_alalloy.py:94-103 | the machine count is even, at least 2, and within one of 2e-4 times the squared atom count plus 2 |
| LegacyLauncher.NumMachinesMonotone | launch_workflow_alalloy.py:94-103 | more atoms never ask for fewer machines |
| LegacyLauncher.NumMachinesExamples | launch_workflow_alalloy.py:94-103 | 50, 100 and 150 atoms need 2, 4 and 6 machines |
| LegacyLauncher.GetNk | launch_workflow_alalloy.py:106-126 | the pool guess is accepted exactly when it divides the process count, and the pool count is then that guess |
| LegacyLauncher.GetNkFailsOnSingleProcessComputer | launch_workflow_alalloy.py:106-126 | without the single-process shortcut, two or six single-process machines cannot be split into pools |
| LegacyLauncher.RelaxFields | launch_workflow_alalloy.py:293-307 | scf has no relax fields; relax runs without and vc-relax with a final scf |
| LegacyLauncher.Prepare | launch_workflow_alalloy.py:249-307 | a structure prepares exactly when the band ratio is a float, its electrons can be counted, SYSTEM exists, the k-point density is an integer, its atom count is numeric and the pool guess divides the processes; then it carries the chosen method, the bands of electrons times ratio (at least 20) in SYSTEM, the machines guessed from the atom count or the debug queue, `-nk` with half the machines (at least 4), and relax fields of its method |
| LegacyLauncher.JobOptionsFor | launch_workflow_alalloy.py:258-269 | the job gets the machines guessed from the atom count and the wall-clock time, or the debug queue with two machines for half an hour |
| LegacyLauncher.Prepared | launch_workflow_alalloy.py:233-307 | the loop body is applied to every uncalculated structure, in order |
| LegacyLauncher.Launch | launch_workflow_alalloy.py:204-321 | an invalid method fails with its message before anything runs; outside debug mode structure k is launched k-th and grouped, with its own prepared inputs; in debug mode at most the first structure is launched, ungrouped |
| LegacyLauncher.LaunchFrom | launch_workflow_alalloy.py:233-321 | outside debug mode one grouped launch per structure in order; in debug mode at most one launch, not grouped |
| LegacyLauncher.LaunchFailsOnlyOnPrepare | launch_workflow_alalloy.py:233-321 | outside debug mode the launch fails exactly when some structure fails to prepare |
| LegacyLauncher.DebugLaunchesFirst | launch_workflow_alalloy.py:311-317 | in debug mode only the first structure is submitted, and only it can make the launch fail |
| ScfLauncher.ScfJobOptions | launch_workflow_alalloy_scf_hardcoded.py:214-225 | the job gets the guessed even machine count and six hours, or the debug queue |
| ScfLauncher.Prepare | launch_workflow_alalloy_scf_hardcoded.py:203-240 | a structure prepares exactly when its electrons can be counted, SYSTEM exists, its atom count is numeric and the pool guess divides the processes; the inputs then carry these values |
| ScfLauncher.Prepared | launch_workflow_alalloy_scf_hardcoded.py:203-240 | the loop body is applied to every uncalculated structure, in order |
| ScfLauncher.Launch | launch_workflow_alalloy_scf_hardcoded.py:192-247 | every structure is submitted and grouped in order, each with its own prepared inputs. In debug mode only the first is submitted, with index 0, and it is not grouped |
| ScfLauncher.HardcodedLaunchesAll | launch_workflow_alalloy_scf_hardcoded.py:185-247 | with the script's fixed settings the launch succeeds exactly when every structure prepares, and then submits one work chain per structure |
| ScfLauncher.DebugNeedsEvenProcesses | launch_workflow_alalloy_scf_hardcoded.py:220-227 | in debug mode the four pools of the two debug machines divide the processes exactly when each machine runs an even number |
| ElasticWorkChain.DefaultInputs | aiida_alloy/workflows/ElasticWorkChain.py:50-53 | by default only symmetric strains are used, with magnitudes -0.01, -0.005, 0.005 and 0.01 |
| ElasticWorkChain.Keys | aiida_alloy/workflows/ElasticWorkChain.py:136-138 | the deformations kept by the symmetry reduction are the reduction's keys, in its order |
| ElasticWorkChain.Lookup | aiida_alloy/workflows/ElasticWorkChain.py:206-208 | looking a deformation up in the symmetry map succeeds exactly when it is a key, and gives that key's operations |
| ElasticWorkChain.LookupAll | aiida_alloy/workflows/ElasticWorkChain.py:201-208 | the operations of every deformation are found exactly when every deformation is a key of the map |
| ElasticWorkChain.Origins | aiida_alloy/workflows/ElasticWorkChain.py:201-211 | each appended image comes from one deformation and one of that deformation's operations, in loop order |
| ElasticWorkChain.Images | aiida_alloy/workflows/ElasticWorkChain.py:209-211 | the k-th appended tensor is the transform of its origin's tensor by its origin's operation |
| ElasticWorkChain.ExpandShape | aiida_alloy/workflows/ElasticWorkChain.py:197-211 | the symmetry-equivalent list is the originals followed by one image per deformation and operation |
| ElasticWorkChain.ExpandWithoutOps | aiida_alloy/workflows/ElasticWorkChain.py:197-211 | without symmetry operations the symmetry-equivalent list is the original list |
| ElasticWorkChain.ExpandKeepsPairs | aiida_alloy/workflows/ElasticWorkChain.py:197-211 | expanded strains and stresses have equal length and every appended pair is one original pair under one operation |
| ElasticWorkChain.OperationsFor | aiida_alloy/workflows/ElasticWorkChain.py:201-208 | without symmetric strains only, no operations are appended for any deformation |
| ElasticWorkChain.Step | aiida_alloy/workflows/ElasticWorkChain.py:59-68 | only the last outline stage finishes the chain, and it never leaves it running |
| ElasticWorkChain.AfterFollowsOutline | aiida_alloy/workflows/ElasticWorkChain.py:59-68 | the stages run are a prefix of the outline, in outline order |
| ElasticWorkChain.StoppedStays | aiida_alloy/workflows/ElasticWorkChain.py:59-68 | once a stage returns an exit code or raises, the later stages change nothing |
| ElasticWorkChain.RunFollowsOutline | aiida_alloy/workflows/ElasticWorkChain.py:59-68 | the chain always stops, runs its stages in outline order, and finishes only after running all eight |
| ElasticWorkChain.ThroughGroundState | aiida_alloy/workflows/ElasticWorkChain.py:77-120 | the conventional cell is submitted to the initial relax, whose outcome decides between exit 401 and a recorded ground state and stress |
| ElasticWorkChain.InitialRelaxFailure | aiida_alloy/workflows/ElasticWorkChain.py:106-112 | a failed initial relax ends the chain with exit 401 after the third stage, with nothing deformed |
| ElasticWorkChain.LaterStagesKeepPlan | aiida_alloy/workflows/ElasticWorkChain.py:169-223 | the gathering and fitting stages never change the ground state, deformations, strains or submissions |
| ElasticWorkChain.ThroughSubmission | aiida_alloy/workflows/ElasticWorkChain.py:122-167 | the deformations, deformed structures, strains and submitted relaxes are index-aligned, one elastic relax per deformed structure, in order |
| ElasticWorkChain.DeformationsAligned | aiida_alloy/workflows/ElasticWorkChain.py:122-167 | the same alignment holds in the final context, whatever happens later |
| ElasticWorkChain.DeformationsFromSymmetry | aiida_alloy/workflows/ElasticWorkChain.py:129-138 | with symmetric strains only the deformations computed are the keys of the symmetry reduction of the full set; otherwise the full set |
| ElasticWorkChain.ThroughGather | aiida_alloy/workflows/ElasticWorkChain.py:169-190 | no deformed relaxes raises, any failed one is exit 401 with no stresses, and otherwise each stress comes from its own deformed relax, in order |
| ElasticWorkChain.DeformedRelaxFailure | aiida_alloy/workflows/ElasticWorkChain.py:177-181 | any failed deformed relax ends the chain with exit 401 and no stresses recorded |
| ElasticWorkChain.NoDeformations | aiida_alloy/workflows/ElasticWorkChain.py:160-174 | with no deformations the gathering stage finds no work chains and raises |
| ElasticWorkChain.ThroughFit | aiida_alloy/workflows/ElasticWorkChain.py:192-223 | the fit raises when a deformation is missing from the symmetry map, and otherwise records the expanded lists and the Voigt form of the negated fit |
| ElasticWorkChain.FinishedOutputs | aiida_alloy/workflows/ElasticWorkChain.py:44-253 | the chain finishes exactly when both relax stages succeed, there is a deformation and every lookup succeeds; its outputs are then the paired strains and stresses, their expansions, the negated Voigt tensor and the symmetry map |
| ElasticWorkChain.NonSymmetricFitUsesOriginals | aiida_alloy/workflows/ElasticWorkChain.py:201-211 | without symmetric strains only, the fit uses exactly the computed strains and stresses |
| Tensors.GreenLagrange | aiida_alloy/workflows/ElasticWorkChain.py:146 | the strain of a deformation gradient is a 3x3 tensor |
| Tensors.GreenLagrangeSymmetric | aiida_alloy/workflows/ElasticWorkChain.py:146 | every strain is a symmetric tensor |
| Tensors.GreenLagrangeOfIdentity | aiida_alloy/workflows/ElasticWorkChain.py:146 | the undeformed lattice carries no strain |
| Tensors.Transform | aiida_alloy/workflows/ElasticWorkChain.py:210-211 | transforming a tensor by a symmetry operation gives a 3x3 tensor |
| Tensors.TransformKeepsSymmetry | aiida_alloy/workflows/ElasticWorkChain.py:210-211 | the symmetry-equivalent strains and stresses stay symmetric |
| Tensors.TransformByIdentity | aiida_alloy/workflows/ElasticWorkChain.py:210-211 | the identity operation leaves a tensor unchanged |
| Tensors.Voigt | aiida_alloy/workflows/ElasticWorkChain.py:223 | the reported elastic tensor is a 6x6 matrix |
| Tensors.VoigtOfScaled | aiida_alloy/workflows/ElasticWorkChain.py:219-223 | negating the fitted tensor before taking its Voigt form is the same as negating the Voigt matrix |
| Tensors.VoigtOfMajorSymmetric | aiida_alloy/workflows/ElasticWorkChain.py:219-223 | a fitted tensor with major symmetry has a symmetric 6x6 Voigt matrix |
| Tensors.VoigtOfMinorSymmetric | aiida_alloy/workflows/ElasticWorkChain.py:219-223 | for a tensor with the minor symmetries, the Voigt matrix does not depend on which member of each symmetric index pair is read, so the dictionary order that picks one does not matter |
| Atoms.Symbols | aiida_create_antisite_structures.py:129-137 | the chemical symbols are one per site, in site order |
| Atoms.SetSymbol | aiida_create_antisite_structures.py:129-137 | relabelling a site succeeds exactly when the site exists (any symbol is accepted) and changes only that site's symbol |
| Common.ParseFloatWithoutExponent | aiida_create_solutesupercell_structures.py:206 | text without an exponent marker is read as a plain decimal |
| Common.PaddedNumbers | aiida_create_solutesupercell_structures.py:206 | like Python's `float` and `int`, number parsing ignores blanks around the number |

## Left out

- AiiDA itself: query builders, group and node objects, process submission, `time.sleep`, `sys.exit`, progress prints and timers. The database is a value, sub-process outcomes are an `Env`, and an exit is the end of the returned list.
- Library internals are function-typed parameters (`Toolkit`, `Library`). This covers ase's builders, `rattle`, `repeat` and layer finder, pymatgen's symmetry analysis and elasticity classes, spglib, `np.linalg.norm`, `np.allclose` and file readers. Their results are not modelled, only how the scripts use them.
- Floating point: numbers are exact reals. Python's float rounding, `nan` and printf formatting are not modelled. The unit conversions of the runner export are a `Units` parameter of three functions, because their constants come from aiida's `constants` module; that each conversion multiplies by a constant is not stated, only that every length, force and energy written passes through its conversion, and that zero forces and the zero energy of a bare structure are written as zero.
- Text-to-number conversion handles decimal notation with an optional exponent, with surrounding ASCII whitespace stripped (space, tab, line feed, vertical tab, form feed, carriage return, and the separators \x1c to \x1f). The `inf`, `nan` and underscore spellings, and non-ASCII whitespace, are treated as unparsable.
- k-point meshes (`get_kmeshfrom_kptper_recipang`, `wf_getkpoints`) are not modelled: they are a library reciprocal cell followed by a ceiling. The k-point density option is converted with `Int`, and its ValueError is modelled; the mesh built from it is not part of the inputs.
- `wf_getconventionalstructure` in the current launcher raises before doing anything, so `--use_conventional_structure` is modelled as that failure only.
- The waiting loop on active calculations only delays submissions, so it is not modelled.
- The group queries behind "uncalculated structures" are a parameter: the launchers get the list they would get.
- Randomness: the uniform draws, seeds and generators of the random supercell generator are parameters.
- Python 2 `dict` and `set` iteration order are not modelled. Where order matters (extras keys, the set of elements whose valences are parsed), the model uses list order. The electron count therefore fails on the same inputs, but may report a different first error message.
- Generation before storage: each generator yields its ordered candidate list, and `SoluteSupercell.StoreAll` is the store step. Only the OQMD loader is also restated as one interleaved read-and-store loop (`OqmdLoad.LoadAll`); the solute-supercell generator's `Launch` returns the candidates only, and the storing it interleaves with generation is not restated.
- Scripts outside this model: aiida_distort_structures.py, aiida_load_phonopy_dump.py, export_structuregroup.py, load_runner_dataset.py and project_scripts/print_concentrations.py.
- Antisite.Supercell: the source's `while` loop never ends on an empty structure with a positive target; the model returns an error there instead.
- Antisite: the norms of a repeated cell are the original norms times the repeat counts. ase scales each lattice vector by its count, so this is exact, but it is stated rather than recomputed through the library.
- RandomSupercell.AveragedLattice: when the included concentrations sum to zero numpy yields a non-finite lattice size; the model reports an error instead.
- Triplet: the script builds a pure-structure extras dictionary it never stores, so the model does not build it either.
- OqmdLoad: the order of `glob` and the hidden-file rule are part of the file-system parameter; the JSON format itself is the `readJson` parameter.
- StackingFault: repeat counts below one are refused with an error. The script would divide the cell by them, giving non-finite or negative unit vectors, which the real-number model cannot represent.
- StackingFault.Launch: its contract says only that a base failure stops the run and that a successful run had positive repeats. The properties of its stages are stated on the stages: `Plan`, `Distorted`, `SoluteLayers`, `SoluteCandidates` and `LaunchGridCount`.
- StackingFault.Solutes: its contract covers only the case without solutes. The solute layers and candidates are stated on `SoluteLayers`, `SoluteCandidates` and `SoluteCandidatesBlocks`.
- StackingFault.PlanAsWritten: its contract covers only the plain grid case. Its flaw is exhibited by `AsWrittenMislabelsSoluteFault`, and `PlansAgreeOffTheCombination` relates it to the corrected `Plan`.
- RunnerExport.RelaxStepsAsWritten: stated only for the zero-step case and the failing flag combination. The rest of its behaviour is that of `RelaxRecords`, which the rest of the model uses.
- LegacySupercell.FirstBlock: models the corrected skip list of Findings row 1, not the code as written; `PairsAsWritten` and `PairEnumerationAsWritten` state the code's own enumeration.
- LegacySupercell.Launch: models the corrected skip list of Findings row 1, not the code as written.
- RandomSupercell.Samples: models the intended seeding of Findings row 5, not the code as written; `OneSampleAsWritten` states the code's own sampling.
- RandomSupercell.Launch: models the intended seeding of Findings row 5, not the code as written.
- StackingFault.Launch: runs the corrected `Plan` of Findings row 4, not `PlanAsWritten`.
- RunnerExport.RelaxRecords: models the corrected candidate list of Findings row 2, so it writes the final scf alone where the code raises; `RelaxStepsAsWritten` states the code's own behaviour.
- RunnerExport.Triage: writes relaxes through `RelaxRecords`, so it carries the correction of Findings row 2.
- RunnerExport.ExportGroup: exports through `Triage`, so it carries the correction of Findings row 2.
- Launcher.BuildInputs: models the intended separate relax namespaces of Findings row 3; `ElasticNamespacesAsWritten` states the code's shared dictionary.
- Launcher.Launch: submits the inputs of `BuildInputs`, so it carries the correction of Findings row 3.
- Atoms.Structure: carries no periodic boundary flags. The generators that build cells set them to true in every direction (for example aiida_create_dimer_structures.py:60 and aiida_create_surface_structures.py:112). Structures read from files or the database keep their flags, but no modelled operation reads them.
- Atoms.SetSymbol: any string is accepted as a chemical symbol. ase raises a KeyError for a symbol that is not an element, but the periodic table is not part of the model, so that error is not modelled.
- SoluteSupercell.Shells: the `--maximum_nn_index` and `--maximum_nn_distance` options are taken as already converted numbers. The script converts them with `int` and `float` only when a pair is reached, and a value that is not a number would raise there; that failure is not modelled.
- Launcher.LaunchFrom: a structure that fails to prepare ends the run with an `Err`, and the work chains already submitted before it are not part of the result. The script has submitted them by then, so the model does not describe that partial effect.
- LegacyLauncher.LaunchFrom: a failure ends the run with an `Err` that drops the submissions made before it; the partial effect on the database is not modelled. The hard-coded SCF launcher uses the same loop.
- OqmdLoad.LoadAll: a file that fails to load ends the run with an `Err`, and the structures stored from earlier files are not part of the result, although the script has stored them.
- RunnerExport.Then: a failing node ends the export with an `Err`, and the records of earlier nodes are not part of the result, although the script has written them to the open file.
- ElasticWorkChain.FinishedOutputs: output port validation is not modelled. The chain declares `relaxed_conventional_structure` (ElasticWorkChain.py line 70) but emits `ground_state_structure` (line 251). How AiiDA treats the undeclared port and the missing declared one is outside the model, which reports the outputs the chain sets.
- ElasticWorkChain.Lookup: a deformation is looked up by exact equality. pymatgen compares deformations with `allclose`, so floating-point neighbours of a key would also match.

## Findings

| source | as written | input that shows it | evidently intended | confidence | as-written member | corrected member |
|---|---|---|---|---|---|---|
| generate_supercell_structures.py:186 | `previously_generated += firstsolute_element` extends the list of used first solutes by the characters of the element name | first solutes `Mg,Si` and second solutes `Mg,Si`: the Si-Mg pair is written again; first solutes `Cu,Al` and second solute `C`: carbon is skipped | the list grows by the element name, so a second solute is skipped exactly when it was an earlier first solute (as the help text at lines 115-120 says) | not executed | LegacySupercell.AsWrittenRepeatsReversedPair | LegacySupercell.PairEnumeration |
| aiida_export_group_to_runner.py:230-237 | with `--write_only_relaxed` and a relax that has a final scf, the candidate list is empty and `trajectory_looprange[-1]` raises IndexError | any PwRelaxWorkChain with `final_scf` true and at least one step, exported with `-wor` | no trajectory step is written, and the final scf record alone stands for the relaxed structure | not executed | RunnerExport.OnlyRelaxedWithFinalScfFails | RunnerExport.CandidatesAgree |
| aiida_launch_workflow_alalloy.py:483-509 | the `initial_relax` and `elastic_relax` namespaces copy the outer dictionary only, so they share one `pw` dictionary, and the vc-relax parameters written last replace the CELL-free ones | `--calc_method elastic` with a base parameter node that has a CELL namelist | the fixed-cell elastic relaxations get the parameters without CELL, the initial vc-relax the full ones | not executed | Launcher.ElasticRelaxGetsCellAsWritten | Launcher.ElasticNamespacesCompared |
| aiida_create_stackingfault_structures.py:190-215 | with both `--special_pointsonly` and solute elements, the single stable-stacking displacement pops the first special-point name, `undistorted` | FCC (111) slab with `-spo` and `-se Mg` | the stable-stacking structure is labelled with its own point name | not executed | StackingFault.AsWrittenMislabelsSoluteFault | StackingFault.PlansAgreeOffTheCombination |
| aiida_create_randomsupercell_structures.py:22-25 | `randomize_asestructure` seeds a RandomState, discards it, and draws the occupation from the global generator, while the matrix seed is stored in the extras | two runs with equal seeds whose global generators differ: same extras, different occupations | the recorded matrix seed determines the occupation, so a stored structure can be reproduced from its extras | not executed | RandomSupercell.AsWrittenSeedDoesNotFixOccupation | RandomSupercell.OneSample |
