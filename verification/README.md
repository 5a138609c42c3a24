# particle-lab combination engine, in Dafny

particle-lab is a browser sandbox. The user drops elementary particles on a canvas and drags
them around. When a drag ends, the lab looks at what lies within 100 units of the dragged
particle and may fuse the group into a compound:

- two up quarks and a down quark form a Proton;
- one up quark and two down quarks form a Neutron;
- the right proton/neutron/electron counts form an atom, from Hydrogen to Oxygen.

Each first discovery goes into one of two registries. A double click on a compound splits it
back into one particle per ingredient. A second, smaller part of the system is the set of
constant tables the periodic-table panel draws from.

The project has five modules:

- `Sequences` (`sequences.dfy`): order-preserving sub-lists, the shape every `filter` in the lab
  produces.
- `Particles` (`particles.dfy`): the particle kinds, the particle record, and the nucleon, atom
  and compound kind sets.
- `Composition` (`composition.dfy`): the pure half of the engine.
  - `getNearbyComposition` is a method with two loops: the range filter and the weight count.
    They are proved against the specification functions `Nearby` and `Total`.
  - The two recipe matchers are functions, each with an exact if-and-only-if characterisation.
  - `Resolve` is the quark-first dispatch.
- `LabState` (`lab.dfy`): the stateful half.
  - The `Lab` class holds the particle list and the two registries as `seq` fields. Its
    methods replace them the way the React setters do.
  - Each update is specified by a function (`Register`, `Combine`, `Disassembled`, `Rescale`,
    `Moved`), and lemmas state what those functions keep, drop and append.
- `PeriodicLayout` (`periodic_table_layout.dfy`): the atomic-number table, the 3 x 18 grid, the
  two f-block series and the isotope/special list, with their well-formedness invariants.

Some consequences of the code as written are proved rather than assumed:

- The atom matcher consumes every particle in range, not only the ingredients. The quark
  matcher consumes every particle in range except Protons and Neutrons. An electron next to
  two up quarks and a down quark vanishes into the Proton (`QuarkMatchConsumesBystander`).
- A lone atom other than Hydrogen and Helium matches its own recipe (`LoneParticleAtom`).
  Dragging it alone therefore replaces it with a fresh compound of the same kind whose
  composition is just itself.
- Compositions are flat: disassembly products carry no composition and cannot be split
  again (`DisassemblyProductsAreFinal`).
- An empty composition list still counts as present, as in JavaScript, so disassembling such
  a particle removes it and adds nothing.

The model follows `App.jsx` as written. Combination is triggered by proximity at the end of a
drag, not by a selection, an explicit assemble step and an exact-multiset recipe lookup. There
are no goals, decay timers or molecules.

## Model

| member | source | states |
|---|---|---|
| Particles.CompoundIsNucleonOrAtom | particle-lab/src/App.jsx:304-309 | the kinds drawn large and offered for disassembly are exactly the kinds the two matchers can form: a nucleon or one of the ten atoms |
| Composition.Weight | particle-lab/src/App.jsx:100-114 | the per-kind weight table the counting loop reads; its contract is `WeightFacts` |
| Composition.WeightFacts | particle-lab/src/App.jsx:98-114 | a kind adds non-zero counts exactly when it is one of the twelve compound kinds or the electron; every atom adds as many electrons as protons, and at least one of each |
| Composition.TotalSingleton | particle-lab/src/App.jsx:98-114 | the counts of a one-particle neighbourhood are that particle's weight |
| Composition.Nearby | particle-lab/src/App.jsx:90-96 | the `filter` of the neighbourhood gathering, as a specification function; its contract is `NearbySpec` |
| Composition.NearbySpec | particle-lab/src/App.jsx:86-96 | for a valid index the nearby list is an order-preserving sub-list that contains the dragged particle and exactly the particles within distance 100 of it, one entry per index in range; for a missing index it is empty and all counts are 0 |
| Composition.GetNearbyComposition | particle-lab/src/App.jsx:86-117 | returns the nearby list and, as counts, the sum of the nearby particles' weights; empty with (0, 0, 0) for a missing index |
| Composition.FilterNearby | particle-lab/src/App.jsx:90-96 | the filter loop keeps the dragged particle and each particle in range, in list order |
| Composition.CountComposition | particle-lab/src/App.jsx:98-114 | the counting loop ends with (protons, neutrons, electrons) equal to the sum of the per-kind weights over the list |
| Composition.AtomRule | particle-lab/src/App.jsx:122-153 | whatever the if-chain forms is an atom whose own weight equals the counts |
| Composition.AtomRuleExact | particle-lab/src/App.jsx:119-153 | the if-chain forms atom k exactly when the counts equal k's weight. Hydrogen also needs exactly 2 particles nearby and Helium exactly 6; Deuterium, Tritium and Lithium to Oxygen have no size condition |
| Composition.AtomRuleNone | particle-lab/src/App.jsx:122-153 | the if-chain returns nothing exactly when no atom's recipe holds |
| Composition.CheckAtomCombination | particle-lab/src/App.jsx:119-154 | a result needs a valid index, is an atom, consumes the whole nearby list, and its weight equals that list's counts |
| Composition.CheckAtomCombinationExact | particle-lab/src/App.jsx:119-154 | both directions: atom k forms, consuming c, exactly when c is the nearby list and k's recipe holds for c's counts and size |
| Composition.LoneParticleAtom | particle-lab/src/App.jsx:119-154 | a particle with nothing in range re-forms as its own kind when it is an atom other than Hydrogen and Helium, and forms nothing otherwise |
| Composition.AtomRuleOwnWeight | particle-lab/src/App.jsx:122-153 | the if-chain applied to one kind's own weight with one particle yields that kind for the eight atoms without a size condition, and nothing for every other kind |
| Composition.QuarkNeighbours | particle-lab/src/App.jsx:163-171 | the `nearbyQuarks` filter, as a specification function; its contract is `QuarkNeighboursSpec` |
| Composition.QuarkNeighboursSpec | particle-lab/src/App.jsx:163-171 | the quark neighbours are an order-preserving sub-list holding exactly the particles at other indices that are in range and are not a Proton or Neutron; any other kind is admitted. Each entry is the particle at such an index, and the length is the number of such indices, so the dragged particle never counts as its own neighbour |
| Composition.QuarkRule | particle-lab/src/App.jsx:177-183 | Proton exactly when up = 2 and down = 1; Neutron exactly when up = 1 and down = 2; every result is a nucleon |
| Composition.QuarkCandidatesAreNotNucleons | particle-lab/src/App.jsx:163-174 | the dragged quark together with its neighbours holds no Proton or Neutron |
| Composition.CheckQuarkCombination | particle-lab/src/App.jsx:156-185 | a result needs a valid index holding an up or down quark. It is a nucleon made of at least three particles, starting with the dragged one, none of them a nucleon, with the 2/1 or 1/2 up/down split matching the nucleon formed |
| Composition.CheckQuarkCombinationExact | particle-lab/src/App.jsx:156-185 | both directions: nucleon k forms, consuming c, exactly when the dragged particle is an up or down quark with at least two neighbours, c is the dragged particle followed by its neighbours, and c's up/down counts are k's; a match needs at least two such indices other than the dragged one |
| Composition.Resolve | particle-lab/src/App.jsx:187-189 | nothing forms exactly when both matchers fail. A nucleon comes from the quark matcher, tried first, and any other result from the atom matcher. Every result is a compound kind and consumes the dragged particle. The result is the quark matcher's match whenever there is one, and otherwise the atom matcher's |
| Composition.BystanderNeighbours | particle-lab/src/App.jsx:163-171 | an electron in range of a dragged up quark counts as one of its quark neighbours |
| Composition.QuarkMatchConsumesBystander | particle-lab/src/App.jsx:156-185 | two up quarks, a down quark and an electron in range form a Proton that consumes all four |
| LabState.Register | particle-lab/src/App.jsx:194-204 | the registry update keeps the old entries as a prefix, adds at most one entry and only for kind k, afterwards lists k, and keeps a registry free of duplicates |
| LabState.RegisterIdempotent | particle-lab/src/App.jsx:195-203 | registering a kind twice equals registering it once |
| LabState.RegisterListsOnce | particle-lab/src/App.jsx:195-203 | after registering k in a duplicate-free registry, exactly one entry has kind k |
| LabState.Without | particle-lab/src/App.jsx:208 | the filter keeps exactly the particles whose id is not among the consumed ids |
| LabState.WithoutSpec | particle-lab/src/App.jsx:208 | the kept particles keep their relative order, and exactly the matching ones are dropped |
| LabState.WithoutAbsent | particle-lab/src/App.jsx:262 | filtering out an id no particle carries changes nothing |
| LabState.Compound | particle-lab/src/App.jsx:209-218 | the compound pushed after a match; its contract is `CompoundSpec` |
| LabState.CompoundSpec | particle-lab/src/App.jsx:209-218 | the pushed compound has the matched kind, the given id and scale 1. It sits at the mean x and y of the consumed particles, and its composition lists their {id, type} pairs in order |
| LabState.Combine | particle-lab/src/App.jsx:206-220 | the particle list after a match; its contract is `CombineSpec` |
| LabState.CombineSpec | particle-lab/src/App.jsx:206-219 | after a match the consumed ids are gone, every other particle stays with its values and relative order, and exactly one particle, the compound, is appended |
| LabState.Children | particle-lab/src/App.jsx:263-269 | one product per composition entry, in order, with that entry's kind, a fresh id, scale 1 and no composition |
| LabState.Disassembled | particle-lab/src/App.jsx:256-271 | the particle list after a disassembly; its contract is `DisassembledSpec` |
| LabState.DisassembledSpec | particle-lab/src/App.jsx:256-271 | a no-op for a missing index or a particle without a composition. Otherwise the particles with that id are removed, the others keep their order, and the products are appended; the length becomes old length - removed + size of the composition |
| LabState.DisassemblyProductsAreFinal | particle-lab/src/App.jsx:263-269 | disassembling a product of a disassembly changes nothing |
| LabState.CombineThenDisassemble | particle-lab/src/App.jsx:256-271 | disassembling a just-formed compound (with a fresh id) returns the untouched particles, followed by one particle of each consumed kind in consumption order |
| LabState.Rescale | particle-lab/src/App.jsx:43-45 | only the scale of particles with the given id changes, to the new value; length and all other fields are unchanged |
| LabState.HoverRoundTrip | particle-lab/src/App.jsx:327-328 | hovering in (1.2) and out (1) restores a list whose particles with that id were at scale 1 |
| LabState.Moved | particle-lab/src/App.jsx:79 | only the particle at the dragged index changes: its x and y move by the drag offset and its scale becomes 1 |
| LabState.Lab.constructor | particle-lab/src/App.jsx:14-32 | the lab starts with no particles and two empty registries |
| LabState.Lab.HandleDrop | particle-lab/src/App.jsx:234-241 | a drop appends exactly one particle of the dropped kind at scale 1 without a composition; nothing else changes |
| LabState.Lab.UpdateParticleScale | particle-lab/src/App.jsx:43-45 | the particle list becomes its rescaled version; the registries are unchanged |
| LabState.Lab.CheckCombination | particle-lab/src/App.jsx:187-224 | with no match nothing changes. Otherwise a nucleon is registered as a secondary particle and an atom as a discovered atom, the consumed particles give way to the compound, and the registries stay duplicate-free |
| LabState.Lab.DragEnd | particle-lab/src/App.jsx:74-83 | for a valid index the particle is moved and the combination is resolved on the moved list; for a missing index nothing changes |
| LabState.Lab.DragEndAsWritten | particle-lab/src/App.jsx:74-83 | the drag end as the handler runs it: the move is applied, but the combination is resolved on the list from before the move |
| LabState.Lab.DisassembleParticle | particle-lab/src/App.jsx:256-273 | the particle list becomes its disassembled version; the registries are unchanged |
| LabState.Lab.DoubleClick | particle-lab/src/App.jsx:326 | only a particle of a compound kind is disassembled; any other double click changes nothing |
| LabState.StaleSnapshotMissesProton | particle-lab/src/App.jsx:79-82 | for an up quark dragged next to an up and a down quark, the list from before the move forms nothing, while the moved list forms a Proton from all three |
| PeriodicLayout.TypeOf | particle-lab/src/constants/periodicTableLayout.js:4-23 | the lookup is defined exactly for 1..18 and returns the table's entry |
| PeriodicLayout.TableKeys | particle-lab/src/constants/periodicTableLayout.js:4-23 | the table's keys are exactly 1..18 |
| PeriodicLayout.TableRoundTrip | particle-lab/src/constants/periodicTableLayout.js:4-23 | the table and an independently written reverse lookup agree in both directions |
| PeriodicLayout.TableInjective | particle-lab/src/constants/periodicTableLayout.js:4-23 | no two atomic numbers map to the same kind |
| PeriodicLayout.LayoutShape | particle-lab/src/constants/periodicTableLayout.js:27-31 | the grid has 3 rows of 18 cells, and flattening it gives the three rows end to end, 54 cells |
| PeriodicLayout.FlatCell | particle-lab/src/components/PeriodicTable.jsx:87-88 | position 18r + c of the flattened grid, as laid out in the panel's 18-column grid, is cell (r, c) |
| PeriodicLayout.LayoutCells | particle-lab/src/constants/periodicTableLayout.js:25-31 | every cell is a spacer (0) or an atomic number in 1..18 whose place is that cell |
| PeriodicLayout.LayoutPlaces | particle-lab/src/constants/periodicTableLayout.js:27-31 | each element 1..18 is at its place in the grid |
| PeriodicLayout.LayoutPlacesEachElementOnce | particle-lab/src/constants/periodicTableLayout.js:25-31 | in the flattened grid each of 1..18 sits at exactly one position, every cell is a spacer or a number the table names, and the codes -1 and -2 do not occur |
| PeriodicLayout.LanthanideRange | particle-lab/src/constants/periodicTableLayout.js:35 | the lanthanide series has 15 entries rising one by one from 57 to 71, and holds exactly those numbers |
| PeriodicLayout.ActinideRange | particle-lab/src/constants/periodicTableLayout.js:36 | the actinide series has 15 entries rising one by one from 89 to 103, and holds exactly those numbers |
| PeriodicLayout.SeriesHaveNoType | particle-lab/src/constants/periodicTableLayout.js:33-36 | no number of either series has an entry in the atomic-number table |
| PeriodicLayout.SpecialListFacts | particle-lab/src/constants/periodicTableLayout.js:39-48 | the isotope/special list has 8 pairwise-distinct entries, none of which has an atomic number |
| PeriodicLayout.EveryCompoundHasOnePlace | particle-lab/src/constants/periodicTableLayout.js:39-48 | every kind the engine can form has exactly one home in the panel: a grid cell or the special list, never both |

## Left out

- Rendering is not modelled: JSX, class strings, icons, the react-spring animation
  (`App.jsx:48-72`, `275-282`) and the in-progress part of a drag (scale 1.1 while held). Only
  the data effects of a gesture are modelled.
- The message banner and its 3-second timer (`App.jsx:37-41`) are left out, and so is the
  message text each match carries. They are display only.
- Drag-and-drop I/O is not modelled: the `dataTransfer` JSON, `getBoundingClientRect`, the -25
  offset and the try/catch (`App.jsx:228-233`, `243-246`, `252`). A drop arrives as
  `HandleDrop(kind, x, y, id)`, with the position already in canvas coordinates.
- Missing `data.type` and unknown type strings cannot be represented. The kinds are a closed
  enumeration of the types App.jsx and the layout file name. `constants/particles.js`, which
  defines `PARTICLE_TYPES`, is not part of this model.
- Coordinates are real numbers, not floating point. The range test `sqrt(dx*dx + dy*dy) < 100`
  is stated as `dx*dx + dy*dy < 10000`. The centroid is an exact real mean.
- The `cos`/`sin` radial placement of disassembly products is the parameter `ring`.
- Ids built from `Date.now()` are parameters: `id`, `compoundId` and `childId`. Their
  uniqueness is not claimed. `CombineThenDisassemble` requires the compound's id to be
  unused.
- React scheduling is not modelled. Each setter is an immediate assignment to a field. The
  list the combination check reads is an explicit argument of `Lab.CheckCombination`, and the
  `prev` list its updates apply to is the current field.
- The elementary palette (`App.jsx:16-29`) is left out because the code never updates it. So
  is the palette drag start (`App.jsx:251-254`), which only writes the drag payload.
- CountComposition: the thirteen separate `if` statements per particle are read as one lookup
  in the weight table (`Weight`). Each tests equality with a different type, so at most one
  applies.
- The periodic-table panel itself (`PeriodicTable.jsx`) is not modelled beyond its
  row-major `flat()` walk over the grid and its atomic-number lookup.

## Findings

| source | as written | input that shows it | evidently intended | confidence | as-written member | corrected member |
|---|---|---|---|---|---|---|
| particle-lab/src/App.jsx:79-82 | the drag end moves the particle through the setter, but `checkCombination(index)` reads the `particles` captured when the handler was created, so neighbours are found around the particle's position before the drag | up quarks u1 at (0, 0) and u2 at (300, 0), down quark d1 at (310, 0); u1 is dragged by (300, 10). The pre-move list forms nothing, although at its new place u1 is within range of u2 and d1, which form a Proton with it | the combination is checked around the dropped position | not executed; high that the check reads the pre-move list, medium that this was unintended | LabState.Lab.DragEndAsWritten, LabState.StaleSnapshotMissesProton | LabState.Lab.DragEnd |
