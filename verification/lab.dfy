/**
 * The stateful half of the combination engine: the lab's particle list and its two discovery
 * registries, and the list updates made by a drop, a hover, the end of a drag (with the
 * combination check that follows it) and a disassembly.
 */
module LabState {
  import opened Particles
  import opened Sequences
  import opened Composition

  // ---------------------------------------------------------------------------------------
  // Discovery registries
  // ---------------------------------------------------------------------------------------

  /** A registry entry `{id: type, type}`: a discovery is identified by its kind. */
  datatype Discovery = Discovery(id: Kind, kind: Kind)

  /** `prev.some(p => p.type === k)`. */
  predicate Discovered(reg: seq<Discovery>, k: Kind) {
    exists i :: 0 <= i < |reg| && reg[i].kind == k
  }

  /** A well-formed registry: each entry's id is its kind and no kind is listed twice. */
  ghost predicate RegistryOk(reg: seq<Discovery>) {
    && (forall i :: 0 <= i < |reg| ==> reg[i].id == reg[i].kind)
    && (forall i, j :: 0 <= i < j < |reg| ==> reg[i].kind != reg[j].kind)
  }

  /**
   * The registry update of `checkCombination`: `{id: k, type: k}` is appended when no entry
   * of kind `k` exists. The old entries stay, in their order, and `k` is the only kind added.
   */
  function Register(reg: seq<Discovery>, k: Kind): (r: seq<Discovery>)
    ensures reg <= r && |r| <= |reg| + 1
    ensures forall k' :: Discovered(r, k') <==> Discovered(reg, k') || k' == k
    ensures forall d :: d in r ==> d in reg || d == Discovery(k, k)
    ensures RegistryOk(reg) ==> RegistryOk(r)
  {
    if Discovered(reg, k) then reg
    else
      DiscoveredAppend(reg, Discovery(k, k));
      reg + [Discovery(k, k)]
  }

  lemma DiscoveredAppend(reg: seq<Discovery>, d: Discovery)
    ensures forall k :: Discovered(reg + [d], k) <==> Discovered(reg, k) || d.kind == k
  {
    var r := reg + [d];
    assert r[|reg|] == d;
    forall k | Discovered(reg, k) ensures Discovered(r, k) {
      var i :| 0 <= i < |reg| && reg[i].kind == k;
      assert r[i].kind == k;
    }
  }

  /** Registering a kind twice is the same as registering it once. */
  lemma RegisterIdempotent(reg: seq<Discovery>, k: Kind)
    ensures Register(Register(reg, k), k) == Register(reg, k)
  {
  }

  /** How many entries of a registry have kind `k`. */
  function Entries(reg: seq<Discovery>, k: Kind): nat {
    if reg == [] then 0
    else Entries(reg[..|reg| - 1], k) + (if reg[|reg| - 1].kind == k then 1 else 0)
  }

  lemma {:induction false} EntriesAbsent(reg: seq<Discovery>, k: Kind)
    requires !Discovered(reg, k)
    ensures Entries(reg, k) == 0
  {
    if reg != [] {
      EntriesAbsent(reg[..|reg| - 1], k);
    }
  }

  lemma {:induction false} EntriesOnce(reg: seq<Discovery>, k: Kind)
    requires RegistryOk(reg) && Discovered(reg, k)
    ensures Entries(reg, k) == 1
  {
    var reg' := reg[..|reg| - 1];
    assert RegistryOk(reg');
    if reg[|reg| - 1].kind == k {
      EntriesAbsent(reg', k);
    } else {
      var i :| 0 <= i < |reg| && reg[i].kind == k;
      assert reg'[i].kind == k;
      EntriesOnce(reg', k);
    }
  }

  /**
   * However often a kind is formed, its registry lists it exactly once: after any
   * registration of `k` into a well-formed registry there is one entry of kind `k`.
   */
  lemma RegisterListsOnce(reg: seq<Discovery>, k: Kind)
    requires RegistryOk(reg)
    ensures Entries(Register(reg, k), k) == 1
  {
    EntriesOnce(Register(reg, k), k);
  }

  // ---------------------------------------------------------------------------------------
  // Removing particles by id
  // ---------------------------------------------------------------------------------------

  /** The set of ids of a list of particles (`combined.map(p => p.id)`). */
  function IdsOf(s: seq<Particle>): set<Id> {
    set q | q in s :: q.id
  }

  /** `s.filter(p => !ids.includes(p.id))`: every particle whose id is not in `ids`, in order. */
  function Without(s: seq<Particle>, ids: set<Id>): (r: seq<Particle>)
    ensures forall q :: q in r <==> q in s && q.id !in ids
  {
    if s == [] then []
    else
      assert s == s[..|s| - 1] + [s[|s| - 1]];
      Without(s[..|s| - 1], ids) + (if s[|s| - 1].id in ids then [] else [s[|s| - 1]])
  }

  /** How many particles of `s` have an id in `ids`. */
  function Matching(s: seq<Particle>, ids: set<Id>): (c: nat)
    ensures c <= |s|
  {
    if s == [] then 0
    else Matching(s[..|s| - 1], ids) + (if s[|s| - 1].id in ids then 1 else 0)
  }

  /** The kept particles keep their relative order, and exactly the matching ones go. */
  lemma {:induction false} WithoutSpec(s: seq<Particle>, ids: set<Id>)
    ensures IsSubsequence(Without(s, ids), s)
    ensures |Without(s, ids)| == |s| - Matching(s, ids)
  {
    if s != [] {
      var s', last := s[..|s| - 1], s[|s| - 1];
      WithoutSpec(s', ids);
      assert s == s' + [last];
      if last.id in ids {
        assert Without(s, ids) == Without(s', ids);
        SubsequenceExtend(Without(s', ids), s', last);
      } else {
        assert Without(s, ids) == Without(s', ids) + [last];
        SubsequenceExtendBoth(Without(s', ids), s', last);
      }
    }
  }

  /** Removing ids that no particle carries changes nothing. */
  lemma {:induction false} WithoutAbsent(s: seq<Particle>, ids: set<Id>)
    requires forall q :: q in s ==> q.id !in ids
    ensures Without(s, ids) == s
  {
    if s != [] {
      var s' := s[..|s| - 1];
      assert s == s' + [s[|s| - 1]];
      WithoutAbsent(s', ids);
    }
  }

  // ---------------------------------------------------------------------------------------
  // Combination
  // ---------------------------------------------------------------------------------------

  function SumX(s: seq<Particle>): real {
    if s == [] then 0.0 else SumX(s[..|s| - 1]) + s[|s| - 1].x
  }

  function SumY(s: seq<Particle>): real {
    if s == [] then 0.0 else SumY(s[..|s| - 1]) + s[|s| - 1].y
  }

  /** `combined.map(p => ({id: p.id, type: p.type}))`. */
  function Components(s: seq<Particle>): seq<Component> {
    seq(|s|, i requires 0 <= i < |s| => Component(s[i].id, s[i].kind))
  }

  /** The particle `checkCombination` pushes for a match. */
  function Compound(m: Match, id: Id): Particle
    requires |m.combined| > 0
  {
    var n := |m.combined| as real;
    Particle(id, m.kind, SumX(m.combined) / n, SumY(m.combined) / n, 1.0, Some(Components(m.combined)))
  }

  /**
   * The compound has the matched kind and scale 1, sits at the arithmetic mean of the
   * consumed positions, and lists the consumed `{id, type}` pairs in order as its composition.
   */
  lemma CompoundSpec(m: Match, id: Id)
    requires |m.combined| > 0
    ensures var p, n := Compound(m, id), |m.combined|;
      && p.id == id && p.kind == m.kind && p.scale == 1.0
      && p.x * (n as real) == SumX(m.combined)
      && p.y * (n as real) == SumY(m.combined)
      && p.composition.Some?
      && |p.composition.value| == n
      && (forall i :: 0 <= i < n ==> p.composition.value[i] == Component(m.combined[i].id, m.combined[i].kind))
  {
    var n := |m.combined| as real;
    assert n > 0.0;
    assert (SumX(m.combined) / n) * n == SumX(m.combined);
    assert (SumY(m.combined) / n) * n == SumY(m.combined);
  }

  /** The particle list after a match: the consumed ids filtered out, then the compound pushed. */
  function Combine(ps: seq<Particle>, m: Match, id: Id): seq<Particle>
    requires |m.combined| > 0
  {
    Without(ps, IdsOf(m.combined)) + [Compound(m, id)]
  }

  /**
   * After a match every particle whose id is among the consumed ones is gone, the others keep
   * their values and relative order, and exactly one particle, the compound, is appended.
   */
  lemma CombineSpec(ps: seq<Particle>, m: Match, id: Id)
    requires |m.combined| > 0
    ensures var r := Combine(ps, m, id);
      && |r| == |ps| - Matching(ps, IdsOf(m.combined)) + 1
      && r[|r| - 1] == Compound(m, id)
      && IsSubsequence(r[..|r| - 1], ps)
      && (forall q :: q in r[..|r| - 1] <==> q in ps && q.id !in IdsOf(m.combined))
  {
    var r := Combine(ps, m, id);
    var kept := Without(ps, IdsOf(m.combined));
    assert r[..|r| - 1] == kept;
    WithoutSpec(ps, IdsOf(m.combined));
  }

  // ---------------------------------------------------------------------------------------
  // Disassembly
  // ---------------------------------------------------------------------------------------

  /** Where a disassembly product is placed relative to the compound (the radial layout). */
  datatype Offset = Offset(dx: real, dy: real)

  /**
   * The disassembly products: one particle per composition entry, in order, of that entry's
   * kind, with a fresh id, placed around the compound, at scale 1 and without a composition.
   */
  function Children(p: Particle, comp: seq<Component>, childId: nat -> Id, ring: (nat, nat) -> Offset): (r: seq<Particle>)
    ensures |r| == |comp|
    ensures forall i :: 0 <= i < |r| ==>
      r[i].id == childId(i) && r[i].kind == comp[i].kind && r[i].scale == 1.0 && r[i].composition.None?
  {
    seq(|comp|, i requires 0 <= i < |comp| =>
      Particle(childId(i), comp[i].kind, p.x + ring(i, |comp|).dx, p.y + ring(i, |comp|).dy, 1.0, None))
  }

  /** The particle list after `disassembleParticle(particleId, particleIndex)`. */
  function Disassembled(ps: seq<Particle>, particleId: Id, particleIndex: int,
                        childId: nat -> Id, ring: (nat, nat) -> Offset): seq<Particle> {
    if !(0 <= particleIndex < |ps|) || ps[particleIndex].composition.None? then ps
    else Without(ps, {particleId}) + Children(ps[particleIndex], ps[particleIndex].composition.value, childId, ring)
  }

  /** The particles a disassembly keeps: those without the given id, in their order. */
  lemma DisassemblyKeeps(ps: seq<Particle>, particleId: Id, particleIndex: int,
                         childId: nat -> Id, ring: (nat, nat) -> Offset)
    requires 0 <= particleIndex < |ps| && ps[particleIndex].composition.Some?
    ensures var r := Disassembled(ps, particleId, particleIndex, childId, ring);
      var kept := |ps| - Matching(ps, {particleId});
      && kept <= |r|
      && IsSubsequence(r[..kept], ps)
      && (forall q :: q in r[..kept] <==> q in ps && q.id != particleId)
  {
    var p := ps[particleIndex];
    var rest := Without(ps, {particleId});
    var r := rest + Children(p, p.composition.value, childId, ring);
    WithoutSpec(ps, {particleId});
    assert r[..|rest|] == rest;
  }

  /** The particles a disassembly appends: one per composition entry, in order. */
  lemma DisassemblyAppends(ps: seq<Particle>, particleId: Id, particleIndex: int,
                           childId: nat -> Id, ring: (nat, nat) -> Offset)
    requires 0 <= particleIndex < |ps| && ps[particleIndex].composition.Some?
    ensures var r, p := Disassembled(ps, particleId, particleIndex, childId, ring), ps[particleIndex];
      var kept := |ps| - Matching(ps, {particleId});
      && kept <= |r|
      && r[kept..] == Children(p, p.composition.value, childId, ring)
  {
    var p := ps[particleIndex];
    var rest := Without(ps, {particleId});
    var kids := Children(p, p.composition.value, childId, ring);
    WithoutSpec(ps, {particleId});
    assert (rest + kids)[|rest|..] == kids;
  }

  /**
   * Disassembly is a no-op for a missing index or a particle without a composition. Otherwise
   * every particle with the given id is removed, the others keep their order, and the children
   * of the compound (one per composition entry, see `Children`) are appended; the length
   * becomes old length - removed + |composition|.
   */
  lemma DisassembledSpec(ps: seq<Particle>, particleId: Id, particleIndex: int,
                         childId: nat -> Id, ring: (nat, nat) -> Offset)
    ensures !(0 <= particleIndex < |ps|) || ps[particleIndex].composition.None? ==>
      Disassembled(ps, particleId, particleIndex, childId, ring) == ps
    ensures 0 <= particleIndex < |ps| && ps[particleIndex].composition.Some? ==>
      var r, p := Disassembled(ps, particleId, particleIndex, childId, ring), ps[particleIndex];
      var kept := |ps| - Matching(ps, {particleId});
      && |r| == kept + |p.composition.value|
      && IsSubsequence(r[..kept], ps)
      && (forall q :: q in r[..kept] <==> q in ps && q.id != particleId)
      && r[kept..] == Children(p, p.composition.value, childId, ring)
  {
    if 0 <= particleIndex < |ps| && ps[particleIndex].composition.Some? {
      DisassemblyKeeps(ps, particleId, particleIndex, childId, ring);
      DisassemblyAppends(ps, particleId, particleIndex, childId, ring);
    }
  }

  /**
   * Compositions are flat: a disassembly product has no composition, so disassembling it
   * again changes nothing.
   */
  lemma DisassemblyProductsAreFinal(ps: seq<Particle>, particleId: Id, particleIndex: int,
                                    childId: nat -> Id, ring: (nat, nat) -> Offset,
                                    childIndex: int, anyId: Id)
    requires 0 <= particleIndex < |ps| && ps[particleIndex].composition.Some?
    requires |ps| - Matching(ps, {particleId}) <= childIndex < |Disassembled(ps, particleId, particleIndex, childId, ring)|
    ensures var r := Disassembled(ps, particleId, particleIndex, childId, ring);
      Disassembled(r, anyId, childIndex, childId, ring) == r
  {
    DisassemblyAppends(ps, particleId, particleIndex, childId, ring);
    var r, p := Disassembled(ps, particleId, particleIndex, childId, ring), ps[particleIndex];
    var kept := |ps| - Matching(ps, {particleId});
    var kids := Children(p, p.composition.value, childId, ring);
    assert r[childIndex] == kids[childIndex - kept];
  }

  /**
   * Round trip: disassembling the compound a match has just formed (under an id no other
   * particle carries) gives back the other particles unchanged and, after them, one particle
   * of each consumed kind, in the order they were consumed.
   */
  lemma CombineThenDisassemble(ps: seq<Particle>, m: Match, id: Id,
                               childId: nat -> Id, ring: (nat, nat) -> Offset)
    requires |m.combined| > 0
    requires forall q :: q in ps ==> q.id != id
    ensures var c := Combine(ps, m, id);
      var d, n := Disassembled(c, id, |c| - 1, childId, ring), |m.combined|;
      && |d| == |Without(ps, IdsOf(m.combined))| + n
      && d[..|d| - n] == Without(ps, IdsOf(m.combined))
      && forall i :: 0 <= i < n ==> d[|d| - n + i].kind == m.combined[i].kind
  {
    var rest := Without(ps, IdsOf(m.combined));
    var compound := Compound(m, id);
    var c := rest + [compound];
    assert c[..|c| - 1] == rest;
    WithoutAbsent(rest, {id});
    assert Without(c, {id}) == rest;
    CompoundSpec(m, id);
    var kids := Children(compound, compound.composition.value, childId, ring);
    assert Disassembled(c, id, |c| - 1, childId, ring) == rest + kids;
  }

  // ---------------------------------------------------------------------------------------
  // Small list updates
  // ---------------------------------------------------------------------------------------

  /** `updateParticleScale`: only the scale of particles with the given id changes. */
  function Rescale(ps: seq<Particle>, id: Id, scale: real): (r: seq<Particle>)
    ensures |r| == |ps|
    ensures forall i :: 0 <= i < |ps| ==> r[i].(scale := ps[i].scale) == ps[i]
    ensures forall i :: 0 <= i < |ps| ==> r[i].scale == (if ps[i].id == id then scale else ps[i].scale)
  {
    seq(|ps|, i requires 0 <= i < |ps| => if ps[i].id == id then ps[i].(scale := scale) else ps[i])
  }

  /**
   * Hovering in and out again (scale 1.2, then 1) leaves the list as it was, provided the
   * particles with that id were at scale 1 before.
   */
  lemma HoverRoundTrip(ps: seq<Particle>, id: Id)
    requires forall q :: q in ps && q.id == id ==> q.scale == 1.0
    ensures Rescale(Rescale(ps, id, 1.2), id, 1.0) == ps
  {
    var r := Rescale(Rescale(ps, id, 1.2), id, 1.0);
    forall i | 0 <= i < |ps| ensures r[i] == ps[i] {
      assert ps[i] in ps;
    }
  }

  /** The drag-end update: only x, y and scale (reset to 1) of the particle at `index` change. */
  function Moved(ps: seq<Particle>, index: int, mx: real, my: real): (r: seq<Particle>)
    requires 0 <= index < |ps|
    ensures |r| == |ps|
    ensures forall i :: 0 <= i < |ps| && i != index ==> r[i] == ps[i]
    ensures r[index].(x := ps[index].x, y := ps[index].y, scale := ps[index].scale) == ps[index]
    ensures r[index].x == ps[index].x + mx && r[index].y == ps[index].y + my && r[index].scale == 1.0
  {
    ps[index := ps[index].(x := ps[index].x + mx, y := ps[index].y + my, scale := 1.0)]
  }

  // ---------------------------------------------------------------------------------------
  // The lab
  // ---------------------------------------------------------------------------------------

  /** The lab's state: the particles on the canvas and the two discovery registries. */
  class Lab {
    var particles: seq<Particle>
    var secondaryParticles: seq<Discovery>
    var discoveredAtoms: seq<Discovery>

    /** Both registries are well formed; nucleons are filed as secondary particles, atoms as atoms. */
    ghost predicate Valid()
      reads this
    {
      && RegistryOk(secondaryParticles)
      && RegistryOk(discoveredAtoms)
      && (forall d :: d in secondaryParticles ==> IsNucleon(d.kind))
      && (forall d :: d in discoveredAtoms ==> IsAtom(d.kind))
    }

    /** The state after a match `r` (or none) was applied to the given lists. */
    ghost predicate CombinedFrom(ps: seq<Particle>, secondary: seq<Discovery>, atoms: seq<Discovery>,
                                 r: Option<Match>, compoundId: Id)
      reads this
      requires r.Some? ==> |r.value.combined| > 0
    {
      match r
      case None =>
        particles == ps && secondaryParticles == secondary && discoveredAtoms == atoms
      case Some(m) =>
        && particles == Combine(ps, m, compoundId)
        && secondaryParticles == (if IsNucleon(m.kind) then Register(secondary, m.kind) else secondary)
        && discoveredAtoms == (if IsNucleon(m.kind) then atoms else Register(atoms, m.kind))
    }

    constructor ()
      ensures Valid()
      ensures particles == [] && secondaryParticles == [] && discoveredAtoms == []
    {
      particles, secondaryParticles, discoveredAtoms := [], [], [];
    }

    /** `handleDrop`: appends one particle of the dropped kind at scale 1, without a composition. */
    method HandleDrop(kind: Kind, x: real, y: real, id: Id)
      requires Valid()
      modifies this
      ensures Valid()
      ensures particles == old(particles) + [Particle(id, kind, x, y, 1.0, None)]
      ensures secondaryParticles == old(secondaryParticles) && discoveredAtoms == old(discoveredAtoms)
    {
      particles := particles + [Particle(id, kind, x, y, 1.0, None)];
    }

    /** `updateParticleScale`: sets the scale of the particles with the given id. */
    method UpdateParticleScale(id: Id, newScale: real)
      requires Valid()
      modifies this
      ensures Valid()
      ensures particles == Rescale(old(particles), id, newScale)
      ensures secondaryParticles == old(secondaryParticles) && discoveredAtoms == old(discoveredAtoms)
    {
      particles := Rescale(particles, id, newScale);
    }

    /**
     * `checkCombination`: the match is looked for in `snapshot` (the list the caller read),
     * and applied to the current list. A nucleon is filed in the secondary registry and any
     * other result in the atom registry; the consumed particles give way to the compound.
     */
    method CheckCombination(snapshot: seq<Particle>, draggedIndex: int, compoundId: Id)
      requires Valid()
      modifies this
      ensures Valid()
      ensures CombinedFrom(old(particles), old(secondaryParticles), old(discoveredAtoms),
                           Resolve(snapshot, draggedIndex), compoundId)
    {
      var result := CheckQuarkCombination(snapshot, draggedIndex);
      if result.None? {
        var nearby, counts := GetNearbyComposition(snapshot, draggedIndex);
        var kind := AtomRule(counts, |nearby|);
        result := if kind.Some? then Some(Match(kind.value, nearby)) else None;
      }
      assert result == Resolve(snapshot, draggedIndex);
      if result.Some? {
        var m := result.value;
        if IsNucleon(m.kind) {
          secondaryParticles := Register(secondaryParticles, m.kind);
        } else {
          discoveredAtoms := Register(discoveredAtoms, m.kind);
        }
        var next := Without(particles, IdsOf(m.combined));
        next := next + [Compound(m, compoundId)];
        particles := next;
      }
    }

    /**
     * The drag-end branch of the gesture handler, with the combination check run on the list
     * as it stands after the move: the dragged particle's new position decides its neighbours.
     */
    method DragEnd(index: int, mx: real, my: real, compoundId: Id)
      requires Valid()
      modifies this
      ensures Valid()
      ensures !(0 <= index < |old(particles)|) ==> unchanged(this)
      ensures 0 <= index < |old(particles)| ==>
        var moved := Moved(old(particles), index, mx, my);
        CombinedFrom(moved, old(secondaryParticles), old(discoveredAtoms), Resolve(moved, index), compoundId)
    {
      if !(0 <= index < |particles|) {
        return;
      }
      particles := Moved(particles, index, mx, my);
      CheckCombination(particles, index, compoundId);
    }

    /**
     * The drag-end branch as the gesture handler runs it: the move is applied, but the
     * combination check reads the list from before the move, so the dragged particle's
     * neighbours are those of its old position.
     */
    method DragEndAsWritten(index: int, mx: real, my: real, compoundId: Id)
      requires Valid()
      modifies this
      ensures Valid()
      ensures !(0 <= index < |old(particles)|) ==> unchanged(this)
      ensures 0 <= index < |old(particles)| ==>
        var moved := Moved(old(particles), index, mx, my);
        CombinedFrom(moved, old(secondaryParticles), old(discoveredAtoms), Resolve(old(particles), index), compoundId)
    {
      if !(0 <= index < |particles|) {
        return;
      }
      var snapshot := particles;
      particles := Moved(particles, index, mx, my);
      CheckCombination(snapshot, index, compoundId);
    }

    /** `disassembleParticle`: replaces a compound by one fresh particle per composition entry. */
    method DisassembleParticle(particleId: Id, particleIndex: int, childId: nat -> Id, ring: (nat, nat) -> Offset)
      requires Valid()
      modifies this
      ensures Valid()
      ensures particles == Disassembled(old(particles), particleId, particleIndex, childId, ring)
      ensures secondaryParticles == old(secondaryParticles) && discoveredAtoms == old(discoveredAtoms)
    {
      if !(0 <= particleIndex < |particles|) || particles[particleIndex].composition.None? {
        return;
      }
      var p := particles[particleIndex];
      var next := Without(particles, {particleId});
      particles := next + Children(p, p.composition.value, childId, ring);
    }

    /** The double-click handler: only particles of a compound kind are disassembled. */
    method DoubleClick(index: int, childId: nat -> Id, ring: (nat, nat) -> Offset)
      requires Valid()
      modifies this
      ensures Valid()
      ensures particles ==
        if 0 <= index < |old(particles)| && IsCompound(old(particles)[index].kind)
        then Disassembled(old(particles), old(particles)[index].id, index, childId, ring)
        else old(particles)
      ensures secondaryParticles == old(secondaryParticles) && discoveredAtoms == old(discoveredAtoms)
    {
      if 0 <= index < |particles| && IsCompound(particles[index].kind) {
        DisassembleParticle(particles[index].id, index, childId, ring);
      }
    }
  }

  /** Before the move, the up quark at the origin has no quark neighbour in range. */
  lemma StaleSnapshotNoQuarkMatch()
    ensures CheckQuarkCombination(DragExample(), 0) == None
  {
    var ps := DragExample();
    QuarkNeighboursStep(ps, 0, 1);
    QuarkNeighboursStep(ps, 0, 2);
    QuarkNeighboursStep(ps, 0, 3);
    assert !QuarkCandidate(ps, 0, 1) && !QuarkCandidate(ps, 0, 2);
    assert QuarkNeighbours(ps, 0) == [];
  }

  /** Before the move, the up quark is alone in its neighbourhood and weighs nothing. */
  lemma StaleSnapshotNoAtomMatch()
    ensures CheckAtomCombination(DragExample(), 0) == None
  {
    var ps := DragExample();
    StaleSnapshotAlone();
    assert ps[0].kind == UpQuark && !IsAtom(UpQuark);
    LoneParticleAtom(ps, 0);
  }

  /** Before the move, nothing else lies within range of the up quark at the origin. */
  lemma StaleSnapshotAlone()
    ensures Nearby(DragExample(), 0) == [DragExample()[0]]
  {
    var ps := DragExample();
    NearbyStep(ps, 0, 1);
    NearbyStep(ps, 0, 2);
    NearbyStep(ps, 0, 3);
    InRangeOfSelf(ps[0]);
    assert !InRange(ps[0], ps[1]) && !InRange(ps[0], ps[2]);
  }

  /** Before the move nothing forms. */
  lemma StaleSnapshotFormsNothing()
    ensures Resolve(DragExample(), 0) == None
  {
    StaleSnapshotNoQuarkMatch();
    StaleSnapshotNoAtomMatch();
  }

  /** After the move by (300, 10), both other quarks are in range and a Proton forms from all three. */
  lemma MovedFormsProton()
    ensures var moved := Moved(DragExample(), 0, 300.0, 10.0);
      Resolve(moved, 0) == Some(Match(Proton, moved))
  {
    var moved := Moved(DragExample(), 0, 300.0, 10.0);
    QuarkNeighboursStep(moved, 0, 1);
    QuarkNeighboursStep(moved, 0, 2);
    QuarkNeighboursStep(moved, 0, 3);
    assert QuarkCandidate(moved, 0, 1) && QuarkCandidate(moved, 0, 2);
    assert QuarkNeighbours(moved, 0) == [moved[1], moved[2]];
    assert [moved[0]] + QuarkNeighbours(moved, 0) == moved;
    assert moved[..2][..1] == moved[..1] && moved[..1][..0] == [];
    assert CountKind(moved[..1], UpQuark) == 1 && CountKind(moved[..1], DownQuark) == 0;
    assert CountKind(moved[..2], UpQuark) == 2 && CountKind(moved[..2], DownQuark) == 0;
  }

  /** Two up quarks and a down quark, the first one 300 units away from the other two. */
  function DragExample(): seq<Particle> {
    [Particle("u1", UpQuark, 0.0, 0.0, 1.0, None),
     Particle("u2", UpQuark, 300.0, 0.0, 1.0, None),
     Particle("d1", DownQuark, 310.0, 0.0, 1.0, None)]
  }

  /**
   * The drag-end check as written reads the list from before the move: an up quark dragged
   * next to an up and a down quark forms nothing, where reading the moved list forms a Proton.
   */
  lemma StaleSnapshotMissesProton()
    ensures var ps := DragExample();
      var moved := Moved(ps, 0, 300.0, 10.0);
      Resolve(ps, 0) == None && Resolve(moved, 0) == Some(Match(Proton, moved))
  {
    StaleSnapshotFormsNothing();
    MovedFormsProton();
  }
}
