/**
 * The pure half of the combination engine: which particles lie near the dragged one, what
 * they weigh in protons, neutrons and electrons, and the two recipe matchers that turn a
 * neighbourhood into a compound.
 */
module Composition {
  import opened Particles
  import opened Sequences

  /** A (protons, neutrons, electrons) count triple. */
  datatype Tally = Tally(protons: int, neutrons: int, electrons: int) {
    function Plus(other: Tally): Tally {
      Tally(protons + other.protons, neutrons + other.neutrons, electrons + other.electrons)
    }
  }

  const Zero := Tally(0, 0, 0)

  /** What one particle of kind `k` adds to the counts of its neighbourhood. */
  function Weight(k: Kind): Tally {
    match k
    case Proton => Tally(1, 0, 0)
    case Neutron => Tally(0, 1, 0)
    case Electron => Tally(0, 0, 1)
    case Hydrogen => Tally(1, 0, 1)
    case Deuterium => Tally(1, 1, 1)
    case Tritium => Tally(1, 2, 1)
    case Helium => Tally(2, 2, 2)
    case Lithium => Tally(3, 4, 3)
    case Beryllium => Tally(4, 5, 4)
    case Boron => Tally(5, 6, 5)
    case Carbon => Tally(6, 6, 6)
    case Nitrogen => Tally(7, 7, 7)
    case Oxygen => Tally(8, 8, 8)
    case _ => Zero
  }

  /**
   * Only compounds and the electron carry weight; every other kind adds (0, 0, 0). Atoms
   * are neutral: as many electrons as protons.
   */
  lemma WeightFacts(k: Kind)
    ensures Weight(k) != Zero <==> IsCompound(k) || k == Electron
    ensures IsAtom(k) ==> 0 < Weight(k).protons == Weight(k).electrons
  {
    // One kind at a time: each case reads a single row of the table.
    match k
    case UpQuark =>
    case DownQuark =>
    case CharmQuark =>
    case StrangeQuark =>
    case TopQuark =>
    case BottomQuark =>
    case Electron =>
    case ElectronNeutrino =>
    case Photon =>
    case Gluon =>
    case WBoson =>
    case ZBoson =>
    case Proton =>
    case Neutron =>
    case Hydrogen =>
    case Deuterium =>
    case Tritium =>
    case Helium =>
    case Lithium =>
    case Beryllium =>
    case Boron =>
    case Carbon =>
    case Nitrogen =>
    case Oxygen =>
    case Fluorine =>
    case Neon =>
    case Sodium =>
    case Magnesium =>
    case Aluminium =>
    case Silicon =>
    case Phosphorus =>
    case Sulfur =>
    case Chlorine =>
    case Argon =>
    case PionPlus =>
    case PionMinus =>
    case LambdaBaryon =>
    case JPsiMeson =>
  }

  /** The distance test `Math.sqrt(dx * dx + dy * dy) < 100`, stated without the square root. */
  predicate InRange(a: Particle, b: Particle) {
    var dx := a.x - b.x;
    var dy := a.y - b.y;
    dx * dx + dy * dy < 10000.0
  }

  /** The counts of a list of particles: the sum of their weights. */
  function Total(s: seq<Particle>): Tally {
    if s == [] then Zero else Total(s[..|s| - 1]).Plus(Weight(s[|s| - 1].kind))
  }

  /** Appending a particle adds its weight to the counts. */
  lemma TotalSnoc(s: seq<Particle>, p: Particle)
    ensures Total(s + [p]) == Total(s).Plus(Weight(p.kind))
  {
    assert (s + [p])[..|s|] == s;
  }

  /** A single particle counts for its own weight. */
  lemma TotalSingleton(p: Particle)
    ensures Total([p]) == Weight(p.kind)
  {
    assert [p][..0] == [];
    PlusZero(Weight(p.kind));
  }

  lemma PlusZero(t: Tally)
    ensures Zero.Plus(t) == t
  {
  }

  // ---------------------------------------------------------------------------------------
  // Neighbourhood gathering (getNearbyComposition)
  // ---------------------------------------------------------------------------------------

  /** What the neighbourhood filter keeps of the first `n` particles, for the one at `di`. */
  function NearbyPrefix(ps: seq<Particle>, di: nat, n: nat): seq<Particle>
    requires di < |ps| && n <= |ps|
  {
    if n == 0 then []
    else
      NearbyPrefix(ps, di, n - 1) +
      (if n - 1 == di || InRange(ps[di], ps[n - 1]) then [ps[n - 1]] else [])
  }

  /** The nearby list: the dragged particle and every particle in range of it; empty for a missing index. */
  function Nearby(ps: seq<Particle>, di: int): seq<Particle> {
    if 0 <= di < |ps| then NearbyPrefix(ps, di, |ps|) else []
  }

  /** Every particle is within range of itself. */
  lemma InRangeOfSelf(p: Particle)
    ensures InRange(p, p)
  {
    assert p.x - p.x == 0.0 && p.y - p.y == 0.0;
  }

  /** One step of the neighbourhood filter: the next particle is kept exactly when it is in range. */
  lemma NearbyStep(ps: seq<Particle>, di: nat, n: nat)
    requires di < |ps| && 0 < n <= |ps|
    ensures InRange(ps[di], ps[n - 1]) ==> NearbyPrefix(ps, di, n) == NearbyPrefix(ps, di, n - 1) + [ps[n - 1]]
    ensures !InRange(ps[di], ps[n - 1]) ==> NearbyPrefix(ps, di, n) == NearbyPrefix(ps, di, n - 1)
  {
    InRangeOfSelf(ps[di]);
  }

  /** How many of the first `n` particles lie within range of the one at `di` (itself included). */
  function InRangeCount(ps: seq<Particle>, di: nat, n: nat): nat
    requires di < |ps| && n <= |ps|
  {
    if n == 0 then 0 else InRangeCount(ps, di, n - 1) + (if InRange(ps[di], ps[n - 1]) then 1 else 0)
  }

  lemma {:induction false} NearbyPrefixLength(ps: seq<Particle>, di: nat, n: nat)
    requires di < |ps| && n <= |ps|
    ensures |NearbyPrefix(ps, di, n)| == InRangeCount(ps, di, n)
  {
    if n > 0 {
      NearbyPrefixLength(ps, di, n - 1);
      NearbyStep(ps, di, n);
    }
  }

  lemma {:induction false} NearbyPrefixOrder(ps: seq<Particle>, di: nat, n: nat)
    requires di < |ps| && n <= |ps|
    ensures IsSubsequence(NearbyPrefix(ps, di, n), ps[..n])
  {
    if n > 0 {
      NearbyPrefixOrder(ps, di, n - 1);
      NearbyStep(ps, di, n);
      var prev, last := NearbyPrefix(ps, di, n - 1), ps[n - 1];
      assert ps[..n] == ps[..n - 1] + [last];
      if InRange(ps[di], last) {
        SubsequenceExtendBoth(prev, ps[..n - 1], last);
      } else {
        SubsequenceExtend(prev, ps[..n - 1], last);
      }
    }
  }

  lemma {:induction false} NearbyPrefixMembers(ps: seq<Particle>, di: nat, n: nat)
    requires di < |ps| && n <= |ps|
    ensures forall q :: q in NearbyPrefix(ps, di, n) <==> q in ps[..n] && InRange(ps[di], q)
  {
    if n > 0 {
      NearbyPrefixMembers(ps, di, n - 1);
      NearbyStep(ps, di, n);
      var prev, last := NearbyPrefix(ps, di, n - 1), ps[n - 1];
      assert ps[..n] == ps[..n - 1] + [last];
      forall q ensures q in NearbyPrefix(ps, di, n) <==> q in ps[..n] && InRange(ps[di], q) {
        assert q in ps[..n] <==> q in ps[..n - 1] || q == last;
        if InRange(ps[di], last) {
          assert q in prev + [last] <==> q in prev || q == last;
        }
      }
    }
  }

  /**
   * For a valid index the nearby list is an order-preserving sub-list of the particles that
   * holds the dragged particle and exactly the particles within range of it (the dragged one
   * is always within range of itself), each index in range contributing one entry; for a
   * missing index it is empty and all counts are 0.
   */
  lemma NearbySpec(ps: seq<Particle>, di: int)
    ensures !(0 <= di < |ps|) ==> Nearby(ps, di) == [] && Total(Nearby(ps, di)) == Zero
    ensures 0 <= di < |ps| ==>
      && IsSubsequence(Nearby(ps, di), ps)
      && ps[di] in Nearby(ps, di)
      && (forall q :: q in Nearby(ps, di) <==> q in ps && InRange(ps[di], q))
      && |Nearby(ps, di)| == InRangeCount(ps, di, |ps|)
  {
    if 0 <= di < |ps| {
      NearbyPrefixOrder(ps, di, |ps|);
      NearbyPrefixMembers(ps, di, |ps|);
      NearbyPrefixLength(ps, di, |ps|);
      assert ps[..|ps|] == ps;
      InRangeOfSelf(ps[di]);
    }
  }

  /**
   * `getNearbyComposition`: filters the particles in range of the one at `di`, then folds
   * their kinds into (protons, neutrons, electrons) counts.
   */
  method GetNearbyComposition(ps: seq<Particle>, di: int) returns (nearby: seq<Particle>, counts: Tally)
    ensures nearby == Nearby(ps, di)
    ensures counts == Total(nearby)
  {
    if !(0 <= di < |ps|) {
      return [], Zero;
    }
    nearby := FilterNearby(ps, di);
    counts := CountComposition(nearby);
  }

  /** The `filter` of `getNearbyComposition`: keeps the dragged particle and every one in range of it. */
  method FilterNearby(ps: seq<Particle>, di: nat) returns (nearby: seq<Particle>)
    requires di < |ps|
    ensures nearby == NearbyPrefix(ps, di, |ps|)
  {
    var dragged := ps[di];
    nearby := [];
    var i := 0;
    while i < |ps|
      invariant 0 <= i <= |ps|
      invariant nearby == NearbyPrefix(ps, di, i)
    {
      NearbyStep(ps, di, i + 1);
      if i == di || InRange(dragged, ps[i]) {
        nearby := nearby + [ps[i]];
      }
      i := i + 1;
    }
  }

  /** The `forEach` of `getNearbyComposition`: adds up the weights of the nearby particles. */
  method CountComposition(nearby: seq<Particle>) returns (counts: Tally)
    ensures counts == Total(nearby)
  {
    counts := Zero;
    var j := 0;
    while j < |nearby|
      invariant 0 <= j <= |nearby|
      invariant counts == Total(nearby[..j])
    {
      // The thirteen tests of the source read one row of the weight table each.
      var p := nearby[j];
      assert nearby[..j + 1] == nearby[..j] + [p];
      TotalSnoc(nearby[..j], p);
      counts := counts.Plus(Weight(p.kind));
      j := j + 1;
    }
    assert nearby[..j] == nearby;
  }

  // ---------------------------------------------------------------------------------------
  // The two matchers
  // ---------------------------------------------------------------------------------------

  /** A matcher's result: the kind formed and the particles it consumes. */
  datatype Match = Match(kind: Kind, combined: seq<Particle>)

  /** The if-chain of `checkAtomCombination` over the counts and the length of the nearby list. */
  function AtomRule(t: Tally, size: nat): (r: Option<Kind>)
    ensures r.Some? ==> IsAtom(r.value) && Weight(r.value) == t
  {
    if t == Tally(1, 0, 1) && size == 2 then Some(Hydrogen)
    else if t == Tally(1, 1, 1) then Some(Deuterium)
    else if t == Tally(1, 2, 1) then Some(Tritium)
    else if t == Tally(2, 2, 2) && size == 6 then Some(Helium)
    else if t == Tally(3, 4, 3) then Some(Lithium)
    else if t == Tally(4, 5, 4) then Some(Beryllium)
    else if t == Tally(5, 6, 5) then Some(Boron)
    else if t == Tally(6, 6, 6) then Some(Carbon)
    else if t == Tally(7, 7, 7) then Some(Nitrogen)
    else if t == Tally(8, 8, 8) then Some(Oxygen)
    else None
  }

  /**
   * The atom recipes stated per atom: its counts must equal its own weight; Hydrogen also
   * needs exactly 2 particles nearby and Helium exactly 6; the others have no size condition.
   */
  predicate AtomRecipe(k: Kind, t: Tally, size: nat) {
    && IsAtom(k)
    && t == Weight(k)
    && (k == Hydrogen ==> size == 2)
    && (k == Helium ==> size == 6)
  }

  /** The if-chain forms atom `k` exactly when `k`'s recipe holds. */
  lemma AtomRuleExact(t: Tally, size: nat, k: Kind)
    ensures AtomRule(t, size) == Some(k) <==> AtomRecipe(k, t, size)
  {
    if AtomRecipe(k, t, size) {
      match k
      case Hydrogen =>
      case Deuterium =>
      case Tritium =>
      case Helium =>
      case Lithium =>
      case Beryllium =>
      case Boron =>
      case Carbon =>
      case Nitrogen =>
      case Oxygen =>
      case _ =>
    }
  }

  /** The if-chain forms nothing exactly when no atom's recipe holds. */
  lemma AtomRuleNone(t: Tally, size: nat)
    ensures AtomRule(t, size) == None <==> forall k :: !AtomRecipe(k, t, size)
  {
    if AtomRule(t, size) == None {
      forall k ensures !AtomRecipe(k, t, size) {
        AtomRuleExact(t, size, k);
      }
    } else {
      AtomRuleExact(t, size, AtomRule(t, size).value);
    }
  }

  /** `checkAtomCombination`: an atom forms from the whole nearby list, whose counts equal its weight. */
  function CheckAtomCombination(ps: seq<Particle>, di: int): (r: Option<Match>)
    ensures r.Some? ==> 0 <= di < |ps| && IsAtom(r.value.kind) && r.value.combined == Nearby(ps, di)
    ensures r.Some? ==> Weight(r.value.kind) == Total(r.value.combined)
  {
    var nearby := Nearby(ps, di);
    match AtomRule(Total(nearby), |nearby|)
    case Some(k) => Some(Match(k, nearby))
    case None => None
  }

  /** The atom matcher's result is decided by the counts and the size of the nearby list alone. */
  lemma CheckAtomCombinationExact(ps: seq<Particle>, di: int, k: Kind, c: seq<Particle>)
    ensures CheckAtomCombination(ps, di) == Some(Match(k, c)) <==>
      c == Nearby(ps, di) && AtomRecipe(k, Total(c), |c|)
  {
    AtomRuleExact(Total(Nearby(ps, di)), |Nearby(ps, di)|, k);
  }

  /**
   * A particle with nothing in range is matched on its own weight: an atom other than Hydrogen
   * and Helium (whose recipes need 2 and 6 particles) re-forms as a fresh compound of its own
   * kind that consumes it, and every other kind forms nothing.
   */
  lemma LoneParticleAtom(ps: seq<Particle>, di: int)
    requires 0 <= di < |ps| && Nearby(ps, di) == [ps[di]]
    ensures var k := ps[di].kind;
      CheckAtomCombination(ps, di) ==
        if IsAtom(k) && k != Hydrogen && k != Helium then Some(Match(k, [ps[di]])) else None
  {
    TotalSingleton(ps[di]);
    AtomRuleOwnWeight(ps[di].kind);
  }

  /** The atom rule applied to one particle's own weight, kind by kind. */
  lemma AtomRuleOwnWeight(k: Kind)
    ensures AtomRule(Weight(k), 1) == if IsAtom(k) && k != Hydrogen && k != Helium then Some(k) else None
  {
    if IsAtom(k) && k != Hydrogen && k != Helium {
      AtomRuleExact(Weight(k), 1, k);
    } else if Weight(k) == Zero {
      assert AtomRule(Zero, 1) == None;
    } else {
      WeightFacts(k);
      assert k == Proton || k == Neutron || k == Electron || k == Hydrogen || k == Helium;
    }
  }

  /** Particles in range of the one at `di`, other than it, that are not a Proton or Neutron. */
  function QuarkNeighboursPrefix(ps: seq<Particle>, di: nat, n: nat): seq<Particle>
    requires di < |ps| && n <= |ps|
  {
    if n == 0 then []
    else
      QuarkNeighboursPrefix(ps, di, n - 1) +
      (if n - 1 != di && !IsNucleon(ps[n - 1].kind) && InRange(ps[di], ps[n - 1]) then [ps[n - 1]] else [])
  }

  /** The `nearbyQuarks` list; despite its name it admits every kind but Proton and Neutron. */
  function QuarkNeighbours(ps: seq<Particle>, di: nat): seq<Particle>
    requires di < |ps|
  {
    QuarkNeighboursPrefix(ps, di, |ps|)
  }

  /** Whether the quark matcher takes the particle at `j` as a neighbour of the one at `di`. */
  predicate QuarkCandidate(ps: seq<Particle>, di: nat, j: nat)
    requires di < |ps| && j < |ps|
  {
    j != di && !IsNucleon(ps[j].kind) && InRange(ps[di], ps[j])
  }

  lemma QuarkNeighboursStep(ps: seq<Particle>, di: nat, n: nat)
    requires di < |ps| && 0 < n <= |ps|
    ensures QuarkCandidate(ps, di, n - 1) ==>
      QuarkNeighboursPrefix(ps, di, n) == QuarkNeighboursPrefix(ps, di, n - 1) + [ps[n - 1]]
    ensures !QuarkCandidate(ps, di, n - 1) ==>
      QuarkNeighboursPrefix(ps, di, n) == QuarkNeighboursPrefix(ps, di, n - 1)
  {
  }

  lemma {:induction false} QuarkNeighboursOrder(ps: seq<Particle>, di: nat, n: nat)
    requires di < |ps| && n <= |ps|
    ensures IsSubsequence(QuarkNeighboursPrefix(ps, di, n), ps[..n])
  {
    if n > 0 {
      QuarkNeighboursOrder(ps, di, n - 1);
      QuarkNeighboursStep(ps, di, n);
      var prev, last := QuarkNeighboursPrefix(ps, di, n - 1), ps[n - 1];
      assert ps[..n] == ps[..n - 1] + [last];
      if QuarkCandidate(ps, di, n - 1) {
        SubsequenceExtendBoth(prev, ps[..n - 1], last);
      } else {
        SubsequenceExtend(prev, ps[..n - 1], last);
      }
    }
  }

  /** How many of the first `n` indices the quark matcher takes as neighbours of `di`. */
  function CandidateCount(ps: seq<Particle>, di: nat, n: nat): nat
    requires di < |ps| && n <= |ps|
  {
    if n == 0 then 0 else CandidateCount(ps, di, n - 1) + (if QuarkCandidate(ps, di, n - 1) then 1 else 0)
  }

  lemma {:induction false} QuarkNeighboursLength(ps: seq<Particle>, di: nat, n: nat)
    requires di < |ps| && n <= |ps|
    ensures |QuarkNeighboursPrefix(ps, di, n)| == CandidateCount(ps, di, n)
  {
    if n > 0 {
      QuarkNeighboursLength(ps, di, n - 1);
      QuarkNeighboursStep(ps, di, n);
    }
  }

  lemma {:induction false} QuarkNeighboursMembers(ps: seq<Particle>, di: nat, n: nat)
    requires di < |ps| && n <= |ps|
    ensures forall q :: q in QuarkNeighboursPrefix(ps, di, n) ==>
      exists j :: 0 <= j < n && QuarkCandidate(ps, di, j) && q == ps[j]
  {
    if n > 0 {
      QuarkNeighboursMembers(ps, di, n - 1);
      QuarkNeighboursStep(ps, di, n);
      var prev := QuarkNeighboursPrefix(ps, di, n - 1);
      forall q | q in QuarkNeighboursPrefix(ps, di, n)
        ensures exists j :: 0 <= j < n && QuarkCandidate(ps, di, j) && q == ps[j]
      {
        if q in prev {
          var j :| 0 <= j < n - 1 && QuarkCandidate(ps, di, j) && q == ps[j];
          assert 0 <= j < n;
        } else {
          assert QuarkCandidate(ps, di, n - 1) && q == ps[n - 1];
        }
      }
    }
  }

  lemma {:induction false} QuarkNeighboursComplete(ps: seq<Particle>, di: nat, n: nat)
    requires di < |ps| && n <= |ps|
    ensures forall j :: 0 <= j < n && QuarkCandidate(ps, di, j) ==> ps[j] in QuarkNeighboursPrefix(ps, di, n)
  {
    if n > 0 {
      QuarkNeighboursComplete(ps, di, n - 1);
      QuarkNeighboursStep(ps, di, n);
      var prev := QuarkNeighboursPrefix(ps, di, n - 1);
      forall j | 0 <= j < n && QuarkCandidate(ps, di, j) ensures ps[j] in QuarkNeighboursPrefix(ps, di, n) {
        if j < n - 1 {
          assert ps[j] in prev;
          if QuarkCandidate(ps, di, n - 1) {
            assert ps[j] in prev + [ps[n - 1]];
          }
        } else {
          assert ps[j] in prev + [ps[n - 1]];
        }
      }
    }
  }

  /**
   * The quark matcher's neighbours are an order-preserving sub-list of the particles holding
   * exactly the particles at other indices that are in range and are not a Proton or Neutron,
   * one entry per such index; the dragged index itself never contributes.
   */
  lemma QuarkNeighboursSpec(ps: seq<Particle>, di: nat)
    requires di < |ps|
    ensures IsSubsequence(QuarkNeighbours(ps, di), ps)
    ensures forall q :: q in QuarkNeighbours(ps, di) ==>
      exists j :: 0 <= j < |ps| && QuarkCandidate(ps, di, j) && q == ps[j]
    ensures forall q :: q in QuarkNeighbours(ps, di) ==> !IsNucleon(q.kind) && InRange(ps[di], q)
    ensures forall j :: 0 <= j < |ps| && j != di && !IsNucleon(ps[j].kind) && InRange(ps[di], ps[j]) ==>
      ps[j] in QuarkNeighbours(ps, di)
    ensures |QuarkNeighbours(ps, di)| == CandidateCount(ps, di, |ps|)
  {
    QuarkNeighboursOrder(ps, di, |ps|);
    QuarkNeighboursMembers(ps, di, |ps|);
    QuarkNeighboursComplete(ps, di, |ps|);
    QuarkNeighboursLength(ps, di, |ps|);
    assert ps[..|ps|] == ps;
    forall q | q in QuarkNeighbours(ps, di) ensures !IsNucleon(q.kind) && InRange(ps[di], q) {
      var j :| 0 <= j < |ps| && QuarkCandidate(ps, di, j) && q == ps[j];
    }
  }

  /** How many particles of a list are of kind `k`. */
  function CountKind(s: seq<Particle>, k: Kind): nat {
    if s == [] then 0
    else CountKind(s[..|s| - 1], k) + (if s[|s| - 1].kind == k then 1 else 0)
  }

  /** The up/down decision of `checkQuarkCombination`. */
  function QuarkRule(up: nat, down: nat): (r: Option<Kind>)
    ensures r == Some(Proton) <==> up == 2 && down == 1
    ensures r == Some(Neutron) <==> up == 1 && down == 2
    ensures r.Some? ==> IsNucleon(r.value)
  {
    if up == 2 && down == 1 then Some(Proton)
    else if up == 1 && down == 2 then Some(Neutron)
    else None
  }

  /** The dragged quark and its neighbours: no Proton or Neutron among them. */
  lemma QuarkCandidatesAreNotNucleons(ps: seq<Particle>, di: nat)
    requires di < |ps| && (ps[di].kind == UpQuark || ps[di].kind == DownQuark)
    ensures forall q :: q in [ps[di]] + QuarkNeighbours(ps, di) ==> !IsNucleon(q.kind)
  {
    QuarkNeighboursSpec(ps, di);
    forall q | q in [ps[di]] + QuarkNeighbours(ps, di) ensures !IsNucleon(q.kind) {
      assert q == ps[di] || q in QuarkNeighbours(ps, di);
    }
  }

  /**
   * `checkQuarkCombination`: a dragged up or down quark with at least two non-nucleon
   * neighbours forms a Proton (2 up, 1 down) or a Neutron (1 up, 2 down); the dragged quark
   * comes first in what is consumed and no nucleon is ever consumed.
   */
  function CheckQuarkCombination(ps: seq<Particle>, di: int): (r: Option<Match>)
    ensures r.Some? ==> 0 <= di < |ps| && (ps[di].kind == UpQuark || ps[di].kind == DownQuark)
    ensures r.Some? ==> IsNucleon(r.value.kind) && |r.value.combined| >= 3 && r.value.combined[0] == ps[di]
    ensures r.Some? ==> forall q :: q in r.value.combined ==> !IsNucleon(q.kind)
    ensures r.Some? ==>
      var up, down := CountKind(r.value.combined, UpQuark), CountKind(r.value.combined, DownQuark);
      (r.value.kind == Proton && up == 2 && down == 1) || (r.value.kind == Neutron && up == 1 && down == 2)
  {
    if !(0 <= di < |ps|) then None
    else if ps[di].kind != UpQuark && ps[di].kind != DownQuark then None
    else
      var neighbours := QuarkNeighbours(ps, di);
      if |neighbours| < 2 then None
      else
        QuarkCandidatesAreNotNucleons(ps, di);
        var all := [ps[di]] + neighbours;
        var kind := QuarkRule(CountKind(all, UpQuark), CountKind(all, DownQuark));
        if kind.Some? then Some(Match(kind.value, all)) else None
  }

  /**
   * Both directions of the quark recipe: a match happens exactly under the conditions above,
   * and it needs at least two neighbour indices other than the dragged one.
   */
  lemma CheckQuarkCombinationExact(ps: seq<Particle>, di: int, k: Kind, c: seq<Particle>)
    ensures CheckQuarkCombination(ps, di) == Some(Match(k, c)) <==>
      && 0 <= di < |ps|
      && (ps[di].kind == UpQuark || ps[di].kind == DownQuark)
      && |QuarkNeighbours(ps, di)| >= 2
      && c == [ps[di]] + QuarkNeighbours(ps, di)
      && ((k == Proton && CountKind(c, UpQuark) == 2 && CountKind(c, DownQuark) == 1) ||
          (k == Neutron && CountKind(c, UpQuark) == 1 && CountKind(c, DownQuark) == 2))
    ensures CheckQuarkCombination(ps, di).Some? ==> 0 <= di < |ps| && CandidateCount(ps, di, |ps|) >= 2
  {
    if CheckQuarkCombination(ps, di).Some? {
      QuarkNeighboursLength(ps, di, |ps|);
    }
  }

  // ---------------------------------------------------------------------------------------
  // Dispatch (the first half of checkCombination)
  // ---------------------------------------------------------------------------------------

  /**
   * The match `checkCombination` acts on: the quark recipe is tried first and the atom
   * recipes only when it yields nothing. A nucleon comes from the quark matcher and any other
   * result from the atom matcher; every result is a compound that consumes the dragged particle.
   */
  function Resolve(ps: seq<Particle>, di: int): (r: Option<Match>)
    ensures r.None? <==> CheckQuarkCombination(ps, di).None? && CheckAtomCombination(ps, di).None?
    ensures r.Some? ==> (IsNucleon(r.value.kind) <==> CheckQuarkCombination(ps, di).Some?)
    ensures r.Some? ==> 0 <= di < |ps| && IsCompound(r.value.kind) && ps[di] in r.value.combined
    ensures CheckQuarkCombination(ps, di).Some? ==> r == CheckQuarkCombination(ps, di)
    ensures CheckQuarkCombination(ps, di).None? ==> r == CheckAtomCombination(ps, di)
  {
    var quark := CheckQuarkCombination(ps, di);
    if quark.Some? then quark
    else
      NearbySpec(ps, di);
      CheckAtomCombination(ps, di)
  }

  /** Two up quarks, a down quark and an electron, all within range of the first up quark. */
  function BystanderExample(): seq<Particle> {
    [Particle("u1", UpQuark, 0.0, 0.0, 1.0, None),
     Particle("u2", UpQuark, 10.0, 0.0, 1.0, None),
     Particle("d1", DownQuark, 0.0, 10.0, 1.0, None),
     Particle("e1", Electron, 10.0, 10.0, 1.0, None)]
  }

  /** The electron counts as a neighbour of the dragged up quark, like the two quarks. */
  lemma BystanderNeighbours()
    ensures QuarkNeighbours(BystanderExample(), 0) == BystanderExample()[1..]
  {
    var ps := BystanderExample();
    QuarkNeighboursStep(ps, 0, 1);
    QuarkNeighboursStep(ps, 0, 2);
    QuarkNeighboursStep(ps, 0, 3);
    QuarkNeighboursStep(ps, 0, 4);
    assert QuarkCandidate(ps, 0, 1) && QuarkCandidate(ps, 0, 2) && QuarkCandidate(ps, 0, 3);
  }

  lemma BystanderCounts()
    ensures CountKind(BystanderExample(), UpQuark) == 2 && CountKind(BystanderExample(), DownQuark) == 1
  {
    var ps := BystanderExample();
    assert ps[..3][..2] == ps[..2] && ps[..2][..1] == ps[..1] && ps[..1][..0] == [];
    assert CountKind(ps[..1], UpQuark) == 1 && CountKind(ps[..1], DownQuark) == 0;
    assert CountKind(ps[..2], UpQuark) == 2 && CountKind(ps[..2], DownQuark) == 0;
    assert CountKind(ps[..3], UpQuark) == 2 && CountKind(ps[..3], DownQuark) == 1;
    assert ps[..4] == ps;
  }

  /**
   * Both matchers consume every particle in range, not only the ingredients: an electron
   * sitting next to two up quarks and a down quark disappears into the Proton they form.
   */
  lemma QuarkMatchConsumesBystander()
    ensures Resolve(BystanderExample(), 0) == Some(Match(Proton, BystanderExample()))
  {
    var ps := BystanderExample();
    BystanderNeighbours();
    BystanderCounts();
    assert [ps[0]] + ps[1..] == ps;
  }
}
