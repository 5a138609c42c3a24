/** The particle kinds and the record the lab keeps for every particle on its canvas. */
module Particles {

  datatype Option<+T> = None | Some(value: T)

  /**
   * The particle types the lab names (the `PARTICLE_TYPES` table): the twelve elementary
   * particles of the palette, the two nucleons, the atoms and isotopes up to argon and the
   * special particles of the isotope list.
   */
  datatype Kind =
    | UpQuark | DownQuark | CharmQuark | StrangeQuark | TopQuark | BottomQuark
    | Electron | ElectronNeutrino | Photon | Gluon | WBoson | ZBoson
    | Proton | Neutron
    | Hydrogen | Deuterium | Tritium | Helium | Lithium | Beryllium | Boron | Carbon | Nitrogen | Oxygen
    | Fluorine | Neon | Sodium | Magnesium | Aluminium | Silicon | Phosphorus | Sulfur | Chlorine | Argon
    | PionPlus | PionMinus | LambdaBaryon | JPsiMeson

  /** Particle ids are strings built by the host from a clock reading. */
  type Id = string

  /** One `{id, type}` entry of a compound's composition list. */
  datatype Component = Component(id: Id, kind: Kind)

  /**
   * A particle on the canvas. Only compounds formed by a combination carry a composition;
   * dropped particles and disassembly products have none.
   */
  datatype Particle = Particle(
    id: Id,
    kind: Kind,
    x: real,
    y: real,
    scale: real,
    composition: Option<seq<Component>>)

  /** The two nucleons the quark matcher produces; they go to the secondary-particle registry. */
  predicate IsNucleon(k: Kind) {
    k == Proton || k == Neutron
  }

  /** The kinds the atom matcher produces; they go to the discovered-atom registry. */
  predicate IsAtom(k: Kind) {
    k == Hydrogen || k == Deuterium || k == Tritium || k == Helium || k == Lithium ||
    k == Beryllium || k == Boron || k == Carbon || k == Nitrogen || k == Oxygen
  }

  /** The `isCompound` list: kinds drawn large and offered for disassembly on double click. */
  predicate IsCompound(k: Kind) {
    k == Proton || k == Neutron || k == Hydrogen || k == Helium || k == Lithium || k == Beryllium ||
    k == Boron || k == Carbon || k == Nitrogen || k == Oxygen || k == Deuterium || k == Tritium
  }

  /** The compound list is exactly what the two matchers can produce. */
  lemma CompoundIsNucleonOrAtom(k: Kind)
    ensures IsCompound(k) <==> IsNucleon(k) || IsAtom(k)
  {
  }
}
