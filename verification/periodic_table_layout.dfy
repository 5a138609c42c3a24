/**
 * The periodic-table panel's constant tables: the atomic-number lookup, the 3 x 18 grid of
 * the first three periods, the two f-block series and the list of isotopes and special
 * particles, with the invariants the panel relies on when it lays them out.
 */
module PeriodicLayout {
  import opened Particles

  // ---------------------------------------------------------------------------------------
  // The atomic-number table
  // ---------------------------------------------------------------------------------------

  /** Atomic number to particle kind, for the eighteen elements of periods 1 to 3. */
  const AtomicNumberToType: map<int, Kind> := map[
    1 := Hydrogen, 2 := Helium, 3 := Lithium, 4 := Beryllium, 5 := Boron, 6 := Carbon,
    7 := Nitrogen, 8 := Oxygen, 9 := Fluorine, 10 := Neon, 11 := Sodium, 12 := Magnesium,
    13 := Aluminium, 14 := Silicon, 15 := Phosphorus, 16 := Sulfur, 17 := Chlorine, 18 := Argon]

  /** The panel's lookup `ATOMIC_NUMBER_TO_TYPE[n]`: a kind, or nothing for an unlisted number. */
  function TypeOf(n: int): (r: Option<Kind>)
    ensures r.Some? <==> 1 <= n <= 18
    ensures r.Some? ==> r.value == AtomicNumberToType[n]
  {
    if n in AtomicNumberToType then Some(AtomicNumberToType[n]) else None
  }

  /** The reverse lookup, written out independently of the table. */
  function AtomicNumberOf(k: Kind): Option<int> {
    match k
    case Hydrogen => Some(1)
    case Helium => Some(2)
    case Lithium => Some(3)
    case Beryllium => Some(4)
    case Boron => Some(5)
    case Carbon => Some(6)
    case Nitrogen => Some(7)
    case Oxygen => Some(8)
    case Fluorine => Some(9)
    case Neon => Some(10)
    case Sodium => Some(11)
    case Magnesium => Some(12)
    case Aluminium => Some(13)
    case Silicon => Some(14)
    case Phosphorus => Some(15)
    case Sulfur => Some(16)
    case Chlorine => Some(17)
    case Argon => Some(18)
    case _ => None
  }

  /** The keys of the table are exactly 1..18. */
  lemma TableKeys()
    ensures forall n :: n in AtomicNumberToType <==> 1 <= n <= 18
  {
  }

  /**
   * The table and its reverse agree both ways, so the table maps its eighteen keys to
   * eighteen distinct kinds.
   */
  lemma TableRoundTrip(n: int, k: Kind)
    ensures TypeOf(n) == Some(k) <==> AtomicNumberOf(k) == Some(n)
  {
    if TypeOf(n) == Some(k) {
      TableForward(n);
    }
  }

  /** Each entry of the table reads back to its own key. */
  lemma TableForward(n: int)
    requires 1 <= n <= 18
    ensures AtomicNumberOf(AtomicNumberToType[n]) == Some(n)
  {
  }

  /** No two atomic numbers share a kind. */
  lemma TableInjective(n: int, m: int)
    requires n in AtomicNumberToType && m in AtomicNumberToType
    requires AtomicNumberToType[n] == AtomicNumberToType[m]
    ensures n == m
  {
    TableRoundTrip(n, AtomicNumberToType[n]);
    TableRoundTrip(m, AtomicNumberToType[m]);
  }

  // ---------------------------------------------------------------------------------------
  // The grid
  // ---------------------------------------------------------------------------------------

  /** The grid of periods 1 to 3, row by row; 0 is an empty spacer cell. */
  const PeriodicTableLayout: seq<seq<int>> := [
    [1, 0, 0, 0, 0, 0, 0, 0, 0, 0, 0, 0, 0, 0, 0, 0, 0, 2],
    [3, 4, 0, 0, 0, 0, 0, 0, 0, 0, 0, 0, 5, 6, 7, 8, 9, 10],
    [11, 12, 0, 0, 0, 0, 0, 0, 0, 0, 0, 0, 13, 14, 15, 16, 17, 18]]

  /** The placeholder codes the grid's legend reserves for the two f-block series. */
  const LanthanidePlaceholder := -1
  const ActinidePlaceholder := -2

  /** `rows.flat()`: the cells in row-major order, the order the panel fills its grid in. */
  function Flat(rows: seq<seq<int>>): seq<int> {
    if rows == [] then [] else rows[0] + Flat(rows[1..])
  }

  /**
   * The grid has three rows of eighteen cells, matching the panel's eighteen-column grid, and
   * flattening it lays the three periods end to end.
   */
  lemma LayoutShape()
    ensures |PeriodicTableLayout| == 3
    ensures forall r :: 0 <= r < 3 ==> |PeriodicTableLayout[r]| == 18
    ensures Flat(PeriodicTableLayout) == PeriodicTableLayout[0] + PeriodicTableLayout[1] + PeriodicTableLayout[2]
    ensures |Flat(PeriodicTableLayout)| == 54
  {
    var g := PeriodicTableLayout;
    assert g[1..][1..] == g[2..] && g[2..][1..] == [];
    assert Flat(g[2..]) == g[2] + Flat([]);
    assert Flat(g[1..]) == g[1] + Flat(g[2..]);
    assert Flat(g) == g[0] + Flat(g[1..]);
  }

  /** The panel's cell at position `18 * r + c` of the flattened grid is cell (r, c) of the grid. */
  lemma FlatCell(r: int, c: int)
    requires 0 <= r < 3 && 0 <= c < 18
    ensures Flat(PeriodicTableLayout)[18 * r + c] == PeriodicTableLayout[r][c]
  {
    LayoutShape();
  }

  /** Where the grid places element `n`: its period (row) and its group (column), counted from 0. */
  function CellOf(n: int): (int, int)
    requires 1 <= n <= 18
  {
    if n == 1 then (0, 0)
    else if n == 2 then (0, 17)
    else if n <= 4 then (1, n - 3)
    else if n <= 10 then (1, n + 7)
    else if n <= 12 then (2, n - 11)
    else (2, n - 1)
  }

  /** Every cell is a spacer or holds an element of 1..18, and that element's place is this cell. */
  lemma LayoutCells(r: int, c: int)
    requires 0 <= r < 3 && 0 <= c < 18
    ensures var x := PeriodicTableLayout[r][c];
      x == 0 || (1 <= x <= 18 && CellOf(x) == (r, c))
  {
    var g := PeriodicTableLayout;
    if r == 0 {
      assert g[0][..17] == [1, 0, 0, 0, 0, 0, 0, 0, 0, 0, 0, 0, 0, 0, 0, 0, 0];
    }
  }

  /** Each element's place holds that element. */
  lemma LayoutPlaces(n: int)
    requires 1 <= n <= 18
    ensures 0 <= CellOf(n).0 < 3 && 0 <= CellOf(n).1 < 18
    ensures PeriodicTableLayout[CellOf(n).0][CellOf(n).1] == n
  {
  }

  /**
   * In the flattened grid the panel walks, each element 1..18 sits at exactly one position,
   * that of its place; no cell holds a placeholder code, and every cell is a spacer or a
   * number the atomic-number table names.
   */
  lemma LayoutPlacesEachElementOnce(n: int, i: int)
    requires 1 <= n <= 18 && 0 <= i < 54
    ensures Flat(PeriodicTableLayout)[i] == n <==> i == 18 * CellOf(n).0 + CellOf(n).1
    ensures Flat(PeriodicTableLayout)[i] == 0 || TypeOf(Flat(PeriodicTableLayout)[i]).Some?
    ensures Flat(PeriodicTableLayout)[i] != LanthanidePlaceholder
    ensures Flat(PeriodicTableLayout)[i] != ActinidePlaceholder
  {
    var r, c := i / 18, i % 18;
    assert i == 18 * r + c;
    FlatCell(r, c);
    LayoutCells(r, c);
    LayoutPlaces(n);
  }

  // ---------------------------------------------------------------------------------------
  // The f-block series
  // ---------------------------------------------------------------------------------------

  /** The lanthanides, 57 to 71. */
  const LanthanideSeries: seq<int> := seq(15, i => 57 + i)

  /** The actinides, 89 to 103. */
  const ActinideSeries: seq<int> := seq(15, i => 89 + i)

  /** The lanthanide series runs up one by one from 57 to 71 and holds exactly those numbers. */
  lemma LanthanideRange()
    ensures |LanthanideSeries| == 15 && LanthanideSeries[0] == 57 && LanthanideSeries[14] == 71
    ensures forall i :: 0 <= i < 14 ==> LanthanideSeries[i + 1] == LanthanideSeries[i] + 1
    ensures forall n :: n in LanthanideSeries <==> 57 <= n <= 71
  {
    forall n | 57 <= n <= 71 ensures n in LanthanideSeries {
      assert LanthanideSeries[n - 57] == n;
    }
  }

  /** The actinide series runs up one by one from 89 to 103 and holds exactly those numbers. */
  lemma ActinideRange()
    ensures |ActinideSeries| == 15 && ActinideSeries[0] == 89 && ActinideSeries[14] == 103
    ensures forall i :: 0 <= i < 14 ==> ActinideSeries[i + 1] == ActinideSeries[i] + 1
    ensures forall n :: n in ActinideSeries <==> 89 <= n <= 103
  {
    forall n | 89 <= n <= 103 ensures n in ActinideSeries {
      assert ActinideSeries[n - 89] == n;
    }
  }

  /**
   * No number of either series has an entry in the table: the panel draws those cells
   * without a kind.
   */
  lemma SeriesHaveNoType()
    ensures forall n :: n in LanthanideSeries ==> TypeOf(n).None?
    ensures forall n :: n in ActinideSeries ==> TypeOf(n).None?
  {
    forall n | n in LanthanideSeries ensures TypeOf(n).None? {
      var i :| 0 <= i < 15 && LanthanideSeries[i] == n;
    }
    forall n | n in ActinideSeries ensures TypeOf(n).None? {
      var i :| 0 <= i < 15 && ActinideSeries[i] == n;
    }
  }

  // ---------------------------------------------------------------------------------------
  // Isotopes and special particles
  // ---------------------------------------------------------------------------------------

  /** The kinds the panel shows below the grid. */
  const IsotopeAndSpecialList: seq<Kind> :=
    [Proton, Neutron, PionPlus, PionMinus, LambdaBaryon, JPsiMeson, Deuterium, Tritium]

  /** The special list has eight entries, none of them repeated and none of them in the grid. */
  lemma SpecialListFacts()
    ensures |IsotopeAndSpecialList| == 8
    ensures forall i, j :: 0 <= i < j < 8 ==> IsotopeAndSpecialList[i] != IsotopeAndSpecialList[j]
    ensures forall k :: k in IsotopeAndSpecialList ==> AtomicNumberOf(k).None?
  {
  }

  /**
   * Every kind the combination engine can form (a nucleon or an atom) has exactly one home
   * in the panel: a grid cell or the special list, never both.
   */
  lemma EveryCompoundHasOnePlace(k: Kind)
    requires IsCompound(k)
    ensures AtomicNumberOf(k).Some? <==> k !in IsotopeAndSpecialList
  {
    SpecialListFacts();
  }
}
