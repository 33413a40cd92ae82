/**
 * The left-button selection toggle, as a value: the three fields
 * `tileSelected`, `selectedTileX` and `selectedTileY` and the transition a
 * left click on a resolved tile applies to them. Both demo classes drive
 * their fields through `Click`.
 */
module Selection {
  import opened TileMath

  /** The selection fields of a demo object. */
  datatype SelState = SelState(tileSelected: bool, selectedTileX: int, selectedTileY: int)

  /** Java's field defaults: nothing selected, both indices 0. */
  function Initial(): (s: SelState)
    ensures !s.tileSelected && s.selectedTileX == 0 && s.selectedTileY == 0
  {
    SelState(false, 0, 0)
  }

  /** The state after a toggle-off: nothing selected, both indices -1. */
  function Cleared(): (s: SelState)
    ensures !s.tileSelected && s.selectedTileX == -1 && s.selectedTileY == -1
  {
    SelState(false, -1, -1)
  }

  /** The remembered indices equal `t`; `tileSelected` plays no part in the test. */
  predicate Remembers(s: SelState, t: Tile) {
    s.selectedTileX == t.x && s.selectedTileY == t.y
  }

  /**
   * A left click on tile `t`: clicking the remembered tile clears the
   * selection, clicking any other tile moves the selection there directly.
   */
  function Click(s: SelState, t: Tile): (r: SelState)
    ensures Remembers(s, t) ==> r == Cleared()
    ensures !Remembers(s, t) ==> r.tileSelected && Remembers(r, t)
  {
    if s.selectedTileX == t.x && s.selectedTileY == t.y then
      SelState(false, -1, -1)
    else
      SelState(true, t.x, t.y)
  }

  /** The clicks of `ts`, in order. */
  function Clicks(s: SelState, ts: seq<Tile>): SelState
    decreases |ts|
  {
    if ts == [] then s else Clicks(Click(s, ts[0]), ts[1..])
  }

  /**
   * The shape every state reached by a click has: selected exactly when the
   * indices name a grid tile, unselected exactly when both are -1.
   */
  predicate Settled(s: SelState) {
    && (s.tileSelected <==> InGrid(Tile(s.selectedTileX, s.selectedTileY)))
    && (!s.tileSelected <==> s.selectedTileX == -1 && s.selectedTileY == -1)
  }

  /** The invariant the demo classes keep: a selected tile lies in the grid. */
  predicate SelectionInGrid(s: SelState) {
    s.tileSelected ==> InGrid(Tile(s.selectedTileX, s.selectedTileY))
  }

  /** The initial state is the one reachable state that is not settled. */
  lemma InitialNotSettled()
    ensures !Settled(Initial())
    ensures SelectionInGrid(Initial())
  {
  }

  /** A click on a grid tile leaves a settled state, whatever the state before. */
  lemma ClickSettles(s: SelState, t: Tile)
    requires InGrid(t)
    ensures Settled(Click(s, t))
    ensures SelectionInGrid(Click(s, t))
  {
  }

  /** After one or more clicks on grid tiles the state is settled. */
  lemma {:induction false} ClicksSettle(s: SelState, ts: seq<Tile>)
    requires |ts| > 0
    requires forall i :: 0 <= i < |ts| ==> InGrid(ts[i])
    ensures Settled(Clicks(s, ts))
    decreases |ts|
  {
    ClickSettles(s, ts[0]);
    if |ts| > 1 {
      ClicksSettle(Click(s, ts[0]), ts[1..]);
    }
  }

  /** Clicks on grid tiles keep `SelectionInGrid`. */
  lemma {:induction false} ClicksKeepSelectionInGrid(s: SelState, ts: seq<Tile>)
    requires SelectionInGrid(s)
    requires forall i :: 0 <= i < |ts| ==> InGrid(ts[i])
    ensures SelectionInGrid(Clicks(s, ts))
    decreases |ts|
  {
    if ts != [] {
      ClickSettles(s, ts[0]);
      ClicksKeepSelectionInGrid(Click(s, ts[0]), ts[1..]);
    }
  }

  // ---------------------------------------------------------------------
  // The designed machine: `Unselected` or `Selected(x, y)`.

  datatype Abstract = Unselected | Selected(tile: Tile)

  /** What a state of the fields means as a state of the designed machine. */
  function View(s: SelState): Abstract {
    if s.tileSelected then Selected(Tile(s.selectedTileX, s.selectedTileY)) else Unselected
  }

  /**
   * The designed activation: from `Unselected` select the tile; from
   * `Selected` on the same tile deselect; on another tile move there.
   */
  function Activate(a: Abstract, t: Tile): (b: Abstract)
    ensures a == Unselected ==> b == Selected(t)
    ensures a == Selected(t) ==> b == Unselected
    ensures a.Selected? && a.tile != t ==> b == Selected(t)
  {
    match a
    case Unselected => Selected(t)
    case Selected(u) => if u == t then Unselected else Selected(t)
  }

  function Activations(a: Abstract, ts: seq<Tile>): Abstract
    decreases |ts|
  {
    if ts == [] then a else Activations(Activate(a, ts[0]), ts[1..])
  }

  /** From a settled state, a click on a grid tile is the designed activation. */
  lemma ClickRefinesActivate(s: SelState, t: Tile)
    requires Settled(s)
    requires InGrid(t)
    ensures View(Click(s, t)) == Activate(View(s), t)
    ensures Settled(Click(s, t))
  {
  }

  /** From a settled state, every run of clicks on grid tiles follows the designed machine. */
  lemma {:induction false} ClicksRefineActivations(s: SelState, ts: seq<Tile>)
    requires Settled(s)
    requires forall i :: 0 <= i < |ts| ==> InGrid(ts[i])
    ensures View(Clicks(s, ts)) == Activations(View(s), ts)
    decreases |ts|
  {
    if ts != [] {
      ClickRefinesActivate(s, ts[0]);
      ClicksRefineActivations(Click(s, ts[0]), ts[1..]);
    }
  }

  /**
   * The quirk of the field defaults: both machines start unselected, but a
   * first click on (0, 0) matches the default indices and deselects, where
   * the designed machine would select (0, 0).
   */
  lemma FirstClickOnOriginDeselects()
    ensures View(Initial()) == Unselected
    ensures Click(Initial(), Tile(0, 0)) == Cleared()
    ensures Activate(View(Initial()), Tile(0, 0)) == Selected(Tile(0, 0))
  {
  }

  /** The same first click on any other tile agrees with the designed machine. */
  lemma FirstClickElsewhereSelects(t: Tile)
    requires t != Tile(0, 0)
    ensures Click(Initial(), t) == SelState(true, t.x, t.y)
    ensures View(Click(Initial(), t)) == Activate(View(Initial()), t)
  {
  }

  /** From the initial state, a run whose first click is not on (0, 0) follows the designed machine. */
  lemma {:induction false} RunFromInitial(ts: seq<Tile>)
    requires |ts| > 0 && ts[0] != Tile(0, 0)
    requires forall i :: 0 <= i < |ts| ==> InGrid(ts[i])
    ensures View(Clicks(Initial(), ts)) == Activations(Unselected, ts)
  {
    var s1 := Click(Initial(), ts[0]);
    FirstClickElsewhereSelects(ts[0]);
    ClickSettles(Initial(), ts[0]);
    ClicksRefineActivations(s1, ts[1..]);
  }

  /** Toggle scenario: select (3, 4); click it again to deselect; or move straight to (5, 2). */
  lemma ToggleScenario()
    ensures Clicks(Initial(), [Tile(3, 4)]) == SelState(true, 3, 4)
    ensures Clicks(Initial(), [Tile(3, 4), Tile(3, 4)]) == Cleared()
    ensures Clicks(Initial(), [Tile(3, 4), Tile(5, 2)]) == SelState(true, 5, 2)
  {
    assert [Tile(3, 4), Tile(3, 4)][1..] == [Tile(3, 4)];
    assert [Tile(3, 4), Tile(5, 2)][1..] == [Tile(5, 2)];
  }
}
