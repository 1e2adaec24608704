/**
 * The formation catalogue and the player-position overrides
 * (frontend/src/app/app/page.jsx: `getPlayerPositions`, the rendering of each
 * slot, and `handleDrop`).
 */
module Catalogue {
  import opened Wrappers
  import Extraction
  import Analysis

  /** One entry of a formation: `[label, defaultX, defaultY, color]`, coordinates in percent. */
  datatype Slot = Slot(role: string, x: int, y: int, colour: string)

  /** A position chosen by dragging; coordinates are whatever the drop computed. */
  datatype Point = Point(x: real, y: real)

  const Attack: string := "#FCD34D"
  const Midfield: string := "#60A5FA"
  const Defence: string := "#F87171"
  const Keeper: string := "#A78BFA"

  const Goalkeeper: Slot := Slot("GK", 50, 88, Keeper)

  /** The `switch (formation)` of `getPlayerPositions`; `default` repeats "4-3-3". */
  function PlayerPositions(formation: string): (r: seq<Slot>)
    ensures |r| == 11
    ensures r[10] == Goalkeeper
    ensures forall i :: 0 <= i < 10 ==> r[i].role != "GK"
    ensures forall i :: 0 <= i < |r| ==> 0 <= r[i].x <= 100 && 0 <= r[i].y <= 100
  {
    match formation
    case "4-2-3-1" =>
      [Slot("ST", 50, 15, Attack), Slot("LW", 25, 30, Attack), Slot("CAM", 50, 30, Attack),
       Slot("RW", 75, 30, Attack), Slot("CDM", 40, 45, Midfield), Slot("CDM", 60, 45, Midfield),
       Slot("LB", 20, 70, Defence), Slot("CB", 40, 70, Defence), Slot("CB", 60, 70, Defence),
       Slot("RB", 80, 70, Defence), Goalkeeper]
    case "3-4-3" =>
      [Slot("LW", 25, 15, Attack), Slot("ST", 50, 15, Attack), Slot("RW", 75, 15, Attack),
       Slot("LM", 15, 45, Midfield), Slot("CM", 38, 45, Midfield), Slot("CM", 62, 45, Midfield),
       Slot("RM", 85, 45, Midfield), Slot("CB", 30, 70, Defence), Slot("CB", 50, 70, Defence),
       Slot("CB", 70, 70, Defence), Goalkeeper]
    case "3-5-2" =>
      [Slot("ST", 40, 15, Attack), Slot("ST", 60, 15, Attack), Slot("LM", 15, 40, Midfield),
       Slot("CM", 35, 45, Midfield), Slot("CDM", 50, 55, Midfield), Slot("CM", 65, 45, Midfield),
       Slot("RM", 85, 40, Midfield), Slot("CB", 30, 70, Defence), Slot("CB", 50, 70, Defence),
       Slot("CB", 70, 70, Defence), Goalkeeper]
    case "4-4-2" =>
      [Slot("ST", 40, 15, Attack), Slot("ST", 60, 15, Attack), Slot("LM", 15, 45, Midfield),
       Slot("CM", 35, 45, Midfield), Slot("CM", 65, 45, Midfield), Slot("RM", 85, 45, Midfield),
       Slot("LB", 20, 70, Defence), Slot("CB", 40, 70, Defence), Slot("CB", 60, 70, Defence),
       Slot("RB", 80, 70, Defence), Goalkeeper]
    case "5-3-2" =>
      [Slot("ST", 40, 15, Attack), Slot("ST", 60, 15, Attack), Slot("CM", 30, 45, Midfield),
       Slot("CM", 50, 45, Midfield), Slot("CM", 70, 45, Midfield), Slot("LWB", 10, 60, Defence),
       Slot("CB", 30, 70, Defence), Slot("CB", 50, 70, Defence), Slot("CB", 70, 70, Defence),
       Slot("RWB", 90, 60, Defence), Goalkeeper]
    case _ =>
      // "4-3-3" and the default branch list the same eleven slots.
      [Slot("LW", 25, 15, Attack), Slot("ST", 50, 15, Attack), Slot("RW", 75, 15, Attack),
       Slot("CM", 30, 45, Midfield), Slot("CM", 50, 45, Midfield), Slot("CM", 70, 45, Midfield),
       Slot("LB", 20, 70, Defence), Slot("CB", 40, 70, Defence), Slot("CB", 60, 70, Defence),
       Slot("RB", 80, 70, Defence), Goalkeeper]
  }

  /** Any label the `switch` does not list is laid out exactly as "4-3-3". */
  lemma UnknownLabelFallsBack(formation: string)
    requires formation !in Analysis.Formations
    ensures PlayerPositions(formation) == PlayerPositions(Extraction.DefaultFormation)
  {
  }

  /** Every catalogue has exactly one goalkeeper. */
  lemma OneGoalkeeper(formation: string, i: int)
    requires 0 <= i < 11
    ensures PlayerPositions(formation)[i].role == "GK" <==> i == 10
  {
  }

  /** `getPlayerPositions()`: the layout for the formation `getFormationType` reads from the tactics. */
  function PositionsForTactics(tactics: string): (r: seq<Slot>)
    ensures |r| == 11 && r[10] == Goalkeeper
    ensures tactics == [] ==> r == PlayerPositions(Extraction.DefaultFormation)
  {
    PlayerPositions(Extraction.GetFormationType(tactics))
  }

  /** A mock analysis for plain names is drawn with the layout of the label it names. */
  lemma MockAnalysisLayout(team: string, opponent: string, formation: string)
    requires Analysis.NoTokenStart(team) && Analysis.NoTokenStart(opponent)
    requires formation in Analysis.Formations
    ensures PositionsForTactics(Analysis.AnalysisText(team, opponent, formation)) == PlayerPositions(formation)
  {
    Analysis.FormationsAreTokens();
    Analysis.MockAnalysisRoundTrip(team, opponent, formation);
  }

  /** Where a slot is drawn (page.jsx:705-706): the override stored under its LABEL
      if there is one, else its default. */
  function Placement(slot: Slot, custom: map<string, Point>): (p: Point)
    ensures slot.role in custom ==> p == custom[slot.role]
    ensures slot.role !in custom ==> p == Point(slot.x as real, slot.y as real)
  {
    if slot.role in custom then custom[slot.role] else Point(slot.x as real, slot.y as real)
  }

  /** The placements of a whole layout, slot by slot. */
  function Placements(slots: seq<Slot>, custom: map<string, Point>): (r: seq<Point>)
    ensures |r| == |slots|
    ensures forall i :: 0 <= i < |slots| ==> r[i] == Placement(slots[i], custom)
  {
    seq(|slots|, i requires 0 <= i < |slots| => Placement(slots[i], custom))
  }

  /** Slots sharing a label (the two centre-backs, say) share an override. */
  lemma NamesakesShareOverride(slots: seq<Slot>, custom: map<string, Point>, i: int, j: int)
    requires 0 <= i < |slots| && 0 <= j < |slots|
    requires slots[i].role == slots[j].role && slots[i].role in custom
    ensures Placements(slots, custom)[i] == Placements(slots, custom)[j]
  {
  }

  /** The state `handleDrop` reads and writes. */
  datatype DragState = DragState(dragged: Option<string>, custom: map<string, Point>)

  /** `handleDrop` (page.jsx:533-549): without a dragged label (null or empty) nothing
      changes; otherwise the label's override becomes the drop point and the drag ends. */
  function Drop(s: DragState, at: Point): (r: DragState)
    ensures s.dragged.None? || s.dragged == Some("") ==> r == s
    ensures s.dragged.Some? && s.dragged.value != "" ==>
      && r.dragged.None?
      && r.custom.Keys == s.custom.Keys + {s.dragged.value}
      && r.custom[s.dragged.value] == at
      && forall k :: k in s.custom && k != s.dragged.value ==> r.custom[k] == s.custom[k]
  {
    match s.dragged
    case None => s
    case Some(role) =>
      if role == "" then s
      else DragState(None, s.custom[role := at])
  }

  /** After a drop every slot with the dragged label moves to the drop point and
      every other slot stays where it was drawn. */
  lemma DropMovesNamesakes(slots: seq<Slot>, s: DragState, at: Point, i: int)
    requires s.dragged.Some? && s.dragged.value != ""
    requires 0 <= i < |slots|
    ensures slots[i].role == s.dragged.value ==> Placements(slots, Drop(s, at).custom)[i] == at
    ensures slots[i].role != s.dragged.value ==>
      Placements(slots, Drop(s, at).custom)[i] == Placements(slots, s.custom)[i]
  {
  }
}
