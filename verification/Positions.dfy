/** Positions, pin levels, reported states, and the wiring orientation between them. */
module Positions {

  datatype Option<+T> = None | Some(value: T)

  datatype Position = Closed | Thrown

  datatype Level = Low | High

  datatype TurnoutState = ClosedState | ThrownState | MovingState | UnknownState

  datatype Orientation = Orientation(inverted: bool) {
    function ToLevel(position: Position): Level {
      var isThrown := position != Closed;
      var isHigh := if inverted then !isThrown else isThrown;
      if isHigh then High else Low
    }

    function ToPosition(level: Level): Position {
      var isHigh := level == High;
      var isThrown := if inverted then !isHigh else isHigh;
      if isThrown then Thrown else Closed
    }
  }

  /** A normal channel drives High for thrown and reads High as thrown, an inverted one the
      opposite; and the two mappings undo each other. */
  lemma OrientationIsBijection(orientation: Orientation, position: Position, level: Level)
    ensures orientation.ToLevel(position) == High <==> (position == Thrown) != orientation.inverted
    ensures orientation.ToPosition(orientation.ToLevel(position)) == position
    ensures orientation.ToLevel(orientation.ToPosition(level)) == level
  {
  }
}
