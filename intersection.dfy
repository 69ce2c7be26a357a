/** The colour of one signal and the eight-signal snapshot of the whole intersection
    (include/Intersection.hpp). */
module Intersection {

  datatype LightState = Red | Orange | Green

  /** A light is "active" when it lets traffic go or is about to stop it: Green or Orange. */
  predicate IsActive(l: LightState) {
    l == Green || l == Orange
  }

  /** Four through lights, labelled by the approach they release, and four right-turn
      lights labelled from -> to. Every light defaults to Red. */
  datatype IntersectionState = IntersectionState(
    north: LightState,
    east: LightState,
    south: LightState,
    west: LightState,
    turnSouthEast: LightState,  // South -> East, documented as enabled only if West is Red
    turnNorthWest: LightState,  // North -> West, documented as enabled only if East is Red
    turnWestSouth: LightState,  // West -> South, documented as enabled only if North is Red
    turnEastNorth: LightState   // East -> North, documented as enabled only if South is Red
  )

  /** The same colour on all eight lights. */
  function Uniform(l: LightState): (s: IntersectionState)
    ensures Lights(s) == [l, l, l, l, l, l, l, l]
  {
    IntersectionState(l, l, l, l, l, l, l, l)
  }

  /** A default-constructed `IntersectionState`. */
  function DefaultState(): (s: IntersectionState)
    ensures forall i :: 0 <= i < 8 ==> Lights(s)[i] == Red
  {
    Uniform(Red)
  }

  /** The eight lights in declaration order. */
  function Lights(s: IntersectionState): (ls: seq<LightState>)
    ensures |ls| == 8
  {
    [s.north, s.east, s.south, s.west,
     s.turnSouthEast, s.turnNorthWest, s.turnWestSouth, s.turnEastNorth]
  }

  /** A state is determined by its eight lights. */
  lemma LightsInjective(s: IntersectionState, t: IntersectionState)
    requires Lights(s) == Lights(t)
    ensures s == t
  {
    assert s.north == Lights(s)[0] == Lights(t)[0] == t.north;
    assert s.east == Lights(s)[1] == Lights(t)[1] == t.east;
    assert s.south == Lights(s)[2] == Lights(t)[2] == t.south;
    assert s.west == Lights(s)[3] == Lights(t)[3] == t.west;
    assert s.turnSouthEast == Lights(s)[4] == Lights(t)[4] == t.turnSouthEast;
    assert s.turnNorthWest == Lights(s)[5] == Lights(t)[5] == t.turnNorthWest;
    assert s.turnWestSouth == Lights(s)[6] == Lights(t)[6] == t.turnWestSouth;
    assert s.turnEastNorth == Lights(s)[7] == Lights(t)[7] == t.turnEastNorth;
  }

  /** Exactly three colours exist, and a light is inactive exactly when it is Red. */
  lemma ActiveIffNotRed(l: LightState)
    ensures !IsActive(l) <==> l == Red
    ensures l == Red || l == Orange || l == Green
  {
  }
}
