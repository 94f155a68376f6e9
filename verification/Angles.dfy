/** `wrap_180`, and what it means for two headings to be the same direction. */
module Angles {

  /** The two angles differ by a whole number of turns. */
  ghost predicate SameDirection(a: real, b: real) {
    var turns := (a - b) / 360.0;
    turns == turns.Floor as real
  }

  lemma OneTurnMore(a: real, b: real)
    ensures SameDirection(a - 360.0, b) <==> SameDirection(a, b)
  {
    var turns := (a - b) / 360.0;
    assert (a - 360.0 - b) / 360.0 == turns - 1.0;
    assert (turns - 1.0).Floor == turns.Floor - 1;
  }

  /** The representative of an angle that the program keeps; +180 and -180 both stay as they are. */
  function Wrap180(a: real): (r: real)
    ensures -180.0 <= r <= 180.0
    ensures SameDirection(a, r)
    ensures -180.0 <= a <= 180.0 ==> r == a
    ensures a > 180.0 ==> -180.0 < r
    ensures a < -180.0 ==> r < 180.0
    decreases if -180.0 <= a <= 180.0 then 0.0 else if a < 0.0 then -a else a
  {
    if a > 180.0 then
      var r := Wrap180(a - 360.0);
      OneTurnMore(a, r);
      r
    else if a < -180.0 then
      var r := Wrap180(a + 360.0);
      OneTurnMore(a + 360.0, r);
      r
    else a
  }

  method WrapDegrees(angle: real) returns (a: real)
    ensures a == Wrap180(angle)
  {
    a := angle;
    while a > 180.0
      invariant Wrap180(a) == Wrap180(angle)
      invariant angle <= 180.0 ==> a == angle
      invariant angle > 180.0 ==> -180.0 < a
      decreases a
    {
      a := a - 360.0;
    }
    while a < -180.0
      invariant Wrap180(a) == Wrap180(angle)
      invariant a <= 180.0
      decreases -a
    {
      a := a + 360.0;
    }
  }

  /** The contract of `Wrap180` leaves no choice: no other angle could be returned. */
  lemma {:induction false} WrapIsUnique(a: real, r: real)
    requires -180.0 <= r <= 180.0 && SameDirection(a, r)
    requires -180.0 <= a <= 180.0 ==> r == a
    requires a > 180.0 ==> -180.0 < r
    requires a < -180.0 ==> r < 180.0
    ensures r == Wrap180(a)
  {
    var w := Wrap180(a);
    var m, n := ((a - r) / 360.0).Floor, ((a - w) / 360.0).Floor;
    assert a - r == 360.0 * m as real && a - w == 360.0 * n as real;
    assert w - r == 360.0 * (m - n) as real;
  }
}
