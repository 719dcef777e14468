/**
 * The tilt classifier (update_tilt): a decision table from the difference
 * vector, fast mean minus slow mean, to a numpad zone 1..9, 5 meaning no tilt.
 */
module Tilt {

  /** THRESH_TILT_X and THRESH_TILT_Y, in milli-G. */
  const ThreshX: int := 75
  const ThreshY: int := 75

  /** rc_vector3 */
  datatype Vector3 = Vector3(x: int, y: int, z: int)

  function Abs(v: int): int { if v < 0 then -v else v }

  /**
   * update_tilt: the column comes from the x difference (left when below
   * -ThreshX, right when above ThreshX) and the row from the y difference
   * (zones 1..3 when below -ThreshY, 7..9 when above ThreshY).
   */
  function Zone(d: Vector3): (zone: int)
    ensures 1 <= zone <= 9
    ensures zone == 5 <==> Abs(d.x) <= ThreshX && Abs(d.y) <= ThreshY
    ensures zone in {1, 4, 7} <==> d.x < -ThreshX
    ensures zone in {3, 6, 9} <==> d.x > ThreshX
    ensures zone in {1, 2, 3} <==> d.y < -ThreshY
    ensures zone in {7, 8, 9} <==> d.y > ThreshY
  {
    if Abs(d.x) > ThreshX then
      if Abs(d.y) > ThreshY then
        if d.x < 0 then
          if d.y < 0 then 1 else 7
        else
          if d.y < 0 then 3 else 9
      else
        if d.x < 0 then 4 else 6
    else if Abs(d.y) > ThreshY then
      if d.y < 0 then 2 else 8
    else
      5
  }

  /** Negating the difference vector mirrors the zone through the centre: t becomes 10 - t. */
  lemma ZoneNegated(d: Vector3)
    ensures Zone(Vector3(-d.x, -d.y, -d.z)) == 10 - Zone(d)
  {
  }

  /** The z axis plays no part in the classification. */
  lemma ZoneIgnoresZ(d: Vector3, z: int)
    ensures Zone(Vector3(d.x, d.y, z)) == Zone(d)
  {
  }
}
