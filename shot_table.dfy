/** The shot table fetched for one player and its rescaling onto the court image.

    A row carries the three columns the query selects: x_coord, y_coord and
    shot_result. The source rewrites both coordinate columns of the whole table
    in place: first every x, then every y.
 */
module ShotTable {
  import opened CourtScale

  /** One row of the shot table. */
  datatype Shot = Shot(x: real, y: real, result: string)

  /** The row lies on the 28 m by 15 m playing court. */
  predicate OnCourt(s: Shot) {
    0.0 <= s.x <= CourtLength && 0.0 <= s.y <= CourtWidth
  }

  /** The row lies inside the court image's extent [0, 280] x [0, 150]. */
  predicate OnImage(s: Shot) {
    0.0 <= s.x <= ImageWidth && 0.0 <= s.y <= ImageHeight
  }

  /** A row after both coordinate columns have been rewritten. The result column
      is untouched, and the row is on the image exactly when it was on the court. */
  function Rescale(s: Shot): (r: Shot)
    ensures r.result == s.result
    ensures r.x == 10.0 * s.x && r.y == ImageHeight - 10.0 * s.y
    ensures OnCourt(s) <==> OnImage(r)
  {
    s.(x := ToImageX(s.x), y := ToImageY(s.y))
  }

  /** A row in image pixels taken back to court metres. */
  function Unrescale(s: Shot): (r: Shot)
    ensures Rescale(r) == s
  {
    s.(x := CourtX(s.x), y := CourtY(s.y))
  }

  /** The whole table after the rewrite: same number of rows, same order,
      each row rescaled. */
  function RescaleAll(rows: seq<Shot>): (r: seq<Shot>)
    ensures |r| == |rows|
    ensures forall i :: 0 <= i < |rows| ==> r[i] == Rescale(rows[i])
  {
    if rows == [] then [] else [Rescale(rows[0])] + RescaleAll(rows[1..])
  }

  /** Rescaling a row and taking it back recovers the row exactly. */
  lemma RescaleRoundTrip(s: Shot)
    ensures Unrescale(Rescale(s)) == s
  {
    CourtRoundTrip(s.x, s.y);
  }

  /** Every row of the table is on the court. */
  predicate AllOnCourt(rows: seq<Shot>) {
    forall i :: 0 <= i < |rows| ==> OnCourt(rows[i])
  }

  /** Every row of the table is inside the court image. */
  predicate AllOnImage(rows: seq<Shot>) {
    forall i :: 0 <= i < |rows| ==> OnImage(rows[i])
  }

  /** Every row of the table is on the court exactly when every rewritten row
      is on the image. */
  lemma RescaleAllOnImage(rows: seq<Shot>)
    ensures AllOnCourt(rows) <==> AllOnImage(RescaleAll(rows))
  {
    var r := RescaleAll(rows);
    forall i | 0 <= i < |rows| ensures OnCourt(rows[i]) <==> OnImage(r[i]) {
      assert r[i] == Rescale(rows[i]);
    }
  }

  /** Rewrites the coordinate columns of the table in place, one column after
      the other, as the source does: afterwards the table is the rescaled table. */
  method RescaleInPlace(table: array<Shot>)
    modifies table
    ensures table[..] == RescaleAll(old(table[..]))
  {
    ghost var before := table[..];
    var i := 0;
    while i < table.Length
      invariant 0 <= i <= table.Length
      invariant forall k :: 0 <= k < i ==> table[k] == before[k].(x := ToImageX(before[k].x))
      invariant forall k :: i <= k < table.Length ==> table[k] == before[k]
    {
      table[i] := table[i].(x := ToImageX(table[i].x));
      i := i + 1;
    }
    var j := 0;
    while j < table.Length
      invariant 0 <= j <= table.Length
      invariant forall k :: 0 <= k < j ==> table[k] == Rescale(before[k])
      invariant forall k :: j <= k < table.Length ==> table[k] == before[k].(x := ToImageX(before[k].x))
    {
      table[j] := table[j].(y := ToImageY(table[j].y));
      j := j + 1;
    }
    assert table[..] == RescaleAll(before);
  }
}
