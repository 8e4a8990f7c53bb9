/** The computation inside generate_shot_chart: the early exit on an empty shot
    table, the in-place rewrite of the coordinates onto the court image, and the
    split into the made and the missed shots that are drawn as two scatter layers.
 */
module ShotChart {
  import opened ShotTable
  import opened ShotFilter

  /** What the chart shows: nothing, with a "no shot data" warning, or the two
      layers of points in image pixels. */
  datatype Chart = NoShotData | Plotted(made: seq<Shot>, missed: seq<Shot>)

  /** Builds the chart for the rows the query returned for one player. An empty
      table stops before any rewrite or split; otherwise the table is copied into
      a mutable frame, its coordinates are rewritten in place and the two layers
      are selected from the rewritten rows. By WithResultRescaleAll each layer is
      also the rewritten made (or missed) rows of the table, in table order. */
  method GenerateShotChart(rows: seq<Shot>) returns (chart: Chart)
    ensures chart == NoShotData <==> rows == []
    ensures rows != [] ==> chart.made == WithResult(RescaleAll(rows), Made)
    ensures rows != [] ==> chart.missed == WithResult(RescaleAll(rows), Missed)
  {
    if |rows| == 0 {
      return NoShotData;
    }
    var table := new Shot[|rows|](i requires 0 <= i < |rows| => rows[i]);
    assert table[..] == rows;
    RescaleInPlace(table);
    var shots := table[..];
    chart := Plotted(WithResult(shots, Made), WithResult(shots, Missed));
  }

  /** When every shot was taken on the court, every plotted point falls inside the
      court image, in both layers. */
  lemma PlottedInsideImage(rows: seq<Shot>, wanted: string)
    requires AllOnCourt(rows)
    ensures AllOnImage(WithResult(RescaleAll(rows), wanted))
  {
    RescaleAllOnImage(rows);
    var layer := WithResult(RescaleAll(rows), wanted);
    forall i | 0 <= i < |layer| ensures OnImage(layer[i]) {
      assert layer[i] in layer;
      var k :| 0 <= k < |rows| && RescaleAll(rows)[k] == layer[i];
    }
  }
}
