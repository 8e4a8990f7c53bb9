/** Conversion of a shot position from court metres to pixels of the court image.

    The raw positions are measured on the 28 m by 15 m playing court of
    Article 2.1 of the FIBA Official Basketball Rules; the court picture is drawn
    over the extent [0, 280] x [0, 150]. The x axis is scaled, the y axis is
    scaled and flipped so that raw y = 0 lands on the top edge of the image.
 */
module CourtScale {

  /** Length of the playing court in metres (the raw x range). */
  const CourtLength: real := 28.0
  /** Width of the playing court in metres (the raw y range). */
  const CourtWidth: real := 15.0
  /** Horizontal extent of the court image. */
  const ImageWidth: real := 280.0
  /** Vertical extent of the court image. */
  const ImageHeight: real := 150.0

  /** Pixel column of a raw x position: x / 28 * 280, which is ten pixels per metre.
      A position is on the image's x range exactly when it is on the court's length;
      positions off the court are passed through, not clamped. */
  function ToImageX(x: real): (nx: real)
    ensures nx == 10.0 * x
    ensures 0.0 <= x <= CourtLength <==> 0.0 <= nx <= ImageWidth
  {
    (x / CourtLength) * ImageWidth
  }

  /** Pixel row of a raw y position: 150 - y / 15 * 150, the flipped scale.
      A position is on the image's y range exactly when it is on the court's width;
      the near side line (y = 0) is the top edge and the far one (y = 15) the bottom. */
  function ToImageY(y: real): (ny: real)
    ensures ny == ImageHeight - 10.0 * y
    ensures 0.0 <= y <= CourtWidth <==> 0.0 <= ny <= ImageHeight
    ensures y == 0.0 ==> ny == ImageHeight
    ensures y == CourtWidth ==> ny == 0.0
  {
    ImageHeight - (y / CourtWidth) * ImageHeight
  }

  /** The court position whose pixel column is nx: the inverse of ToImageX. */
  function CourtX(nx: real): (x: real)
    ensures ToImageX(x) == nx
  {
    nx / 10.0
  }

  /** The court position whose pixel row is ny: the inverse of ToImageY. */
  function CourtY(ny: real): (y: real)
    ensures ToImageY(y) == ny
  {
    (ImageHeight - ny) / 10.0
  }

  /** Scaling the x axis keeps the order of positions, strictly. */
  lemma ToImageXIncreasing(a: real, b: real)
    ensures a < b <==> ToImageX(a) < ToImageX(b)
  {
  }

  /** Scaling the y axis reverses the order of positions, strictly: the flip. */
  lemma ToImageYDecreasing(a: real, b: real)
    ensures a < b <==> ToImageY(b) < ToImageY(a)
  {
  }

  /** Converting a raw position and converting it back recovers it exactly. */
  lemma CourtRoundTrip(x: real, y: real)
    ensures CourtX(ToImageX(x)) == x
    ensures CourtY(ToImageY(y)) == y
  {
  }
}
