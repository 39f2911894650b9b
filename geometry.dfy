/**
 * Rectangles of the position table and the change of vertical origin
 * between the text extractor (y grows downward from the top of the page)
 * and the PDF canvas (y grows upward from the bottom).
 */
module Geometry {

  /** A bounding box in top-origin coordinates, on a zero-based page. */
  datatype Rect = Rect(x0: real, y0: real, x1: real, y1: real, page: int)

  /**
   * `convert_coords`: the pair (new_y0, new_y1) of the box measured from
   * the bottom of a page of the given height. The box keeps its height and
   * each new edge is the mirror image of the opposite old edge.
   */
  function ConvertCoords(r: Rect, height: real): (ys: (real, real))
    ensures ys.1 - ys.0 == r.y1 - r.y0
    ensures ys.0 + r.y1 == height && ys.1 + r.y0 == height
  {
    (height - r.y1, height - r.y0)
  }

  /** Converting a converted box again gives back the original vertical edges. */
  lemma ConvertTwice(r: Rect, height: real)
    ensures var ys := ConvertCoords(r, height);
      ConvertCoords(r.(y0 := ys.0, y1 := ys.1), height) == (r.y0, r.y1)
  {
  }

  /** A well-formed box (`y0 <= y1`) stays well formed. */
  lemma ConvertKeepsOrder(r: Rect, height: real)
    requires r.y0 <= r.y1
    ensures ConvertCoords(r, height).0 <= ConvertCoords(r, height).1
  {
  }

  /** The box moved by `dx` horizontally and `dy` vertically; the page is kept. */
  function Shift(r: Rect, dx: real, dy: real): (s: Rect)
    ensures s.x1 - s.x0 == r.x1 - r.x0 && s.y1 - s.y0 == r.y1 - r.y0 && s.page == r.page
  {
    Rect(r.x0 + dx, r.y0 + dy, r.x1 + dx, r.y1 + dy, r.page)
  }
}
