/**
 * The orientation rule both video handlers apply to their size tables: a
 * table size, given width first, is swapped for a vertical video and kept
 * otherwise.
 */
module Orientation {

  /**
   * The size `w`x`h` as used for a video that is vertical or not: the same two
   * dimensions, and, for a landscape table size, portrait exactly when the
   * video is vertical.
   */
  function Oriented(w: nat, h: nat, vertical: bool): (wh: (nat, nat))
    ensures wh == (w, h) || wh == (h, w)
    ensures h < w ==> (wh.0 < wh.1 <==> vertical)
  {
    if vertical then (h, w) else (w, h)
  }
}
