/** The station-coordinate registry: station id to a point of the logical canvas. */
module Coords {
  import opened Wrappers
  import Lists

  /** Width and height of the logical canvas every position is expressed in. */
  const CanvasWidth: int := 826
  const CanvasHeight: int := 770

  /**
   * A point of the logical canvas in whole tenths of a unit: every coordinate the
   * program stores has been rounded to one decimal place, so `x == 2927` is 292.7.
   * No bounds are imposed: registered points may lie off the canvas.
   */
  datatype Coord = Coord(x: int, y: int)

  /**
   * The static table of station coordinates: the point of each station id, together with
   * the order in which the table lists its ids (the order `Object.entries` visits them).
   */
  datatype Registry = Registry(order: seq<string>, at: map<string, Coord>)

  /** Each id is listed once, and exactly the ids with a point are listed. */
  ghost predicate ValidRegistry(r: Registry)
  {
    && Lists.Distinct(r.order)
    && (forall id :: id in r.at <==> id in r.order)
  }
}
