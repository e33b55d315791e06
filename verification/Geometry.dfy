/** Node positions and clusters (cluster/kmeans.go:37-66). Coordinates are reals. */
module Geometry {

  datatype Point = Point(id: string, x: real, y: real)

  /** `nodes` is in assignment order. */
  datatype Cluster = Cluster(id: nat, centroid: Point, nodes: seq<Point>)

  function Square(r: real): (s: real)
    ensures s >= 0.0
    ensures r == 0.0 ==> s == 0.0
  {
    r * r
  }

  /**
   The square of the Euclidean distance. The source compares distances, and squaring keeps every
   comparison of distances as it is.
   */
  function Dist(a: Point, b: Point): (d: real)
    ensures d >= 0.0
    ensures a == b ==> d == 0.0
  {
    Square(a.x - b.x) + Square(a.y - b.y)
  }

  function PointIds(points: seq<Point>): set<string> {
    set p | p in points :: p.id
  }
}
