/** Stand-ins for the host objects of the footprint editor that the scripting
    helpers write into: the footprint ("module") with its drawn outline items
    and its pads. Only the data the helpers set is recorded. */
module Footprint {
  import opened Geometry

  /** One outline item added to a footprint (an `EDGE_MODULE`). */
  datatype DrawItem =
    | Segment(start: Point, end: Point, width: real, layer: int)
    /** A circle given by its centre and a point on its rim. */
    | Circle(centre: Point, rim: Point, width: real, layer: int)
    /** An arc given by its centre, its start point and its angle. */
    | Arc(centre: Point, start: Point, angle: real, width: real, layer: int)

  /** A position in the host's integer board units (a `wxPoint`). */
  datatype IntPoint = IntPoint(x: int, y: int)

  /** The attributes a pad array copies from its template pad (size, shape,
      attribute, layer mask and drill size), kept as opaque host values. */
  datatype PadTemplate = PadTemplate(size: IntPoint, shape: int, attribute: int, layerMask: int, drillSize: IntPoint)

  /** A pad placed on a footprint. */
  datatype Pad = Pad(template: PadTemplate, position: IntPoint, name: string)

  /** A footprint: the host object that outline items and pads are added to. */
  class Module {
    var drawings: seq<DrawItem>
    var pads: seq<Pad>

    constructor ()
      ensures drawings == [] && pads == []
    {
      drawings := [];
      pads := [];
    }
  }
}
