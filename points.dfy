/** The canonical point record shared by the normalizer, the expander, the visibility predicate and
    the render layer. */
module Points {

  /** `[lng, lat]`, in degrees. */
  datatype Position = Position(lng: real, lat: real)

  datatype Point = Point(id: string, position: Position, value: int, category: string)
}
