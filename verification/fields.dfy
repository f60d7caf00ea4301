/** The typed field values a transcription row is made of, and the `add_field` calls that
    build a row. */
module Fields {
  import opened JsonValues

  /** Geometry is in whole image pixels; the string-like variants hold whatever JSON value
      the annotation supplied (a generic table supplies strings). */
  datatype Field =
    | Box(left: int, right: int, top: int, bottom: int)
    | Length(x1: int, y1: int, x2: int, y2: int)
    | Point(x: int, y: int)
    | Select(value: Json)
    | Text(value: Json)
    | NoOp(value: Json)
    | Same(value: Json)

  /** One `row.add_field(key, field)` call. How a row resolves a repeated key is not part of
      this model, so readers return the calls in order. */
  datatype Emission = Emission(key: string, field: Field)
}
