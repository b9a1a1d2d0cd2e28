/** Failure-carrying results of the lane-following helpers.

    The modelled helpers raise a key-lookup error when a required class name
    is absent from the class map, and a broadcasting error when two grids of
    incompatible shapes are multiplied. Both become explicit error values here.
 */
module Results {

  datatype Option<+T> = None | Some(value: T)

  /** Why an operation could not produce its grids. */
  datatype Error =
    | MissingClass(name: string)   // a required class name is not a key of the class map
    | ShapeMismatch                // the label grid does not have the shape of the input grid

  datatype Result<+T> = Success(value: T) | Failure(error: Error)
}
