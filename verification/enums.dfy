/**
 * The two small enumerations the value types share: the axis selector used by
 * `get_axis`, `set_axis`, `max_axis_index` and `min_axis_index`, and the side
 * selector used by the rectangle growth operations.
 */
module Enums {

  /** `AXIS`: `W` is only meaningful for four-component vectors. */
  datatype Axis = W | X | Y | Z

  /** `Side`: the rectangle types use `Left`, `Right`, `Top` and `Bottom`. */
  datatype Side = Left | Right | Top | Bottom | Front | Back

  /** `std::cmp::Ordering`, the answer of `partial_cmp`. */
  datatype Ordering = Less | Equal | Greater

  /** Bounds of the default 32-bit integer component type (`int!()`). */
  const INT_MIN: int := -0x8000_0000
  const INT_MAX: int := 0x7fff_ffff
}
