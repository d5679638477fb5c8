/** Go's fixed-width scalar types as bounded subsets of `int`, and the
    success-or-error shape that every call into code outside the model
    (the standard decoder, the driver conversion routine) yields. */
module Base {

  const MinInt64: int := -0x8000_0000_0000_0000
  const MaxInt64: int := 0x7FFF_FFFF_FFFF_FFFF

  /** Go's `int64`. */
  type Int64 = x: int | -0x8000_0000_0000_0000 <= x <= 0x7FFF_FFFF_FFFF_FFFF

  /** Go's `int16`; every value is also an `Int64`, which is all widening does. */
  type Int16 = x: int | -0x8000 <= x <= 0x7FFF

  /** Go's `byte`. */
  type Byte = x: int | 0 <= x < 0x100

  /** A value, or an error whose details the model does not track. */
  datatype Result<T> = Ok(value: T) | Err
}
