/** null.Int16 (int16.go): the optional over Go's `int16`, zero value 0,
    widened to int64 on the way to the driver. */
module NullInt16 {
  import opened Base
  import opened Nullable
  import Decimal

  const Zero: Int16 := 0

  /** NewInt16: present with `v` when `ok`, else absent holding 0. */
  function New(v: Int16, ok: bool): (r: Opt<Int16>)
    ensures ok ==> r.Unwrap() == (v, true)
    ensures !ok ==> r.Unwrap() == (0, false)
  {
    Nullable.New(Zero, v, ok)
  }

  /** UnwrapOrDefault: the held value, or 0 when absent. */
  function UnwrapOrDefault(o: Opt<Int16>): (r: Int16)
    ensures o.hasValue ==> r == o.value
    ensures !o.hasValue ==> r == 0
  {
    o.UnwrapOr(Zero)
  }

  /** String: `Some(<decimal>)` when present, `null` when absent. */
  function String(o: Opt<Int16>): (s: string)
    ensures !o.hasValue <==> s == "null"
    ensures o.hasValue ==> s == "Some(" + Decimal.FormatInt(o.value) + ")"
  {
    Render(o, (x: Int16) => Decimal.FormatInt(x))
  }

  /** UnmarshalJSON: `null` or nil gives (0, false) without error; a
      decode failure clears the flag and returns the error, leaving the old
      value in place (the decoder does not write a scalar it cannot decode);
      success sets the value. */
  function UnmarshalJSON(o: Opt<Int16>, data: Data, decoded: Result<Int16>): (r: Update<Opt<Int16>>)
    ensures IsNull(data) ==> r.next.Unwrap() == (0, false) && !r.err
    ensures !IsNull(data) ==> (r.next.hasValue <==> decoded.Ok?) && (r.err <==> decoded.Err?)
    ensures !IsNull(data) && decoded.Ok? ==> r.next.value == decoded.value
    ensures !IsNull(data) && decoded.Err? ==> r.next.value == o.value
  {
    Nullable.UnmarshalJSON(o, Zero, data, ScalarDecoding(o.value, decoded))
  }

  /** Scan: SQL NULL gives (0, false); a failed conversion (including one out
      of the int16 range) returns the error and leaves the receiver untouched;
      success sets the converted value. */
  function Scan(o: Opt<Int16>, src: Source<Int16>): (r: Update<Opt<Int16>>)
    ensures src.NullSource? ==> r.next.Unwrap() == (0, false) && !r.err
    ensures src.Converted? && src.result.Err? ==> r.next == o && r.err
    ensures src.Converted? && src.result.Ok? ==> r.next.Unwrap() == (src.result.value, true) && !r.err
  {
    Nullable.Scan(o, Zero, src)
  }

  /** Value: SQL NULL exactly when absent, otherwise the value widened to an
      int64 with the same numeric value. */
  function Value(o: Opt<Int16>): (r: DriverValue)
    ensures r.NilValue? <==> !o.hasValue
    ensures o.hasValue ==> r.Int64Value? && r.i as int == o.value as int
  {
    if o.hasValue then Int64Value(o.value as Int64) else NilValue
  }

  /** Writing with Value and reading back with Scan restores a present value,
      and turns an absent one into the canonical (0, false), provided the
      conversion narrows the int64 back without loss (it always fits). */
  lemma DriverRoundTrip(prior: Opt<Int16>, o: Opt<Int16>, conv: Result<Int16>)
    requires Value(o).Int64Value? ==> conv == Ok(Value(o).i as Int16)
    ensures Scan(prior, SourceOf(Value(o), conv)) == Update(if o.hasValue then o else New(0, false), false)
  {
  }
}
