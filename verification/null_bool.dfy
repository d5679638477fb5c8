/** null.Bool (bool.go): the optional over Go's `bool`, zero value false. */
module NullBool {
  import opened Base
  import opened Nullable

  const Zero: bool := false

  /** NewBool: present with `v` when `ok`, else absent holding false. */
  function New(v: bool, ok: bool): (r: Opt<bool>)
    ensures ok ==> r.Unwrap() == (v, true)
    ensures !ok ==> r.Unwrap() == (false, false)
  {
    Nullable.New(Zero, v, ok)
  }

  /** UnwrapOrDefault: the held value, or false when absent. */
  function UnwrapOrDefault(o: Opt<bool>): (r: bool)
    ensures o.hasValue ==> r == o.value
    ensures !o.hasValue ==> !r
  {
    o.UnwrapOr(Zero)
  }

  /** `fmt`'s `%v` of a bool. */
  function ShowBool(b: bool): (s: string)
    ensures s == "true" <==> b
    ensures s == "false" <==> !b
  {
    if b then "true" else "false"
  }

  /** String: exactly one of `Some(true)`, `Some(false)` and `null`, telling
      all three states apart. */
  function String(o: Opt<bool>): (s: string)
    ensures s == "null" <==> !o.hasValue
    ensures s == "Some(true)" <==> o.hasValue && o.value
    ensures s == "Some(false)" <==> o.hasValue && !o.value
  {
    Render(o, ShowBool)
  }

  /** UnmarshalJSON: `null` or nil gives (false, false) without error; a
      decode failure clears the flag and returns the error, leaving the old
      value in place (the decoder does not write a scalar it cannot decode);
      success sets the value. */
  function UnmarshalJSON(o: Opt<bool>, data: Data, decoded: Result<bool>): (r: Update<Opt<bool>>)
    ensures IsNull(data) ==> r.next.Unwrap() == (false, false) && !r.err
    ensures !IsNull(data) ==> (r.next.hasValue <==> decoded.Ok?) && (r.err <==> decoded.Err?)
    ensures !IsNull(data) && decoded.Ok? ==> r.next.value == decoded.value
    ensures !IsNull(data) && decoded.Err? ==> r.next.value == o.value
  {
    Nullable.UnmarshalJSON(o, Zero, data, ScalarDecoding(o.value, decoded))
  }

  /** Scan: SQL NULL gives (false, false); a failed conversion returns the
      error and leaves the receiver untouched; success sets the value. */
  function Scan(o: Opt<bool>, src: Source<bool>): (r: Update<Opt<bool>>)
    ensures src.NullSource? ==> r.next.Unwrap() == (false, false) && !r.err
    ensures src.Converted? && src.result.Err? ==> r.next == o && r.err
    ensures src.Converted? && src.result.Ok? ==> r.next.Unwrap() == (src.result.value, true) && !r.err
  {
    Nullable.Scan(o, Zero, src)
  }

  /** Value: SQL NULL exactly when absent, otherwise the same bool. */
  function Value(o: Opt<bool>): (r: DriverValue)
    ensures r.NilValue? <==> !o.hasValue
    ensures o.hasValue ==> r == BoolValue(o.value)
  {
    if o.hasValue then BoolValue(o.value) else NilValue
  }

  /** Writing with Value and reading back with Scan restores a present value,
      and turns an absent one into (false, false), provided the conversion
      hands a bool through unchanged. */
  lemma DriverRoundTrip(prior: Opt<bool>, o: Opt<bool>, conv: Result<bool>)
    requires o.hasValue ==> conv == Ok(o.value)
    ensures Scan(prior, SourceOf(Value(o), conv)) == Update(if o.hasValue then o else New(false, false), false)
  {
  }
}
