/** null.Int64 (int64.go): the optional over Go's `int64`, zero value 0. */
module NullInt64 {
  import opened Base
  import opened Nullable
  import Decimal

  const Zero: Int64 := 0

  /** NewInt64: present with `v` when `ok`, else absent holding 0. */
  function New(v: Int64, ok: bool): (r: Opt<Int64>)
    ensures ok ==> r.Unwrap() == (v, true)
    ensures !ok ==> r.Unwrap() == (0, false)
  {
    Nullable.New(Zero, v, ok)
  }

  /** UnwrapOrDefault: the held value, or 0 when absent. */
  function UnwrapOrDefault(o: Opt<Int64>): (r: Int64)
    ensures o.hasValue ==> r == o.value
    ensures !o.hasValue ==> r == 0
  {
    o.UnwrapOr(Zero)
  }

  /** String: `Some(<decimal>)` when present, `null` when absent. */
  function String(o: Opt<Int64>): (s: string)
    ensures !o.hasValue <==> s == "null"
    ensures o.hasValue ==> s == "Some(" + Decimal.FormatInt(o.value) + ")"
  {
    Render(o, (x: Int64) => Decimal.FormatInt(x))
  }

  /** The rendering of a present value carries the value: the text between
      `Some(` and `)` parses back to it. */
  lemma StringParsesBack(o: Opt<Int64>)
    requires o.hasValue
    ensures |String(o)| > 6
    ensures Decimal.ParseInt(String(o)[5..|String(o)| - 1]) == Ok(o.value)
  {
    var s := String(o);
    assert s[5..|s| - 1] == Decimal.FormatInt(o.value);
    Decimal.ParseFormatInt(o.value);
  }

  /** The worked scenario: 42 renders as `Some(42)`, absence as `null`, and
      UnwrapOr returns its default only when absent. */
  lemma Scenario()
    ensures New(42, true).UnwrapOr(0) == 42
    ensures New(0, false).UnwrapOr(7) == 7
    ensures String(New(0, false)) == "null"
    ensures String(New(42, true)) == "Some(42)"
  {
    assert Decimal.FormatNat(42) == "42" by {
      assert Decimal.FormatNat(4) == "4";
    }
  }

  /** UnmarshalJSON: `null` or nil gives (0, false) without error; a
      decode failure clears the flag and returns the error, leaving the old
      value in place (the decoder does not write a scalar it cannot decode);
      success sets the value. */
  function UnmarshalJSON(o: Opt<Int64>, data: Data, decoded: Result<Int64>): (r: Update<Opt<Int64>>)
    ensures IsNull(data) ==> r.next.Unwrap() == (0, false) && !r.err
    ensures !IsNull(data) ==> (r.next.hasValue <==> decoded.Ok?) && (r.err <==> decoded.Err?)
    ensures !IsNull(data) && decoded.Ok? ==> r.next.value == decoded.value
    ensures !IsNull(data) && decoded.Err? ==> r.next.value == o.value
  {
    Nullable.UnmarshalJSON(o, Zero, data, ScalarDecoding(o.value, decoded))
  }

  /** Scan: SQL NULL gives (0, false); a failed conversion returns the error
      and leaves the receiver untouched; success sets the converted value. */
  function Scan(o: Opt<Int64>, src: Source<Int64>): (r: Update<Opt<Int64>>)
    ensures src.NullSource? ==> r.next.Unwrap() == (0, false) && !r.err
    ensures src.Converted? && src.result.Err? ==> r.next == o && r.err
    ensures src.Converted? && src.result.Ok? ==> r.next.Unwrap() == (src.result.value, true) && !r.err
  {
    Nullable.Scan(o, Zero, src)
  }

  /** Value: SQL NULL exactly when absent, otherwise the same int64. */
  function Value(o: Opt<Int64>): (r: DriverValue)
    ensures r.NilValue? <==> !o.hasValue
    ensures o.hasValue ==> r == Int64Value(o.value)
  {
    if o.hasValue then Int64Value(o.value) else NilValue
  }

  /** Writing with Value and reading back with Scan restores a present value,
      and turns an absent one into the canonical (0, false), provided the
      conversion hands an int64 through unchanged. */
  lemma DriverRoundTrip(prior: Opt<Int64>, o: Opt<Int64>, conv: Result<Int64>)
    requires o.hasValue ==> conv == Ok(o.value)
    ensures Scan(prior, SourceOf(Value(o), conv)) == Update(if o.hasValue then o else New(0, false), false)
  {
  }
}
