/** null.Bytes (bytes.go): the optional over Go's `[]byte`, zero value nil.
    A nil and an empty slice are both the empty sequence here. */
module NullBytes {
  import opened Base
  import opened Nullable
  import Decimal

  const Zero: seq<Byte> := []

  /** NewBytes: present with `v` when `ok`, else absent and empty. */
  function New(v: seq<Byte>, ok: bool): (r: Opt<seq<Byte>>)
    ensures ok ==> r.Unwrap() == (v, true)
    ensures !ok ==> r.Unwrap() == ([], false)
  {
    Nullable.New(Zero, v, ok)
  }

  /** UnwrapOrDefault: the held bytes, or none when absent. */
  function UnwrapOrDefault(o: Opt<seq<Byte>>): (r: seq<Byte>)
    ensures o.hasValue ==> r == o.value
    ensures !o.hasValue ==> r == []
  {
    o.UnwrapOr(Zero)
  }

  /** String: `fmt`'s `%v` of a byte slice inside `Some(...)`, i.e. the byte
      values in decimal between square brackets; `null` when absent. */
  function String(o: Opt<seq<Byte>>): (s: string)
    ensures !o.hasValue <==> s == "null"
    ensures o.hasValue ==> s == "Some(" + Decimal.FormatList(o.value) + ")"
  {
    Render(o, (b: seq<Byte>) => Decimal.FormatList(b))
  }

  /** UnmarshalJSON: `null` or nil gives an absent, empty value without error;
      a decode failure clears the flag and returns the error, leaving whatever
      the decoder had written (possibly some elements, not the old value);
      success sets the decoded contents. */
  function UnmarshalJSON(o: Opt<seq<Byte>>, data: Data, decoding: Decoding<seq<Byte>>): (r: Update<Opt<seq<Byte>>>)
    ensures IsNull(data) ==> r.next.Unwrap() == ([], false) && !r.err
    ensures !IsNull(data) ==> (r.next.hasValue <==> decoding.Decoded?) && (r.err <==> decoding.Failed?)
    ensures !IsNull(data) && decoding.Decoded? ==> r.next.value == decoding.value
    ensures !IsNull(data) && decoding.Failed? ==> r.next.value == decoding.left
  {
    Nullable.UnmarshalJSON(o, Zero, data, decoding)
  }

  /** Scan: SQL NULL gives an absent, empty value; a failed conversion returns
      the error and leaves the receiver untouched; success sets the bytes. */
  function Scan(o: Opt<seq<Byte>>, src: Source<seq<Byte>>): (r: Update<Opt<seq<Byte>>>)
    ensures src.NullSource? ==> r.next.Unwrap() == ([], false) && !r.err
    ensures src.Converted? && src.result.Err? ==> r.next == o && r.err
    ensures src.Converted? && src.result.Ok? ==> r.next.Unwrap() == (src.result.value, true) && !r.err
  {
    Nullable.Scan(o, Zero, src)
  }

  /** Value: SQL NULL exactly when absent, otherwise the same bytes. */
  function Value(o: Opt<seq<Byte>>): (r: DriverValue)
    ensures r.NilValue? <==> !o.hasValue
    ensures o.hasValue ==> r == BytesValue(o.value)
  {
    if o.hasValue then BytesValue(o.value) else NilValue
  }

  /** Writing with Value and reading back with Scan restores a present value
      (an empty one included), and turns an absent one into the canonical
      absent value, provided the conversion hands bytes through unchanged. */
  lemma DriverRoundTrip(prior: Opt<seq<Byte>>, o: Opt<seq<Byte>>, conv: Result<seq<Byte>>)
    requires o.hasValue ==> conv == Ok(o.value)
    ensures Scan(prior, SourceOf(Value(o), conv)) == Update(if o.hasValue then o else New([], false), false)
  {
  }
}
