/** null.JSONB (jsonb.go): the optional over a JSON document's bytes, as
    stored in a PostgreSQL jsonb column. */
module NullJsonb {
  import opened Base
  import opened Nullable
  import opened JsonbSanitize
  import Decimal

  const Zero: seq<Byte> := []

  /** NewJSONB: present holding a copy of `v` when `ok`, else absent and
      empty. */
  function New(v: seq<Byte>, ok: bool): (r: Opt<seq<Byte>>)
    ensures ok ==> r.Unwrap() == (v, true)
    ensures !ok ==> r.Unwrap() == ([], false)
  {
    Nullable.New(Zero, v, ok)
  }

  /** UnwrapOrDefault: the held bytes, or none when absent. */
  function UnwrapOrDefault(o: Opt<seq<Byte>>): (r: seq<Byte>)
    ensures o.hasValue ==> r == o.value
    ensures !o.hasValue ==> r == []
  {
    o.UnwrapOr(Zero)
  }

  /** String: `fmt`'s `%v` of the byte slice inside `Some(...)`; `null` when
      absent. */
  function String(o: Opt<seq<Byte>>): (s: string)
    ensures !o.hasValue <==> s == "null"
    ensures o.hasValue ==> s == "Some(" + Decimal.FormatList(o.value) + ")"
  {
    Render(o, (b: seq<Byte>) => Decimal.FormatList(b))
  }

  /** UnmarshalJSON: `null` or nil gives an absent, empty value without error;
      a decode failure clears the flag and returns the error, leaving whatever
      the decoder had written (possibly some elements, not the old value);
      success sets the decoded contents. */
  function UnmarshalJSON(o: Opt<seq<Byte>>, data: Data, decoding: Decoding<seq<Byte>>): (r: Update<Opt<seq<Byte>>>)
    ensures IsNull(data) ==> r.next.Unwrap() == ([], false) && !r.err
    ensures !IsNull(data) ==> (r.next.hasValue <==> decoding.Decoded?) && (r.err <==> decoding.Failed?)
    ensures !IsNull(data) && decoding.Decoded? ==> r.next.value == decoding.value
    ensures !IsNull(data) && decoding.Failed? ==> r.next.value == decoding.left
  {
    Nullable.UnmarshalJSON(o, Zero, data, decoding)
  }

  /** Scan: SQL NULL gives an absent, empty value; a failed conversion returns
      the error and leaves the receiver untouched (it is not reset to absent);
      success makes it present with the converted bytes. */
  function Scan(o: Opt<seq<Byte>>, src: Source<seq<Byte>>): (r: Update<Opt<seq<Byte>>>)
    ensures src.NullSource? ==> r.next.Unwrap() == ([], false) && !r.err
    ensures src.Converted? && src.result.Err? ==> r == Update(o, true)
    ensures src.Converted? && src.result.Ok? ==> r.next.Unwrap() == (src.result.value, true) && !r.err
  {
    Nullable.Scan(o, Zero, src)
  }

  /** Value. SQL NULL when absent and also when the payload is exactly the
      four bytes `null`; `{}` for a present empty payload; otherwise the
      payload with every `\u0000` removed in one pass. Both checks look at the
      payload before removal, and the result is never longer than the payload
      except when `{}` stands for an empty one. */
  function Value(o: Opt<seq<Byte>>): (r: DriverValue)
    ensures r.NilValue? <==> !o.hasValue || o.value == NullToken
    ensures !r.NilValue? ==> r.BytesValue?
    ensures o.hasValue && o.value == [] ==> r == BytesValue(EmptyObject)
    ensures o.hasValue && o.value != [] && o.value != NullToken ==> r == BytesValue(RemoveAll(o.value, Escape))
    ensures r.BytesValue? && o.value != [] ==> |r.bytes| <= |o.value|
  {
    if !o.hasValue || o.value == NullToken then NilValue
    else if o.value == [] then BytesValue(EmptyObject)
    else BytesValue(RemoveAll(o.value, Escape))
  }

  /** A payload that only becomes empty through the removal is written as
      empty bytes, not as `{}`; a payload free of the escape goes out as is. */
  lemma ValueChecksBeforeStripping(p: seq<Byte>)
    ensures Value(New(Escape, true)) == BytesValue([])
    ensures p != [] && p != NullToken && !Contains(p, Escape) ==> Value(New(p, true)) == BytesValue(p)
  {
    EscapeCanSurvive();
    UnchangedIffAbsent(p, Escape);
  }

  /** What Scan makes of what Value wrote, when the conversion passes bytes
      through unchanged: absence and a stored `null` both come back absent, an
      empty payload comes back as `{}`, and anything else comes back present
      with the escapes removed. */
  lemma DriverRoundTrip(prior: Opt<seq<Byte>>, o: Opt<seq<Byte>>, conv: Result<seq<Byte>>)
    requires Value(o).BytesValue? ==> conv == Ok(Value(o).bytes)
    ensures !Scan(prior, SourceOf(Value(o), conv)).err
    ensures Scan(prior, SourceOf(Value(o), conv)).next ==
      if !o.hasValue || o.value == NullToken then New([], false)
      else if o.value == [] then New(EmptyObject, true)
      else New(RemoveAll(o.value, Escape), true)
  {
  }

  /** A present payload that is neither empty, nor `null`, nor contains the
      escape survives the trip through the driver unchanged. */
  lemma CleanPayloadRoundTrip(prior: Opt<seq<Byte>>, p: seq<Byte>, conv: Result<seq<Byte>>)
    requires p != [] && p != NullToken && !Contains(p, Escape)
    requires conv == Ok(p)
    ensures Scan(prior, SourceOf(Value(New(p, true)), conv)) == Update(New(p, true), false)
  {
    UnchangedIffAbsent(p, Escape);
  }
}
