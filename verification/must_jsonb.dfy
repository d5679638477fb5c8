/** must.JSONB (must/jsonb.go): a JSON document's bytes with no presence flag;
    absence is an empty payload. */
module MustJsonb {
  import opened Base
  import opened Nullable
  import opened JsonbSanitize

  /** What MarshalJSON does: emit bytes itself, or hand the payload to the
      standard encoder. */
  datatype Marshalled = Emitted(bytes: seq<Byte>) | Delegated

  /** MarshalJSON: an empty payload or exactly `null` is written as `{}`;
      anything else goes to the standard encoder. */
  function MarshalJSON(v: seq<Byte>): (r: Marshalled)
    ensures r.Emitted? <==> v == [] || v == NullToken
    ensures r.Emitted? ==> r.bytes == EmptyObject
  {
    if v == [] || v == NullToken then Emitted(EmptyObject) else Delegated
  }

  /** UnmarshalJSON: nil or `null` sets an empty payload without error; a
      decode failure returns the error and leaves the payload untouched;
      success replaces the whole payload with the decoded bytes. */
  function UnmarshalJSON(v: seq<Byte>, data: Data, decoded: Result<seq<Byte>>): (r: Update<seq<Byte>>)
    ensures IsNull(data) ==> r == Update([], false)
    ensures !IsNull(data) && decoded.Err? ==> r == Update(v, true)
    ensures !IsNull(data) && decoded.Ok? ==> r == Update(decoded.value, false)
  {
    if IsNull(data) then Update([], false)
    else match decoded
      case Err => Update(v, true)
      case Ok(b) => Update(b, false)
  }

  /** Scan: SQL NULL sets an empty payload; a failed conversion returns the
      error and leaves the payload untouched; success replaces it with the
      converted bytes. */
  function Scan(v: seq<Byte>, src: Source<seq<Byte>>): (r: Update<seq<Byte>>)
    ensures src.NullSource? ==> r == Update([], false)
    ensures src.Converted? && src.result.Err? ==> r == Update(v, true)
    ensures src.Converted? && src.result.Ok? ==> r == Update(src.result.value, false)
  {
    match src
    case NullSource => Update([], false)
    case Converted(Err) => Update(v, true)
    case Converted(Ok(b)) => Update(b, false)
  }

  /** Value: never SQL NULL. An empty payload or exactly `null` is written as
      `{}`; anything else with every `\u0000` removed in one pass, never
      growing. */
  function Value(v: seq<Byte>): (r: DriverValue)
    ensures r.BytesValue?
    ensures v == [] || v == NullToken ==> r.bytes == EmptyObject
    ensures v != [] && v != NullToken ==> r.bytes == RemoveAll(v, Escape) && |r.bytes| <= |v|
  {
    if v == [] || v == NullToken then BytesValue(EmptyObject)
    else BytesValue(RemoveAll(v, Escape))
  }

  /** The driver round trip through Value and Scan yields `{}` for an empty or
      `null` payload and the payload itself when it holds no escape, provided
      the conversion passes bytes through unchanged. */
  lemma DriverRoundTrip(prior: seq<Byte>, v: seq<Byte>)
    ensures v == [] || v == NullToken ==> Scan(prior, Converted(Ok(Value(v).bytes))) == Update(EmptyObject, false)
    ensures v != [] && v != NullToken && !Contains(v, Escape) ==> Scan(prior, Converted(Ok(Value(v).bytes))) == Update(v, false)
  {
    if v != [] && v != NullToken {
      UnchangedIffAbsent(v, Escape);
    }
  }
}
