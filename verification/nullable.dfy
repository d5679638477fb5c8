/** The optional value that every type of the package repeats: a presence
    flag next to a payload, the unwrap accessors, and the null handling of the
    two serialisation boundaries (the JSON decoder and the SQL driver).

    The Go zero value of the payload type is passed in as `zero`; the calls
    into code outside the model (`encoding/json` and the driver conversion
    routine `internal.ConvertAssign`) are passed in as their results. */
module Nullable {
  import opened Base

  /** Go's `struct { hasValue bool; value T }`. */
  datatype Opt<T> = Opt(hasValue: bool, value: T) {

    /** Unwrap: the payload and the flag, as stored; nothing is lost, since
        the pair rebuilds the optional. */
    function Unwrap(): (r: (T, bool))
      ensures Opt(r.1, r.0) == this
    {
      (value, hasValue)
    }

    /** SetValue: afterwards the optional is present with exactly `v`, whatever
        it held before. */
    function SetValue(v: T): (r: Opt<T>)
      ensures r.Unwrap() == (v, true)
    {
      Opt(true, v)
    }

    /** UnwrapOr: the default is returned exactly when the value is absent. */
    function UnwrapOr(d: T): (r: T)
      ensures hasValue ==> r == value
      ensures !hasValue ==> r == d
    {
      if hasValue then value else d
    }

    /** UnwrapOrElse, with the supplier's side effects made explicit: `fn`
        maps the state it runs in to its result and the state it leaves. The
        result is what UnwrapOr gives with the supplier's result as default;
        a present value leaves the state exactly as it was, and an absent one
        leaves it as one run of the supplier does. */
    function UnwrapOrElse<S>(fn: S -> (T, S), st: S): (r: (T, S))
      ensures r.0 == UnwrapOr(fn(st).0)
      ensures hasValue ==> r.1 == st
      ensures !hasValue ==> r.1 == fn(st).1
    {
      if hasValue then (value, st) else fn(st)
    }

    /** UnwrapOrPanic: callable only on a present value (the Go code panics
        otherwise), and then no default matters. */
    function UnwrapOrPanic(): (r: T)
      requires hasValue
      ensures Unwrap() == (r, true)
    {
      value
    }
  }

  /** How the accessors relate: UnwrapOr, UnwrapOrElse and UnwrapOrPanic all
      return Unwrap's payload when it is flagged present, the first two return
      their fallback otherwise, and after SetValue no fallback is ever used. */
  lemma UnwrapFamily<T, S>(o: Opt<T>, d: T, fn: S -> (T, S), st: S, v: T)
    ensures o.UnwrapOr(d) == (if o.Unwrap().1 then o.Unwrap().0 else d)
    ensures o.UnwrapOrElse(fn, st).0 == (if o.Unwrap().1 then o.Unwrap().0 else fn(st).0)
    ensures o.hasValue ==> o.UnwrapOrPanic() == o.UnwrapOr(d) == o.UnwrapOrElse(fn, st).0
    ensures o.SetValue(v).UnwrapOr(d) == v
  {
  }

  /** A supplier that counts its own runs: UnwrapOrElse runs it exactly once
      when the value is absent and never when it is present. */
  lemma SupplierRunsOnlyWhenAbsent<T>(o: Opt<T>, d: T, runs: int)
    ensures o.UnwrapOrElse((n: int) => (d, n + 1), runs)
      == (o.UnwrapOr(d), if o.hasValue then runs else runs + 1)
  {
  }

  function Absent<T>(zero: T): Opt<T> {
    Opt(false, zero)
  }

  /** The NewX constructors: the value is ignored unless `ok`; an absent
      optional holds the zero value. */
  function New<T>(zero: T, v: T, ok: bool): (r: Opt<T>)
    ensures r.Unwrap() == (if ok then v else zero, ok)
  {
    if ok then Absent(zero).SetValue(v) else Absent(zero)
  }

  /** The `String` method: `Some(...)` around the payload's rendering when
      present, and `null` when absent; the two never coincide. */
  function Render<T>(o: Opt<T>, show: T -> string): (s: string)
    ensures s == "null" <==> !o.hasValue
    ensures o.hasValue ==> s == "Some(" + show(o.value) + ")"
  {
    if o.hasValue then "Some(" + show(o.value) + ")" else "null"
  }

  /** The bytes UnmarshalJSON receives; Go distinguishes a nil slice from an
      empty one here. */
  datatype Data = NilData | Data(bytes: seq<Byte>)

  /** The four bytes `null`. */
  const NullToken: seq<Byte> := [0x6E, 0x75, 0x6C, 0x6C]

  predicate IsNull(data: Data) {
    data.NilData? || data.bytes == NullToken
  }

  /** The receiver after a method with a `*T` receiver, and whether the
      method returned an error. */
  datatype Update<S> = Update(next: S, err: bool)

  /** What `json.Unmarshal` does to the payload it decodes into: it stores a
      decoded value, or it returns an error having left the payload as
      `left`. A scalar payload is left as it was; a slice payload may already
      hold the elements decoded before the error (`[1,"x"]` leaves `[1 0]`). */
  datatype Decoding<T> = Decoded(value: T) | Failed(left: T)

  /** The decoder's effect on a scalar payload, which a failed decode does
      not touch. */
  function ScalarDecoding<T>(prev: T, decoded: Result<T>): (d: Decoding<T>)
    ensures d.Decoded? <==> decoded.Ok?
    ensures decoded.Ok? ==> d.value == decoded.value
    ensures decoded.Err? ==> d.left == prev
  {
    match decoded
    case Ok(v) => Decoded(v)
    case Err => Failed(prev)
  }

  /** UnmarshalJSON. A nil input or the `null` token makes the optional absent
      with the zero value and no error. Anything else is handed to the decoder:
      success makes the optional present with the decoded value; failure
      returns the error and clears the flag, and the payload is whatever the
      decoder left in it. */
  function UnmarshalJSON<T>(o: Opt<T>, zero: T, data: Data, decoding: Decoding<T>): (r: Update<Opt<T>>)
    ensures IsNull(data) ==> r == Update(Absent(zero), false)
    ensures !IsNull(data) ==> (r.next.hasValue <==> decoding.Decoded?) && (r.err <==> decoding.Failed?)
    ensures !IsNull(data) && decoding.Decoded? ==> r.next.value == decoding.value
    ensures !IsNull(data) && decoding.Failed? ==> r.next.value == decoding.left
  {
    if IsNull(data) then Update(Absent(zero), false)
    else match decoding
      case Decoded(v) => Update(Opt(true, v), false)
      case Failed(left) => Update(Opt(false, left), true)
  }

  /** MarshalJSON: an absent optional encodes as `null`; a present one is
      whatever the encoder made of its payload (`encoded`). */
  function MarshalJSON<T>(o: Opt<T>, encoded: Result<seq<Byte>>): (r: Result<seq<Byte>>)
    ensures !o.hasValue ==> r == Ok(NullToken)
    ensures o.hasValue ==> r == encoded
  {
    if o.hasValue then encoded else Ok(NullToken)
  }

  /** What Scan receives: SQL NULL, or a non-nil driver value together with
      the result of converting it to the payload type. */
  datatype Source<T> = NullSource | Converted(result: Result<T>)

  /** Scan. SQL NULL makes the optional absent with the zero value and no
      error. A failed conversion returns the error and leaves the receiver
      exactly as it was. A successful one sets the converted value. */
  function Scan<T>(o: Opt<T>, zero: T, src: Source<T>): (r: Update<Opt<T>>)
    ensures src.NullSource? ==> r == Update(Absent(zero), false)
    ensures src.Converted? && src.result.Err? ==> r == Update(o, true)
    ensures src.Converted? && src.result.Ok? ==> r == Update(o.SetValue(src.result.value), false)
  {
    match src
    case NullSource => Update(Absent(zero), false)
    case Converted(Err) => Update(o, true)
    case Converted(Ok(v)) => Update(o.SetValue(v), false)
  }

  /** A second conversion stage after the first (the array-literal parse
      after the conversion to text): the source fails if either stage does. */
  function Then<S, T>(src: Source<S>, f: S -> Result<T>): (r: Source<T>)
    ensures r.NullSource? <==> src.NullSource?
    ensures r.Converted? && r.result.Ok? <==> src.Converted? && src.result.Ok? && f(src.result.value).Ok?
    ensures r.Converted? && r.result.Ok? ==> r.result == f(src.result.value)
  {
    match src
    case NullSource => NullSource
    case Converted(Err) => Converted(Err)
    case Converted(Ok(s)) => Converted(f(s))
  }

  /** What the Value methods hand to the driver; `NilValue` is SQL NULL. */
  datatype DriverValue =
    | NilValue
    | Int64Value(i: Int64)
    | BoolValue(b: bool)
    | TextValue(text: string)
    | BytesValue(bytes: seq<Byte>)

  /** The driver handing a Value back to Scan: nil stays SQL NULL, anything
      else arrives with the conversion routine's result `conv`. */
  function SourceOf<T>(v: DriverValue, conv: Result<T>): Source<T> {
    if v.NilValue? then NullSource else Converted(conv)
  }

  /** JSON round trip. Marshalling and then unmarshalling gives back the
      optional when it is absent (as the zero value), and when it is present
      provided the encoder and decoder agree on the payload and the encoding
      is not the `null` token. */
  lemma JsonRoundTrip<T>(prior: Opt<T>, o: Opt<T>, zero: T, encoded: Result<seq<Byte>>, decoded: Decoding<T>)
    requires o.hasValue ==> encoded.Ok? && encoded.value != NullToken && decoded == Decoded(o.value)
    ensures MarshalJSON(o, encoded).Ok?
    ensures UnmarshalJSON(prior, zero, Data(MarshalJSON(o, encoded).value), decoded)
      == Update(if o.hasValue then o else Absent(zero), false)
  {
  }

  /** A present payload that the encoder writes as `null` (Go encodes a nil
      slice that way, though not an empty non-nil one) comes back absent:
      presence is lost on the round trip. */
  lemma JsonNullEncodingLosesPresence<T>(prior: Opt<T>, o: Opt<T>, zero: T, decoded: Decoding<T>)
    requires o.hasValue
    ensures UnmarshalJSON(prior, zero, Data(MarshalJSON(o, Ok(NullToken)).value), decoded).next
      == Absent(zero)
  {
  }

  /** For a scalar payload, after a failed decode the flag is cleared but
      Unwrap still returns the payload that was there before, not the zero
      value. */
  lemma FailedDecodeKeepsStaleValue<T>(v: T, zero: T, bytes: seq<Byte>)
    requires bytes != NullToken
    ensures UnmarshalJSON(Opt(true, v), zero, Data(bytes), ScalarDecoding(v, Err)) == Update(Opt(false, v), true)
    ensures UnmarshalJSON(Opt(true, v), zero, Data(bytes), ScalarDecoding(v, Err)).next.Unwrap() == (v, false)
  {
  }
}
