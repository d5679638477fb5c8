/** null.Int64Slice (int64_slice.go): the optional over Go's `[]int64`, read
    from and written to the driver as an integer-array literal. */
module NullInt64Slice {
  import opened Base
  import opened Nullable
  import ArrayLiteral
  import Decimal

  const Zero: seq<Int64> := []

  /** NewInt64Slice: present holding `v`'s elements when `ok`, else absent and
      empty. */
  function New(v: seq<Int64>, ok: bool): (r: Opt<seq<Int64>>)
    ensures ok ==> r.Unwrap() == (v, true)
    ensures !ok ==> r.Unwrap() == ([], false)
  {
    Nullable.New(Zero, v, ok)
  }

  /** UnwrapOrDefault: the held elements, or none when absent. */
  function UnwrapOrDefault(o: Opt<seq<Int64>>): (r: seq<Int64>)
    ensures o.hasValue ==> r == o.value
    ensures !o.hasValue ==> r == []
  {
    o.UnwrapOr(Zero)
  }

  /** String: `fmt`'s `%v` of the slice inside `Some(...)`, e.g. `Some([1 2])`;
      `null` when absent. */
  function String(o: Opt<seq<Int64>>): (s: string)
    ensures !o.hasValue <==> s == "null"
    ensures o.hasValue ==> s == "Some(" + Decimal.FormatList(o.value) + ")"
  {
    Render(o, (xs: seq<Int64>) => Decimal.FormatList(xs))
  }

  /** UnmarshalJSON: `null` or nil gives an absent, empty value without error;
      a decode failure clears the flag and returns the error, leaving whatever
      the decoder had written (possibly some elements, not the old value);
      success sets the decoded contents. */
  function UnmarshalJSON(o: Opt<seq<Int64>>, data: Data, decoding: Decoding<seq<Int64>>): (r: Update<Opt<seq<Int64>>>)
    ensures IsNull(data) ==> r.next.Unwrap() == ([], false) && !r.err
    ensures !IsNull(data) ==> (r.next.hasValue <==> decoding.Decoded?) && (r.err <==> decoding.Failed?)
    ensures !IsNull(data) && decoding.Decoded? ==> r.next.value == decoding.value
    ensures !IsNull(data) && decoding.Failed? ==> r.next.value == decoding.left
  {
    Nullable.UnmarshalJSON(o, Zero, data, decoding)
  }

  /** Scan: SQL NULL gives an absent, empty value. Otherwise the source is
      converted to text and parsed as an array literal; if either step fails
      the error is returned and the receiver is untouched, else the optional
      becomes present with exactly the parsed elements. */
  function Scan(o: Opt<seq<Int64>>, src: Source<string>): (r: Update<Opt<seq<Int64>>>)
    ensures src.NullSource? ==> r.next.Unwrap() == ([], false) && !r.err
    ensures src.Converted? && src.result.Err? ==> r == Update(o, true)
    ensures src.Converted? && src.result.Ok? && ArrayLiteral.Parse(src.result.value).Err? ==> r == Update(o, true)
    ensures src.Converted? && src.result.Ok? && ArrayLiteral.Parse(src.result.value).Ok?
      ==> r.next.Unwrap() == (ArrayLiteral.Parse(src.result.value).value, true) && !r.err
  {
    Nullable.Scan(o, Zero, Then(src, ArrayLiteral.Parse))
  }

  /** Value: SQL NULL exactly when absent, otherwise the array-literal text of
      the elements, `{}` for none. */
  function Value(o: Opt<seq<Int64>>): (r: DriverValue)
    ensures r.NilValue? <==> !o.hasValue
    ensures o.hasValue ==> r.TextValue? && r.text == ArrayLiteral.Format(o.value)
    ensures o.hasValue ==> (r.text == "{}" <==> o.value == [])
  {
    if o.hasValue then TextValue(ArrayLiteral.Format(o.value)) else NilValue
  }

  /** Scanning the text Value wrote restores an equal present value, and an
      absent one comes back absent and empty, provided text converts to text
      unchanged. */
  lemma {:induction false} DriverRoundTrip(prior: Opt<seq<Int64>>, o: Opt<seq<Int64>>, conv: Result<string>)
    requires Value(o).TextValue? ==> conv == Ok(Value(o).text)
    ensures Scan(prior, SourceOf(Value(o), conv)) == Update(if o.hasValue then o else New([], false), false)
  {
    if o.hasValue {
      ArrayLiteral.ParseFormat(o.value);
    }
  }

  /** A decode that fails part-way, as `[1,"x"]` does, overwrites the
      elements it decoded, keeps the old element where a decode failed, and
      cuts the slice to the array's length; the flag is cleared. From
      `[5 6 7]` that leaves `[1 6]`, from an empty payload `[1 0]`. */
  lemma FailedDecodeLeavesPartialElements()
    ensures UnmarshalJSON(New([5, 6, 7], true), Data([0x5B, 0x31, 0x2C, 0x22, 0x78, 0x22, 0x5D]), Failed([1, 6]))
      == Update(Opt(false, [1, 6]), true)
    ensures UnmarshalJSON(New([], false), Data([0x5B, 0x31, 0x2C, 0x22, 0x78, 0x22, 0x5D]), Failed([1, 0]))
      == Update(Opt(false, [1, 0]), true)
  {
  }

  /** A malformed literal leaves a present receiver exactly as it was. */
  lemma MalformedScanKeepsReceiver(xs: seq<Int64>)
    ensures Scan(New(xs, true), Converted(Ok("{1,x,3}"))) == Update(New(xs, true), true)
    ensures Scan(New(xs, true), Converted(Ok("{1, 2}"))) == Update(New(xs, true), true)
  {
    ArrayLiteral.ParseRejectsLetter();
    ArrayLiteral.ParseRejectsBlank();
  }
}
