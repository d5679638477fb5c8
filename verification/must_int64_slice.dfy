/** must.Int64Slice (must/int64_slice.go): a bare `[]int64` with no presence
    flag, read from and written to the driver as an integer-array literal. */
module MustInt64Slice {
  import opened Base
  import opened Nullable
  import ArrayLiteral

  /** Scan: there is no nil branch, so the outcome depends only on the
      conversion to text (`conv`). If that or the array-literal parse fails,
      the error is returned and the slice is untouched; otherwise its whole
      contents are replaced by the parsed elements, nothing old surviving. */
  function Scan(v: seq<Int64>, conv: Result<string>): (r: Update<seq<Int64>>)
    ensures conv.Err? ==> r == Update(v, true)
    ensures conv.Ok? && ArrayLiteral.Parse(conv.value).Err? ==> r == Update(v, true)
    ensures conv.Ok? && ArrayLiteral.Parse(conv.value).Ok? ==> r == Update(ArrayLiteral.Parse(conv.value).value, false)
  {
    match conv
    case Err => Update(v, true)
    case Ok(text) =>
      match ArrayLiteral.Parse(text)
      case Err => Update(v, true)
      case Ok(xs) => Update(xs, false)
  }

  /** Value: never SQL NULL; the array-literal text, `{}` for an empty or nil
      slice. */
  function Value(v: seq<Int64>): (r: DriverValue)
    ensures r.TextValue? && r.text == ArrayLiteral.Format(v)
    ensures r.text == "{}" <==> v == []
  {
    TextValue(ArrayLiteral.Format(v))
  }

  /** Scanning the text Value wrote gives back the original slice, whatever
      the receiver held, provided text converts to text unchanged. */
  lemma {:induction false} DriverRoundTrip(prior: seq<Int64>, v: seq<Int64>, conv: Result<string>)
    requires conv == Ok(Value(v).text)
    ensures Scan(prior, conv) == Update(v, false)
  {
    ArrayLiteral.ParseFormat(v);
  }
}
