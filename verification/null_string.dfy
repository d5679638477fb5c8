/** null.String (string.go): the optional over Go's `string`, zero value "",
    plus `Or`. */
module NullString {
  import opened Base
  import opened Nullable

  const Zero: string := ""

  /** NewString: present with `v` when `ok`, else absent holding "". */
  function New(v: string, ok: bool): (r: Opt<string>)
    ensures ok ==> r.Unwrap() == (v, true)
    ensures !ok ==> r.Unwrap() == ("", false)
  {
    Nullable.New(Zero, v, ok)
  }

  /** UnwrapOrDefault: the held value, or "" when absent. */
  function UnwrapOrDefault(o: Opt<string>): (r: string)
    ensures o.hasValue ==> r == o.value
    ensures !o.hasValue ==> r == ""
  {
    o.UnwrapOr(Zero)
  }

  /** Or: the receiver itself when it is present, otherwise `b`. */
  function Or(a: Opt<string>, b: Opt<string>): (r: Opt<string>)
    ensures a.hasValue ==> r == a
    ensures !a.hasValue ==> r == b
    ensures r.hasValue <==> a.hasValue || b.hasValue
  {
    if a.hasValue then a else b
  }

  /** Or picks the first present operand: it is associative, an absent
      optional is its left identity, and unwrapping the result with a default
      equals unwrapping `a` with `b`'s unwrapped value as default. */
  lemma OrLaws(a: Opt<string>, b: Opt<string>, c: Opt<string>, d: string)
    ensures Or(Or(a, b), c) == Or(a, Or(b, c))
    ensures Or(New(d, false), b) == b
    ensures Or(a, b).UnwrapOr(d) == a.UnwrapOr(b.UnwrapOr(d))
  {
  }

  /** String: `Some(<text>)` when present, `null` when absent; a present
      empty string renders as `Some()`, which is not `null`. */
  function String(o: Opt<string>): (s: string)
    ensures !o.hasValue <==> s == "null"
    ensures o.hasValue ==> s == "Some(" + o.value + ")"
  {
    Render(o, (t: string) => t)
  }

  /** Rendering keeps present values apart from absence and from each other:
      the text between `Some(` and `)` is the value itself. */
  lemma StringRecoversValue(o: Opt<string>)
    requires o.hasValue
    ensures |String(o)| >= 6 && String(o)[5..|String(o)| - 1] == o.value
    ensures String(New("", true)) == "Some()" != String(New("", false))
  {
  }

  /** UnmarshalJSON: `null` or nil gives ("", false) without error; a
      decode failure clears the flag and returns the error, leaving the old
      value in place (the decoder does not write a scalar it cannot decode);
      success sets the value. */
  function UnmarshalJSON(o: Opt<string>, data: Data, decoded: Result<string>): (r: Update<Opt<string>>)
    ensures IsNull(data) ==> r.next.Unwrap() == ("", false) && !r.err
    ensures !IsNull(data) ==> (r.next.hasValue <==> decoded.Ok?) && (r.err <==> decoded.Err?)
    ensures !IsNull(data) && decoded.Ok? ==> r.next.value == decoded.value
    ensures !IsNull(data) && decoded.Err? ==> r.next.value == o.value
  {
    Nullable.UnmarshalJSON(o, Zero, data, ScalarDecoding(o.value, decoded))
  }

  /** Scan: SQL NULL gives ("", false); a failed conversion returns the error
      and leaves the receiver untouched; success sets the value. */
  function Scan(o: Opt<string>, src: Source<string>): (r: Update<Opt<string>>)
    ensures src.NullSource? ==> r.next.Unwrap() == ("", false) && !r.err
    ensures src.Converted? && src.result.Err? ==> r.next == o && r.err
    ensures src.Converted? && src.result.Ok? ==> r.next.Unwrap() == (src.result.value, true) && !r.err
  {
    Nullable.Scan(o, Zero, src)
  }

  /** Value: SQL NULL exactly when absent, otherwise the same text. */
  function Value(o: Opt<string>): (r: DriverValue)
    ensures r.NilValue? <==> !o.hasValue
    ensures o.hasValue ==> r == TextValue(o.value)
  {
    if o.hasValue then TextValue(o.value) else NilValue
  }

  /** Writing with Value and reading back with Scan restores a present value
      (the empty string included), and turns an absent one into ("", false),
      provided the conversion hands text through unchanged. */
  lemma DriverRoundTrip(prior: Opt<string>, o: Opt<string>, conv: Result<string>)
    requires o.hasValue ==> conv == Ok(o.value)
    ensures Scan(prior, SourceOf(Value(o), conv)) == Update(if o.hasValue then o else New("", false), false)
  {
  }
}
