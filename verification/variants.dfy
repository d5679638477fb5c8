/** How the flag-less `must` types relate to their optional counterparts:
    on a present payload they write the same thing to the driver, except for
    a stored `null` document. */
module Variants {
  import opened Base
  import opened Nullable
  import JsonbSanitize
  import NullInt64Slice
  import MustInt64Slice
  import NullJsonb
  import MustJsonb

  /** Both Int64Slice types write the same literal for a present slice; only
      the optional one can write SQL NULL. */
  lemma Int64SliceValuesAgree(xs: seq<Int64>)
    ensures NullInt64Slice.Value(NullInt64Slice.New(xs, true)) == MustInt64Slice.Value(xs)
    ensures NullInt64Slice.Value(NullInt64Slice.New(xs, false)) == NilValue
  {
  }

  /** Both JSONB types write the same bytes for a present payload other than
      `null`; for `null` the optional type writes SQL NULL and the flag-less
      one writes `{}`. */
  lemma JsonbValuesAgree(p: seq<Byte>)
    ensures p != NullToken ==> NullJsonb.Value(NullJsonb.New(p, true)) == MustJsonb.Value(p)
    ensures NullJsonb.Value(NullJsonb.New(NullToken, true)) == NilValue
    ensures MustJsonb.Value(NullToken) == BytesValue(JsonbSanitize.EmptyObject)
  {
  }
}
