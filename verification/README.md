# null: optional SQL/JSON values, modelled in Dafny

This project models the core of the Go package `github.com/Gurpartap/null`.
The package provides optional ("nullable") wrappers for `int64`, `int16`,
`bool`, `string`, `[]byte`, JSON documents (`JSONB`) and integer arrays
(`Int64Slice`). Each wrapper can be stored in a PostgreSQL column through the
`database/sql` interfaces (`Scan` and `Value`) and can be encoded as JSON
(`MarshalJSON` and `UnmarshalJSON`). The `must` sub-package has flag-less
versions of the two composite types.

The model has three parts:

- **The optional value.** `Nullable.Opt<T>` is the Go struct
  `{hasValue, value}`, with the constructor, `SetValue`, the unwrap family, the
  `String` rendering, and the null handling at the JSON and SQL boundaries.
  One module per Go file (`NullInt64`, `NullInt16`, `NullBool`, `NullString`,
  `NullBytes`, `NullJsonb`, `NullInt64Slice`) instantiates it with that type's
  zero value, text rendering and driver value.
- **The integer-array literal codec.** `ArrayLiteral` holds the parser in
  `internal.StringToInt64Slice` and the `{1,2,3}` formatter of both `Value`
  methods. The parser is built from models of Go's `strings.Trim`,
  `strings.Split` and `strings.Join` (`Strings`) and of `strconv.ParseInt` and
  `strconv.FormatInt` (`Decimal`).
- **The JSONB sanitiser.** `JsonbSanitize` models the one-pass removal of the
  escaped NUL `\u0000`, which PostgreSQL's jsonb type rejects, and both JSONB
  `Value` methods use it.

Calls into code outside the model are parameters. The driver conversion
`internal.ConvertAssign` and the JSON encoder are a `Result<T> = Ok(v) | Err`.
The JSON decoder is a `Nullable.Decoding<T> = Decoded(value) | Failed(left)`,
where `left` is the payload a failed decode leaves behind. The flag-less
JSONB's `MarshalJSON` yields a `MustJsonb.Marshalled`: the bytes it writes
itself, or `Delegated` when it hands the payload to the standard encoder. A method that returns an error yields
`Update(next, err)`: the receiver afterwards and whether an error was
returned. A Go panic becomes a precondition.

## Behaviour of the code worth knowing


- A failed `Scan` leaves the receiver exactly as it was, for every type. This
  includes `Bytes`, `JSONB` and `Int64Slice`: the code returns before touching
  the receiver, so it is not reset to absent (bytes.go:121-124,
  jsonb.go:121-124, int64_slice.go:123-132).
- A failed `UnmarshalJSON` clears the flag but does not reset the payload.
  For the scalar types (int64, int16, bool, string) the decoder does not
  write a value it cannot decode, so the previous payload stays in place.
  "Absent implies the zero value" then fails, and `Unwrap` returns the stale
  payload with `false` (`Nullable.FailedDecodeKeepsStaleValue`). For
  `Bytes`, `JSONB` and `Int64Slice` the decoder may already have written part
  of its result into the payload. It overwrites the elements it decoded,
keeps the old element where a decode failed, and cuts the slice to the
array's length: from an empty payload `[1,"x"]` leaves `[1 0]` behind, from
`[5 6 7]` it leaves `[1 6]`. The model
  takes that leftover payload as an input to the decode
  (`NullInt64Slice.FailedDecodeLeavesPartialElements`).
- A present nil slice or byte payload does not survive a JSON round trip.
  The encoder writes a nil slice as `null`, and decoding `null` gives absent
  (`Nullable.JsonNullEncodingLosesPresence`). A present empty non-nil slice,
  such as the one `SetValue` of bytes.go can store, is written as `""` or
  `[]` and survives. The model uses one empty sequence for nil and empty
  slices, so it cannot tell these two cases apart. The lemma therefore takes
  the encoder's output as a parameter.
- `\u0000` removal is one pass, so an escape can survive it
  (`JsonbSanitize.EscapeCanSurvive`). The `null` and empty checks of `Value`
  look at the payload before removal (`NullJsonb.ValueChecksBeforeStripping`).

## Model

| member | source | states |
|---|---|---|
| Strings.Trim | internal/util.go:15 | the result is a contiguous part of the input, every character dropped before or after it is in the cutset, and no cutset character is left at either end |
| Strings.TrimBothEnds | internal/util.go:15 | trimming removes exactly a cutset-only prefix and a cutset-only suffix and keeps what lies between |
| Strings.Join | int64_slice.go:149 | joining no pieces gives the empty text, and the result is at least one character per gap between pieces long |
| Strings.JoinAt | int64_slice.go:149 | cutting the pieces at any point cuts the join at one separator, so a separator stands between each two neighbouring pieces |
| Strings.TrimWrapped | internal/util.go:15 | every leading and trailing brace goes, not one pair: trimming `p + m + q` with brace-only `p`, `q` gives back `m` |
| Strings.Split | internal/util.go:16 | at least one piece, none containing the separator, and joining the pieces gives back the input (so `""` splits into one empty piece) |
| Strings.SplitJoin | internal/util.go:16 | splitting a join of separator-free pieces gives back exactly those pieces |
| Decimal.FormatInt | int64_slice.go:147 | a minus sign exactly for negative numbers and never a plus; the digits after it spell the absolute value, and only the text `0` itself starts with a zero digit |
| Decimal.ParseInt | internal/util.go:17 | the accepted texts are exactly the optionally signed digit strings whose value fits in int64; the result's absolute value is the digits' value, negative only after a minus |
| Decimal.ParseFormatInt | internal/util.go:17 | the decimal text of every int64 parses back to it |
| Decimal.ParseRejectsOutOfRange | internal/util.go:17-20 | the decimal text of a number outside the int64 range is rejected |
| Decimal.ParseIntSamples | internal/util.go:17-20 | the empty text, a lone sign, a blank and a letter are rejected; `+7` and `07` give 7 |
| Decimal.FormatList | int64_slice.go:84-89 | `%v` of a slice is bracketed, and is `[]` exactly for the empty slice |
| ArrayLiteral.ParseTokens | internal/util.go:16-22 | all-or-nothing: succeeds exactly when every token parses, with one element per token in order, each that token's value |
| ArrayLiteral.Parse | internal/util.go:8-24 | `{}` is the empty array; otherwise success exactly when every trimmed, comma-split token is an int64 decimal, and then the tokens' values in order |
| ArrayLiteral.Format | int64_slice.go:145-149 | the literal is braced, and is `{}` exactly for the empty slice |
| ArrayLiteral.TokensOfFormat | internal/util.go:15-16 | the tokens the parser sees in a formatted literal are the elements' decimals |
| ArrayLiteral.DecimalIsPlain | int64_slice.go:147-149 | a decimal written by FormatInt holds no comma and neither starts nor ends with a brace, so neither Trim nor Split of the parser cuts into it |
| ArrayLiteral.ParseTokensFormatAll | internal/util.go:16-22 | the elements' decimals parse back to the elements |
| ArrayLiteral.ParseFormat | internal/util.go:8-24 | parsing the literal written for any int64 sequence, the empty one included, gives back exactly that sequence |
| ArrayLiteral.ParseTrimsAllBraces | internal/util.go:11-15 | `{}`, `{{1}}` and `1,2` all parse |
| ArrayLiteral.ParseRejectsEmpty | internal/util.go:15-20 | `""` is rejected |
| ArrayLiteral.ParseRejectsDoubledEmpty | internal/util.go:11-20 | `{{}}` is not `{}`: it is rejected |
| ArrayLiteral.RejectsBadToken | internal/util.go:16-20 | one token that is not an int64 decimal rejects the whole literal, with no partial result |
| ArrayLiteral.ParseRejectsEmptyToken | internal/util.go:16-20 | `{1,,2}` is rejected |
| ArrayLiteral.ParseRejectsBlank | internal/util.go:16-20 | `{1, 2}` is rejected |
| ArrayLiteral.ParseRejectsLetter | internal/util.go:16-20 | `{1,x,3}` is rejected |
| ArrayLiteral.FormatParseSamples | int64_slice.go:145-149 | `{1,2,3}` and `{-5}` are written and read back canonically |
| JsonbSanitize.RemoveAll | jsonb.go:151 | the sanitised payload is never longer than the input |
| JsonbSanitize.RemovedWhole | jsonb.go:151 | the payload shrinks by exactly one escape's length per removal: only whole copies are taken out |
| JsonbSanitize.SkipOccurrence | jsonb.go:151 | an occurrence of the escape at the scan position contributes nothing to the output |
| JsonbSanitize.KeepElement | jsonb.go:151 | a byte that does not start the escape is copied to the output, and the scan resumes right after it |
| JsonbSanitize.NoOccurrenceUnchanged | jsonb.go:151 | a payload without the escape is returned unchanged |
| JsonbSanitize.OccurrenceShrinks | jsonb.go:151 | a payload containing the escape gets strictly shorter |
| JsonbSanitize.UnchangedIffAbsent | jsonb.go:151 | the payload is unchanged if and only if the escape does not occur in it |
| JsonbSanitize.EscapeCanSurvive | jsonb.go:151 | `\u\u00000000` becomes `\u0000`: the pass does not rescan its output |
| JsonbSanitize.RemoveAllStep | jsonb.go:151 | a leading occurrence is skipped whole, otherwise the first byte is kept |
| JsonbSanitize.Replace | jsonb.go:151 | the left-to-right scan computes exactly the single-pass removal |
| Nullable.Opt.Unwrap | int64.go:35-37 | the pair returned holds the payload and the flag, and together they rebuild the receiver |
| Nullable.Opt.SetValue | int64.go:27-30 | afterwards the value is present with exactly the new payload |
| Nullable.Opt.UnwrapOr | int64.go:40-45 | the default is returned exactly when absent |
| Nullable.Opt.UnwrapOrElse | int64.go:48-53 | the value is as UnwrapOr with the supplier's result; the supplier's effect on the threaded state happens when absent and the state is untouched when present |
| Nullable.SupplierRunsOnlyWhenAbsent | int64.go:48-53 | with a supplier that counts its runs, the count goes up by one exactly when the value is absent |
| Nullable.Opt.UnwrapOrPanic | int64.go:64-69 | callable only when present, and then returns the payload |
| Nullable.UnwrapFamily | int64.go:35-69 | all unwrap accessors agree with Unwrap on a present value; after SetValue no fallback is used |
| Nullable.New | int64.go:18-24 | present with `v` when `ok`, otherwise absent with the zero value |
| Nullable.Render | int64.go:80-85 | `null` exactly when absent, otherwise `Some(...)` around the payload's rendering |
| Nullable.ScalarDecoding | int64.go:102-106 | a scalar decode either delivers the decoded value or fails leaving the previous payload as it was |
| Nullable.UnmarshalJSON | int64.go:96-110 | nil or `null` gives absent zero and no error; otherwise present exactly when the decoder succeeds, with an error exactly when it fails, and the payload is what the decoder delivered or left behind |
| Nullable.MarshalJSON | int64.go:88-93 | absent encodes as `null`, present as whatever the encoder writes |
| Nullable.Scan | int64.go:113-127 | SQL NULL gives absent zero; a failed conversion returns an error and changes nothing; success sets the converted value |
| Nullable.Then | int64_slice.go:123-137 | the two-stage conversion succeeds exactly when both stages do, with the second stage's result |
| Nullable.JsonRoundTrip | int64.go:88-110 | a value encoded and decoded by agreeing codecs comes back equal; an absent one comes back absent zero |
| Nullable.JsonNullEncodingLosesPresence | int64_slice.go:92-114 | a present payload the encoder writes as `null` (a nil slice) comes back absent |
| Nullable.FailedDecodeKeepsStaleValue | int64.go:102-106 | a failed decode clears the flag but Unwrap still returns the old payload |
| NullInt64.New | int64.go:18-24 | Unwrap gives `(v, true)` when `ok`, otherwise `(0, false)` |
| NullInt64.UnwrapOrDefault | int64.go:56-61 | the payload when present, 0 when absent |
| NullInt64.String | int64.go:80-85 | `Some(<decimal>)` when present, `null` exactly when absent |
| NullInt64.StringParsesBack | int64.go:80-85 | the text inside `Some(...)` parses back to the value |
| NullInt64.Scenario | int64.go:40-85 | 42 renders as `Some(42)`, absence as `null`; UnwrapOr returns its default only when absent |
| NullInt64.UnmarshalJSON | int64.go:96-110 | `null` gives `(0, false)` without error; a decode failure forces absent with an error and keeps the old payload |
| NullInt64.Scan | int64.go:113-127 | SQL NULL gives `(0, false)`; a failed conversion changes nothing; success sets the value |
| NullInt64.Value | int64.go:130-135 | SQL NULL exactly when absent, otherwise the same int64 |
| NullInt64.DriverRoundTrip | int64.go:113-135 | scanning what Value wrote restores a present value and gives `(0, false)` for an absent one |
| NullInt16.New | int16.go:19-25 | Unwrap gives `(v, true)` when `ok`, otherwise `(0, false)` |
| NullInt16.UnwrapOrDefault | int16.go:57-62 | the payload when present, 0 when absent |
| NullInt16.String | int16.go:81-86 | `Some(<decimal>)` when present, `null` exactly when absent |
| NullInt16.UnmarshalJSON | int16.go:97-111 | `null` gives `(0, false)` without error; a decode failure forces absent with an error and keeps the old payload |
| NullInt16.Scan | int16.go:114-128 | SQL NULL gives `(0, false)`; a failed conversion changes nothing |
| NullInt16.Value | int16.go:131-136 | SQL NULL exactly when absent, otherwise an int64 with the same numeric value |
| NullInt16.DriverRoundTrip | int16.go:114-136 | scanning the widened value back restores a present value and gives `(0, false)` for an absent one |
| NullBool.New | bool.go:18-24 | Unwrap gives `(v, true)` when `ok`, otherwise `(false, false)` |
| NullBool.UnwrapOrDefault | bool.go:56-61 | the payload when present, false when absent |
| NullBool.ShowBool | bool.go:82 | `%v` of a bool is `true` exactly for true and `false` exactly for false |
| NullBool.String | bool.go:80-85 | exactly one of `Some(true)`, `Some(false)` and `null`, telling the three states apart |
| NullBool.UnmarshalJSON | bool.go:96-110 | `null` gives `(false, false)` without error; a decode failure forces absent with an error and keeps the old payload |
| NullBool.Scan | bool.go:113-127 | SQL NULL gives `(false, false)`; a failed conversion changes nothing |
| NullBool.Value | bool.go:130-135 | SQL NULL exactly when absent, otherwise the bool |
| NullBool.DriverRoundTrip | bool.go:113-135 | scanning what Value wrote restores a present value and gives `(false, false)` for an absent one |
| NullString.New | string.go:18-24 | Unwrap gives `(v, true)` when `ok`, otherwise `("", false)` |
| NullString.UnwrapOrDefault | string.go:56-61 | the payload when present, `""` when absent |
| NullString.Or | string.go:72-77 | the receiver when present, otherwise the argument |
| NullString.OrLaws | string.go:72-77 | Or is associative, absence is its left identity, and unwrapping `a.Or(b)` with a default is unwrapping `a` with `b`'s value as default |
| NullString.String | string.go:88-93 | `Some(<text>)` when present, `null` exactly when absent |
| NullString.StringRecoversValue | string.go:88-93 | the text inside `Some(...)` is the value; a present `""` renders `Some()`, not `null` |
| NullString.UnmarshalJSON | string.go:104-118 | `null` gives `("", false)` without error; a decode failure forces absent with an error and keeps the old payload |
| NullString.Scan | string.go:121-135 | SQL NULL gives `("", false)`; a failed conversion returns the error and changes nothing |
| NullString.Value | string.go:138-143 | SQL NULL exactly when absent, otherwise the same text |
| NullString.DriverRoundTrip | string.go:121-143 | scanning what Value wrote restores a present value, `""` included |
| NullBytes.New | bytes.go:19-25 | Unwrap gives `(v, true)` when `ok`, otherwise absent and empty |
| NullBytes.UnwrapOrDefault | bytes.go:57-62 | the payload when present, empty when absent |
| NullBytes.String | bytes.go:81-86 | `Some([b1 b2 ...])` when present, `null` exactly when absent |
| NullBytes.UnmarshalJSON | bytes.go:97-111 | nil or `null` gives absent without error; a decode failure forces absent with an error, holding what the decoder left behind; success sets the decoded payload |
| NullBytes.Scan | bytes.go:114-128 | SQL NULL gives absent; a failed conversion changes nothing |
| NullBytes.Value | bytes.go:131-136 | SQL NULL exactly when absent, otherwise the payload |
| NullBytes.DriverRoundTrip | bytes.go:114-136 | scanning what Value wrote restores a present payload, an empty one included |
| NullJsonb.New | jsonb.go:19-31 | present holding `v` when `ok`, otherwise absent and empty |
| NullJsonb.UnwrapOrDefault | jsonb.go:57-62 | the payload when present, empty when absent |
| NullJsonb.String | jsonb.go:81-86 | `Some([b1 b2 ...])` when present, `null` exactly when absent |
| NullJsonb.UnmarshalJSON | jsonb.go:97-111 | nil or `null` gives absent without error; a decode failure forces absent with an error, holding what the decoder left behind; success sets the decoded payload |
| NullJsonb.Scan | jsonb.go:114-128 | SQL NULL gives absent; a failed conversion returns the error and changes nothing; success sets the bytes |
| NullJsonb.Value | jsonb.go:131-152 | SQL NULL exactly when absent or the payload is `null`; `{}` for an empty payload; otherwise the sanitised payload, never longer |
| NullJsonb.ValueChecksBeforeStripping | jsonb.go:131-152 | a payload that is only the escape is written as empty bytes, not `{}`; an escape-free payload is written unchanged |
| NullJsonb.DriverRoundTrip | jsonb.go:114-152 | scanning what Value wrote gives absent for absent or `null`, `{}` for empty, and the sanitised payload otherwise |
| NullJsonb.CleanPayloadRoundTrip | jsonb.go:114-152 | a non-empty, non-`null`, escape-free payload survives the trip through the driver unchanged |
| NullInt64Slice.New | int64_slice.go:22-34 | present holding `v`'s elements when `ok`, otherwise absent and empty |
| NullInt64Slice.UnwrapOrDefault | int64_slice.go:60-65 | the elements when present, none when absent |
| NullInt64Slice.String | int64_slice.go:84-89 | `Some([1 2])` when present, `null` exactly when absent |
| NullInt64Slice.UnmarshalJSON | int64_slice.go:100-114 | nil or `null` gives absent without error; a decode failure forces absent with an error, holding what the decoder left behind; success sets the decoded payload |
| NullInt64Slice.Scan | int64_slice.go:117-137 | SQL NULL gives absent; a failed conversion or parse changes nothing; success sets exactly the parsed elements |
| NullInt64Slice.Value | int64_slice.go:140-150 | SQL NULL exactly when absent, otherwise the array literal, which is `{}` exactly for no elements |
| NullInt64Slice.DriverRoundTrip | int64_slice.go:117-150 | scanning the literal Value wrote restores an equal present value, and absent stays absent |
| NullInt64Slice.FailedDecodeLeavesPartialElements | int64_slice.go:106-110 | a decode of `[1,"x"]` that fails part-way leaves an absent value holding the partial elements, with an error: `[1 6]` from `[5 6 7]`, `[1 0]` from an empty payload |
| NullInt64Slice.MalformedScanKeepsReceiver | int64_slice.go:129-132 | `{1,x,3}` and `{1, 2}` leave a present receiver untouched, with an error |
| MustInt64Slice.Scan | must/int64_slice.go:32-47 | a failed conversion or parse changes nothing; success replaces the whole contents with the parsed elements |
| MustInt64Slice.Value | must/int64_slice.go:50-56 | never SQL NULL; the array literal, `{}` exactly for no elements |
| MustInt64Slice.DriverRoundTrip | must/int64_slice.go:32-56 | scanning the literal Value wrote gives back the slice, whatever the receiver held |
| MustJsonb.MarshalJSON | must/jsonb.go:16-22 | `{}` is emitted exactly for an empty or `null` payload |
| MustJsonb.UnmarshalJSON | must/jsonb.go:25-40 | nil or `null` empties the payload without error; a decode failure changes nothing; success replaces the contents |
| MustJsonb.Scan | must/jsonb.go:43-58 | SQL NULL empties the payload; a failed conversion changes nothing; success replaces the contents |
| MustJsonb.Value | must/jsonb.go:60-77 | never SQL NULL; `{}` for an empty or `null` payload, otherwise the sanitised payload, never longer |
| MustJsonb.DriverRoundTrip | must/jsonb.go:43-77 | scanning what Value wrote gives `{}` for empty or `null`, and an escape-free payload back unchanged |
| Variants.Int64SliceValuesAgree | must/int64_slice.go:50-56 | the flag-less and optional Int64Slice write the same literal for a present slice |
| Variants.JsonbValuesAgree | must/jsonb.go:60-63 | both JSONB types write the same bytes for a present payload, except that `null` is SQL NULL for one and `{}` for the other |

## Left out

- float64.go and time.go: they repeat the int64 wrapper over a floating-point number and over Go's `time.Time`, and those payloads are outside the model.
- `internal.ConvertAssign` is not part of this model. Its result is a parameter of every Scan.
- The internals of `encoding/json` are left out (base64 for byte slices, number syntax). The encoder's and decoder's results are parameters.
- MustJsonb.MarshalJSON: the non-empty branch (must/jsonb.go:21) hands the payload back to `json.Marshal`, which is foreign and re-enters the same method. It is modelled only as `Delegated`.
- The JSON methods of must/int64_slice.go (lines 18-29) are pure delegation to `encoding/json` and are not modelled.
- Nullable.UnmarshalJSON: which partial result Go's decoder leaves in a slice payload on failure depends on `encoding/json`'s internals. The model takes it as the `Failed(left)` input rather than computing it.
- Go slice aliasing and backing-array reuse (`append(x[0:0], ...)`, the copy-free `SetValue` of bytes.go) are unobservable with immutable sequences. A nil slice and an empty slice are the same empty sequence.
- The text of panic messages and the `errors.WithStack` wrapping are left out. Errors are a flag, and a panic is a precondition.
- Go's 64-bit integer width is kept by the `Int64` subset type. No arithmetic in the core can overflow, so no wrap-around is modelled.
- Go strings are byte sequences, while a Dafny `string` is a sequence of Unicode scalar values. Nothing here depends on that difference: the cutset `{}` and the separator `,` are ASCII, and ParseInt rejects every character that is not an ASCII digit or sign.
