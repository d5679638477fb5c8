/** The write-side sanitiser of both JSONB types. PostgreSQL's jsonb rejects
    the escaped NUL code point, so before a document goes to the driver every
    occurrence of the six bytes `\u0000` is deleted with Go's
    `bytes.Replace(v, old, []byte{}, -1)`: one left-to-right pass that removes
    the leftmost occurrence, resumes after it, and never rescans the output. */
module JsonbSanitize {
  import opened Base

  /** The two bytes `{}`, the empty JSON object written for an empty payload. */
  const EmptyObject: seq<Byte> := [0x7B, 0x7D]

  /** The six bytes of the escape: backslash, `u`, and four `0` digits. */
  const Escape: seq<Byte> := [0x5C, 0x75, 0x30, 0x30, 0x30, 0x30]

  predicate OccursAt<T(==)>(s: seq<T>, pat: seq<T>, i: int) {
    0 <= i && i + |pat| <= |s| && s[i..i + |pat|] == pat
  }

  predicate Contains<T(==)>(s: seq<T>, pat: seq<T>) {
    exists i :: 0 <= i <= |s| - |pat| && OccursAt(s, pat, i)
  }

  /** bytes.Replace with an empty replacement and no limit: the result is
      never longer than the input (RemovedWhole: shorter by whole copies of
      `pat`, one per occurrence the pass removes). */
  function RemoveAll<T(==)>(s: seq<T>, pat: seq<T>): (r: seq<T>)
    requires |pat| > 0
    ensures |r| <= |s|
    decreases |s|
  {
    if |s| < |pat| then s
    else if s[..|pat|] == pat then RemoveAll(s[|pat|..], pat)
    else [s[0]] + RemoveAll(s[1..], pat)
  }

  /** How many occurrences the single pass removes: leftmost first, never
      overlapping, never rescanning. */
  function Removals<T(==)>(s: seq<T>, pat: seq<T>): nat
    requires |pat| > 0
    decreases |s|
  {
    if |s| < |pat| then 0
    else if s[..|pat|] == pat then 1 + Removals(s[|pat|..], pat)
    else Removals(s[1..], pat)
  }

  /** Each removal takes away exactly one whole copy of the pattern, and
      nothing else is lost. */
  lemma {:induction false} RemovedWhole<T>(s: seq<T>, pat: seq<T>)
    requires |pat| > 0
    ensures |s| - |RemoveAll(s, pat)| == Removals(s, pat) * |pat|
    decreases |s|
  {
    if |s| < |pat| {
    } else if s[..|pat|] == pat {
      var t := s[|pat|..];
      RemovedWhole(t, pat);
      OneMore(|t| - |RemoveAll(t, pat)|, Removals(t, pat), |pat|);
    } else {
      RemovedWhole(s[1..], pat);
    }
  }

  lemma OneMore(d: int, n: nat, p: nat)
    requires d == n * p
    ensures d + p == (n + 1) * p
  {
  }

  lemma {:induction false} NoOccurrenceUnchanged<T>(s: seq<T>, pat: seq<T>)
    requires |pat| > 0
    requires !Contains(s, pat)
    ensures RemoveAll(s, pat) == s
    decreases |s|
  {
    if |s| >= |pat| {
      assert !OccursAt(s, pat, 0);
      assert !Contains(s[1..], pat) by {
        forall i | OccursAt(s[1..], pat, i) ensures false {
          assert s[1..][i..i + |pat|] == s[i + 1..i + 1 + |pat|];
          assert OccursAt(s, pat, i + 1);
        }
      }
      NoOccurrenceUnchanged(s[1..], pat);
      assert [s[0]] + s[1..] == s;
    }
  }

  lemma {:induction false} OccurrenceShrinks<T>(s: seq<T>, pat: seq<T>, i: int)
    requires |pat| > 0
    requires OccursAt(s, pat, i)
    ensures |RemoveAll(s, pat)| < |s|
    decreases |s|
  {
    if s[..|pat|] != pat {
      assert i != 0;
      assert s[1..][i - 1..i - 1 + |pat|] == s[i..i + |pat|];
      assert OccursAt(s[1..], pat, i - 1);
      OccurrenceShrinks(s[1..], pat, i - 1);
    }
  }

  /** The sanitiser leaves a payload untouched exactly when the pattern does
      not occur in it; otherwise the payload gets strictly shorter. */
  lemma UnchangedIffAbsent<T>(s: seq<T>, pat: seq<T>)
    requires |pat| > 0
    ensures RemoveAll(s, pat) == s <==> !Contains(s, pat)
  {
    if Contains(s, pat) {
      var i :| OccursAt(s, pat, i);
      OccurrenceShrinks(s, pat, i);
    } else {
      NoOccurrenceUnchanged(s, pat);
    }
  }

  /** Removal is a single pass, not a fixpoint: in `\u\u00000000` (the
      bytes below) the only occurrence starts at the third byte, and deleting
      it brings the two halves of a new `\u0000` together, which stays in the
      output. So the escape may survive, and sanitising twice differs from
      sanitising once. */
  lemma EscapeCanSurvive()
    ensures RemoveAll([0x5C, 0x75] + Escape + [0x30, 0x30, 0x30, 0x30], Escape) == Escape
    ensures RemoveAll(Escape, Escape) == []
  {
    var zeros: seq<Byte> := [0x30, 0x30, 0x30, 0x30];
    var s := [0x5C, 0x75] + Escape + zeros;
    RemoveAllStep(s, Escape);
    assert s[..6] != Escape by { assert s[2] != Escape[2]; }
    RemoveAllStep(s[1..], Escape);
    assert s[1..][..6] != Escape by { assert s[1] != Escape[0]; }
    assert s[1..][1..] == Escape + zeros;
    RemoveAllStep(Escape + zeros, Escape);
    assert (Escape + zeros)[..6] == Escape;
    assert (Escape + zeros)[6..] == zeros;
    assert RemoveAll(zeros, Escape) == zeros;
    RemoveAllStep(Escape, Escape);
    assert Escape[..6] == Escape && Escape[6..] == [];
  }

  /** One step of RemoveAll on a non-empty input: skip a leading occurrence
      or keep the first element. */
  lemma RemoveAllStep<T>(t: seq<T>, pat: seq<T>)
    requires |pat| > 0 && t != []
    ensures RemoveAll(t, pat) ==
      if |t| >= |pat| && t[..|pat|] == pat then RemoveAll(t[|pat|..], pat)
      else [t[0]] + RemoveAll(t[1..], pat)
  {
    if |t| < |pat| {
      assert t == [t[0]] + t[1..];
    }
  }

  /** At an occurrence the pass skips the whole pattern. */
  lemma SkipOccurrence<T>(s: seq<T>, pat: seq<T>, i: nat)
    requires |pat| > 0 && i + |pat| <= |s| && s[i..i + |pat|] == pat
    ensures RemoveAll(s[i..], pat) == RemoveAll(s[i + |pat|..], pat)
  {
    var t := s[i..];
    RemoveAllStep(t, pat);
    assert t[..|pat|] == pat && t[|pat|..] == s[i + |pat|..];
  }

  /** Elsewhere the pass keeps one element and moves on. */
  lemma KeepElement<T>(s: seq<T>, pat: seq<T>, i: nat)
    requires |pat| > 0 && i < |s| && !(i + |pat| <= |s| && s[i..i + |pat|] == pat)
    ensures RemoveAll(s[i..], pat) == [s[i]] + RemoveAll(s[i + 1..], pat)
  {
    var t := s[i..];
    assert t[0] == s[i] && t[1..] == s[i + 1..];
    if |t| >= |pat| {
      assert t[..|pat|] == s[i..i + |pat|];
    }
    RemoveAllStep(t, pat);
  }

  /** The one-pass scan bytes.Replace performs, as a loop: at each position
      either a whole occurrence is skipped or one element is copied. */
  method Replace<T(==)>(s: seq<T>, pat: seq<T>) returns (r: seq<T>)
    requires |pat| > 0
    ensures r == RemoveAll(s, pat)
  {
    r := [];
    var i := 0;
    while i < |s|
      invariant 0 <= i <= |s|
      invariant r + RemoveAll(s[i..], pat) == RemoveAll(s, pat)
      decreases |s| - i
    {
      if i + |pat| <= |s| && s[i..i + |pat|] == pat {
        SkipOccurrence(s, pat, i);
        i := i + |pat|;
      } else {
        KeepElement(s, pat, i);
        AppendAssoc(r, s[i], RemoveAll(s[i + 1..], pat));
        r := r + [s[i]];
        i := i + 1;
      }
    }
    assert s[i..] == [];
  }

  lemma AppendAssoc<T>(r: seq<T>, x: T, rest: seq<T>)
    ensures r + ([x] + rest) == (r + [x]) + rest
  {
  }
}
