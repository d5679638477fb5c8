/** The three functions of Go's `strings` package that the array-literal
    codec uses: `Trim` with a cutset, `Split` and `Join` on a one-character
    separator. */
module Strings {

  /** strings.TrimLeft: drops every leading character found in `cutset`. */
  function TrimLeft(s: string, cutset: string): (r: string)
    ensures |r| <= |s| && r == s[|s| - |r|..]
    ensures forall i :: 0 <= i < |s| - |r| ==> s[i] in cutset
    ensures r == [] || r[0] !in cutset
    decreases |s|
  {
    if s != [] && s[0] in cutset then TrimLeft(s[1..], cutset) else s
  }

  /** strings.TrimRight: drops every trailing character found in `cutset`. */
  function TrimRight(s: string, cutset: string): (r: string)
    ensures |r| <= |s| && r == s[..|r|]
    ensures forall i :: |r| <= i < |s| ==> s[i] in cutset
    ensures r == [] || r[|r| - 1] !in cutset
    decreases |s|
  {
    if s != [] && s[|s| - 1] in cutset then TrimRight(s[..|s| - 1], cutset) else s
  }

  /** strings.Trim: all leading and all trailing cutset characters go, not one
      pair. The result is a contiguous part of `s`, everything dropped before
      and after it is in the cutset, and it neither starts nor ends with a
      cutset character. */
  function Trim(s: string, cutset: string): (r: string)
    ensures |r| <= |s|
    ensures exists k :: TrimParts(s, r, k, cutset)
    ensures r == [] || (r[0] !in cutset && r[|r| - 1] !in cutset)
  {
    var l := TrimLeft(s, cutset);
    var r := TrimRight(l, cutset);
    assert r == [] || r[0] == l[0];
    assert TrimParts(s, r, |s| - |l|, cutset) by {
      TrimBothEnds(s, cutset);
    }
    r
  }

  /** `r` is the part of `s` from `k` on, with only cutset characters around it. */
  predicate TrimParts(s: string, r: string, k: int, cutset: string) {
    0 <= k <= |s| - |r| && r == s[k..k + |r|]
      && (forall i :: 0 <= i < k ==> s[i] in cutset)
      && (forall i :: k + |r| <= i < |s| ==> s[i] in cutset)
  }

  lemma TrimBothEnds(s: string, cutset: string)
    ensures TrimParts(s, TrimRight(TrimLeft(s, cutset), cutset), |s| - |TrimLeft(s, cutset)|, cutset)
  {
    var l := TrimLeft(s, cutset);
    var r := TrimRight(l, cutset);
    var k := |s| - |l|;
    assert l == s[k..];
    assert r == l[..|r|];
    forall i | k + |r| <= i < |s| ensures s[i] in cutset {
      assert s[i] == l[i - k];
    }
  }

  predicate AllIn(s: string, cutset: string) {
    forall i :: 0 <= i < |s| ==> s[i] in cutset
  }

  lemma {:induction false} TrimLeftPrefix(p: string, m: string, cutset: string)
    requires AllIn(p, cutset)
    requires m == [] || m[0] !in cutset
    ensures TrimLeft(p + m, cutset) == m
    decreases |p|
  {
    if p == [] {
      assert p + m == m;
    } else {
      assert (p + m)[1..] == p[1..] + m;
      TrimLeftPrefix(p[1..], m, cutset);
    }
  }

  lemma {:induction false} TrimRightSuffix(m: string, q: string, cutset: string)
    requires AllIn(q, cutset)
    requires m == [] || m[|m| - 1] !in cutset
    ensures TrimRight(m + q, cutset) == m
    decreases |q|
  {
    if q == [] {
      assert m + q == m;
    } else {
      assert (m + q)[..|m + q| - 1] == m + q[..|q| - 1];
      TrimRightSuffix(m, q[..|q| - 1], cutset);
    }
  }

  /** Trim recovers the middle `m` of `p + m + q` whenever `p` and `q` are made
      of cutset characters and `m` neither starts nor ends with one; together
      with Trim's own contract this pins its result down completely. */
  lemma TrimWrapped(p: string, m: string, q: string, cutset: string)
    requires AllIn(p, cutset) && AllIn(q, cutset)
    requires m == [] || (m[0] !in cutset && m[|m| - 1] !in cutset)
    ensures Trim(p + m + q, cutset) == m
  {
    if m == [] {
      assert p + m + q == (p + q) + [];
      assert AllIn(p + q, cutset) by {
        forall i | 0 <= i < |p + q| ensures (p + q)[i] in cutset {
          if i < |p| { assert (p + q)[i] == p[i]; } else { assert (p + q)[i] == q[i - |p|]; }
        }
      }
      TrimLeftPrefix(p + q, [], cutset);
    } else {
      assert p + m + q == p + (m + q);
      assert (m + q)[0] == m[0];
      TrimLeftPrefix(p, m + q, cutset);
      TrimRightSuffix(m, q, cutset);
    }
  }

  /** strings.Join with a one-character separator: joining nothing gives "",
      one separator goes between each two pieces (JoinAt). SplitJoin shows
      that no information is lost when no piece contains the separator. */
  function Join(toks: seq<string>, sep: char): (r: string)
    ensures toks == [] ==> r == []
    ensures |r| >= |toks| - 1
    decreases |toks|
  {
    if toks == [] then []
    else if |toks| == 1 then toks[0]
    else
      toks[0] + [sep] + Join(toks[1..], sep)
  }

  /** strings.Split on a one-character separator: one more piece than there are
      separators, none of them containing the separator, and joining the pieces
      back gives the input. An empty input yields one empty piece. */
  function Split(s: string, sep: char): (r: seq<string>)
    ensures |r| >= 1
    ensures forall i :: 0 <= i < |r| ==> sep !in r[i]
    ensures Join(r, sep) == s
    decreases |s|
  {
    if s == [] then [[]]
    else
      var rest := Split(s[1..], sep);
      if s[0] == sep then
        assert Join([[]] + rest, sep) == [sep] + Join(rest, sep) by {
          assert ([[]] + rest)[1..] == rest;
        }
        [[]] + rest
      else
        var r := [[s[0]] + rest[0]] + rest[1..];
        assert Join(r, sep) == [s[0]] + Join(rest, sep) by {
          if |rest| > 1 {
            assert r[1..] == rest[1..];
          }
        }
        r
  }

  lemma {:induction false} SplitAfterPiece(t: string, s: string, sep: char)
    requires sep !in t
    ensures Split(t + s, sep) == [t + Split(s, sep)[0]] + Split(s, sep)[1..]
    decreases |t|
  {
    if t == [] {
      assert t + s == s;
      assert t + Split(s, sep)[0] == Split(s, sep)[0];
      assert Split(s, sep) == [Split(s, sep)[0]] + Split(s, sep)[1..];
    } else {
      assert (t + s)[1..] == t[1..] + s;
      assert t[0] != sep;
      SplitAfterPiece(t[1..], s, sep);
      assert [t[0]] + (t[1..] + Split(s, sep)[0]) == t + Split(s, sep)[0];
    }
  }

  /** Split undoes Join when no piece contains the separator. */
  lemma {:induction false} SplitJoin(toks: seq<string>, sep: char)
    requires |toks| >= 1
    requires forall i :: 0 <= i < |toks| ==> sep !in toks[i]
    ensures Split(Join(toks, sep), sep) == toks
    decreases |toks|
  {
    if |toks| == 1 {
      SplitAfterPiece(toks[0], [], sep);
      assert toks[0] + [] == toks[0];
    } else {
      var rest := Join(toks[1..], sep);
      assert Join(toks, sep) == toks[0] + ([sep] + rest);
      SplitAfterPiece(toks[0], [sep] + rest, sep);
      assert ([sep] + rest)[1..] == rest;
      assert Split([sep] + rest, sep) == [[]] + Split(rest, sep);
      SplitJoin(toks[1..], sep);
      assert toks[0] + [] == toks[0];
      assert toks == [toks[0]] + toks[1..];
    }
  }

  /** Cutting the pieces anywhere cuts the join at one separator: the join of
      the first `n` pieces, the separator, then the join of the rest. So a
      separator stands between each two neighbouring pieces. */
  lemma {:induction false} JoinAt(toks: seq<string>, sep: char, n: nat)
    requires 0 < n < |toks|
    ensures Join(toks, sep) == Join(toks[..n], sep) + [sep] + Join(toks[n..], sep)
    decreases n
  {
    if n == 1 {
      assert toks[..1] == [toks[0]];
    } else {
      var rest := toks[1..];
      JoinAt(rest, sep, n - 1);
      assert rest[..n - 1] == toks[..n][1..];
      assert rest[n - 1..] == toks[n..];
    }
  }

  /** The first character of a join is that of its first piece. */
  lemma JoinFirst(toks: seq<string>, sep: char)
    requires |toks| >= 1 && |toks[0]| >= 1
    ensures |Join(toks, sep)| >= 1 && Join(toks, sep)[0] == toks[0][0]
  {
  }

  /** The last character of a join is that of its last piece. */
  lemma {:induction false} JoinLast(toks: seq<string>, sep: char)
    requires |toks| >= 1 && |toks[|toks| - 1]| >= 1
    ensures |Join(toks, sep)| >= 1
    ensures Join(toks, sep)[|Join(toks, sep)| - 1] == toks[|toks| - 1][|toks[|toks| - 1]| - 1]
    decreases |toks|
  {
    if |toks| > 1 {
      JoinLast(toks[1..], sep);
    }
  }
}
