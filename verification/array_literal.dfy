/** The integer-array literal read by `internal.StringToInt64Slice` and written
    by the `Value` methods of both Int64Slice types: `{1,-2,3}`. It is a small
    subset of PostgreSQL's array input syntax (section 8.15.2 of the
    PostgreSQL manual): no quoting, no NULL elements, no nesting, no blanks. */
module ArrayLiteral {
  import opened Base
  import opened Decimal
  import Strings

  /** The cutset handed to strings.Trim. */
  const Braces: string := "{}"

  /** Parses every token as a base-10 int64, in order; one bad token fails the
      whole sequence and no partial result escapes. */
  function ParseTokens(toks: seq<string>): (r: Result<seq<Int64>>)
    ensures r.Ok? <==> forall i :: 0 <= i < |toks| ==> ParseInt(toks[i]).Ok?
    ensures r.Ok? ==> |r.value| == |toks|
    ensures r.Ok? ==> forall i :: 0 <= i < |toks| ==> ParseInt(toks[i]) == Ok(r.value[i])
    decreases |toks|
  {
    if toks == [] then Ok([])
    else
      match ParseInt(toks[0])
      case Err => Err
      case Ok(x) =>
        match ParseTokens(toks[1..])
        case Err =>
          assert forall i :: 0 <= i < |toks| - 1 ==> toks[1..][i] == toks[i + 1];
          Err
        case Ok(xs) =>
          assert forall i :: 1 <= i < |toks| ==> toks[i] == toks[1..][i - 1];
          Ok([x] + xs)
  }

  /** The comma-separated tokens left once every leading and trailing brace is
      trimmed off. */
  function Tokens(src: string): seq<string> {
    Strings.Split(Strings.Trim(src, Braces), ',')
  }

  /** internal.StringToInt64Slice. Exactly `{}` is the empty array. Any other
      input yields one element per token of Tokens, each that token's value,
      and succeeds exactly when every token is a valid int64 decimal. */
  function Parse(src: string): (r: Result<seq<Int64>>)
    ensures src == "{}" ==> r == Ok([])
    ensures src != "{}" ==> (r.Ok? <==> forall i :: 0 <= i < |Tokens(src)| ==> ParseInt(Tokens(src)[i]).Ok?)
    ensures src != "{}" && r.Ok? ==> |r.value| == |Tokens(src)|
    ensures src != "{}" && r.Ok? ==> forall i :: 0 <= i < |Tokens(src)| ==> ParseInt(Tokens(src)[i]) == Ok(r.value[i])
  {
    if src == "{}" then Ok([]) else ParseTokens(Tokens(src))
  }

  /** The text both Value methods send to the driver: braces around the
      comma-joined decimals, and `{}` for the empty (or nil) slice. */
  function Format(xs: seq<Int64>): (s: string)
    ensures |s| >= 2 && s[0] == '{' && s[|s| - 1] == '}'
    ensures s == "{}" <==> xs == []
  {
    var inner := Strings.Join(FormatAll(xs), ',');
    assert xs != [] ==> |inner| >= 1 by {
      if xs != [] { Strings.JoinFirst(FormatAll(xs), ','); }
    }
    "{" + inner + "}"
  }

  /** The tokens of a non-empty Format output are the elements' decimals. */
  lemma TokensOfFormat(xs: seq<Int64>)
    requires xs != []
    ensures Tokens(Format(xs)) == FormatAll(xs)
  {
    var toks := FormatAll(xs);
    DecimalsHoldNoComma(xs);
    JoinedDecimalsUnbraced(xs);
    TokensOf("{", toks, "}");
  }

  /** No element's decimal holds a comma. */
  lemma DecimalsHoldNoComma(xs: seq<Int64>)
    ensures forall i :: 0 <= i < |xs| ==> ',' !in FormatAll(xs)[i]
  {
    forall i | 0 <= i < |xs| ensures ',' !in FormatAll(xs)[i] {
      DecimalIsPlain(xs[i]);
    }
  }

  /** The comma-joined decimals neither start nor end with a brace. */
  lemma JoinedDecimalsUnbraced(xs: seq<Int64>)
    requires xs != []
    ensures var m := Strings.Join(FormatAll(xs), ','); m != [] && m[0] !in Braces && m[|m| - 1] !in Braces
  {
    var toks := FormatAll(xs);
    DecimalIsPlain(xs[0]);
    DecimalIsPlain(xs[|xs| - 1]);
    Strings.JoinFirst(toks, ',');
    Strings.JoinLast(toks, ',');
  }

  /** A decimal holds no comma and neither starts nor ends with a brace. */
  lemma DecimalIsPlain(x: int)
    ensures ',' !in FormatInt(x)
    ensures FormatInt(x)[0] !in Braces && FormatInt(x)[|FormatInt(x)| - 1] !in Braces
  {
  }

  /** Every element's decimal reads back as that element. */
  lemma ParseTokensFormatAll(xs: seq<Int64>)
    ensures ParseTokens(FormatAll(xs)) == Ok(xs)
  {
    var toks := FormatAll(xs);
    forall i | 0 <= i < |xs|
      ensures ParseInt(toks[i]) == Ok(xs[i])
    {
      ParseFormatInt(xs[i]);
    }
    var r := ParseTokens(toks);
    assert r.Ok?;
    assert r.value == xs;
  }

  /** Parsing what Format wrote gives back exactly the sequence, the empty one
      included. */
  lemma ParseFormat(xs: seq<Int64>)
    ensures Parse(Format(xs)) == Ok(xs)
  {
    if xs != [] {
      TokensOfFormat(xs);
      ParseTokensFormatAll(xs);
    }
  }

  lemma TokensOf(p: string, toks: seq<string>, q: string)
    requires Strings.AllIn(p, Braces) && Strings.AllIn(q, Braces)
    requires |toks| >= 1 && forall i :: 0 <= i < |toks| ==> ',' !in toks[i]
    requires var m := Strings.Join(toks, ','); m == [] || (m[0] !in Braces && m[|m| - 1] !in Braces)
    ensures Tokens(p + Strings.Join(toks, ',') + q) == toks
  {
    Strings.TrimWrapped(p, Strings.Join(toks, ','), q, Braces);
    Strings.SplitJoin(toks, ',');
  }

  /** Every brace is trimmed, not one pair, so a doubled pair and a bare
      list both parse. */
  lemma ParseTrimsAllBraces()
    ensures Parse("{}") == Ok([])
    ensures Parse("{{1}}") == Ok([1])
    ensures Parse("1,2") == Ok([1, 2])
  {
    ParseDoubledBraces();
    ParseBareList();
  }

  lemma ParseDoubledBraces()
    ensures Parse("{{1}}") == Ok([1])
  {
    SmallDecimals();
    TokensOf("{{", ["1"], "}}");
    assert "{{" + "1" + "}}" == "{{1}}";
    ParseTokensFormatAll([1]);
  }

  lemma ParseBareList()
    ensures Parse("1,2") == Ok([1, 2])
  {
    SmallDecimals();
    TokensOf("", ["1", "2"], "");
    assert "" + "1,2" + "" == "1,2";
    ParseTokensFormatAll([1, 2]);
  }

  lemma SmallDecimals()
    ensures FormatAll([1]) == ["1"] && FormatAll([1, 2]) == ["1", "2"]
    ensures Strings.Join(["1"], ',') == "1" && Strings.Join(["1", "2"], ',') == "1,2"
  {
    assert FormatInt(1) == "1" && FormatInt(2) == "2";
  }

  /** The empty text has one empty token, which is rejected. */
  lemma ParseRejectsEmpty()
    ensures Parse("") == Err
  {
    assert Strings.Trim("", Braces) == "";
    assert Strings.Split("", ',') == [""];
    assert ParseInt("") == Err;
  }

  /** `{{}}` is not `{}`: it trims to the empty text and is rejected. */
  lemma ParseRejectsDoubledEmpty()
    ensures Parse("{{}}") == Err
  {
    assert Strings.Join([""], ',') == "";
    TokensOf("{{", [""], "}}");
    assert "{{" + "" + "}}" == "{{}}";
    assert ParseInt(Tokens("{{}}")[0]) == Err;
  }

  /** A literal with one bad token is rejected as a whole. */
  lemma RejectsBadToken(p: string, toks: seq<string>, q: string, k: nat)
    requires Strings.AllIn(p, Braces) && Strings.AllIn(q, Braces)
    requires |toks| >= 1 && forall i :: 0 <= i < |toks| ==> ',' !in toks[i]
    requires var m := Strings.Join(toks, ','); m == [] || (m[0] !in Braces && m[|m| - 1] !in Braces)
    requires p + Strings.Join(toks, ',') + q != "{}"
    requires k < |toks| && ParseInt(toks[k]).Err?
    ensures Parse(p + Strings.Join(toks, ',') + q) == Err
  {
    TokensOf(p, toks, q);
  }

  /** An empty token between two commas is rejected. */
  lemma ParseRejectsEmptyToken()
    ensures Parse("{1,,2}") == Err
  {
    assert Strings.Join(["1", "", "2"], ',') == "1,,2";
    assert "{" + "1,,2" + "}" == "{1,,2}";
    RejectsBadToken("{", ["1", "", "2"], "}", 1);
  }

  /** A blank after a comma is rejected: the literal allows no spaces. */
  lemma ParseRejectsBlank()
    ensures Parse("{1, 2}") == Err
  {
    assert Strings.Join(["1", " 2"], ',') == "1, 2";
    assert "{" + "1, 2" + "}" == "{1, 2}";
    assert !IsDigit(' ') && " 2"[0] == ' ';
    assert ParseInt(" 2") == Err;
    RejectsBadToken("{", ["1", " 2"], "}", 1);
  }

  /** A token that is not a number rejects the whole literal. */
  lemma ParseRejectsLetter()
    ensures Parse("{1,x,3}") == Err
  {
    assert Strings.Join(["1", "x", "3"], ',') == "1,x,3";
    assert "{" + "1,x,3" + "}" == "{1,x,3}";
    assert !IsDigit('x');
    assert ParseInt("x") == Err;
    RejectsBadToken("{", ["1", "x", "3"], "}", 1);
  }

  /** Canonical literals survive a parse followed by a format unchanged. */
  lemma FormatParseSamples()
    ensures Parse("{1,2,3}") == Ok([1, 2, 3]) && Format([1, 2, 3]) == "{1,2,3}"
    ensures Parse("{-5}") == Ok([-5]) && Format([-5]) == "{-5}"
  {
    FormatOneTwoThree();
    ParseFormat([1, 2, 3]);
    FormatMinusFive();
    ParseFormat([-5]);
  }

  lemma FormatOneTwoThree()
    ensures Format([1, 2, 3]) == "{1,2,3}"
  {
    assert FormatInt(1) == "1" && FormatInt(2) == "2" && FormatInt(3) == "3";
    assert FormatAll([1, 2, 3]) == ["1", "2", "3"];
    assert Strings.Join(["1", "2", "3"], ',') == "1,2,3";
  }

  lemma FormatMinusFive()
    ensures Format([-5]) == "{-5}"
  {
    assert FormatNat(5) == "5";
    assert FormatInt(-5) == "-5";
    assert FormatAll([-5]) == ["-5"];
    assert Strings.Join(["-5"], ',') == "-5";
  }
}
