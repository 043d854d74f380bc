/**
 `SerdeGaps`: a configuration string of one to four whitespace-separated
 numbers read into the four gaps of a freya layout box.

 The number parser (`str::parse::<f32>`) is a parameter: it maps a token to
 the value it denotes, or to `None` when the token is not a float literal.
 */
module SerdeGaps {
  import opened Wrappers
  import opened Seqs
  import opened Text
  import opened BoxSides

  /** `Gaps::default()`. */
  const DefaultGaps := Sides(0.0, 0.0, 0.0, 0.0)

  const TooManyValues := "Invalid number of parameters"
  /** The `Display` text of Rust's `ParseFloatError` for a non-empty token. */
  const InvalidFloat := "invalid float literal"

  function TrimStart(s: string): (r: string)
    ensures |r| <= |s| && r == s[|s| - |r|..]
    ensures |r| == 0 || !IsWhitespace(r[0])
    ensures forall i :: 0 <= i < |s| - |r| ==> IsWhitespace(s[i])
  {
    if |s| > 0 && IsWhitespace(s[0]) then TrimStart(s[1..]) else s
  }

  function TrimEnd(s: string): (r: string)
    ensures |r| <= |s| && r == s[..|r|]
    ensures |r| == 0 || !IsWhitespace(r[|r| - 1])
    ensures forall i :: |r| <= i < |s| ==> IsWhitespace(s[i])
  {
    if |s| > 0 && IsWhitespace(s[|s| - 1]) then TrimEnd(s[..|s| - 1]) else s
  }

  /** `str::trim`. */
  function Trim(s: string): (r: string)
    ensures |r| == 0 <==> forall i :: 0 <= i < |s| ==> IsWhitespace(s[i])
    ensures |r| > 0 ==> !IsWhitespace(r[0]) && !IsWhitespace(r[|r| - 1])
  {
    TrimSteps(s);
    TrimEnd(TrimStart(s))
  }

  lemma TrimSteps(s: string)
    ensures var t := TrimStart(s);
      var r := TrimEnd(t);
      && (|r| == 0 <==> |t| == 0)
      && (|t| > 0 ==> r[0] == t[0] && !IsWhitespace(s[|s| - |t|]))
  {
    var t := TrimStart(s);
    var r := TrimEnd(t);
    if |t| > 0 {
      assert !IsWhitespace(t[0]);
      assert t[0] == s[|s| - |t|];
    }
  }

  /** The length of the run of non-whitespace characters `s` starts with. */
  function WordLength(s: string): (n: nat)
    ensures n <= |s|
    ensures forall i :: 0 <= i < n ==> !IsWhitespace(s[i])
    ensures n == |s| || IsWhitespace(s[n])
  {
    if |s| == 0 || IsWhitespace(s[0]) then 0 else 1 + WordLength(s[1..])
  }

  /** `str::split_whitespace`: the maximal runs of non-whitespace characters. */
  function SplitWhitespace(s: string): (tokens: seq<string>)
    ensures forall k :: 0 <= k < |tokens| ==> |tokens[k]| > 0
    ensures forall k, i :: 0 <= k < |tokens| && 0 <= i < |tokens[k]| ==> !IsWhitespace(tokens[k][i])
    decreases |s|
  {
    if |s| == 0 then []
    else if IsWhitespace(s[0]) then SplitWhitespace(s[1..])
    else
      var n := WordLength(s);
      [s[..n]] + SplitWhitespace(s[n..])
  }

  predicate NotWhitespace(c: char) {
    !IsWhitespace(c)
  }

  lemma {:induction false} FilterKeepsAll(s: string)
    requires forall i :: 0 <= i < |s| ==> NotWhitespace(s[i])
    ensures Filter(s, NotWhitespace) == s
  {
    if |s| > 0 {
      FilterKeepsAll(s[1..]);
      assert [s[0]] + s[1..] == s;
    }
  }

  /**
   Splitting loses nothing but whitespace: the tokens, concatenated, are the
   input with its whitespace removed.
   */
  lemma {:induction false} SplitWhitespaceKeepsText(s: string)
    ensures Flatten(SplitWhitespace(s)) == Filter(s, NotWhitespace)
    decreases |s|
  {
    if |s| == 0 {
    } else if IsWhitespace(s[0]) {
      SplitWhitespaceKeepsText(s[1..]);
    } else {
      var n := WordLength(s);
      var word, tail := s[..n], s[n..];
      var rest := SplitWhitespace(tail);
      assert SplitWhitespace(s) == [word] + rest;
      FlattenCons(word, rest);
      SplitWhitespaceKeepsText(tail);
      FilterKeepsAll(word);
      FilterAppend(word, tail, NotWhitespace);
      assert word + tail == s;
    }
  }

  /** A string with a non-whitespace character splits into at least one token. */
  lemma {:induction false} SplitNonBlank(s: string)
    requires |s| > 0 && !IsWhitespace(s[0])
    ensures |SplitWhitespace(s)| >= 1
  {
  }

  /** Every token parsed in order; the first failure is the error. */
  function ParseAll(tokens: seq<string>, parseF32: string -> Option<real>): (r: Result<seq<real>, string>)
    ensures r.Ok? <==> forall k :: 0 <= k < |tokens| ==> parseF32(tokens[k]).Some?
    ensures r.Ok? ==> |r.value| == |tokens|
                      && forall k :: 0 <= k < |tokens| ==> r.value[k] == parseF32(tokens[k]).value
    ensures r.Err? ==> r.error == InvalidFloat
  {
    if |tokens| == 0 then Ok([])
    else
      match parseF32(tokens[0])
      case None => Err(InvalidFloat)
      case Some(v) =>
        match ParseAll(tokens[1..], parseF32)
        case Err(e) => Err(e)
        case Ok(vs) =>
          assert forall k :: 1 <= k < |tokens| ==> tokens[k] == tokens[1..][k - 1];
          Ok([v] + vs)
  }

  /** The tokens `parse_gaps` sees: those of the trimmed input. */
  function Tokens(s: string): seq<string> {
    SplitWhitespace(Trim(s))
  }

  /** `parse_gaps`. */
  function ParseGaps(s: string, parseF32: string -> Option<real>): Result<Sides, string> {
    var t := Trim(s);
    if |t| == 0 then Ok(DefaultGaps)
    else
      var parts := SplitWhitespace(t);
      if 1 <= |parts| <= 4 then
        match ParseAll(parts, parseF32)
        case Err(e) => Err(e)
        case Ok(v) =>
          if |v| == 1 then Ok(Uniform(v[0]))
          else if |v| == 2 then Ok(Sides(v[0], v[1], v[0], v[1]))
          else if |v| == 3 then Ok(Sides(v[0], v[1], v[2], v[1]))
          else Ok(Sides(v[0], v[1], v[2], v[3]))
      else Err(TooManyValues)
  }

  /**
   What `parse_gaps` accepts and what it yields: blank input gives the
   default gaps; one to four float tokens give the CSS shorthand expansion
   of their values; five or more tokens, or any token that is not a float,
   are errors with the source's messages.
   */
  lemma ParseGapsSpec(s: string, parseF32: string -> Option<real>)
    ensures var r := ParseGaps(s, parseF32);
      var tokens := Tokens(s);
      && (|Trim(s)| == 0 ==> r == Ok(DefaultGaps) && tokens == [])
      && (|Trim(s)| > 0 ==>
            && 1 <= |tokens|
            && (r.Ok? <==> |tokens| <= 4 && forall k :: 0 <= k < |tokens| ==> parseF32(tokens[k]).Some?)
            && (r.Ok? ==> r.value == CssShorthand(Map(tokens, ValueOrZero(parseF32))))
            && (r.Err? ==> r.error == (if |tokens| > 4 then TooManyValues else InvalidFloat)))
  {
    var t := Trim(s);
    if |t| > 0 {
      SplitNonBlank(t);
      var tokens := SplitWhitespace(t);
      if |tokens| <= 4 && ParseAll(tokens, parseF32).Ok? {
        var v := ParseAll(tokens, parseF32).value;
        assert v == Map(tokens, ValueOrZero(parseF32));
        ShorthandCases(v);
      }
    }
  }

  /** A token's value, with `0.0` for one that does not parse. */
  function ValueOrZero(parseF32: string -> Option<real>): string -> real {
    tok => parseF32(tok).GetOr(0.0)
  }

  /** The CSS shorthand rule case by case, as `parse_gaps` spells it out. */
  lemma ShorthandCases(v: seq<real>)
    requires 1 <= |v| <= 4
    ensures |v| == 1 ==> CssShorthand(v) == Uniform(v[0])
    ensures |v| == 2 ==> CssShorthand(v) == Sides(v[0], v[1], v[0], v[1])
    ensures |v| == 3 ==> CssShorthand(v) == Sides(v[0], v[1], v[2], v[1])
    ensures |v| == 4 ==> CssShorthand(v) == Sides(v[0], v[1], v[2], v[3])
  {
  }

  datatype DeError = Custom(message: string)

  /** `SerdeGaps::deserialize` on a string value: errors become custom errors, text kept. */
  function DeserializeGaps(s: string, parseF32: string -> Option<real>): (r: Result<Sides, DeError>)
    ensures r.Ok? <==> ParseGaps(s, parseF32).Ok?
    ensures r.Ok? ==> r.value == ParseGaps(s, parseF32).value
    ensures r.Err? ==> r.error == Custom(ParseGaps(s, parseF32).error)
  {
    match ParseGaps(s, parseF32)
    case Ok(gaps) => Ok(gaps)
    case Err(e) => Err(Custom(e))
  }
}
