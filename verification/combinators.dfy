/** The parser-combinator layer the grammar is built from: a rule maps the
    remaining tokens to a value plus the tokens after it, or to a failure.
    The combinators are the ones the parser file takes from nom: `verify`,
    `context`, `many0` and `many1`, together with the leaf rule `one_token`. */
module Combinators {
  import opened Tokens

  /** Why an elementary step failed. */
  datatype ErrorKind =
    | EndOfInput        // a token was needed but none was left
    | VerifyFailed      // a token was there but the rule's predicate rejected it
    | Many0NoProgress   // a repeated rule succeeded without consuming anything
    | Many1NoProgress

  /** A failure: the tokens that remained where it happened, what went wrong
      there, and the context labels wrapped around it, outermost first. */
  datatype ParseError = ParseError(at: seq<Token>, kind: ErrorKind, context: seq<string>)

  /** The outcome of a rule. */
  datatype PResult<+T> = Ok(value: T, rest: seq<Token>) | Fail(err: ParseError)

  /** `r` is what is left of `s` after dropping some prefix of it. */
  predicate IsSuffix(r: seq<Token>, s: seq<Token>) {
    |r| <= |s| && s[|s| - |r|..] == r
  }

  /** `r` is what is left of `s` after dropping a non-empty prefix of it. */
  predicate IsStrictSuffix(r: seq<Token>, s: seq<Token>) {
    |r| < |s| && IsSuffix(r, s)
  }

  /** A rule that, whenever it succeeds, leaves fewer tokens than it got. */
  ghost predicate Advances<T>(p: seq<Token> -> PResult<T>) {
    forall s :: p(s).Ok? ==> |p(s).rest| < |s|
  }

  /** `one_token`: the head token and exactly the tail after it, or an
      end-of-input failure at an empty slice. */
  function OneToken(input: seq<Token>): (r: PResult<Token>)
    ensures r.Ok? <==> |input| > 0
    ensures r.Ok? ==> input == [r.value] + r.rest
    ensures r.Fail? ==> r.err == ParseError(input, EndOfInput, [])
  {
    if |input| == 0 then Fail(ParseError(input, EndOfInput, []))
    else Ok(input[0], input[1..])
  }

  /** nom's `verify`: run `p`, then turn its success into a failure at the
      ORIGINAL input unless `pred` accepts the value. */
  function Verify<T>(p: seq<Token> -> PResult<T>, pred: T -> bool, input: seq<Token>): (r: PResult<T>)
    ensures r.Ok? <==> p(input).Ok? && pred(p(input).value)
    ensures r.Ok? ==> r == p(input)
    ensures r.Fail? && p(input).Ok? ==> r.err == ParseError(input, VerifyFailed, [])
    ensures r.Fail? && p(input).Fail? ==> r == p(input)
  {
    match p(input)
    case Fail(e) => Fail(e)
    case Ok(v, rest) => if pred(v) then Ok(v, rest) else Fail(ParseError(input, VerifyFailed, []))
  }

  /** nom's `context`: the identity on success; on failure the label is
      put in front of the inner failure's labels, the position and kind kept. */
  function Context<T>(tag: string, p: seq<Token> -> PResult<T>, input: seq<Token>): (r: PResult<T>)
    ensures r.Ok? <==> p(input).Ok?
    ensures r.Ok? ==> r == p(input)
    ensures r.Fail? ==> r.err.at == p(input).err.at && r.err.kind == p(input).err.kind
    ensures r.Fail? ==> r.err.context == [tag] + p(input).err.context
  {
    match p(input)
    case Ok(v, rest) => Ok(v, rest)
    case Fail(e) => Fail(e.(context := [tag] + e.context))
  }

  /** The repetition loop shared by `many0` and `many1`: apply `p` until it
      fails and collect its values; the failing attempt consumes nothing. A
      success that does not shrink the input is reported as a failure of
      kind `kind` instead of looping forever. */
  function ManyLoop<T>(p: seq<Token> -> PResult<T>, kind: ErrorKind, input: seq<Token>): (r: PResult<seq<T>>)
    ensures r.Ok? ==> p(r.rest).Fail?
    ensures r.Ok? ==> |r.rest| <= |input|
    ensures r.Fail? ==> r.err.kind == kind && r.err.context == []
    ensures Advances(p) ==> r.Ok?
    decreases |input|
  {
    match p(input)
    case Fail(_) => Ok([], input)
    case Ok(v, rest) =>
      if |rest| >= |input| then Fail(ParseError(input, kind, []))
      else
        match ManyLoop(p, kind, rest)
        case Fail(e) => Fail(e)
        case Ok(vs, last) =>
          Ok([v] + vs, last)
  }

  /** One round of the loop: an application that consumes input, then the
      rest of the loop. */
  lemma ManyLoopStep<T>(p: seq<Token> -> PResult<T>, kind: ErrorKind, input: seq<Token>)
    requires p(input).Ok? && |p(input).rest| < |input|
    requires ManyLoop(p, kind, p(input).rest).Ok?
    ensures var tail := ManyLoop(p, kind, p(input).rest);
            ManyLoop(p, kind, input) == Ok([p(input).value] + tail.value, tail.rest)
  {
  }

  /** nom's `many0`: zero or more applications of `p`. */
  function Many0<T>(p: seq<Token> -> PResult<T>, input: seq<Token>): (r: PResult<seq<T>>)
    ensures Advances(p) ==> r.Ok?
    ensures r.Ok? ==> p(r.rest).Fail?
  {
    ManyLoop(p, Many0NoProgress, input)
  }

  /** nom's `many1`: one application of `p` that must succeed, then the loop.
      A failure of the first application is passed on unchanged. */
  function Many1<T>(p: seq<Token> -> PResult<T>, input: seq<Token>): (r: PResult<seq<T>>)
    ensures p(input).Fail? ==> r == Fail(p(input).err)
    ensures r.Ok? ==> |r.value| > 0 && p(input).Ok? && r.value[0] == p(input).value
    ensures r.Ok? ==> p(r.rest).Fail?
    ensures r.Ok? ==> |r.rest| <= |p(input).rest|
    ensures Advances(p) ==> (r.Ok? <==> p(input).Ok?)
  {
    match p(input)
    case Fail(e) => Fail(e)
    case Ok(v, rest) =>
      match ManyLoop(p, Many1NoProgress, rest)
      case Fail(e) => Fail(e)
      case Ok(vs, last) => Ok([v] + vs, last)
  }

  /** The reference for repetition: `vs` are the values of successive
      applications of `p` from `input`, each of them consuming input, and
      `rest` is what the last of them left. */
  ghost predicate Steps<T>(p: seq<Token> -> PResult<T>, input: seq<Token>, vs: seq<T>, rest: seq<Token>)
    decreases |vs|
  {
    if vs == [] then rest == input
    else
      && p(input).Ok? && |p(input).rest| < |input| && p(input).value == vs[0]
      && Steps(p, p(input).rest, vs[1..], rest)
  }

  /** The repetition loop returns exactly the values of the applications
      that succeed in turn, and stops at the first position where `p`
      fails, without consuming anything there. */
  lemma {:induction false} ManyLoopSteps<T>(p: seq<Token> -> PResult<T>, kind: ErrorKind, input: seq<Token>,
                                            vs: seq<T>, rest: seq<Token>)
    ensures ManyLoop(p, kind, input) == Ok(vs, rest) <==> Steps(p, input, vs, rest) && p(rest).Fail?
    decreases |input|
  {
    match p(input)
    case Fail(_) =>
      assert ManyLoop(p, kind, input) == Ok([], input);
      if vs != [] {
        assert !Steps(p, input, vs, rest);
      }
    case Ok(v, mid) =>
      if |mid| < |input| {
        if vs != [] {
          ManyLoopSteps(p, kind, mid, vs[1..], rest);
          if ManyLoop(p, kind, mid) == Ok(vs[1..], rest) && v == vs[0] {
            assert ManyLoop(p, kind, input) == Ok([vs[0]] + vs[1..], rest);
            assert [vs[0]] + vs[1..] == vs;
          }
        } else {
          assert !(Steps(p, input, vs, rest) && p(rest).Fail?);
        }
      }
  }

  /** `many0` collects exactly the values of the applications that succeed
      in turn, consuming input, and stops where `p` first fails. */
  lemma {:induction false} Many0Steps<T>(p: seq<Token> -> PResult<T>, input: seq<Token>, vs: seq<T>, rest: seq<Token>)
    ensures Many0(p, input) == Ok(vs, rest) <==> Steps(p, input, vs, rest) && p(rest).Fail?
  {
    ManyLoopSteps(p, Many0NoProgress, input, vs, rest);
  }

  /** `many1` is one application that must succeed, whatever it consumes,
      followed by the values of the applications that succeed in turn after
      it, up to where `p` first fails. */
  lemma {:induction false} Many1Steps<T>(p: seq<Token> -> PResult<T>, input: seq<Token>, vs: seq<T>, rest: seq<Token>)
    ensures Many1(p, input) == Ok(vs, rest) <==>
              && p(input).Ok? && |vs| > 0 && vs[0] == p(input).value
              && Steps(p, p(input).rest, vs[1..], rest) && p(rest).Fail?
  {
    if p(input).Ok? {
      var first := p(input);
      ManyLoopSteps(p, Many1NoProgress, first.rest, if |vs| > 0 then vs[1..] else [], rest);
      if |vs| > 0 {
        assert [vs[0]] + vs[1..] == vs;
      }
    }
  }

  /** A rule that, whenever it succeeds, leaves a suffix of what it got. */
  ghost predicate KeepsSuffix<T>(p: seq<Token> -> PResult<T>) {
    forall s :: p(s).Ok? ==> IsSuffix(p(s).rest, s)
  }

  /** Repeating a rule that leaves suffixes leaves a suffix, and a strictly
      shorter one as soon as one application succeeded. */
  lemma {:induction false} StepsLeaveSuffix<T>(p: seq<Token> -> PResult<T>, input: seq<Token>, vs: seq<T>, rest: seq<Token>)
    requires KeepsSuffix(p) && Steps(p, input, vs, rest)
    ensures IsSuffix(rest, input)
    ensures |vs| > 0 ==> |rest| < |input|
    decreases |vs|
  {
    if vs != [] {
      var mid := p(input).rest;
      StepsLeaveSuffix(p, mid, vs[1..], rest);
      assert IsSuffix(mid, input);
      assert input[|input| - |rest|..] == mid[|mid| - |rest|..];
    }
  }
}
