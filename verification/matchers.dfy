/** The single-token matchers of the parser file: `token(typ)` and its named
    specialisations, and the keyword/punctuation matchers `name_string` and
    `op_string`. Each is described by the shape of token it accepts. */
module Matchers {
  import opened Tokens
  import opened Combinators

  /** What a matcher asks of one token: only its tag, or its tag and its
      exact text (case-sensitive, no normalisation). */
  datatype Shape = OfType(typ: TokenType) | Exact(typ: TokenType, text: string)

  predicate Matches(t: Token, s: Shape) {
    match s
    case OfType(typ) => t.typ == typ
    case Exact(typ, text) => t.typ == typ && t.literal == text
  }

  /** Token by token, `ts` has the given shapes. */
  predicate MatchesAll(ts: seq<Token>, shapes: seq<Shape>) {
    |ts| == |shapes| && forall i :: 0 <= i < |ts| ==> Matches(ts[i], shapes[i])
  }

  /** `input` starts with tokens of the given shapes and continues with `rest`. */
  predicate Spells(input: seq<Token>, shapes: seq<Shape>, rest: seq<Token>) {
    |shapes| <= |input| && MatchesAll(input[..|shapes|], shapes) && rest == input[|shapes|..]
  }

  /** The contract every single-token matcher keeps: it succeeds exactly when
      the head token has the shape, and then consumes that token and nothing
      else; otherwise it fails where it started, with an end-of-input failure
      on an empty slice and a rejected-token failure on any other. */
  predicate TakesOne(s: Shape, input: seq<Token>, r: PResult<Token>) {
    && (r.Ok? <==> |input| > 0 && Matches(input[0], s))
    && (r.Ok? ==> r.value == input[0] && r.rest == input[1..])
    && (r.Fail? ==> r.err == ParseError(input, if |input| == 0 then EndOfInput else VerifyFailed, []))
  }

  /** `token(typ)`: `one_token` filtered on the tag. */
  function TokenOf(typ: TokenType, input: seq<Token>): (r: PResult<Token>)
    ensures TakesOne(OfType(typ), input, r)
  {
    Verify(OneToken, (t: Token) => t.typ == typ, input)
  }

  function NameToken(input: seq<Token>): (r: PResult<Token>)
    ensures TakesOne(OfType(NAME), input, r)
  {
    TokenOf(NAME, input)
  }

  function OpToken(input: seq<Token>): (r: PResult<Token>)
    ensures TakesOne(OfType(OP), input, r)
  {
    TokenOf(OP, input)
  }

  function NumberToken(input: seq<Token>): (r: PResult<Token>)
    ensures TakesOne(OfType(NUMBER), input, r)
  {
    TokenOf(NUMBER, input)
  }

  function StringToken(input: seq<Token>): (r: PResult<Token>)
    ensures TakesOne(OfType(STRING), input, r)
  {
    TokenOf(STRING, input)
  }

  function IndentToken(input: seq<Token>): (r: PResult<Token>)
    ensures TakesOne(OfType(INDENT), input, r)
  {
    TokenOf(INDENT, input)
  }

  function DedentToken(input: seq<Token>): (r: PResult<Token>)
    ensures TakesOne(OfType(DEDENT), input, r)
  {
    TokenOf(DEDENT, input)
  }

  function NewlineToken(input: seq<Token>): (r: PResult<Token>)
    ensures TakesOne(OfType(NEWLINE), input, r)
  {
    TokenOf(NEWLINE, input)
  }

  function EndmarkerToken(input: seq<Token>): (r: PResult<Token>)
    ensures TakesOne(OfType(ENDMARKER), input, r)
  {
    TokenOf(ENDMARKER, input)
  }

  /** `name_string(s)`: a NAME token whose text is exactly `s`. */
  function NameString(s: string, input: seq<Token>): (r: PResult<Token>)
    ensures TakesOne(Exact(NAME, s), input, r)
  {
    Verify(NameToken, (t: Token) => t.literal == s, input)
  }

  /** `op_string(s)`: an OP token whose text is exactly `s`. */
  function OpString(s: string, input: seq<Token>): (r: PResult<Token>)
    ensures TakesOne(Exact(OP, s), input, r)
  {
    Verify(OpToken, (t: Token) => t.literal == s, input)
  }

  /** The keyword matcher tells `event` from every other spelling, including
      a capitalised one. */
  lemma {:induction false} KeywordIsCaseSensitive(rest: seq<Token>)
    ensures NameString("event", [Token(NAME, "Event")] + rest).Fail?
    ensures NameString("event", [Token(NAME, "event")] + rest) == Ok(Token(NAME, "event"), rest)
    ensures NameString("event", [Token(OP, "event")] + rest).Fail?
  {
    assert ([Token(NAME, "event")] + rest)[1..] == rest;
  }

  /** Shapes that line up concatenate, and a concatenation of shapes splits
      back into its parts. */
  lemma {:induction false} SpellsAppend(input: seq<Token>, a: seq<Shape>, b: seq<Shape>, rest: seq<Token>)
    ensures Spells(input, a + b, rest) <==>
              |a| <= |input| && Spells(input, a, input[|a|..]) && Spells(input[|a|..], b, rest)
  {
    if Spells(input, a + b, rest) {
      assert input[..|a|] == input[..|a + b|][..|a|];
      assert input[|a|..][..|b|] == input[..|a + b|][|a|..];
      forall i | 0 <= i < |b|
        ensures Matches(input[|a|..][..|b|][i], b[i])
      {
        assert (a + b)[|a| + i] == b[i];
      }
      assert input[|a|..][|b|..] == input[|a + b|..];
    }
    if |a| <= |input| && Spells(input, a, input[|a|..]) && Spells(input[|a|..], b, rest) {
      var mid := input[|a|..];
      assert input[..|a + b|] == input[..|a|] + mid[..|b|];
      assert input[|a + b|..] == mid[|b|..];
    }
  }

  /** Spelling out a non-empty layout leaves a strict suffix, and the last
      token consumed has the last shape. */
  lemma {:induction false} SpellsLeavesSuffix(input: seq<Token>, shapes: seq<Shape>, rest: seq<Token>)
    requires Spells(input, shapes, rest) && |shapes| > 0
    ensures IsStrictSuffix(rest, input)
    ensures Matches(input[|shapes| - 1], shapes[|shapes| - 1])
  {
    assert input[..|shapes|][|shapes| - 1] == input[|shapes| - 1];
  }
}
