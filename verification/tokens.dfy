/** Tokens as the lexer hands them to the parser, and the filter that drops
    the tokens the grammar never sees (non-significant blank lines and
    comments). Source spans carry no weight in any grammar decision and are
    not modelled. */
module Tokens {

  /** The token tags the parser file mentions. */
  datatype TokenType = NAME | OP | NUMBER | STRING | INDENT | DEDENT | NEWLINE | ENDMARKER | COMMENT | NL

  /** A classified token: its tag and the exact source text it covers. */
  datatype Token = Token(typ: TokenType, literal: string)

  /** A token the grammar sees: everything except NL and COMMENT. */
  predicate Significant(t: Token) {
    t.typ != NL && t.typ != COMMENT
  }

  /** The filter part of `get_parse_tokens`: the lexer's output with every NL
      and COMMENT token removed, the others kept in their order. */
  function ParseTokens(ts: seq<Token>): (r: seq<Token>)
    ensures |r| <= |ts|
    ensures forall i :: 0 <= i < |r| ==> Significant(r[i])
    ensures forall t :: t in r <==> t in ts && Significant(t)
  {
    if ts == [] then []
    else if Significant(ts[0]) then [ts[0]] + ParseTokens(ts[1..])
    else ParseTokens(ts[1..])
  }

  /** Filtering distributes over concatenation: the relative order of the
      kept tokens is the order they had in the lexer's output. */
  lemma {:induction false} ParseTokensAppend(a: seq<Token>, b: seq<Token>)
    ensures ParseTokens(a + b) == ParseTokens(a) + ParseTokens(b)
  {
    if a == [] {
      assert a + b == b;
    } else {
      assert (a + b)[0] == a[0];
      assert (a + b)[1..] == a[1..] + b;
      ParseTokensAppend(a[1..], b);
    }
  }

  /** A stream that already holds only significant tokens passes unchanged. */
  lemma {:induction false} ParseTokensKeepsSignificant(ts: seq<Token>)
    requires forall i :: 0 <= i < |ts| ==> Significant(ts[i])
    ensures ParseTokens(ts) == ts
  {
    if ts != [] {
      ParseTokensKeepsSignificant(ts[1..]);
      assert [ts[0]] + ts[1..] == ts;
    }
  }

  /** Removing one NL or COMMENT token anywhere in the lexer's output does not
      change what the parser receives. */
  lemma ParseTokensDropsBlank(a: seq<Token>, t: Token, b: seq<Token>)
    requires !Significant(t)
    ensures ParseTokens(a + [t] + b) == ParseTokens(a + b)
  {
    ParseTokensAppend(a + [t], b);
    ParseTokensAppend(a, [t]);
    ParseTokensAppend(a, b);
    assert [t][1..] == [];
    assert ParseTokens([t]) == [];
    assert ParseTokens(a + [t]) == ParseTokens(a);
  }

  /** Filtering twice is filtering once. */
  lemma ParseTokensIdempotent(ts: seq<Token>)
    ensures ParseTokens(ParseTokens(ts)) == ParseTokens(ts)
  {
    ParseTokensKeepsSignificant(ParseTokens(ts));
  }
}
