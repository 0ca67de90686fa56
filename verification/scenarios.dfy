/** Whole-pipeline outcomes for concrete token streams: blank files, the
    one-event `Greet` module and the two-event `Greet`/`Other` module, each
    with and without blank lines around the statements. The streams are
    written out by hand in the shape the grammar expects; where NL tokens
    fall is the lexer's choice, and the filter removes them wherever they
    are. */
module Scenarios {
  import opened Tokens
  import opened Ast
  import opened Combinators
  import opened Matchers
  import opened Layout
  import opened Grammar
  import opened GrammarProofs

  /** The empty stream is not a file: the end-marker step runs out of input
      at the empty slice. */
  lemma EmptyStreamFails()
    ensures ParseFile([]) == Fail(ParseError([], EndOfInput, []))
  {
  }

  /** NEWLINE tokens and then the ENDMARKER parse to the empty module, with
      nothing left over. */
  lemma {:induction false} BlankFileParsesEmpty(nls: seq<Token>, end: Token)
    requires forall i :: 0 <= i < |nls| ==> nls[i].typ == NEWLINE
    requires end.typ == ENDMARKER
    ensures ParseFile(nls + [end]) == Ok(Module([]), [])
  {
    LeadingNewlinesIgnored(nls, [end]);
    assert [end][1..] == [];
  }

  /** Blank lines and comments the lexer reports as NL or COMMENT tokens,
      wherever they sit, do not change the outcome of the parse. */
  lemma {:induction false} BlankTokenIgnored(a: seq<Token>, t: Token, b: seq<Token>)
    requires t.typ == NL || t.typ == COMMENT
    ensures ParseFile(ParseTokens(a + [t] + b)) == ParseFile(ParseTokens(a + b))
  {
    ParseTokensDropsBlank(a, t, b);
  }

  const Nl: Token := Token(NL, "\n")

  const GreetEvent: ModuleStmt :=
    EventDef("Greet", [EventField("name", "bytes32"), EventField("age", "uint8")])

  const OtherEvent: ModuleStmt :=
    EventDef("Other", [EventField("info1", "uint256"), EventField("info2", "bool")])

  /** The tokens the grammar expects for a two-field event definition
      `event name:` / `n0: t0` / `n1: t1`. */
  function EventTokens(name: string, n0: string, t0: string, n1: string, t1: string): seq<Token> {
    [ Token(NAME, "event"), Token(NAME, name), Token(OP, ":"), Token(NEWLINE, "\n"),
      Token(INDENT, "    "),
      Token(NAME, n0), Token(OP, ":"), Token(NAME, t0), Token(NEWLINE, "\n"),
      Token(NAME, n1), Token(OP, ":"), Token(NAME, t1), Token(NEWLINE, ""),
      Token(DEDENT, "") ]
  }

  const GreetTokens: seq<Token> := EventTokens("Greet", "name", "bytes32", "age", "uint8")

  const OtherTokens: seq<Token> := EventTokens("Other", "info1", "uint256", "info2", "bool")

  const End: seq<Token> := [Token(ENDMARKER, "")]

  lemma {:induction false} TwoFieldsShape(f0: EventField, f1: EventField)
    ensures FieldsShape([f0, f1]) == FieldShape(f0) + FieldShape(f1)
  {
    assert [f0, f1][1..] == [f1];
    assert [f1][1..] == [];
  }

  lemma {:induction false} EventTokensSpelled(name: string, n0: string, t0: string, n1: string, t1: string,
                                              rest: seq<Token>)
    ensures var s := EventDef(name, [EventField(n0, t0), EventField(n1, t1)]);
            HasFields(s) && Spells(EventTokens(name, n0, t0, n1, t1) + rest, StmtShape(s), rest)
  {
    var f0 := EventField(n0, t0);
    var f1 := EventField(n1, t1);
    var s := EventDef(name, [f0, f1]);
    var ts := EventTokens(name, n0, t0, n1, t1);
    TwoFieldsShape(f0, f1);
    var shapes := HeadShape(name) + (FieldShape(f0) + FieldShape(f1)) + [OfType(DEDENT)];
    assert StmtShape(s) == shapes;
    var input := ts + rest;
    assert input[..14] == ts;
    assert MatchesAll(ts, shapes);
    assert input[14..] == rest;
  }

  /** The one-event module: the `Greet` tokens and the ENDMARKER. */
  lemma GreetParses()
    ensures ParseFile(GreetTokens + End) == Ok(Module([GreetEvent]), [])
  {
    var m := Module([GreetEvent]);
    EventTokensSpelled("Greet", "name", "bytes32", "age", "uint8", End);
    assert BodyShape(m.body) == StmtShape(GreetEvent) by {
      assert m.body[1..] == [];
    }
    SpellsAppend(GreetTokens + End, StmtShape(GreetEvent), [OfType(ENDMARKER)], []);
    assert (GreetTokens + End)[0].typ == NAME;
    FileComplete(GreetTokens + End, m, []);
  }

  predicate AllSignificant(ts: seq<Token>) {
    forall i :: 0 <= i < |ts| ==> Significant(ts[i])
  }

  lemma {:induction false} SignificantPartsPass(a: seq<Token>, b: seq<Token>)
    requires AllSignificant(a) && AllSignificant(b)
    ensures ParseTokens(a + b) == a + b
  {
    ParseTokensKeepsSignificant(a);
    ParseTokensKeepsSignificant(b);
    ParseTokensAppend(a, b);
  }

  /** A blank line before a stream and one after its first part are
      filtered away. */
  lemma {:induction false} BlankLinesFiltered(x: Token, a: seq<Token>, y: Token, b: seq<Token>)
    requires !Significant(x) && !Significant(y)
    requires AllSignificant(a) && AllSignificant(b)
    ensures ParseTokens([x] + a + [y] + b) == a + b
  {
    var tail := a + [y] + b;
    assert [x] + a + [y] + b == [] + [x] + tail;
    ParseTokensDropsBlank([], x, tail);
    assert [] + tail == tail;
    ParseTokensDropsBlank(a, y, b);
    SignificantPartsPass(a, b);
  }

  /** Blank lines before, between and after two parts of a stream are
      filtered away. */
  lemma {:induction false} BlankLinesFilteredTwice(x: Token, a: seq<Token>, y: Token, b: seq<Token>,
                                                    z: Token, c: seq<Token>)
    requires !Significant(x) && !Significant(y) && !Significant(z)
    requires AllSignificant(a) && AllSignificant(b) && AllSignificant(c)
    ensures ParseTokens([x] + a + [y] + b + [z] + c) == a + b + c
  {
    var front := [x] + a + [y] + b;
    ParseTokensDropsBlank(front, z, c);
    ParseTokensAppend(front, c);
    BlankLinesFiltered(x, a, y, b);
    ParseTokensKeepsSignificant(c);
  }

  lemma {:induction false} EventTokensSignificant(name: string, n0: string, t0: string, n1: string, t1: string)
    ensures AllSignificant(EventTokens(name, n0, t0, n1, t1))
  {
    var ts := EventTokens(name, n0, t0, n1, t1);
    forall i | 0 <= i < |ts|
      ensures Significant(ts[i])
    {
    }
  }

  lemma GreetSignificant()
    ensures AllSignificant(GreetTokens) && AllSignificant(OtherTokens) && AllSignificant(End)
  {
    EventTokensSignificant("Greet", "name", "bytes32", "age", "uint8");
    EventTokensSignificant("Other", "info1", "uint256", "info2", "bool");
  }

  /** The one-event module with an NL token before it and after it; the
      filter removes NL tokens wherever they are. */
  lemma GreetWithBlankLinesParses()
    ensures ParseFile(ParseTokens([Nl] + GreetTokens + [Nl] + End)) == Ok(Module([GreetEvent]), [])
  {
    GreetSignificant();
    BlankLinesFiltered(Nl, GreetTokens, Nl, End);
    GreetParses();
  }

  /** Two statements spelled out one after the other, then ENDMARKER, parse
      to the module of both, in order. */
  lemma {:induction false} TwoStatementsParse(a: seq<Token>, s1: ModuleStmt, b: seq<Token>, s2: ModuleStmt,
                                              end: seq<Token>)
    requires HasFields(s1) && HasFields(s2)
    requires Spells(a + (b + end), StmtShape(s1), b + end)
    requires Spells(b + end, StmtShape(s2), end)
    requires end == [Token(ENDMARKER, "")]
    ensures ParseFile(a + b + end) == Ok(Module([s1, s2]), [])
  {
    var m := Module([s1, s2]);
    var input := a + (b + end);
    assert a + b + end == input;
    assert BodyShape(m.body) == StmtShape(s1) + StmtShape(s2) by {
      assert m.body == [s1] + [s2];
      BodyShapeCons(s1, [s2]);
      assert [s2][1..] == [];
      assert BodyShape([s2]) == StmtShape(s2) + BodyShape([]);
    }
    assert Spells(end, [OfType(ENDMARKER)], []);
    SpellsAppend(b + end, StmtShape(s2), [OfType(ENDMARKER)], []);
    SpellsAppend(input, StmtShape(s1), StmtShape(s2) + [OfType(ENDMARKER)], []);
    assert ModuleShape(m) == StmtShape(s1) + (StmtShape(s2) + [OfType(ENDMARKER)]);
    assert input[..|StmtShape(s1)|][0] == input[0];
    assert StmtShape(s1)[0] == Exact(NAME, Keyword);
    assert LeadingNewlines(input) == 0;
    assert ValidModule(m) by {
      assert m.body[0] == s1 && m.body[1] == s2;
    }
    FileComplete(input, m, []);
  }

  /** The two-event module: `Greet` then `Other`, in declaration order. */
  lemma GreetOtherParses()
    ensures ParseFile(GreetTokens + OtherTokens + End) == Ok(Module([GreetEvent, OtherEvent]), [])
  {
    EventTokensSpelled("Greet", "name", "bytes32", "age", "uint8", OtherTokens + End);
    EventTokensSpelled("Other", "info1", "uint256", "info2", "bool", End);
    TwoStatementsParse(GreetTokens, GreetEvent, OtherTokens, OtherEvent, End);
  }

  /** A file whose only event has no fields: the statement loop stops in
      front of it, and the file fails at its `event` keyword, with the
      rejected-token kind of the end-marker step and no context label. */
  lemma {:induction false} EmptyBodyFileFails(name: string, head: seq<Token>, input: seq<Token>)
    requires |head| == 5 && Spells(head, HeadShape(name), [])
    requires input == head + [Token(DEDENT, "")] + End
    ensures ParseFile(input) == Fail(ParseError(input, VerifyFailed, []))
  {
    assert input[..5] == head[..5];
    assert Spells(input, HeadShape(name), input[5..]);
    EmptyEventBodyFails(input, name);
    assert input[0] == head[..5][0];
    assert LeadingNewlines(input) == 0;
    assert Spells(input[0..], BodyShape([]), input);
    FileFailsAt(input, [], input);
  }

  /** The two-event module with a blank line before, between and after
      the events: the same module as without them. */
  lemma GreetBlankOtherParses()
    ensures ParseFile(ParseTokens([Nl] + GreetTokens + [Nl] + OtherTokens + [Nl] + End))
            == Ok(Module([GreetEvent, OtherEvent]), [])
  {
    GreetSignificant();
    BlankLinesFilteredTwice(Nl, GreetTokens, Nl, OtherTokens, Nl, End);
    GreetOtherParses();
  }
}
