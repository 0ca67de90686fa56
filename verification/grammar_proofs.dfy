/** What the grammar rules accept, stated against the token layouts of
    `Layout`: each rule succeeds exactly on the token streams that spell out
    the node it returns, and consumes exactly those tokens. */
module GrammarProofs {
  import opened Tokens
  import opened Ast
  import opened Combinators
  import opened Matchers
  import opened Layout
  import opened Grammar

  lemma {:induction false} FieldsShapeCons(f: EventField, fs: seq<EventField>)
    ensures FieldsShape([f] + fs) == FieldShape(f) + FieldsShape(fs)
  {
    assert ([f] + fs)[1..] == fs;
  }

  /** A field rule that succeeds returns the field its four tokens spell. */
  lemma {:induction false} FieldRuleReturnsSpelledField(input: seq<Token>, f: EventField, rest: seq<Token>)
    requires Spells(input, FieldShape(f), rest)
    ensures ParseEventField(input) == Ok(f, rest)
  {
    var ts := input[..4];
    var shapes := FieldShape(f);
    assert ts[0] == input[0] && ts[1] == input[1] && ts[2] == input[2] && ts[3] == input[3];
    assert Matches(ts[0], shapes[0]) && Matches(ts[1], shapes[1]);
    assert Matches(ts[2], shapes[2]) && Matches(ts[3], shapes[3]);
    assert input[0].literal == f.name && input[2].literal == f.typ;
    assert input[1] == Token(OP, Colon);
  }

  /** A field rule that succeeds has read the four tokens of the field it
      returns. */
  lemma {:induction false} FieldRuleSpellsField(input: seq<Token>)
    requires ParseEventField(input).Ok?
    ensures var r := ParseEventField(input);
            Spells(input, FieldShape(r.value), r.rest)
  {
    var ts := input[..4];
    assert ts[0] == input[0] && ts[1] == input[1] && ts[2] == input[2] && ts[3] == input[3];
  }

  /** The field rule returns a field exactly when the tokens ahead spell it
      out as `name ":" typ NEWLINE`, and consumes just those four tokens. */
  lemma {:induction false} FieldRuleLayout(input: seq<Token>, f: EventField, rest: seq<Token>)
    ensures ParseEventField(input) == Ok(f, rest) <==> Spells(input, FieldShape(f), rest)
  {
    if ParseEventField(input) == Ok(f, rest) {
      FieldRuleSpellsField(input);
    }
    if Spells(input, FieldShape(f), rest) {
      FieldRuleReturnsSpelledField(input, f, rest);
    }
  }

  lemma {:induction false} FieldsLoopSound(kind: ErrorKind, input: seq<Token>)
    requires ManyLoop(ParseEventField, kind, input).Ok?
    ensures var r := ManyLoop(ParseEventField, kind, input);
            Spells(input, FieldsShape(r.value), r.rest) && ParseEventField(r.rest).Fail?
    decreases |input|
  {
    var r := ManyLoop(ParseEventField, kind, input);
    match ParseEventField(input)
    case Fail(_) =>
      assert r == Ok([], input);
    case Ok(f, mid) =>
      FieldRuleSpellsField(input);
      var tail := ManyLoop(ParseEventField, kind, mid);
      assert r == Ok([f] + tail.value, tail.rest);
      FieldsLoopSound(kind, mid);
      FieldsShapeCons(f, tail.value);
      SpellsAppend(input, FieldShape(f), FieldsShape(tail.value), r.rest);
  }

  lemma {:induction false} FieldsLoopComplete(kind: ErrorKind, input: seq<Token>, fs: seq<EventField>, rest: seq<Token>)
    requires Spells(input, FieldsShape(fs), rest) && ParseEventField(rest).Fail?
    ensures ManyLoop(ParseEventField, kind, input) == Ok(fs, rest)
    decreases |fs|
  {
    if fs == [] {
      assert rest == input;
    } else {
      var f := fs[0];
      assert fs == [f] + fs[1..];
      FieldsShapeCons(f, fs[1..]);
      SpellsAppend(input, FieldShape(f), FieldsShape(fs[1..]), rest);
      FieldRuleReturnsSpelledField(input, f, input[4..]);
      FieldsLoopComplete(kind, input[4..], fs[1..], rest);
    }
  }

  /** The repetition of event fields (the loop of `many1`, and of `many0`
      alike) collects exactly the fields spelled out ahead of the first
      position where no field starts, and stops there. */
  lemma {:induction false} FieldsLoopLayout(kind: ErrorKind, input: seq<Token>, fs: seq<EventField>, rest: seq<Token>)
    ensures ManyLoop(ParseEventField, kind, input) == Ok(fs, rest) <==>
              Spells(input, FieldsShape(fs), rest) && ParseEventField(rest).Fail?
  {
    if ManyLoop(ParseEventField, kind, input) == Ok(fs, rest) {
      FieldsLoopSound(kind, input);
    }
    if Spells(input, FieldsShape(fs), rest) && ParseEventField(rest).Fail? {
      FieldsLoopComplete(kind, input, fs, rest);
    }
  }

  lemma {:induction false} StmtShapeSplit(s: ModuleStmt)
    ensures StmtShape(s) == HeadShape(s.name) + (FieldsShape(s.fields) + [OfType(DEDENT)])
  {
  }

  /** The five head tokens `"event" name ":" NEWLINE INDENT`, token by token. */
  predicate HeadTokens(input: seq<Token>) {
    && |input| >= 5
    && input[0] == Token(NAME, Keyword)
    && input[1].typ == NAME
    && input[2] == Token(OP, Colon)
    && input[3].typ == NEWLINE
    && input[4].typ == INDENT
  }

  lemma {:induction false} HeadTokensSpelled(input: seq<Token>, name: string)
    ensures HeadTokens(input) && input[1].literal == name <==>
              |input| >= 5 && Spells(input, HeadShape(name), input[5..])
  {
    var h := HeadShape(name);
    if HeadTokens(input) && input[1].literal == name {
      forall i | 0 <= i < 5
        ensures Matches(input[..5][i], h[i])
      {
      }
    }
    if |input| >= 5 && Spells(input, h, input[5..]) {
      assert Matches(input[..5][0], h[0]) && Matches(input[..5][1], h[1]) && Matches(input[..5][2], h[2]);
      assert Matches(input[..5][3], h[3]) && Matches(input[..5][4], h[4]);
    }
  }

  /** The field rule needs a NAME first. */
  lemma {:induction false} FieldRuleNeedsName(input: seq<Token>)
    requires |input| > 0 && input[0].typ != NAME
    ensures ParseEventField(input).Fail?
  {
  }

  /** A successful event definition, step by step: the head, the fields
      collected by `many1`, and the closing DEDENT. */
  lemma {:induction false} EventDefSteps(input: seq<Token>)
    requires ParseEventDef(input).Ok?
    ensures HeadTokens(input)
    ensures var fields := Many1(ParseEventField, input[5..]);
            && fields.Ok? && |fields.rest| > 0 && fields.rest[0].typ == DEDENT
            && ParseEventDef(input) == Ok(EventDef(input[1].literal, fields.value), fields.rest[1..])
  {
    var i4 := input[4..];
    assert ParseEventHead(input).Ok?;
    assert ParseEventBody(i4).Ok?;
    assert i4[1..] == input[5..];
  }

  /** The converse of `EventDefSteps`. */
  lemma {:induction false} EventDefFromSteps(input: seq<Token>)
    requires HeadTokens(input)
    requires var fields := Many1(ParseEventField, input[5..]);
             fields.Ok? && |fields.rest| > 0 && fields.rest[0].typ == DEDENT
    ensures var fields := Many1(ParseEventField, input[5..]);
            ParseEventDef(input) == Ok(EventDef(input[1].literal, fields.value), fields.rest[1..])
  {
    var i4 := input[4..];
    var fields := Many1(ParseEventField, input[5..]);
    assert ParseEventHead(input) == Ok(input[1], i4);
    assert IndentToken(i4) == Ok(i4[0], input[5..]);
    assert DedentToken(fields.rest) == Ok(fields.rest[0], fields.rest[1..]);
    assert ParseEventBody(i4) == Ok(fields.value, fields.rest[1..]);
  }

  lemma {:induction false} FieldsMany1Sound(input: seq<Token>)
    requires Many1(ParseEventField, input).Ok?
    ensures var r := Many1(ParseEventField, input);
            |r.value| > 0 && Spells(input, FieldsShape(r.value), r.rest) && ParseEventField(r.rest).Fail?
  {
    var r := Many1(ParseEventField, input);
    var first := ParseEventField(input);
    FieldRuleSpellsField(input);
    var tail := ManyLoop(ParseEventField, Many1NoProgress, first.rest);
    assert r.value == [first.value] + tail.value && r.rest == tail.rest;
    FieldsLoopSound(Many1NoProgress, first.rest);
    FieldsShapeCons(first.value, tail.value);
    SpellsAppend(input, FieldShape(first.value), FieldsShape(tail.value), r.rest);
  }

  lemma {:induction false} FieldsMany1Complete(input: seq<Token>, fs: seq<EventField>, rest: seq<Token>)
    requires |fs| > 0 && Spells(input, FieldsShape(fs), rest) && ParseEventField(rest).Fail?
    ensures Many1(ParseEventField, input) == Ok(fs, rest)
  {
    var f := fs[0];
    var more := fs[1..];
    assert fs == [f] + more;
    FieldsShapeCons(f, more);
    SpellsAppend(input, FieldShape(f), FieldsShape(more), rest);
    FieldRuleReturnsSpelledField(input, f, input[4..]);
    FieldsLoopComplete(Many1NoProgress, input[4..], more, rest);
  }

  /** `many1` over event fields: at least one field, each spelled out in
      turn, up to the first position where no field starts. */
  lemma {:induction false} FieldsMany1Layout(input: seq<Token>, fs: seq<EventField>, rest: seq<Token>)
    ensures Many1(ParseEventField, input) == Ok(fs, rest) <==>
              |fs| > 0 && Spells(input, FieldsShape(fs), rest) && ParseEventField(rest).Fail?
  {
    if Many1(ParseEventField, input) == Ok(fs, rest) {
      FieldsMany1Sound(input);
    }
    if |fs| > 0 && Spells(input, FieldsShape(fs), rest) && ParseEventField(rest).Fail? {
      FieldsMany1Complete(input, fs, rest);
    }
  }

  lemma {:induction false} DedentSpelled(input: seq<Token>)
    ensures |input| > 0 && input[0].typ == DEDENT <==> |input| > 0 && Spells(input, [OfType(DEDENT)], input[1..])
  {
    if |input| > 0 {
      assert input[..1] == [input[0]];
    }
  }

  lemma {:induction false} EventDefSound(input: seq<Token>)
    requires ParseEventDef(input).Ok?
    ensures var r := ParseEventDef(input);
            HasFields(r.value) && Spells(input, StmtShape(r.value), r.rest)
  {
    var r := ParseEventDef(input);
    EventDefSteps(input);
    var i5 := input[5..];
    var fields := Many1(ParseEventField, i5);
    HeadTokensSpelled(input, r.value.name);
    FieldsMany1Layout(i5, fields.value, fields.rest);
    DedentSpelled(fields.rest);
    SpellsAppend(i5, FieldsShape(fields.value), [OfType(DEDENT)], r.rest);
    StmtShapeSplit(r.value);
    SpellsAppend(input, HeadShape(r.value.name), FieldsShape(fields.value) + [OfType(DEDENT)], r.rest);
  }

  lemma {:induction false} EventDefComplete(input: seq<Token>, s: ModuleStmt, rest: seq<Token>)
    requires HasFields(s) && Spells(input, StmtShape(s), rest)
    ensures ParseEventDef(input) == Ok(s, rest)
  {
    StmtShapeSplit(s);
    SpellsAppend(input, HeadShape(s.name), FieldsShape(s.fields) + [OfType(DEDENT)], rest);
    HeadTokensSpelled(input, s.name);
    var i5 := input[5..];
    var i6 := i5[4 * |s.fields|..];
    SpellsAppend(i5, FieldsShape(s.fields), [OfType(DEDENT)], rest);
    DedentSpelled(i6);
    FieldRuleNeedsName(i6);
    FieldsMany1Layout(i5, s.fields, i6);
    EventDefFromSteps(input);
  }

  /** An event definition is accepted exactly when the tokens ahead spell
      it out, with at least one field; it consumes exactly those tokens. */
  lemma {:induction false} EventDefLayout(input: seq<Token>, s: ModuleStmt, rest: seq<Token>)
    ensures ParseEventDef(input) == Ok(s, rest) <==> HasFields(s) && Spells(input, StmtShape(s), rest)
  {
    if ParseEventDef(input) == Ok(s, rest) {
      EventDefSound(input);
    }
    if HasFields(s) && Spells(input, StmtShape(s), rest) {
      EventDefComplete(input, s, rest);
    }
  }

  lemma {:induction false} BodyShapeCons(s: ModuleStmt, body: seq<ModuleStmt>)
    ensures BodyShape([s] + body) == StmtShape(s) + BodyShape(body)
  {
    assert ([s] + body)[1..] == body;
  }

  lemma {:induction false} ValidModuleCons(s: ModuleStmt, body: seq<ModuleStmt>)
    ensures ValidModule(Module([s] + body)) <==> HasFields(s) && ValidModule(Module(body))
  {
    var all := [s] + body;
    assert all[0] == s;
    assert forall i :: 0 <= i < |body| ==> all[i + 1] == body[i];
  }

  lemma {:induction false} StmtsLoopSound(kind: ErrorKind, input: seq<Token>)
    requires ManyLoop(ParseModuleStmt, kind, input).Ok?
    ensures var r := ManyLoop(ParseModuleStmt, kind, input);
            && ValidModule(Module(r.value))
            && Spells(input, BodyShape(r.value), r.rest)
            && ParseModuleStmt(r.rest).Fail?
    decreases |input|
  {
    var r := ManyLoop(ParseModuleStmt, kind, input);
    match ParseModuleStmt(input)
    case Fail(_) =>
      assert r == Ok([], input);
    case Ok(s, mid) =>
      var tail := ManyLoop(ParseModuleStmt, kind, mid);
      assert r == Ok([s] + tail.value, tail.rest);
      EventDefLayout(input, s, mid);
      StmtsLoopSound(kind, mid);
      BodyShapeCons(s, tail.value);
      ValidModuleCons(s, tail.value);
      SpellsAppend(input, StmtShape(s), BodyShape(tail.value), r.rest);
  }

  lemma {:induction false} StmtsLoopComplete(kind: ErrorKind, input: seq<Token>, body: seq<ModuleStmt>, rest: seq<Token>)
    requires ValidModule(Module(body)) && Spells(input, BodyShape(body), rest) && ParseModuleStmt(rest).Fail?
    ensures ManyLoop(ParseModuleStmt, kind, input) == Ok(body, rest)
    decreases |body|
  {
    if body == [] {
      assert rest == input;
    } else {
      var s := body[0];
      var more := body[1..];
      assert body == [s] + more;
      BodyShapeCons(s, more);
      ValidModuleCons(s, more);
      SpellsAppend(input, StmtShape(s), BodyShape(more), rest);
      var mid := input[|StmtShape(s)|..];
      EventDefLayout(input, s, mid);
      StmtsLoopComplete(kind, mid, more, rest);
    }
  }

  /** The repetition of module statements collects exactly the event
      definitions spelled out ahead of the first position where none starts,
      and stops there. */
  lemma {:induction false} StmtsLoopLayout(kind: ErrorKind, input: seq<Token>, body: seq<ModuleStmt>, rest: seq<Token>)
    ensures ManyLoop(ParseModuleStmt, kind, input) == Ok(body, rest) <==>
              ValidModule(Module(body)) && Spells(input, BodyShape(body), rest) && ParseModuleStmt(rest).Fail?
  {
    if ManyLoop(ParseModuleStmt, kind, input) == Ok(body, rest) {
      StmtsLoopSound(kind, input);
    }
    if ValidModule(Module(body)) && Spells(input, BodyShape(body), rest) && ParseModuleStmt(rest).Fail? {
      StmtsLoopComplete(kind, input, body, rest);
    }
  }

  /** The number of NEWLINE tokens the stream starts with. */
  function LeadingNewlines(ts: seq<Token>): (k: nat)
    ensures k <= |ts|
    ensures forall i :: 0 <= i < k ==> ts[i].typ == NEWLINE
    ensures k < |ts| ==> ts[k].typ != NEWLINE
  {
    if ts != [] && ts[0].typ == NEWLINE then 1 + LeadingNewlines(ts[1..]) else 0
  }

  /** The leading-newline loop of `parse_file` consumes exactly the leading
      NEWLINE tokens. */
  lemma {:induction false} NewlinesLoop(input: seq<Token>)
    ensures var k := LeadingNewlines(input);
            ManyLoop(NewlineToken, Many0NoProgress, input) == Ok(input[..k], input[k..])
    decreases |input|
  {
    var k := LeadingNewlines(input);
    if input != [] && input[0].typ == NEWLINE {
      var tail := input[1..];
      assert NewlineToken(input) == Ok(input[0], tail);
      NewlinesLoop(tail);
      assert LeadingNewlines(tail) == k - 1;
      ManyLoopStep(NewlineToken, Many0NoProgress, input);
      SplitAfterHead(input, k);
    } else {
      assert NewlineToken(input).Fail?;
    }
  }

  /** Taking the head token and then `k - 1` tokens of the tail takes `k`
      tokens, and leaves the same suffix. */
  lemma SplitAfterHead(input: seq<Token>, k: nat)
    requires 0 < k <= |input|
    ensures [input[0]] + input[1..][..k - 1] == input[..k]
    ensures input[1..][k - 1..] == input[k..]
  {
    assert [input[0]] + input[1..][..k - 1] == [input[0]] + input[1..k];
  }

  /** A successful file parse, step by step. */
  lemma {:induction false} FileSteps(input: seq<Token>)
    requires ParseFile(input).Ok?
    ensures var body := Many0(ParseModuleStmt, input[LeadingNewlines(input)..]);
            && body.Ok? && |body.rest| > 0 && body.rest[0].typ == ENDMARKER
            && ParseFile(input) == Ok(Module(body.value), body.rest[1..])
  {
    NewlinesLoop(input);
  }

  /** The converse of `FileSteps`. */
  lemma {:induction false} FileFromSteps(input: seq<Token>)
    requires var body := Many0(ParseModuleStmt, input[LeadingNewlines(input)..]);
             body.Ok? && |body.rest| > 0 && body.rest[0].typ == ENDMARKER
    ensures var body := Many0(ParseModuleStmt, input[LeadingNewlines(input)..]);
            ParseFile(input) == Ok(Module(body.value), body.rest[1..])
  {
    NewlinesLoop(input);
  }

  /** No statement starts at an ENDMARKER. */
  lemma {:induction false} StmtRuleRejectsEndmarker(input: seq<Token>)
    requires |input| > 0 && input[0].typ == ENDMARKER
    ensures ParseModuleStmt(input).Fail?
  {
  }

  lemma {:induction false} FileSound(input: seq<Token>)
    requires ParseFile(input).Ok?
    ensures var r := ParseFile(input);
            ValidModule(r.value) && Spells(input[LeadingNewlines(input)..], ModuleShape(r.value), r.rest)
  {
    var r := ParseFile(input);
    var i1 := input[LeadingNewlines(input)..];
    FileSteps(input);
    var body := ManyLoop(ParseModuleStmt, Many0NoProgress, i1);
    assert body == Many0(ParseModuleStmt, i1);
    StmtsLoopSound(Many0NoProgress, i1);
    ModuleShapeSpelled(i1, body.value, body.rest);
  }

  /** The statements spelled out in full, then ENDMARKER, spell the module. */
  lemma {:induction false} ModuleShapeSpelled(input: seq<Token>, body: seq<ModuleStmt>, mid: seq<Token>)
    requires Spells(input, BodyShape(body), mid)
    requires |mid| > 0 && mid[0].typ == ENDMARKER
    ensures Spells(input, ModuleShape(Module(body)), mid[1..])
  {
    assert Spells(mid, [OfType(ENDMARKER)], mid[1..]) by {
      assert mid[..1] == [mid[0]];
    }
    SpellsAppend(input, BodyShape(body), [OfType(ENDMARKER)], mid[1..]);
  }

  lemma {:induction false} FileComplete(input: seq<Token>, m: Module, rest: seq<Token>)
    requires ValidModule(m) && Spells(input[LeadingNewlines(input)..], ModuleShape(m), rest)
    ensures ParseFile(input) == Ok(m, rest)
  {
    var i1 := input[LeadingNewlines(input)..];
    SpellsAppend(i1, BodyShape(m.body), [OfType(ENDMARKER)], rest);
    var i2 := i1[|BodyShape(m.body)|..];
    assert i2[..1][0] == i2[0];
    StmtRuleRejectsEndmarker(i2);
    StmtsLoopLayout(Many0NoProgress, i1, m.body, i2);
    FileFromSteps(input);
  }

  /** `parse_file` accepts exactly the streams that, after their leading
      NEWLINE tokens, spell out a module whose every event has a field, then
      ENDMARKER; the module is the one spelled, and parsing stops right after
      the ENDMARKER. */
  lemma {:induction false} FileLayout(input: seq<Token>, m: Module, rest: seq<Token>)
    ensures ParseFile(input) == Ok(m, rest) <==>
              ValidModule(m) && Spells(input[LeadingNewlines(input)..], ModuleShape(m), rest)
  {
    if ParseFile(input) == Ok(m, rest) {
      FileSound(input);
    }
    if ValidModule(m) && Spells(input[LeadingNewlines(input)..], ModuleShape(m), rest) {
      FileComplete(input, m, rest);
    }
  }

  /** A NEWLINE in front of the stream changes nothing about the parse:
      the same module, the same remainder, the same failure. */
  lemma {:induction false} LeadingNewlineIgnored(t: Token, ts: seq<Token>)
    requires t.typ == NEWLINE
    ensures ParseFile([t] + ts) == ParseFile(ts)
  {
    var input := [t] + ts;
    assert input[1..] == ts;
    NewlinesLoop(input);
    NewlinesLoop(ts);
    assert input[LeadingNewlines(input)..] == ts[LeadingNewlines(ts)..];
  }

  /** Any number of leading NEWLINE tokens changes nothing about the parse. */
  lemma {:induction false} LeadingNewlinesIgnored(nls: seq<Token>, ts: seq<Token>)
    requires forall i :: 0 <= i < |nls| ==> nls[i].typ == NEWLINE
    ensures ParseFile(nls + ts) == ParseFile(ts)
    decreases |nls|
  {
    if nls != [] {
      var more := nls[1..];
      assert forall i :: 0 <= i < |more| ==> more[i] == nls[i + 1];
      assert nls + ts == [nls[0]] + (more + ts);
      LeadingNewlineIgnored(nls[0], more + ts);
      LeadingNewlinesIgnored(more, ts);
    } else {
      assert nls + ts == ts;
    }
  }

  /** An INDENT directly followed by DEDENT is not an event body: the field
      rule fails at the DEDENT and `many1` passes that failure on. */
  lemma {:induction false} EmptyEventBodyFails(input: seq<Token>, name: string)
    requires |input| > 5 && Spells(input, HeadShape(name), input[5..]) && input[5].typ == DEDENT
    ensures ParseEventDef(input) == Fail(ParseError(input[5..], VerifyFailed, []))
  {
    HeadTokensSpelled(input, name);
    var i5 := input[5..];
    assert i5[0] == input[5];
    assert NameToken(i5) == Fail(ParseError(i5, VerifyFailed, []));
    assert input[1..][1..] == input[2..];
    assert input[2..][1..] == input[3..];
    assert input[3..][1..] == input[4..];
    assert input[4..][1..] == i5;
  }

  /** An event whose fields are not closed by a DEDENT fails exactly where
      the DEDENT was expected, and no partial definition comes out. */
  lemma {:induction false} MissingDedentFails(input: seq<Token>, name: string, fs: seq<EventField>, mid: seq<Token>)
    requires |fs| > 0 && Spells(input, HeadShape(name) + FieldsShape(fs), mid)
    requires ParseEventField(mid).Fail? && (mid == [] || mid[0].typ != DEDENT)
    ensures ParseEventDef(input) == Fail(ParseError(mid, if mid == [] then EndOfInput else VerifyFailed, []))
  {
    SpellsAppend(input, HeadShape(name), FieldsShape(fs), mid);
    HeadTokensSpelled(input, name);
    var i5 := input[5..];
    FieldsMany1Layout(i5, fs, mid);
    assert input[1..][1..] == input[2..];
    assert input[2..][1..] == input[3..];
    assert input[3..][1..] == input[4..];
    assert input[4..][1..] == i5;
  }

  /** Where an event definition that fails stops: at the first head token
      that does not fit, at the token after the head when it is not an
      INDENT, or where the first field stops fitting. No partial definition
      comes out and no label is added. */
  lemma {:induction false} EventDefFailsEarly(input: seq<Token>)
    requires ParseEventDef(input).Fail?
    ensures ParseEventHead(input).Fail? ==> var j := HeadMismatch(input);
              ParseEventDef(input).err == ParseError(input[j..], if j == |input| then EndOfInput else VerifyFailed, [])
    ensures ParseEventHead(input).Ok? && (|input| == 4 || input[4].typ != INDENT) ==>
              ParseEventDef(input).err == ParseError(input[4..], if |input| == 4 then EndOfInput else VerifyFailed, [])
    ensures ParseEventHead(input).Ok? && |input| > 4 && input[4].typ == INDENT && ParseEventField(input[5..]).Fail? ==>
              var j := 5 + FieldMismatch(input[5..]);
              ParseEventDef(input).err == ParseError(input[j..], if j == |input| then EndOfInput else VerifyFailed, [])
  {
    if ParseEventHead(input).Ok? {
      var i4 := input[4..];
      assert ParseEventBody(i4).Fail? && ParseEventDef(input).err == ParseEventBody(i4).err;
      EventBodyFailsEarly(i4);
      if |input| > 4 {
        assert i4[1..] == input[5..];
        var j := FieldMismatch(input[5..]);
        assert i4[1 + j..] == input[5 + j..];
      }
    }
  }

  /** The body part of `EventDefFailsEarly`: a body fails at its first token
      when that is not an INDENT, and otherwise where the first field stops
      fitting, if it does. */
  lemma {:induction false} EventBodyFailsEarly(input: seq<Token>)
    requires ParseEventBody(input).Fail?
    ensures (|input| == 0 || input[0].typ != INDENT) ==>
              ParseEventBody(input).err == ParseError(input, if |input| == 0 then EndOfInput else VerifyFailed, [])
    ensures |input| > 0 && input[0].typ == INDENT && ParseEventField(input[1..]).Fail? ==>
              var j := 1 + FieldMismatch(input[1..]);
              ParseEventBody(input).err == ParseError(input[j..], if j == |input| then EndOfInput else VerifyFailed, [])
  {
    if |input| > 0 && input[0].typ == INDENT && ParseEventField(input[1..]).Fail? {
      var j := FieldMismatch(input[1..]);
      assert input[1..][j..] == input[1 + j..];
    }
  }

  /** The tokens `Render` makes for a module parse back to that module. */
  lemma {:induction false} RenderRoundTrip(m: Module)
    requires ValidModule(m)
    ensures ParseFile(Render(ModuleShape(m))) == Ok(m, [])
  {
    var shapes := ModuleShape(m);
    var ts := Render(shapes);
    if m.body != [] {
      BodyShapeCons(m.body[0], m.body[1..]);
      assert m.body == [m.body[0]] + m.body[1..];
      assert shapes[0] == Exact(NAME, Keyword);
    } else {
      assert shapes[0] == OfType(ENDMARKER);
    }
    assert Matches(ts[0], shapes[0]);
    assert LeadingNewlines(ts) == 0;
    assert ts[..|shapes|] == ts;
    FileComplete(ts, m, []);
  }

  /** Where `parse_file` fails: when the statements spelled out after the
      leading NEWLINEs are followed by a token that starts no statement and
      is not ENDMARKER (or by nothing), the statement loop stops there and
      the end-marker step fails at exactly that position. */
  lemma {:induction false} FileFailsAt(input: seq<Token>, body: seq<ModuleStmt>, rest: seq<Token>)
    requires ValidModule(Module(body))
    requires Spells(input[LeadingNewlines(input)..], BodyShape(body), rest)
    requires ParseModuleStmt(rest).Fail?
    requires rest == [] || rest[0].typ != ENDMARKER
    ensures ParseFile(input) == Fail(ParseError(rest, if rest == [] then EndOfInput else VerifyFailed, []))
  {
    NewlinesLoop(input);
    StmtsLoopLayout(Many0NoProgress, input[LeadingNewlines(input)..], body, rest);
  }

  /** Every successful rule leaves a strict suffix of its input, which is
      what makes the repetitions terminate; `parse_file` ends right after
      an ENDMARKER. */
  lemma {:induction false} RulesLeaveStrictSuffix(input: seq<Token>)
    ensures ParseEventDef(input).Ok? ==> IsStrictSuffix(ParseEventDef(input).rest, input)
    ensures ParseModuleStmt(input).Ok? ==> IsStrictSuffix(ParseModuleStmt(input).rest, input)
    ensures var r := ParseFile(input);
            r.Ok? ==> IsStrictSuffix(r.rest, input) && input[|input| - |r.rest| - 1].typ == ENDMARKER
  {
    if ParseEventDef(input).Ok? {
      EventDefSound(input);
      var s := ParseEventDef(input).value;
      SpellsLeavesSuffix(input, StmtShape(s), ParseEventDef(input).rest);
    }
    if ParseFile(input).Ok? {
      FileEndsAtEndmarker(input);
    }
  }

  /** The statement rule keeps suffixes, so repeating it in the file rule
      leaves a suffix of the tokens after the leading NEWLINEs, and a
      strictly shorter one once a statement was read. */
  lemma {:induction false} StmtRuleKeepsSuffix()
    ensures KeepsSuffix(ParseModuleStmt)
  {
    forall s | ParseModuleStmt(s).Ok?
      ensures IsSuffix(ParseModuleStmt(s).rest, s)
    {
      RulesLeaveStrictSuffix(s);
    }
  }

  lemma {:induction false} StmtsLoopLeavesSuffix(input: seq<Token>)
    ensures var r := Many0(ParseModuleStmt, input);
            r.Ok? && IsSuffix(r.rest, input) && (|r.value| > 0 ==> |r.rest| < |input|)
  {
    StmtRuleAdvances();
    var r := Many0(ParseModuleStmt, input);
    Many0Steps(ParseModuleStmt, input, r.value, r.rest);
    StmtRuleKeepsSuffix();
    StepsLeaveSuffix(ParseModuleStmt, input, r.value, r.rest);
  }

  lemma {:induction false} FileEndsAtEndmarker(input: seq<Token>)
    requires ParseFile(input).Ok?
    ensures var r := ParseFile(input);
            IsStrictSuffix(r.rest, input) && input[|input| - |r.rest| - 1].typ == ENDMARKER
  {
    var r := ParseFile(input);
    FileSound(input);
    var k := LeadingNewlines(input);
    var shapes := ModuleShape(r.value);
    var n := |shapes|;
    var tail := input[k..];
    SpellsLeavesSuffix(tail, shapes, r.rest);
    assert shapes[n - 1] == OfType(ENDMARKER);
    assert tail[n - 1] == input[k + n - 1];
    assert |r.rest| == |input| - k - n;
    assert input[|input| - |r.rest|..] == tail[|tail| - |r.rest|..];
  }

  /** A stream with no ENDMARKER anywhere never parses as a file. */
  lemma {:induction false} NoEndmarkerFails(input: seq<Token>)
    requires forall i :: 0 <= i < |input| ==> input[i].typ != ENDMARKER
    ensures ParseFile(input).Fail?
  {
    if ParseFile(input).Ok? {
      RulesLeaveStrictSuffix(input);
    }
  }
}
