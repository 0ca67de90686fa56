/** The grammar rules of the parser file:

      file       = NEWLINE* module_stmt* ENDMARKER
      module_stmt = event_def                      (labelled "expected event definition")
      event_def  = "event" NAME ":" NEWLINE INDENT event_field+ DEDENT
      event_field = NAME ":" NAME NEWLINE

    Each rule is a pure function of the remaining tokens; a step that fails
    makes the whole rule fail with that step's failure. */
module Grammar {
  import opened Tokens
  import opened Ast
  import opened Combinators
  import opened Matchers
  import opened Layout

  const EventContext: string := "expected event definition"

  /** Where the tokens ahead stop fitting `NAME ":" NAME NEWLINE`: the
      index of the first token that does not fit, or the length of the
      stream when it runs out first. Meaningful only for a stream that is
      not a field. */
  function FieldMismatch(input: seq<Token>): (j: nat)
    ensures j <= |input| && j < 4
  {
    if |input| == 0 || input[0].typ != NAME then 0
    else if |input| == 1 || input[1] != Token(OP, Colon) then 1
    else if |input| == 2 || input[2].typ != NAME then 2
    else 3
  }

  /** Where the tokens ahead stop fitting `"event" NAME ":" NEWLINE`, in
      the manner of `FieldMismatch`. */
  function HeadMismatch(input: seq<Token>): (j: nat)
    ensures j <= |input| && j < 4
  {
    if |input| == 0 || input[0] != Token(NAME, Keyword) then 0
    else if |input| == 1 || input[1].typ != NAME then 1
    else if |input| == 2 || input[2] != Token(OP, Colon) then 2
    else 3
  }

  /** `parse_event_field` */
  function ParseEventField(input: seq<Token>): (r: PResult<EventField>)
    ensures r.Ok? <==>
              |input| >= 4 && input[0].typ == NAME && input[1] == Token(OP, Colon) &&
              input[2].typ == NAME && input[3].typ == NEWLINE
    ensures r.Ok? ==> r.value == EventField(input[0].literal, input[2].literal) && r.rest == input[4..]
    ensures r.Fail? ==> var j := FieldMismatch(input);
              r.err == ParseError(input[j..], if j == |input| then EndOfInput else VerifyFailed, [])
  {
    match NameToken(input)
    case Fail(e) => Fail(e)
    case Ok(name, i1) =>
      match OpString(Colon, i1)
      case Fail(e) => Fail(e)
      case Ok(_, i2) =>
        match NameToken(i2)
        case Fail(e) => Fail(e)
        case Ok(typ, i3) =>
          match NewlineToken(i3)
          case Fail(e) => Fail(e)
          case Ok(_, i4) => Ok(EventField(name.literal, typ.literal), i4)
  }

  /** `parse_event_def`, in the two parts its comments name: the head
      `"event" name ":" NEWLINE`, then `INDENT event_field+ DEDENT`. */
  function ParseEventDef(input: seq<Token>): (r: PResult<ModuleStmt>)
    ensures r.Ok? ==> |input| > 1 && input[0] == Token(NAME, Keyword) && input[1].typ == NAME
    ensures r.Ok? ==> r.value.name == input[1].literal && HasFields(r.value)
    ensures r.Ok? ==> |r.rest| < |input|
    ensures r.Fail? ==> r.err.context == []
  {
    match ParseEventHead(input)
    case Fail(e) => Fail(e)
    case Ok(name, i4) =>
      match ParseEventBody(i4)
      case Fail(e) => Fail(e)
      case Ok(fields, i7) =>
        Ok(EventDef(name.literal, fields), i7)
  }

  /** `"event" name ":" NEWLINE`, returning the name token. */
  function ParseEventHead(input: seq<Token>): (r: PResult<Token>)
    ensures r.Ok? <==>
              |input| >= 4 && input[0] == Token(NAME, Keyword) && input[1].typ == NAME &&
              input[2] == Token(OP, Colon) && input[3].typ == NEWLINE
    ensures r.Ok? ==> r.value == input[1] && r.rest == input[4..]
    ensures r.Fail? ==> var j := HeadMismatch(input);
              r.err == ParseError(input[j..], if j == |input| then EndOfInput else VerifyFailed, [])
  {
    match NameString(Keyword, input)
    case Fail(e) => Fail(e)
    case Ok(_, i1) =>
      match NameToken(i1)
      case Fail(e) => Fail(e)
      case Ok(name, i2) =>
        match OpString(Colon, i2)
        case Fail(e) => Fail(e)
        case Ok(_, i3) =>
          match NewlineToken(i3)
          case Fail(e) => Fail(e)
          case Ok(_, i4) => Ok(name, i4)
  }

  /** `INDENT event_field+ DEDENT`, returning the fields. */
  function ParseEventBody(input: seq<Token>): (r: PResult<seq<EventField>>)
    ensures r.Ok? ==> |input| > 0 && input[0].typ == INDENT
    ensures r.Ok? ==> var fields := Many1(ParseEventField, input[1..]);
              && fields.Ok? && |fields.rest| > 0 && fields.rest[0].typ == DEDENT
              && r.value == fields.value && r.rest == fields.rest[1..]
    ensures r.Ok? ==> |r.value| > 0 && |r.rest| < |input|
    ensures r.Fail? ==> r.err.context == []
  {
    match IndentToken(input)
    case Fail(e) => Fail(e)
    case Ok(_, i5) =>
      match Many1(ParseEventField, i5)
      case Fail(e) => Fail(e)
      case Ok(fields, i6) =>
        match DedentToken(i6)
        case Fail(e) => Fail(e)
        case Ok(_, i7) => Ok(fields, i7)
  }

  /** `parse_module_stmt`: an event definition, under a context label. */
  function ParseModuleStmt(input: seq<Token>): (r: PResult<ModuleStmt>)
    ensures r.Ok? ==> r == ParseEventDef(input)
    ensures r.Ok? <==> ParseEventDef(input).Ok?
    ensures r.Fail? ==> r.err.at == ParseEventDef(input).err.at && r.err.context == [EventContext]
  {
    Context(EventContext, ParseEventDef, input)
  }

  lemma StmtRuleAdvances()
    ensures Advances(ParseModuleStmt)
  {
    forall s | ParseModuleStmt(s).Ok?
      ensures |ParseModuleStmt(s).rest| < |s|
    {
    }
  }

  lemma NewlineRuleAdvances()
    ensures Advances(NewlineToken)
  {
    forall s | NewlineToken(s).Ok?
      ensures |NewlineToken(s).rest| < |s|
    {
    }
  }

  /** `parse_file` */
  function ParseFile(input: seq<Token>): (r: PResult<Module>)
    ensures r.Ok? ==> |r.rest| < |input|
    ensures r.Fail? ==> r.err.context == [] && |r.err.at| <= |input|
    ensures r.Fail? ==> ParseModuleStmt(r.err.at).Fail?
    ensures r.Fail? ==> r.err.kind == (if r.err.at == [] then EndOfInput else VerifyFailed)
    ensures r.Fail? && r.err.at != [] ==> r.err.at[0].typ != ENDMARKER
  {
    NewlineRuleAdvances();
    StmtRuleAdvances();
    match Many0(NewlineToken, input)
    case Fail(e) => Fail(e)
    case Ok(_, i1) =>
      match Many0(ParseModuleStmt, i1)
      case Fail(e) => Fail(e)
      case Ok(body, i2) =>
        match EndmarkerToken(i2)
        case Fail(e) => Fail(e)
        case Ok(_, i3) =>
          Ok(Module(body), i3)
  }
}
