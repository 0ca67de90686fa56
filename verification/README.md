# Token-stream parser of the `fe` front end, modelled in Dafny

This project models the parser in `parser/src/parsers.rs`. The parser reads the lexer's classified tokens and builds the module syntax tree of an indentation-sensitive contract language:

```
file        = NEWLINE* module_stmt* ENDMARKER
module_stmt = event_def                          (context "expected event definition")
event_def   = "event" NAME ":" NEWLINE INDENT event_field+ DEDENT
event_field = NAME ":" NAME NEWLINE
```

The rules are nom parser combinators over a token slice. The model writes every rule as a pure Dafny function. Each function takes the remaining tokens and returns one of two results:

- `Ok(value, rest)`: the value built and the tokens left after it.
- `Fail(err)`: the failure, where `err` holds the remaining tokens at the failure, an error kind and the context labels.

Modules:

- `Tokens` (`tokens.dfy`): the token tags, tokens (tag plus literal text), and the NL/COMMENT filter of `get_parse_tokens`.
- `Ast` (`ast.dfy`): `EventField`, `ModuleStmt.EventDef` and `Module`.
- `Combinators` (`combinators.dfy`): `one_token`, nom's `verify`, `context`, `many0` and `many1`. `ManyLoop` is the repetition loop shared by `many0` and `many1`, including nom's "no progress" guard.
- `Matchers` (`matchers.dfy`): `token(typ)`, its named specialisations, `name_string` and `op_string`. Each one is described by the `Shape` of the single token it accepts.
- `Layout` (`layout.dfy`): a reference definition for each tree node. It gives the sequence of token shapes that spells the node out, and `Render` turns shapes back into tokens.
- `Grammar` (`grammar.dfy`): `parse_event_field`, `parse_event_def`, `parse_module_stmt` and `parse_file`. Each is written step by step, as in the source. `parse_event_def` is split into the two parts its comments name: the head `"event" name ":" NEWLINE`, then `INDENT event_field+ DEDENT`.
- `GrammarProofs` (`grammar_proofs.dfy`): each rule accepts exactly the token streams that spell out the node it returns, and consumes exactly those tokens. This is proved in both directions, along with failure positions, leading-newline invariance and the render/parse round trip.
- `Scenarios` (`scenarios.dfy`): the outcomes the file's own tests assert, on hand-built token streams. These are the blank file, the `Greet` event, and `Greet` followed by `Other`, each with and without blank lines.

## Model

| member | source | states |
|---|---|---|
| Tokens.ParseTokens | parser/src/parsers.rs:21-24 | the filtered stream holds no NL or COMMENT token; a token is in it exactly when it is in the lexer's output and is neither NL nor COMMENT; it is never longer |
| Tokens.ParseTokensAppend | parser/src/parsers.rs:21-24 | filtering distributes over concatenation, so the kept tokens stay in their original relative order |
| Tokens.ParseTokensKeepsSignificant | parser/src/parsers.rs:21-24 | a stream with no NL or COMMENT token passes through unchanged |
| Tokens.ParseTokensDropsBlank | parser/src/parsers.rs:23 | removing one NL or COMMENT token anywhere in the input does not change the filtered stream |
| Tokens.ParseTokensIdempotent | parser/src/parsers.rs:21-24 | filtering an already filtered stream changes nothing |
| Combinators.OneToken | parser/src/parsers.rs:28-36 | succeeds exactly on a non-empty slice and then splits it into the head token and exactly the tail; on an empty slice it fails with end-of-input at that slice |
| Combinators.Verify | parser/src/parsers.rs:43 | succeeds exactly when the inner rule succeeds and the predicate accepts its value, and then returns the inner result unchanged; a rejected value fails at the original input, consuming nothing |
| Combinators.Context | parser/src/parsers.rs:152 | success and consumed tokens are exactly the inner rule's; on failure the position and kind are kept and the label is put in front of the inner labels |
| Combinators.ManyLoop | parser/src/parsers.rs:136-139 | a successful loop stops at a position where the repeated rule fails; it never leaves more tokens than it got; its only failure is the no-progress guard; for a rule that always consumes, it always succeeds |
| Combinators.Many0 | parser/src/parsers.rs:139 | zero-or-more always succeeds for a consuming rule and stops where the rule fails |
| Combinators.Many1 | parser/src/parsers.rs:170 | a failure of the first application is passed on as is; a success has at least one value, the first of them the first application's; it stops where the rule fails and never leaves more than the first application did; for a consuming rule it succeeds exactly when the first application does |
| Combinators.ManyLoopSteps | parser/src/parsers.rs:136-139 | the repetition loop returns `(vs, rest)` exactly when `vs` are the values of successive applications of the rule from the input, each consuming input, `rest` is what the last one left, and the rule fails at `rest` |
| Combinators.Many0Steps | parser/src/parsers.rs:139 | `many0` returns `(vs, rest)` exactly when `vs` are the values of the successive consuming applications and the rule fails at `rest`, which it does not consume |
| Combinators.Many1Steps | parser/src/parsers.rs:170 | `many1` returns `(vs, rest)` exactly when the first application succeeds with `vs[0]`, the remaining values are the successive consuming applications after it, and the rule fails at `rest` |
| Combinators.StepsLeaveSuffix | parser/src/parsers.rs:136-139 | repeating a rule that leaves suffixes of its input leaves a suffix of the input, strictly shorter once a value was collected |
| Matchers.TokenOf | parser/src/parsers.rs:39-44 | succeeds exactly when the head token has the tag; then consumes exactly that token; otherwise fails at its input with end-of-input or a rejected-token error |
| Matchers.NameToken | parser/src/parsers.rs:47-52 | the single-token contract for NAME |
| Matchers.OpToken | parser/src/parsers.rs:65-70 | the single-token contract for OP |
| Matchers.NumberToken | parser/src/parsers.rs:83-88 | the single-token contract for NUMBER |
| Matchers.StringToken | parser/src/parsers.rs:91-96 | the single-token contract for STRING |
| Matchers.IndentToken | parser/src/parsers.rs:99-104 | the single-token contract for INDENT |
| Matchers.DedentToken | parser/src/parsers.rs:107-112 | the single-token contract for DEDENT |
| Matchers.NewlineToken | parser/src/parsers.rs:115-120 | the single-token contract for NEWLINE |
| Matchers.EndmarkerToken | parser/src/parsers.rs:123-128 | the single-token contract for ENDMARKER |
| Matchers.NameString | parser/src/parsers.rs:55-62 | succeeds exactly when the head token is a NAME whose text equals the given string; consumes only that token; fails at its input otherwise |
| Matchers.OpString | parser/src/parsers.rs:73-80 | succeeds exactly when the head token is an OP whose text equals the given string; consumes only that token; fails at its input otherwise |
| Matchers.KeywordIsCaseSensitive | parser/src/parsers.rs:163 | the keyword matcher rejects NAME `Event` and OP `event`, and accepts NAME `event`, leaving exactly the rest |
| Grammar.ParseEventField | parser/src/parsers.rs:183-199 | succeeds exactly when the next four tokens are NAME, OP `:`, NAME, NEWLINE; the field is named by the first token's text and typed by the third's; it consumes exactly those four tokens; a failure sits at the first token that does not fit, with end-of-input when the stream runs out first and a rejected-token error otherwise; no context label |
| Grammar.ParseEventDef | parser/src/parsers.rs:158-180 | on success the first token is NAME `event`, the name is the second token's text, there is at least one field, and input is consumed; failures carry no context label (where they sit: `GrammarProofs.EventDefFailsEarly`, `GrammarProofs.MissingDedentFails`) |
| Grammar.ParseEventHead | parser/src/parsers.rs:162-166 | succeeds exactly on `NAME "event"`, NAME, `OP ":"`, NEWLINE; it returns the second token and leaves exactly what follows the four; on failure it fails at the first of the four that does not fit, with end-of-input when the stream runs out first, and no label |
| Grammar.ParseEventBody | parser/src/parsers.rs:168-171 | on success the first token is INDENT, the fields are what `many1` collects after it, and a DEDENT follows them; it returns at least one field, leaves exactly what follows the DEDENT, and consumes input |
| Grammar.ParseModuleStmt | parser/src/parsers.rs:148-155 | identical to the event-definition rule on success; on failure, same position, with the context label `expected event definition` |
| Grammar.ParseFile | parser/src/parsers.rs:131-145 | a failure lies at a position where no statement starts and which is not ENDMARKER; it is end-of-input exactly when no token is left; it carries no context label |
| GrammarProofs.FieldRuleLayout | parser/src/parsers.rs:183-199 | the field rule returns field `f` exactly when the tokens ahead spell out `f.name ":" f.typ NEWLINE`, and the remainder is what follows them |
| GrammarProofs.FieldsLoopLayout | parser/src/parsers.rs:170 | the field loop returns exactly the fields spelled out ahead, in source order, and stops at the first position where no field starts |
| GrammarProofs.FieldsMany1Layout | parser/src/parsers.rs:170 | `many1` of fields returns a non-empty list exactly when fields are spelled out ahead, consuming four tokens per field |
| GrammarProofs.EventDefLayout | parser/src/parsers.rs:158-180 | the event rule returns an event exactly when the tokens spell `"event" name ":" NEWLINE INDENT`, then its non-empty fields, then DEDENT; it consumes exactly those 6 + 4 × (number of fields) tokens |
| GrammarProofs.StmtsLoopLeavesSuffix | parser/src/parsers.rs:139 | the statement loop always succeeds and leaves a suffix of its input, a strictly shorter one once a statement was read |
| GrammarProofs.StmtsLoopLayout | parser/src/parsers.rs:139 | the statement loop returns exactly the event definitions spelled out ahead, in order, and stops at the first position where none starts |
| GrammarProofs.NewlinesLoop | parser/src/parsers.rs:136 | the leading-newline loop consumes exactly the leading NEWLINE tokens |
| GrammarProofs.FileLayout | parser/src/parsers.rs:131-145 | the file rule returns a module exactly when the tokens after the leading NEWLINEs spell its events (each with a field) and then ENDMARKER; the remainder is what follows the ENDMARKER |
| GrammarProofs.LeadingNewlineIgnored | parser/src/parsers.rs:135-136 | a NEWLINE in front of the stream leaves the outcome identical: same module, same remainder, same failure |
| GrammarProofs.LeadingNewlinesIgnored | parser/src/parsers.rs:135-136 | any number of leading NEWLINE tokens leaves the outcome identical |
| GrammarProofs.EmptyEventBodyFails | parser/src/parsers.rs:169-171 | INDENT directly followed by DEDENT makes the event rule fail at the DEDENT, with no event produced |
| GrammarProofs.EventDefFailsEarly | parser/src/parsers.rs:158-172 | a failing event definition fails, with no label, at the first head token that does not fit, at the token after the head when it is not INDENT, or where the first field stops fitting |
| GrammarProofs.EventBodyFailsEarly | parser/src/parsers.rs:168-170 | the body part fails at its first token when that is not INDENT, and otherwise where the first field stops fitting, with end-of-input when the stream runs out first |
| GrammarProofs.MissingDedentFails | parser/src/parsers.rs:170-171 | fields not closed by DEDENT make the event rule fail exactly where the DEDENT was expected |
| GrammarProofs.RenderRoundTrip | parser/src/parsers.rs:131-199 | a module whose every event has a field, rendered to tokens, parses back to itself with nothing left |
| GrammarProofs.FileFailsAt | parser/src/parsers.rs:136-142 | after the leading NEWLINEs and the statements spelled out in full, a position where no statement starts and which is not ENDMARKER is exactly where the file fails: end-of-input if nothing is left there, a rejected-token error otherwise, with no context label |
| GrammarProofs.RulesLeaveStrictSuffix | parser/src/parsers.rs:136-142 | the event, statement and file rules each leave a strict suffix of their input on success, and the file rule's last consumed token is ENDMARKER |
| GrammarProofs.NoEndmarkerFails | parser/src/parsers.rs:141-142 | a stream with no ENDMARKER token anywhere never parses as a file |
| Scenarios.EmptyStreamFails | parser/src/parsers.rs:141-142 | the empty stream fails with end-of-input at the empty slice, with no context label |
| Scenarios.BlankFileParsesEmpty | parser/src/parsers.rs:210-219 | NEWLINE tokens then ENDMARKER give the empty module with an empty remainder |
| Scenarios.BlankTokenIgnored | parser/src/parsers.rs:17-24 | an NL or COMMENT token anywhere in the lexer's output does not change the parse outcome |
| Scenarios.GreetParses | parser/src/parsers.rs:222-261 | the `Greet` tokens parse to one event with fields `name: bytes32`, `age: uint8`, in that order, with nothing left |
| Scenarios.GreetWithBlankLinesParses | parser/src/parsers.rs:227-261 | the same module comes out with blank lines (NL tokens) before and after the event |
| Scenarios.GreetOtherParses | parser/src/parsers.rs:263-337 | the `Greet` and `Other` tokens parse to the two events in declaration order, with nothing left |
| Scenarios.EmptyBodyFileFails | parser/src/parsers.rs:136-142 | a file whose only event has no fields fails at that event's `event` keyword, with a rejected-token error and no context label |
| Scenarios.GreetBlankOtherParses | parser/src/parsers.rs:289-337 | the same two events come out with a blank line (NL token) before, between and after them |

## Left out

- `tokenize` (`parsers.rs:19`), the external lexer, and its error result: it is not part of this model. The filter takes the lexer's token sequence as input. Which blank lines become NL rather than NEWLINE is the lexer's decision, so the scenarios write their token streams by hand.
- Source spans and other positional data of a token play no part in any grammar decision and are not modelled.
- `crate::tokenizer::types` is not part of this model. The tag enumeration holds the ten tags the parser file names.
- The generic error parameter `E: ParseError`, `ErrorKind` codes and `make_error` (`crate::errors`, not part of this model) are modelled by one concrete error. It records the remaining tokens, the kind (end of input, rejected token, no progress in `many0` or `many1`) and the context labels, outermost first. `many1`'s merging of a first-application failure is modelled as the tuple error the tests use does it: the inner error is passed on unchanged.
- nom's `Incomplete` and unrecoverable `Failure` results are not modelled: no rule in this file produces them.
- Combinators.ManyLoop: nom compares the new slice with the old one to detect no progress. The model compares their lengths. The two agree for every rule here, because each returns a suffix of its input.
- Rust borrowing and zero-copy slices: the model passes the remaining tokens as a sequence.

## Behaviour of `parse_file` worth knowing

- The empty token stream does not parse: the end-marker step fails with end-of-input (`Scenarios.EmptyStreamFails`). More generally, no stream without an ENDMARKER parses (`GrammarProofs.NoEndmarkerFails`). An empty source file still parses, because the lexer emits ENDMARKER for it.
- `parse_file` never reports the "expected event definition" label. `many0` discards the error of the statement that failed. The end-marker step then fails at the start of that statement, with no context label (`GrammarProofs.FileFailsAt`, `Scenarios.EmptyBodyFileFails`).
- Blank lines the lexer reports as NL tokens leave the result unchanged wherever they are (`Scenarios.BlankTokenIgnored`). A NEWLINE token is different: between two events it stops the statement loop, and the file fails.
