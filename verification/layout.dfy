/** The token layout of each syntax-tree node: the shapes of the tokens the
    grammar reads for it, in order. These are the reference against which
    the grammar rules are proved, and `Render` turns them back into tokens. */
module Layout {
  import opened Tokens
  import opened Ast
  import opened Matchers

  const Keyword: string := "event"
  const Colon: string := ":"

  /** `name ":" typ NEWLINE` */
  function FieldShape(f: EventField): (r: seq<Shape>)
    ensures |r| == 4
  {
    [Exact(NAME, f.name), Exact(OP, Colon), Exact(NAME, f.typ), OfType(NEWLINE)]
  }

  /** The fields one after another, four tokens each. */
  function FieldsShape(fs: seq<EventField>): (r: seq<Shape>)
    ensures |r| == 4 * |fs|
  {
    if fs == [] then [] else FieldShape(fs[0]) + FieldsShape(fs[1..])
  }

  /** `"event" name ":" NEWLINE INDENT` */
  function HeadShape(name: string): (r: seq<Shape>)
    ensures |r| == 5
  {
    [Exact(NAME, Keyword), Exact(NAME, name), Exact(OP, Colon), OfType(NEWLINE), OfType(INDENT)]
  }

  /** An event definition: its head, its fields, then DEDENT. */
  function StmtShape(s: ModuleStmt): (r: seq<Shape>)
    ensures |r| == 6 + 4 * |s.fields|
  {
    match s
    case EventDef(name, fields) => HeadShape(name) + FieldsShape(fields) + [OfType(DEDENT)]
  }

  /** The statements one after another. */
  function BodyShape(body: seq<ModuleStmt>): seq<Shape> {
    if body == [] then [] else StmtShape(body[0]) + BodyShape(body[1..])
  }

  /** The statements, then ENDMARKER. */
  function ModuleShape(m: Module): seq<Shape> {
    BodyShape(m.body) + [OfType(ENDMARKER)]
  }

  /** A token of the given shape; tokens whose text the grammar ignores get
      an empty text. */
  function Emit(s: Shape): (t: Token)
    ensures Matches(t, s)
  {
    match s
    case OfType(typ) => Token(typ, "")
    case Exact(typ, text) => Token(typ, text)
  }

  /** A token stream with the given shapes. */
  function Render(shapes: seq<Shape>): (ts: seq<Token>)
    ensures MatchesAll(ts, shapes)
  {
    seq(|shapes|, i requires 0 <= i < |shapes| => Emit(shapes[i]))
  }
}
