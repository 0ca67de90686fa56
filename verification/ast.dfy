/** The syntax tree the grammar builds: a module is an ordered list of
    top-level statements, of which event definitions are the only kind. */
module Ast {

  /** One `name: type` line of an event; the type is kept as raw text. */
  datatype EventField = EventField(name: string, typ: string)

  /** A top-level statement. */
  datatype ModuleStmt = EventDef(name: string, fields: seq<EventField>)

  /** The root node: the statements in declaration order. */
  datatype Module = Module(body: seq<ModuleStmt>)

  /** The grammar demands at least one field per event. */
  predicate HasFields(s: ModuleStmt) {
    |s.fields| > 0
  }

  /** Every statement of the module satisfies the grammar's shape invariant. */
  predicate ValidModule(m: Module) {
    forall i :: 0 <= i < |m.body| ==> HasFields(m.body[i])
  }
}
