/**
  A parsed YAML document, reduced to the shapes a task-definition file can
  contain. Numbers are represented by `Int` alone; the reader itself (lexing,
  positions, tags) is not part of this model.
*/
module Yaml {

  datatype Value =
    | Null
    | Bool(b: bool)
    | Int(i: int)
    | Str(s: string)
    | Sequence(items: seq<Value>)
    | Mapping(entries: map<string, Value>)
}
