/** JSON values; the parser and the printer of the JSON library are parameters of what uses them. */
module JsonValues {
  import opened Prelude

  datatype Json =
    | Null
    | Bool(b: bool)
    | Number(n: int)
    | Str(s: string)
    | Arr(items: seq<Json>)
    | Obj(members: seq<(string, Json)>)

  const EMPTY_OBJECT := Obj([])

  type Parser = string -> Option<Json>

  type Printer = Json -> string
}
