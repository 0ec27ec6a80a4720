/** Python values and rows, as a pyarrow table hands them out with to_pylist(). */
module Rows {

  /** Column names: `_group`, `_pack`, `_index` and `response`, which the code knows, and any other. */
  datatype Column = GROUP | PACK | INDEX | RESPONSE | Other(name: string)

  datatype Value =
    | Null
    | Int(n: int)
    | Str(s: string)
    | List(items: seq<Value>)
    | Dict(fields: map<Column, Value>)

  type Row = map<Column, Value>
}
