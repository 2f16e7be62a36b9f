/** The fetched document as `json.loads` hands it to the aggregator: a tree of
    scalars, lists and dictionaries. */
module JsonTree {

  /** Numbers are integers here; only their truthiness matters to the report. */
  datatype Json =
    | JNull
    | JBool(b: bool)
    | JNum(n: int)
    | JStr(s: string)
    | JArr(items: seq<Json>)
    | JObj(fields: map<string, Json>)

  /** Python truthiness: `if name:` (linter.py:63). */
  predicate Truthy(v: Json) {
    match v
    case JNull => false
    case JBool(b) => b
    case JNum(n) => n != 0
    case JStr(s) => s != ""
    case JArr(items) => items != []
    case JObj(fields) => fields != map[]
  }

  /** The Python type of a scalar node, which the `TypeError` raised when it is
      indexed names. */
  datatype ScalarKind = NoneKind | BoolKind | IntKind | StrKind

  predicate IsContainer(v: Json) {
    v.JArr? || v.JObj?
  }

  function KindOf(v: Json): ScalarKind
    requires !IsContainer(v)
  {
    match v
    case JNull => NoneKind
    case JBool(_) => BoolKind
    case JNum(_) => IntKind
    case JStr(_) => StrKind
  }
}
