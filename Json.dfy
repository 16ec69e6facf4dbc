/** JSON values as the backend and the browser code receive them, and the two
    truthiness rules the code applies to them (Python's and JavaScript's differ
    on empty lists and objects). */
module JsonData {

  datatype Json =
    | JNull
    | JBool(b: bool)
    | JNum(n: int)
    | JStr(s: string)
    | JArr(items: seq<Json>)
    | JObj(fields: map<string, Json>)

  /** bool(x) in Python: None, False, 0, "", [] and {} are false. */
  predicate PyTruthy(j: Json) {
    match j
    case JNull => false
    case JBool(b) => b
    case JNum(n) => n != 0
    case JStr(s) => s != ""
    case JArr(items) => |items| > 0
    case JObj(fields) => |fields| > 0
  }

  /** Boolean(x) in JavaScript: null, false, 0 and "" are false; every array and object is true. */
  predicate JsTruthy(j: Json) {
    match j
    case JNull => false
    case JBool(b) => b
    case JNum(n) => n != 0
    case JStr(s) => s != ""
    case JArr(_) => true
    case JObj(_) => true
  }

  lemma PyTruthyImpliesJsTruthy(j: Json)
    ensures PyTruthy(j) ==> JsTruthy(j)
  {
  }

  const EmptyObject: Json := JObj(map[])
  const EmptyArray: Json := JArr([])

  /** `x or y` in Python. */
  function PyOr(x: Json, y: Json): (r: Json)
    ensures PyTruthy(x) ==> r == x
    ensures !PyTruthy(x) ==> r == y
  {
    if PyTruthy(x) then x else y
  }

  predicate IsStr(j: Json) { j.JStr? }
  predicate IsList(j: Json) { j.JArr? }
  predicate IsDict(j: Json) { j.JObj? }
}
