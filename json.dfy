/**
 * JSON values as the proxy sees them after `JSON.parse` or in a request
 * body, with the two JavaScript notions the code leans on: truthiness (the
 * `a || b` and `if (x)` tests) and `String(x)` conversion. A missing
 * property reads as `JNull`: the code never tells `undefined` from `null`
 * apart except where noted.
 */
module JsonValues {
  import opened Util

  datatype Json =
    | JNull
    | JBool(b: bool)
    | JNum(n: int)
    | JStr(s: string)
    | JArr(items: seq<Json>)
    | JObj(fields: map<string, Json>)

  /** JavaScript truthiness: `null`, `false`, `0` and `""` are falsy, every
   *  array and object is truthy. */
  predicate Truthy(j: Json) {
    match j
    case JNull => false
    case JBool(b) => b
    case JNum(n) => n != 0
    case JStr(s) => s != []
    case JArr(_) => true
    case JObj(_) => true
  }

  /** `j.key`: the property of an object, `JNull` when absent or when `j` is
   *  not an object. */
  function Get(j: Json, key: string): (r: Json)
    ensures !j.JObj? ==> r == JNull
  {
    if j.JObj? && key in j.fields then j.fields[key] else JNull
  }

  /** `j[0]` on an array, `JNull` otherwise. */
  function First(j: Json): (r: Json)
    ensures j.JArr? && j.items != [] ==> r == j.items[0]
  {
    if j.JArr? && j.items != [] then j.items[0] else JNull
  }

  /** The value of a chain `a || b || …`: the first truthy candidate, or the
   *  last one when none is truthy (`JNull` for an empty chain). */
  function FirstTruthy(cands: seq<Json>): Json {
    if cands == [] then JNull
    else if Truthy(cands[0]) || |cands| == 1 then cands[0]
    else FirstTruthy(cands[1..])
  }

  /** The chain is truthy exactly when some candidate is, its value is then
   *  one of them, and otherwise it is the last one. */
  lemma {:induction false} FirstTruthySpec(cands: seq<Json>)
    ensures Truthy(FirstTruthy(cands)) <==> exists k :: 0 <= k < |cands| && Truthy(cands[k])
    ensures Truthy(FirstTruthy(cands)) ==> FirstTruthy(cands) in cands
    ensures !Truthy(FirstTruthy(cands)) && cands != [] ==> FirstTruthy(cands) == cands[|cands| - 1]
  {
    if cands != [] && !Truthy(cands[0]) && |cands| > 1 {
      FirstTruthySpec(cands[1..]);
      assert forall k :: 1 <= k < |cands| ==> cands[k] == cands[1..][k - 1];
    }
  }

  /** A chain ending in a truthy default is truthy. */
  lemma FirstTruthyDefault(cands: seq<Json>)
    requires cands != [] && Truthy(cands[|cands| - 1])
    ensures Truthy(FirstTruthy(cands))
  {
    FirstTruthySpec(cands);
  }

  /** First match wins: the value is the truthy candidate with the smallest
   *  index. */
  lemma {:induction false} FirstTruthyIsFirst(cands: seq<Json>, k: nat)
    requires k < |cands| && Truthy(cands[k])
    requires forall j :: 0 <= j < k ==> !Truthy(cands[j])
    ensures FirstTruthy(cands) == cands[k]
  {
    if k > 0 {
      FirstTruthyIsFirst(cands[1..], k - 1);
    }
  }

  /** `String(j)` / string concatenation of a value. */
  function JsText(j: Json): string
    decreases j, 1
  {
    match j
    case JNull => "null"
    case JBool(b) => if b then "true" else "false"
    case JNum(n) => IntToString(n)
    case JStr(s) => s
    case JArr(items) => JoinItems(j, 0)
    case JObj(_) => "[object Object]"
  }

  /** `Array.prototype.join(',')` from position `from`, as used by `String`
   *  on arrays: `null` elements print as the empty string. */
  function JoinItems(arr: Json, from: nat): string
    requires arr.JArr?
    decreases arr, 0, |arr.items| - from
  {
    if from >= |arr.items| then []
    else
      var item := arr.items[from];
      var head := if item.JNull? then [] else JsText(item);
      if from + 1 == |arr.items| then head else head + "," + JoinItems(arr, from + 1)
  }

  function IntToString(n: int): string {
    if n < 0 then "-" + NatToString(-n) else NatToString(n)
  }

  /** `Number(j)`: integers stay as they are, booleans give 1 / 0, `null`
   *  gives 0, a string its decimal value (see StringToNumber), an empty
   *  array 0 and a one-element array the number of its text; anything else
   *  is `NaN`, written `None`. */
  function ToNumber(j: Json): Option<int> {
    match j
    case JNull => Some(0)
    case JBool(b) => Some(if b then 1 else 0)
    case JNum(n) => Some(n)
    case JStr(s) => StringToNumber(s)
    case JArr(items) =>
      if items == [] then Some(0)
      else if |items| == 1 then StringToNumber(if items[0].JNull? then [] else JsText(items[0]))
      else None
    case JObj(_) => None
  }

  /** `Number(s)` for strings: blank gives 0, a run of decimal digits
   *  (after trimming) its value, anything else `NaN`. */
  function StringToNumber(s: string): Option<int> {
    var t := Trim(s);
    if t == [] then Some(0)
    else if AllDigits(t) then Some(ParseDecimal(t))
    else None
  }

  predicate AllDigits(s: string) {
    forall k :: 0 <= k < |s| ==> '0' <= s[k] <= '9'
  }
}
