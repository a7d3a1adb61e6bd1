/**
 * The parsed JSON document the quiz loads, reduced to the kinds of value the
 * loader distinguishes: null (which also stands for an absent property), a
 * string, an array and an object.
 */
module Json {

  datatype Value =
    | Null
    | Str(s: string)
    | Arr(items: seq<Value>)
    | Obj(fields: map<string, Value>)

  /** Property access `v.key`: an own field of an object, and undefined (Null) otherwise. */
  function Get(v: Value, key: string): (r: Value)
    ensures !v.Obj? ==> r == Null
    ensures v.Obj? && key !in v.fields ==> r == Null
    ensures v.Obj? && key in v.fields ==> r == v.fields[key]
  {
    if v.Obj? && key in v.fields then v.fields[key] else Null
  }

  /** `v && typeof v === "object"`: null is falsy, so only arrays and objects pass. */
  predicate IsObjectLike(v: Value)
  {
    v.Arr? || v.Obj?
  }

  /**
   * `String(v)`: strings are kept, null prints as "null", a plain object as
   * "[object Object]", and an array is the comma-joined list of its elements,
   * where a null element contributes the empty string.
   */
  function ToText(v: Value): (r: string)
    ensures v.Str? ==> r == v.s
    ensures v.Arr? && v.items == [] ==> r == ""
  {
    match v
    case Null => "null"
    case Str(s) => s
    case Obj(_) => "[object Object]"
    case Arr(items) => JoinTexts(items)
  }

  /** Array.prototype.join(",") over the elements' texts. */
  function JoinTexts(items: seq<Value>): string
    decreases items
  {
    if items == [] then ""
    else
      var head := if items[0].Null? then "" else ToText(items[0]);
      if |items| == 1 then head else head + "," + JoinTexts(items[1..])
  }
}
