/** JSON values as the server sees them after `express.json()` / `JSON.parse`,
    with the JavaScript operations the handler applies to them: truthiness,
    property reads, `||`, and conversion to a string in a template literal. */
module JsonValues {
  import opened Wrappers
  import Text

  /** A JSON value. Numbers are restricted to integers. */
  datatype Json =
    | JNull
    | JBool(b: bool)
    | JNum(n: int)
    | JStr(s: string)
    | JArr(items: seq<Json>)
    | JObj(fields: map<string, Json>)

  /** JavaScript truthiness: `null`, `false`, `0` and `""` are falsy;
      arrays and objects are always truthy. */
  predicate Truthy(v: Json) {
    match v
    case JNull => false
    case JBool(b) => b
    case JNum(n) => n != 0
    case JStr(s) => s != ""
    case JArr(_) => true
    case JObj(_) => true
  }

  /** Exactly four JSON values are falsy. */
  lemma FalsyValues(v: Json)
    ensures !Truthy(v) <==> v == JNull || v == JBool(false) || v == JNum(0) || v == JStr("")
  {
  }

  /** Truthiness of a value that may be `undefined` (`None`). */
  predicate Present(o: Option<Json>) {
    o.Some? && Truthy(o.value)
  }

  /** Reading property `key` of `v` (`v.key`, `v?.key`): only objects carry
      the property names this program reads; on any other value the read
      gives `undefined`. */
  function Get(v: Json, key: string): Option<Json>
  {
    if v.JObj? && key in v.fields then Some(v.fields[key]) else None
  }

  /** `a || b`: the left operand when it is truthy, the right one otherwise. */
  function Or(a: Option<Json>, b: Json): (r: Json)
    ensures Present(a) ==> r == a.value
    ensures !Present(a) ==> r == b
    ensures Truthy(r) <==> Present(a) || Truthy(b)
  {
    if Present(a) then a.value else b
  }

  const ObjectText := "[object Object]"

  /** The text of one array element inside `Array.prototype.join`: `null`
      becomes the empty string. */
  function ElementText(v: Json): Option<string>
    decreases v, 1
  {
    if v.JNull? then Some("") else ToText(v)
  }

  /** JavaScript `String(v)` as a template literal applies it; `None` when the
      conversion throws a `TypeError`. An object with an own `toString`
      property (never callable in JSON) has no usable conversion:
      `Object.prototype.valueOf` then returns the object itself, which is not
      a primitive. Arrays join their elements' texts with commas. */
  function ToText(v: Json): (r: Option<string>)
    ensures r.None? ==> v.JObj? || v.JArr?
    ensures v.JNull? ==> r == Some("null")
    ensures v.JBool? ==> r == Some(if v.b then "true" else "false")
    ensures v.JNum? ==> r == Some(Text.IntToString(v.n))
    ensures v.JStr? ==> r == Some(v.s)
    ensures v.JObj? ==> (r.None? <==> "toString" in v.fields)
    ensures v.JObj? && r.Some? ==> r.value == ObjectText
    ensures v.JArr? ==> (r.None? <==> exists i :: 0 <= i < |v.items| && ElementText(v.items[i]).None?)
    decreases v, 0
  {
    match v
    case JNull => Some("null")
    case JBool(b) => Some(if b then "true" else "false")
    case JNum(n) => Some(Text.IntToString(n))
    case JStr(s) => Some(s)
    case JObj(fields) => if "toString" in fields then None else Some(ObjectText)
    case JArr(items) =>
      if forall i :: 0 <= i < |items| ==> ElementText(items[i]).Some? then
        Some(Text.Join(seq(|items|, i requires 0 <= i < |items| && ElementText(items[i]).Some? =>
                                      ElementText(items[i]).value), ","))
      else None
  }

  /** An array of strings becomes its strings joined with commas, as when a
      list of skills is interpolated into the mock email. */
  lemma StringArrayText(items: seq<Json>)
    requires forall i :: 0 <= i < |items| ==> items[i].JStr?
    ensures ToText(JArr(items)) == Some(Text.Join(seq(|items|, i requires 0 <= i < |items| => items[i].s), ","))
  {
    assert forall i :: 0 <= i < |items| ==> ElementText(items[i]) == Some(items[i].s);
    assert seq(|items|, i requires 0 <= i < |items| && ElementText(items[i]).Some? => ElementText(items[i]).value)
        == seq(|items|, i requires 0 <= i < |items| => items[i].s);
  }

  /** `${["Python", "ML"]}` is `"Python,ML"`. */
  lemma SkillListText()
    ensures ToText(JArr([JStr("Python"), JStr("ML")])) == Some("Python,ML")
  {
    var items := [JStr("Python"), JStr("ML")];
    StringArrayText(items);
    var names := ["Python", "ML"];
    assert seq(|items|, i requires 0 <= i < |items| => items[i].s) == names;
    assert names[1..] == ["ML"];
    assert Text.Join(names, ",") == "Python" + "," + "ML" == "Python,ML";
  }
}
