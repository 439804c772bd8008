/** The values a parsed JSON request body can hold in a field, with the two
    JavaScript conversions the handlers apply to them: truthiness (`!x`) and
    `parseInt(x)`. */
module JsValues {
  import opened Wrappers
  import opened Text

  /** A field value. `Undefined` is an absent key; numbers carry integer
      values; `Object` is any non-array object, whose own keys play no part
      in the two conversions. */
  datatype JsValue =
    | Undefined | Null | Bool(b: bool) | Number(n: int) | Str(s: string)
    | Array(elems: seq<JsValue>) | Object

  /** The fields of a request body, keyed by name. */
  type Fields = map<string, JsValue>

  /** Reading `body.key`: a missing key reads as `undefined`. */
  function Field(fields: Fields, key: string): (v: JsValue)
    ensures key !in fields ==> v == Undefined
    ensures key in fields ==> v == fields[key]
  {
    if key in fields then fields[key] else Undefined
  }

  /** Reading a field sees what was last written under that key and nothing
      written under any other; an empty body has every field `undefined`. */
  lemma FieldOfUpdate(fields: Fields, key: string, other: string, v: JsValue)
    ensures Field(fields[key := v], key) == v
    ensures other != key ==> Field(fields[key := v], other) == Field(fields, other)
    ensures Field(map[], key) == Undefined
  {
  }

  /** JavaScript truthiness: `undefined`, `null`, `false`, `0` and `""` are
      falsy, everything else is truthy. */
  predicate Truthy(v: JsValue) {
    match v
    case Undefined => false
    case Null => false
    case Bool(b) => b
    case Number(n) => n != 0
    case Str(s) => s != ""
    case Array(_) => true
    case Object => true
  }

  /** `String(v)`: an array is its elements' strings joined by `,`, with
      `undefined` and `null` elements written as nothing; any other object is
      `[object Object]`. */
  function ToJsString(v: JsValue): string
    decreases v, 1
  {
    match v
    case Undefined => "undefined"
    case Null => "null"
    case Bool(b) => if b then "true" else "false"
    case Number(n) => IntToString(n)
    case Str(s) => s
    case Array(es) => ArrayString(es, v)
    case Object => "[object Object]"
  }

  /** How `Array.prototype.join` writes one element. */
  function ElementString(e: JsValue): string
    decreases e, 2
  {
    if e.Undefined? || e.Null? then "" else ToJsString(e)
  }

  /** `es.join(",")`; `owner` is the array the elements belong to. */
  function ArrayString(es: seq<JsValue>, ghost owner: JsValue): string
    requires forall i :: 0 <= i < |es| ==> es[i] < owner
    decreases owner, 0, |es|
  {
    if |es| == 0 then ""
    else if |es| == 1 then ElementString(es[0])
    else ElementString(es[0]) + "," + ArrayString(es[1..], owner)
  }

  /** `parseInt(v)`: the value is converted to a string first; `None` is `NaN`. */
  function ParseIntValue(v: JsValue): Option<int> {
    ParseInt(ToJsString(v))
  }

  /** A string that starts with neither whitespace, a sign nor a digit parses
      to `NaN`. */
  lemma ParseIntOfWord(s: string)
    requires |s| > 0 && !IsJsSpace(s[0]) && s[0] != '-' && s[0] != '+' && !IsAsciiDigit(s[0])
    ensures ParseInt(s) == None
  {
    TrimStartUnchanged(s);
    assert DigitValue(s[0], 10).None?;
  }

  /** A number survives `parseInt` unchanged, and so does its decimal string;
      an array reads as the number its first element starts with, so `[5]`
      and `[5, 6]` both give 5; `undefined`, `null`, booleans, plain objects
      and the empty array become `NaN`. */
  lemma ParseIntValueCases(v: JsValue)
    ensures v.Number? ==> ParseIntValue(v) == Some(v.n)
    ensures forall n :: v == Str(IntToString(n)) ==> ParseIntValue(v) == Some(n)
    ensures v.Array? && |v.elems| > 0 && v.elems[0].Number? ==> ParseIntValue(v) == Some(v.elems[0].n)
    ensures v.Undefined? || v.Null? || v.Bool? || v.Object? || v == Array([]) ==> ParseIntValue(v) == None
  {
    match v
    case Number(n) =>
      ParseIntOfIntToString(n);
    case Str(s) =>
      forall n | v == Str(IntToString(n)) ensures ParseIntValue(v) == Some(n) {
        ParseIntOfIntToString(n);
      }
    case Array(es) =>
      if |es| == 0 {
        EmptyArrayIsNaN(v);
      } else if es[0].Number? {
        ArrayOfNumberFirst(v, es[0].n);
      }
    case _ =>
      WordValueIsNaN(v);
  }

  lemma WordValueIsNaN(v: JsValue)
    requires v.Undefined? || v.Null? || v.Bool? || v.Object?
    ensures ParseIntValue(v) == None
  {
    var s := ToJsString(v);
    assert s[0] in "unft[";
    ParseIntOfWord(s);
  }

  lemma EmptyArrayIsNaN(v: JsValue)
    requires v == Array([])
    ensures ParseIntValue(v) == None
  {
    assert ToJsString(v) == "";
    assert TrimStart("") == "";
    assert DigitPrefix("", 10) == "";
  }

  /** The string of an array whose first element is the number `n` is `n`'s
      decimal rendering, then nothing or a comma. */
  lemma ArrayOfNumberFirst(v: JsValue, n: int)
    requires v.Array? && |v.elems| > 0 && v.elems[0] == Number(n)
    ensures ParseIntValue(v) == Some(n)
  {
    var es := v.elems;
    var head := IntToString(n);
    assert ElementString(es[0]) == head;
    var rest := if |es| == 1 then "" else "," + ArrayString(es[1..], v);
    assert ToJsString(v) == ArrayString(es, v);
    if |es| == 1 {
      assert ArrayString(es, v) == head + rest;
    } else {
      assert ArrayString(es, v) == head + "," + ArrayString(es[1..], v);
      assert head + "," + ArrayString(es[1..], v) == head + rest;
    }
    assert DigitValue(',', 10).None?;
    ParseIntOfIntToStringThen(n, rest);
  }
}
