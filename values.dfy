/** The Python objects that flow through the pipeline: decoded JSON (None,
    booleans, numbers, strings, lists, dicts) plus `datetime` values, with the
    built-ins the pipeline applies to them: truthiness, `dict.get`, `or`,
    `str()`, `int()`, `float()`, iteration, and the text of the `TypeError`s
    the source lets its outer handlers catch. */
module PyValue {

  import opened Wrappers
  import opened Text

  datatype Value =
    | Null
    | Bool(b: bool)
    | Int(i: int)
    | Float(r: real)
    | Str(s: string)
    | List(items: seq<Value>)
    | Dict(fields: map<string, Value>)
      /** A `datetime.datetime`; `isoformat()` joins the parts with 'T', `str()` with a space. */
    | DateTime(date: string, time: string)

  /** A Python dict with string keys, such as an article or a storage row. */
  type Fields = map<string, Value>

  /** Python truthiness: `None`, `False`, zero, and empty strings, lists and
      dicts are false; everything else is true. */
  predicate Truthy(v: Value) {
    match v
    case Null => false
    case Bool(b) => b
    case Int(i) => i != 0
    case Float(r) => r != 0.0
    case Str(s) => s != ""
    case List(items) => items != []
    case Dict(fields) => fields != map[]
    case DateTime(_, _) => true
  }

  /** `d.get(key, default)` */
  function Get(d: Fields, key: string, default: Value): (v: Value)
    ensures key in d ==> v == d[key]
    ensures key !in d ==> v == default
  {
    if key in d then d[key] else default
  }

  /** Python's `a or b`: the first operand when it is truthy, else the second. */
  function Or(a: Value, b: Value): (v: Value)
    ensures Truthy(v) <==> Truthy(a) || Truthy(b)
    ensures Truthy(a) ==> v == a
    ensures !Truthy(a) ==> v == b
  {
    if Truthy(a) then a else b
  }

  /** `type(v).__name__` as it appears in CPython error messages. */
  function TypeName(v: Value): string {
    match v
    case Null => "NoneType"
    case Bool(_) => "bool"
    case Int(_) => "int"
    case Float(_) => "float"
    case Str(_) => "str"
    case List(_) => "list"
    case Dict(_) => "dict"
    case DateTime(_, _) => "datetime.datetime"
  }

  /** `v.isoformat()` for a datetime. */
  function IsoFormat(date: string, time: string): string {
    date + "T" + time
  }

  /** `str(v)`. Floats, lists and dicts are rendered by a fixed stand-in
      text; their Python `repr` is not part of this model. */
  function Render(v: Value): string {
    match v
    case Null => "None"
    case Bool(b) => if b then "True" else "False"
    case Int(i) => IntToString(i)
    case Float(_) => "<float>"
    case Str(s) => s
    case List(_) => "<list>"
    case Dict(_) => "<dict>"
    case DateTime(date, time) => date + " " + time
  }

  /** Conversion of a float to int: truncation toward zero. */
  function Truncate(r: real): (t: int)
    ensures r >= 0.0 ==> 0 <= t && t as real <= r < (t + 1) as real
    ensures r < 0.0 ==> t <= 0 && (t - 1) as real < r <= t as real
  {
    if r >= 0.0 then r.Floor else -((-r).Floor)
  }

  /** `int(v)`, with `None` standing for the exception it raises. */
  function ToInt(v: Value): Option<int> {
    match v
    case Bool(b) => Some(if b then 1 else 0)
    case Int(i) => Some(i)
    case Float(r) => Some(Truncate(r))
    case Str(s) => ParseInt(s)
    case _ => None
  }

  /** `float(v)`, with `None` standing for the exception it raises. */
  function ToFloat(v: Value): Option<real> {
    match v
    case Bool(b) => Some(if b then 1.0 else 0.0)
    case Int(i) => Some(i as real)
    case Float(r) => Some(r)
    case Str(s) => ParseFloat(s)
    case _ => None
  }

  /** `int(str(i)) == i` and `float(str(i)) == i` for every Python int. */
  lemma ConversionsOfRenderedInt(i: int)
    ensures ToInt(Str(Render(Int(i)))) == Some(i)
    ensures ToFloat(Str(Render(Int(i)))) == Some(i as real)
  {
    ParseIntRoundTrip(i);
    ParseFloatOfIntString(i);
  }

  /** The elements produced by `for x in v`, or `None` when `v` is not
      iterable. A string yields its one-character strings. A non-empty dict,
      which yields its keys in insertion order, is outside this model and is
      treated as not iterable. */
  function Elements(v: Value): (r: Option<seq<Value>>)
    ensures v.List? ==> r == Some(v.items)
    ensures v.Str? ==> r.Some? && |r.value| == |v.s|
    ensures v.Str? ==> forall k :: 0 <= k < |v.s| ==> r.value[k] == Str([v.s[k]])
    ensures v.Dict? ==> (r.Some? <==> v.fields == map[])
    ensures v.Dict? && r.Some? ==> r.value == []
    ensures !v.List? && !v.Str? && !v.Dict? ==> r.None?
  {
    match v
    case List(items) => Some(items)
    case Str(s) => Some(seq(|s|, k requires 0 <= k < |s| => Str([s[k]])))
    case Dict(fields) => if fields == map[] then Some([]) else None
    case _ => None
  }

  /** `str(e)` for the `TypeError` raised by `v[key] = x` with a string key. */
  function ItemAssignmentError(v: Value): string {
    match v
    case List(_) => "list indices must be integers or slices, not str"
    case _ => "'" + TypeName(v) + "' object does not support item assignment"
  }

  /** `str(e)` for the `TypeError` raised by `for x in v`. */
  function NotIterableError(v: Value): string {
    "'" + TypeName(v) + "' object is not iterable"
  }

  /** `v[:stop]`: the first `stop` characters of a string or elements of a
      list, or the text of the `TypeError` any other value raises. */
  function SlicePrefix(v: Value, stop: nat): (r: Outcome<Value>)
    ensures r.Ok? <==> v.Str? || v.List?
    ensures v.Str? ==> r.value.Str? && r.value.s <= v.s && |r.value.s| == (if |v.s| <= stop then |v.s| else stop)
    ensures v.List? ==> r.value.List? && r.value.items <= v.items && |r.value.items| == (if |v.items| <= stop then |v.items| else stop)
  {
    match v
    case Str(s) => Ok(Str(if |s| <= stop then s else s[..stop]))
    case List(items) => Ok(List(if |items| <= stop then items else items[..stop]))
    case Dict(_) => Err("unhashable type: 'slice'")
    case _ => Err("'" + TypeName(v) + "' object is not subscriptable")
  }

  /** `len(v)`: the characters of a string, the elements of a list or the
      keys of a dict, or the text of the `TypeError` any other value raises. */
  function Length(v: Value): Outcome<nat> {
    match v
    case Str(s) => Ok(|s|)
    case List(items) => Ok(|items|)
    case Dict(fields) => Ok(|fields|)
    case _ => Err("object of type '" + TypeName(v) + "' has no len()")
  }

  /** `f"{title} {summary}".strip()` for an article, a missing field reading
      as "": the text that is compared for duplicates and embedded. */
  function TitleSummaryText(article: Fields): string {
    Strip(Render(Get(article, "title", Str(""))) + " " + Render(Get(article, "summary", Str(""))))
  }

  /** A list of floats, as the embedding provider returns it. */
  function FloatList(xs: seq<real>): (v: Value)
    ensures v.List? && |v.items| == |xs|
    ensures forall k :: 0 <= k < |xs| ==> v.items[k] == Float(xs[k])
  {
    List(seq(|xs|, k requires 0 <= k < |xs| => Float(xs[k])))
  }

  /** A list of strings. */
  function StrList(xs: seq<string>): (v: Value)
    ensures v.List? && |v.items| == |xs|
    ensures forall k :: 0 <= k < |xs| ==> v.items[k] == Str(xs[k])
  {
    List(seq(|xs|, k requires 0 <= k < |xs| => Str(xs[k])))
  }
}
