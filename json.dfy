/** The untyped JSON tree that json.loads (and yaml.safe_load, for the shapes used here) hands to
  * the control plane, with Python's truthiness, dict.get and str() on it. */
module Json {
  import opened Text

  /** A JSON number that Python reads as a float; `Infinity`, `-Infinity`, `NaN` and out-of-range
    * literals such as 1e400 are accepted by json.loads and give the non-finite values. */
  datatype Float = Finite(r: real) | PosInf | NegInf | NaN

  datatype Json =
    | JNull
    | JBool(b: bool)
    | JInt(i: int)
    | JFloat(f: Float)
    | JStr(s: string)
    | JArray(items: seq<Json>)
    | JObject(fields: map<string, Json>)

  /** bool(value). */
  predicate Truthy(v: Json) {
    match v
    case JNull => false
    case JBool(b) => b
    case JInt(i) => i != 0
    case JFloat(f) => !(f.Finite? && f.r == 0.0)
    case JStr(s) => s != []
    case JArray(items) => items != []
    case JObject(fields) => fields != map[]
  }

  /** dict.get(key): the stored value, or None (JSON null) when the key is absent. */
  function Get(obj: map<string, Json>, key: string): (v: Json)
    ensures key !in obj ==> v == JNull
  {
    if key in obj then obj[key] else JNull
  }

  /** The dict inside a value, or {} for anything that is not a dict (`if not isinstance(x, dict): x = {}`). */
  function ObjectOr(v: Json): (m: map<string, Json>)
    ensures !v.JObject? ==> m == map[]
    ensures v.JObject? ==> m == v.fields
  {
    if v.JObject? then v.fields else map[]
  }

  /** str(value). Python's repr of finite floats, lists and dicts is not modelled: such values
    * render as the fixed text "<repr>". */
  function Str(v: Json): string {
    match v
    case JNull => "None"
    case JBool(b) => if b then "True" else "False"
    case JInt(i) => IntToString(i)
    case JFloat(f) => FloatStr(f)
    case JStr(s) => s
    case JArray(_) => "<repr>"
    case JObject(_) => "<repr>"
  }

  /** str(float): Python's repr of a finite float is not modelled; it renders as "<repr>". */
  function FloatStr(f: Float): string {
    match f
    case PosInf => "inf"
    case NegInf => "-inf"
    case NaN => "nan"
    case Finite(_) => "<repr>"
  }

  /** str(value or default): the default when the value is falsy, else its text. */
  function StrOr(v: Json, default: string): (r: string)
    ensures !Truthy(v) ==> r == default
    ensures Truthy(v) ==> r == Str(v)
    ensures v.JStr? && v.s != [] ==> r == v.s
  {
    if Truthy(v) then Str(v) else default
  }
}
