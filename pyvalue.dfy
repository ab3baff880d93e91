/**
  Python values as they appear in the analyzers' result dictionaries and in
  parsed language-model replies (what `json.loads` can produce, plus the
  `datetime` objects the ai_engine analyzer stores), with the few built-in
  operations the validators apply to them: truthiness, `dict.get`, `float()`
  and slicing.
*/
module PyValue {
  import opened Base
  import opened Text
  import opened Calendar
  import opened Strptime

  datatype Value =
    | Null
    | Bool(b: bool)
    | Num(x: real)
    | Str(s: string)
    | List(items: seq<Value>)
    | Dict(fields: map<string, Value>)
    | Time(t: Stamp)

  /** Python truthiness: None, False, zero and empty containers are false. */
  predicate Truthy(v: Value) {
    match v
    case Null => false
    case Bool(b) => b
    case Num(x) => x != 0.0
    case Str(s) => s != []
    case List(items) => items != []
    case Dict(fields) => |fields| > 0
    case Time(_) => true
  }

  /** `d.get(key, default)`. */
  function Get(d: map<string, Value>, key: string, default: Value): Value {
    if key in d then d[key] else default
  }

  function Pow10(n: nat): (r: nat)
    ensures r >= 1
  {
    if n == 0 then 1 else 10 * Pow10(n - 1)
  }

  predicate AllDigits(s: string) {
    forall i :: 0 <= i < |s| ==> IsDigit(s[i])
  }

  /** Digits with at most one decimal point and at least one digit. */
  function ParseUnsigned(s: string): (r: Option<real>)
    ensures r.Some? ==> r.value >= 0.0
  {
    var k := IndexOfChar(s, '.');
    var whole := s[..k];
    var frac := if k < |s| then s[k + 1..] else "";
    if AllDigits(whole) && AllDigits(frac) && |whole| + |frac| > 0
    then Some(DigitsValue(whole) as real + DigitsValue(frac) as real / Pow10(|frac|) as real)
    else None
  }

  /** `float(text)` for a plain decimal with an optional sign and surrounding whitespace. */
  function ParseDecimal(text: string): Option<real> {
    var s := Strip(text);
    if s != [] && (s[0] == '+' || s[0] == '-') then
      match ParseUnsigned(s[1..])
      case None => None
      case Some(x) => Some(if s[0] == '-' then -x else x)
    else ParseUnsigned(s)
  }

  /** `float(v)`; None stands for the TypeError or ValueError it raises. */
  function FloatOf(v: Value): (r: Option<real>)
    ensures v.Num? ==> r == Some(v.x)
    ensures v.Null? || v.List? || v.Dict? || v.Time? ==> r.None?
  {
    match v
    case Num(x) => Some(x)
    case Bool(b) => Some(if b then 1.0 else 0.0)
    case Str(s) => ParseDecimal(s)
    case _ => None
  }

  /** `max(1.0, min(10.0, x))`, the priority clamp both model-reply paths apply. */
  function ClampScore(x: real): (r: real)
    ensures 1.0 <= r <= 10.0
    ensures 1.0 <= x <= 10.0 ==> r == x
    ensures x > 10.0 ==> r == 10.0
    ensures x < 1.0 ==> r == 1.0
  {
    if x > 10.0 then 10.0 else if x < 1.0 then 1.0 else x
  }

  /** `v[:n]`: strings and lists are cut to n items; other kinds raise TypeError (None). */
  function SliceValue(v: Value, n: nat): (r: Option<Value>)
    ensures r.Some? <==> v.Str? || v.List?
    ensures v.Str? ==> r.Some? && r.value.Str? && |r.value.s| == (if |v.s| < n then |v.s| else n)
                       && r.value.s == v.s[..|r.value.s|]
    ensures v.List? ==> r.Some? && r.value.List? && |r.value.items| == (if |v.items| < n then |v.items| else n)
                        && r.value.items == v.items[..|r.value.items|]
  {
    match v
    case Str(s) => Some(Str(Take(s, n)))
    case List(items) => Some(List(Take(items, n)))
    case _ => None
  }

  /** A list of strings as a Python value. */
  function Strings(xs: seq<string>): (r: Value)
    ensures r.List? && |r.items| == |xs|
    ensures forall i :: 0 <= i < |xs| ==> r.items[i] == Str(xs[i])
  {
    List(seq(|xs|, i requires 0 <= i < |xs| => Str(xs[i])))
  }

  /** An optional string as a Python value. */
  function OptStr(o: Option<string>): Value {
    match o
    case None => Null
    case Some(s) => Str(s)
  }

  /**
    The nine-field result dictionary the model-backed analyzers return and
    their fallbacks imitate, one field per key.
  */
  datatype Record = Record(
    title: Value,
    category: Value,
    deadline: Value,
    requirements: Value,
    contactInfo: Value,
    priorityScore: real,
    compensation: Value,
    location: Value,
    summary: Value)

  const RecordKeys: set<string> :=
    {"title", "category", "deadline", "requirements", "contact_info", "priority_score", "compensation", "location", "summary"}

  /** The record as the dictionary it is in Python. */
  function AsDict(v: Record): (d: map<string, Value>)
    ensures d.Keys == RecordKeys
    ensures d["title"] == v.title && d["category"] == v.category && d["deadline"] == v.deadline
    ensures d["requirements"] == v.requirements && d["contact_info"] == v.contactInfo
    ensures d["priority_score"] == Num(v.priorityScore) && d["compensation"] == v.compensation
    ensures d["location"] == v.location && d["summary"] == v.summary
  {
    map["title" := v.title, "category" := v.category, "deadline" := v.deadline,
        "requirements" := v.requirements, "contact_info" := v.contactInfo,
        "priority_score" := Num(v.priorityScore), "compensation" := v.compensation,
        "location" := v.location, "summary" := v.summary]
  }
}
