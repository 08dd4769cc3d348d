/** The value `json.loads` produces, and the Python operations the core
    applies to it: truthiness, the `in` test, subscripting with a string key,
    `dict.get`, and `str()` inside an f-string. Parsing itself is abstract:
    modules receive it as a function `string -> Result<Json>` (`Raised`
    meaning that `json.loads` raised, with the exception's text). */
module PyJson {
  import opened Wrappers
  import opened PyText

  /** A parsed JSON document. Objects keep their members in document order. */
  datatype Json =
    | JNull
    | JBool(b: bool)
    | JNum(n: int)
    | JStr(s: string)
    | JArr(items: seq<Json>)
    | JObj(members: seq<Member>)

  datatype Member = Member(key: string, value: Json)

  /** `bool(v)` */
  predicate Truthy(v: Json) {
    match v
    case JNull => false
    case JBool(b) => b
    case JNum(n) => n != 0
    case JStr(s) => s != []
    case JArr(xs) => xs != []
    case JObj(ms) => ms != []
  }

  predicate HasKey(ms: seq<Member>, key: string) {
    exists i :: 0 <= i < |ms| && ms[i].key == key
  }

  /** The value bound to `key`; with a repeated key the last binding wins,
      as it does in `json.loads`. */
  function Lookup(ms: seq<Member>, key: string): (r: Option<Json>)
    ensures r.None? <==> !HasKey(ms, key)
    ensures r.Some? ==> exists i :: 0 <= i < |ms| && ms[i] == Member(key, r.value)
  {
    if ms == [] then None
    else if ms[|ms| - 1].key == key then Some(ms[|ms| - 1].value)
    else
      var r := Lookup(ms[..|ms| - 1], key);
      assert forall i :: 0 <= i < |ms| - 1 ==> ms[..|ms| - 1][i] == ms[i];
      r
  }

  /** `key in v` for a string `key`: key membership for a dict, element
      equality for a list, the substring test for a string; `None` when
      Python raises `TypeError` (numbers, booleans, `None`). */
  function In(key: string, v: Json): (r: Option<bool>)
    ensures v.JObj? ==> r == Some(HasKey(v.members, key))
    ensures r.None? <==> (v.JNull? || v.JBool? || v.JNum?)
  {
    match v
    case JObj(ms) => Some(HasKey(ms, key))
    case JArr(xs) => Some(JStr(key) in xs)
    case JStr(s) => Some(Contains(s, key))
    case _ => None
  }

  /** `v[key]` for a string `key`: `None` when Python raises (a missing key,
      or a value that is not a dict). */
  function Index(v: Json, key: string): (r: Option<Json>)
    ensures r.Some? <==> v.JObj? && HasKey(v.members, key)
  {
    if v.JObj? then Lookup(v.members, key) else None
  }

  /** Python's name for the type of `v`, as error messages print it. */
  function TypeName(v: Json): string {
    match v
    case JNull => "NoneType"
    case JBool(_) => "bool"
    case JNum(_) => "int"
    case JStr(_) => "str"
    case JArr(_) => "list"
    case JObj(_) => "dict"
  }

  /** The `AttributeError` text for a method call on a value without it. */
  function NoAttribute(v: Json, name: string): string {
    "'" + TypeName(v) + "' object has no attribute '" + name + "'"
  }

  /** `v[key]` for a string `key`, with the text of the exception Python
      raises when it fails: the quoted key for a missing dict key
      (`KeyError`), and the `TypeError` texts for the other types. */
  function Subscript(v: Json, key: string): (r: Result<Json>)
    ensures r.Success? <==> Index(v, key).Some?
    ensures r.Success? ==> r.value == Index(v, key).value
    ensures v.JObj? && r.Raised? ==> r.message == "'" + key + "'"
  {
    match v
    case JObj(ms) =>
      (match Lookup(ms, key)
       case Some(x) => Success(x)
       case None => Raised("'" + key + "'"))
    case JStr(_) => Raised("string indices must be integers, not 'str'")
    case JArr(_) => Raised("list indices must be integers or slices, not str")
    case _ => Raised("'" + TypeName(v) + "' object is not subscriptable")
  }

  /** What `for x in v` runs through: a list's items, a dict's keys, a
      string's one-character strings; it raises for the other types. */
  function Iterate(v: Json): (r: Result<seq<Json>>)
    ensures v.JArr? ==> r == Success(v.items)
    ensures r.Raised? <==> v.JNull? || v.JBool? || v.JNum?
    ensures r.Success? && (v.JObj? || v.JStr?) ==> forall x :: x in r.value ==> x.JStr?
  {
    match v
    case JArr(xs) => Success(xs)
    case JObj(ms) => Success(seq(|ms|, i requires 0 <= i < |ms| => JStr(ms[i].key)))
    case JStr(s) => Success(seq(|s|, i requires 0 <= i < |s| => JStr([s[i]])))
    case _ => Raised("'" + TypeName(v) + "' object is not iterable")
  }

  /** `v.get(key, default)`: `None` when `v` is not a dict (Python raises
      `AttributeError`); a present key gives its value even when it is null. */
  function Get(v: Json, key: string, default: Json): (r: Option<Json>)
    ensures r.Some? <==> v.JObj?
    ensures v.JObj? && !HasKey(v.members, key) ==> r == Some(default)
    ensures v.JObj? && HasKey(v.members, key) ==> r == Lookup(v.members, key)
  {
    if v.JObj? then Some(Lookup(v.members, key).GetOr(default)) else None
  }

  /** `str(v)` as an f-string renders it. Strings, integers, booleans and null
      are exact; inside lists and dicts strings are quoted with `'` and not
      escaped. */
  function Format(v: Json): string
    decreases v, 1
  {
    match v
    case JStr(s) => s
    case _ => Repr(v)
  }

  /** `repr(v)`, with strings quoted but not escaped. */
  function Repr(v: Json): string
    decreases v, 0
  {
    match v
    case JNull => "None"
    case JBool(b) => if b then "True" else "False"
    case JNum(n) => IntToString(n)
    case JStr(s) => "'" + s + "'"
    case JArr(xs) => "[" + ReprItems(v, xs) + "]"
    case JObj(ms) => "{" + ReprMembers(v, ms) + "}"
  }

  function ReprItems(ghost parent: Json, xs: seq<Json>): string
    requires forall x :: x in xs ==> x < parent
    decreases parent, 0, |xs|
  {
    if xs == [] then ""
    else
      assert xs[0] in xs;
      assert forall x :: x in xs[1..] ==> x in xs;
      if |xs| == 1 then Repr(xs[0]) else Repr(xs[0]) + ", " + ReprItems(parent, xs[1..])
  }

  function ReprMembers(ghost parent: Json, ms: seq<Member>): string
    requires forall m :: m in ms ==> m.value < parent
    decreases parent, 0, |ms|
  {
    if ms == [] then ""
    else
      var first := "'" + ms[0].key + "': " + Repr(ms[0].value);
      if |ms| == 1 then first else first + ", " + ReprMembers(parent, ms[1..])
  }
}
