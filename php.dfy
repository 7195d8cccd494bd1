/** PHP's view of a decoded JSON payload, and the handful of language rules the
    ingestion code relies on: `empty()`, `isset()`/`??`, reading a key without `??`,
    string conversion and `foreach`. Under Laravel's error handler every PHP warning
    (an undefined key, an array used as a string, `foreach` over a scalar) is thrown as
    an exception, so each of these rules has a "raises" outcome. */
module Php {

  datatype Option<+T> = None | Some(value: T)

  /** The outcome of an expression that may throw: its value, or an exception. */
  datatype Result<+T> = Ok(value: T) | Thrown {
    predicate IsFailure() { Thrown? }
    function PropagateFailure<U>(): Result<U> requires Thrown? { Thrown }
    function Extract(): T requires Ok? { value }
  }

  /** A decoded JSON value. Objects keep their keys in document order. Numbers are
      integers in this model. */
  datatype Json =
    | JNull
    | JBool(b: bool)
    | JNum(n: int)
    | JStr(s: string)
    | JList(items: seq<Json>)
    | JObj(fields: seq<(string, Json)>)

  /** PHP `empty()` of a value that exists: null, false, 0, "", "0" and the empty array. */
  predicate Empty(v: Json) {
    match v
    case JNull => true
    case JBool(b) => !b
    case JNum(n) => n == 0
    case JStr(s) => s == "" || s == "0"
    case JList(items) => items == []
    case JObj(fields) => fields == []
  }

  /** PHP truthiness (`if ($x)`, `$x ? a : b`) of a value that exists. */
  predicate Truthy(v: Json) {
    !Empty(v)
  }

  /** Truthiness of an optional request string: absent, "" and "0" are falsy. */
  predicate TruthyText(s: Option<string>) {
    s.Some? && s.value != "" && s.value != "0"
  }

  /** The value stored under key `k` of an object; a repeated key yields its last value,
      as `json_decode` keeps the last one. `None` when `v` is not an object or lacks `k`. */
  function Field(fields: seq<(string, Json)>, k: string): (r: Option<Json>)
    ensures r.Some? <==> exists i :: 0 <= i < |fields| && fields[i].0 == k
    ensures r.Some? ==> exists i :: 0 <= i < |fields| && fields[i] == (k, r.value)
  {
    if fields == [] then None
    else if fields[|fields| - 1].0 == k then Some(fields[|fields| - 1].1)
    else Field(fields[..|fields| - 1], k)
  }

  /** `isset`-style access `$v[k]`: never raises. */
  function Lookup(v: Json, k: string): Option<Json> {
    if v.JObj? then Field(v.fields, k) else None
  }

  /** `$v[k1][k2]...` read the way `isset`, `empty` and `??` read it. */
  function Path(v: Json, ks: seq<string>): Option<Json>
    decreases |ks|
  {
    if ks == [] then Some(v)
    else match Lookup(v, ks[0])
      case None => None
      case Some(w) => Path(w, ks[1..])
  }

  /** `$v[k1]...[kn] ?? d`: the default when some key is missing or the value is null. */
  function Coalesce(v: Json, ks: seq<string>, d: Json): (r: Json)
    ensures Path(v, ks).Some? && Path(v, ks).value != JNull ==> r == Path(v, ks).value
    ensures Path(v, ks).None? || Path(v, ks) == Some(JNull) ==> r == d
  {
    match Path(v, ks)
    case Some(w) => if w == JNull then d else w
    case None => d
  }

  /** `empty($v[k1]...[kn])`: a missing key counts as empty. */
  predicate EmptyAt(v: Json, ks: seq<string>) {
    match Path(v, ks)
    case None => true
    case Some(w) => Empty(w)
  }

  /** `isset($v[k])`: present and not null. */
  predicate IsSet(v: Json, k: string) {
    Lookup(v, k).Some? && Lookup(v, k).value != JNull
  }

  /** `$v[k]` without `??`: an undefined key, or an offset on a non-array, raises. */
  function Read(v: Json, k: string): (r: Result<Json>)
    ensures r.Ok? <==> Lookup(v, k).Some?
    ensures r.Ok? ==> r.value == Lookup(v, k).value
  {
    match Lookup(v, k)
    case Some(w) => Ok(w)
    case None => Thrown
  }

  /** The values `foreach ($v as $x)` visits; a scalar raises. */
  function Items(v: Json): (r: Result<seq<Json>>)
    ensures r.Ok? <==> v.JList? || v.JObj?
    ensures v.JList? ==> r == Ok(v.items)
  {
    match v
    case JList(items) => Ok(items)
    case JObj(fields) => Ok(seq(|fields|, i requires 0 <= i < |fields| => fields[i].1))
    case _ => Thrown
  }

  const Digits := "0123456789"

  /** Decimal numeral of a natural number. */
  function NatText(n: nat): (r: string)
    ensures |r| > 0
    ensures forall i :: 0 <= i < |r| ==> r[i] in Digits
    decreases n
  {
    if n < 10 then [Digits[n]] else NatText(n / 10) + [Digits[n % 10]]
  }

  /** PHP's string conversion `(string)$v`; an array raises ("Array to string conversion"). */
  function ToText(v: Json): (r: Result<string>)
    ensures r.Thrown? <==> v.JList? || v.JObj?
    ensures v.JStr? ==> r == Ok(v.s)
    ensures v == JNull ==> r == Ok("")
  {
    match v
    case JNull => Ok("")
    case JBool(b) => Ok(if b then "1" else "")
    case JNum(n) => Ok(if n < 0 then "-" + NatText(-n) else NatText(n))
    case JStr(s) => Ok(s)
    case _ => Thrown
  }

  /** A value bound to a NOT NULL string column: null and arrays make the insert fail. */
  function BindText(v: Json): (r: Result<string>)
    ensures r.Ok? <==> !(v.JNull? || v.JList? || v.JObj?)
    ensures v.JStr? ==> r == Ok(v.s)
  {
    if v == JNull then Thrown else ToText(v)
  }

  /** A value bound to a nullable string column: null stays NULL. */
  function BindNullable(v: Json): (r: Result<Option<string>>)
    ensures v == JNull ==> r == Ok(None)
    ensures v.JStr? ==> r == Ok(Some(v.s))
    ensures r.Thrown? <==> v.JList? || v.JObj?
  {
    if v == JNull then Ok(None)
    else match ToText(v)
      case Ok(s) => Ok(Some(s))
      case Thrown => Thrown
  }

  /** The characters PHP's `trim()` strips by default. */
  predicate Blank(c: char) {
    c == ' ' || c == '\t' || c == '\n' || c == '\r' || c == '\0' || c == 11 as char
  }

  function TrimStart(s: string): (r: string)
    ensures |r| <= |s| && r == s[|s| - |r|..]
    ensures r != [] ==> !Blank(r[0])
    ensures forall i :: 0 <= i < |s| - |r| ==> Blank(s[i])
  {
    if s != [] && Blank(s[0]) then TrimStart(s[1..]) else s
  }

  function TrimEnd(s: string): (r: string)
    ensures |r| <= |s| && r == s[..|r|]
    ensures r != [] ==> !Blank(r[|r| - 1])
    ensures forall i :: |r| <= i < |s| ==> Blank(s[i])
  {
    if s != [] && Blank(s[|s| - 1]) then TrimEnd(s[..|s| - 1]) else s
  }

  /** PHP `trim()`: the longest infix with no blank at either end. */
  function Trim(s: string): (r: string)
    ensures r != [] ==> !Blank(r[0]) && !Blank(r[|r| - 1])
    ensures exists i, j :: 0 <= i <= j <= |s| && r == s[i..j]
  {
    var t := TrimStart(s);
    var r := TrimEnd(t);
    assert r == s[|s| - |t|..|s| - |t| + |r|];
    r
  }

  /** Lower-casing of ASCII letters (`strtolower`). */
  function Lower(s: string): (r: string)
    ensures |r| == |s|
  {
    seq(|s|, i requires 0 <= i < |s| =>
      if 'A' <= s[i] <= 'Z' then (s[i] as int - 'A' as int + 'a' as int) as char else s[i])
  }

  /** `needle` occurs in `hay` starting at position `i`. */
  predicate OccursAt(hay: string, needle: string, i: int) {
    0 <= i <= |hay| - |needle| && hay[i..i + |needle|] == needle
  }

  /** SQL `LIKE '%needle%'` taken literally: `needle` occurs somewhere in `hay`. */
  predicate Contains(hay: string, needle: string) {
    exists i | 0 <= i <= |hay| :: OccursAt(hay, needle, i)
  }
}
