/**
 A parsed JSON value and the four accessors the fetcher uses on it:
 `get`, indexing with `[key]`, `as_str` and `as_array`.
 */
module Json {
  import opened Wrappers

  /**
   One constructor per value kind of RFC 8259 section 3. Numbers are kept as
   their literal text: the fetcher only ever asks whether a value is a string,
   an array or an object, so a number matters only as "some other kind".
   An object keeps its members in order; when a key occurs more than once,
   the parser keeps the last occurrence, and so does every lookup below.
   */
  datatype Value =
    | Null
    | Bool(b: bool)
    | Num(literal: string)
    | Str(text: string)
    | Arr(items: seq<Value>)
    | Obj(members: seq<(string, Value)>)

  /** Some member of `members` is named `key`. */
  ghost predicate Mentions(members: seq<(string, Value)>, key: string) {
    exists i :: 0 <= i < |members| && members[i].0 == key
  }

  /** `(key, v)` is the last member named `key`. */
  ghost predicate LastBinding(members: seq<(string, Value)>, key: string, v: Value) {
    exists i :: 0 <= i < |members| && members[i] == (key, v) &&
      forall j :: i < j < |members| ==> members[j].0 != key
  }

  /** `v` is an object whose member `key` holds `x`. */
  ghost predicate Binding(v: Value, key: string, x: Value) {
    v.Obj? && LastBinding(v.members, key, x)
  }

  /** `v` is an object with a member named `key`. */
  ghost predicate HasKey(v: Value, key: string) {
    v.Obj? && Mentions(v.members, key)
  }

  /** `v` has member `key` holding a string. */
  ghost predicate HasText(v: Value, key: string) {
    exists s :: Binding(v, key, Str(s))
  }

  /** `v` has member `outer`, an object whose member `inner` holds a string. */
  ghost predicate HasNestedText(v: Value, outer: string, inner: string) {
    exists o, s :: Binding(v, outer, o) && Binding(o, inner, Str(s))
  }

  /** `v` has member `key` holding an array. */
  ghost predicate HasArray(v: Value, key: string) {
    exists items :: Binding(v, key, Arr(items))
  }

  /** A key is bound to at most one value. */
  lemma BindingUnique(v: Value, key: string, x: Value, y: Value)
    requires Binding(v, key, x) && Binding(v, key, y)
    ensures x == y
  { }

  /** The value of the last member named `key`, searching from the end. */
  function Lookup(members: seq<(string, Value)>, key: string): (r: Option<Value>)
    ensures r.None? <==> !Mentions(members, key)
    ensures r.Some? ==> LastBinding(members, key, r.value)
  {
    if |members| == 0 then None
    else
      var last := members[|members| - 1];
      if last.0 == key then Some(last.1)
      else
        var r := Lookup(members[..|members| - 1], key);
        assert forall i :: 0 <= i < |members| - 1 ==> members[..|members| - 1][i] == members[i];
        r
  }

  /** serde_json's `Value::get` with a string key: the member, or nothing for a
      missing key or a value that is not an object. */
  function Get(v: Value, key: string): (r: Option<Value>)
    ensures r.Some? <==> HasKey(v, key)
    ensures r.Some? ==> Binding(v, key, r.value)
  {
    match v
    case Obj(members) => Lookup(members, key)
    case _ => None
  }

  /** serde_json's `v[key]`: like `Get`, but `Null` where `Get` has nothing. */
  function Index(v: Value, key: string): (r: Value)
    ensures Binding(v, key, r) || (r == Null && !HasKey(v, key))
  {
    Get(v, key).GetOr(Null)
  }

  /** serde_json's `as_str`: the text of a string, nothing for any other kind. */
  function AsStr(v: Value): (r: Option<string>)
    ensures r.Some? <==> v.Str?
    ensures r.Some? ==> v == Str(r.value)
  {
    match v
    case Str(s) => Some(s)
    case _ => None
  }

  /** serde_json's `as_array`: the items of an array, nothing for any other kind. */
  function AsArray(v: Value): (r: Option<seq<Value>>)
    ensures r.Some? <==> v.Arr?
    ensures r.Some? ==> v == Arr(r.value)
  {
    match v
    case Arr(items) => Some(items)
    case _ => None
  }
}
