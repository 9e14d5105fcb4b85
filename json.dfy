/**
 * The values that `json.load` and `yaml.safe_load` produce, and the handful
 * of Python operations the core applies to them: subscripting, `dict.get`,
 * `in`, iteration, truthiness and `str()`.
 */
module Json {
  import opened Common
  import opened Text

  /**
   * A decoded JSON or YAML value. A dict is an association list because a
   * Python dict keeps insertion order, which `json.dump` and `str()` show.
   */
  datatype Json =
    | JNull
    | JBool(b: bool)
    | JInt(i: int)
    | JStr(s: string)
    | JList(items: seq<Json>)
    | JDict(entries: seq<(string, Json)>)

  /** The built-in exceptions the core's code paths can raise. */
  datatype PyError = KeyError | IndexError | TypeError | ValueError | AttributeError

  // ---------------------------------------------------------------------
  // Dict entries

  /** The value stored under `key`, the first one if a key were repeated. */
  function Lookup(entries: seq<(string, Json)>, key: string): (r: Option<Json>)
    ensures r.Some? <==> exists k :: 0 <= k < |entries| && entries[k].0 == key
    ensures r.Some? ==> exists k :: 0 <= k < |entries| && entries[k] == (key, r.value)
  {
    if entries == [] then None
    else if entries[0].0 == key then Some(entries[0].1)
    else Lookup(entries[1..], key)
  }

  /**
   * `d[key] = value`: overwrites the value of an existing key in place, or
   * appends a new key at the end.
   */
  function Store(entries: seq<(string, Json)>, key: string, value: Json): (r: seq<(string, Json)>)
    ensures Lookup(r, key) == Some(value)
    ensures forall k :: k != key ==> Lookup(r, k) == Lookup(entries, k)
    ensures Lookup(entries, key).Some? ==> |r| == |entries|
  {
    if entries == [] then [(key, value)]
    else if entries[0].0 == key then [(key, value)] + entries[1..]
    else [entries[0]] + Store(entries[1..], key, value)
  }

  /** The keys of a dict, in insertion order. */
  function Keys(entries: seq<(string, Json)>): seq<string> {
    seq(|entries|, i requires 0 <= i < |entries| => entries[i].0)
  }

  /** Assigning a key that is already present keeps every key in its place. */
  lemma {:induction false} StoreKeepsKeys(entries: seq<(string, Json)>, key: string, value: Json)
    requires Lookup(entries, key).Some?
    ensures Keys(Store(entries, key, value)) == Keys(entries)
    decreases |entries|
  {
    if entries[0].0 != key {
      var r := Store(entries, key, value);
      StoreKeepsKeys(entries[1..], key, value);
      assert r == [entries[0]] + Store(entries[1..], key, value);
      forall i | 0 <= i < |entries| ensures r[i].0 == entries[i].0 {
        if i > 0 {
          assert r[i] == Store(entries[1..], key, value)[i - 1];
          assert Keys(Store(entries[1..], key, value))[i - 1] == Keys(entries[1..])[i - 1];
        }
      }
    }
  }

  // ---------------------------------------------------------------------
  // Python operations on values

  /** `v[key]` with a string key. */
  function Subscript(v: Json, key: string): Result<Json, PyError> {
    match v
    case JDict(entries) =>
      (match Lookup(entries, key)
       case Some(x) => Ok(x)
       case None => Err(KeyError))
    case _ => Err(TypeError)
  }

  /** `v[i]` with a non-negative integer index. */
  function Index(v: Json, i: nat): Result<Json, PyError> {
    match v
    case JList(items) => if i < |items| then Ok(items[i]) else Err(IndexError)
    case JStr(s) => if i < |s| then Ok(JStr([s[i]])) else Err(IndexError)
    // dict keys decoded from JSON are strings, so an integer key is never found
    case JDict(_) => Err(KeyError)
    case _ => Err(TypeError)
  }

  /** `v.get(key, default)`: only a dict has the method. */
  function DictGet(v: Json, key: string, default: Json): Result<Json, PyError> {
    match v
    case JDict(entries) =>
      (match Lookup(entries, key)
       case Some(x) => Ok(x)
       case None => Ok(default))
    case _ => Err(AttributeError)
  }

  /** `key in v` for a dict. */
  predicate HasKey(v: Json, key: string) {
    v.JDict? && Lookup(v.entries, key).Some?
  }

  /** Python truthiness: `None`, `False`, `0` and empty containers are falsy. */
  predicate Truthy(v: Json) {
    match v
    case JNull => false
    case JBool(b) => b
    case JInt(i) => i != 0
    case JStr(s) => s != []
    case JList(items) => items != []
    case JDict(entries) => entries != []
  }

  /** The elements `for x in v` visits: list items, string characters, dict keys. */
  function Iterate(v: Json): (r: Result<seq<Json>, PyError>)
    ensures r.Ok? <==> v.JList? || v.JStr? || v.JDict?
    ensures r.Ok? ==> (|r.value| == 0 <==> !Truthy(v))
    ensures v.JList? ==> r == Ok(v.items)
    ensures v.JStr? ==> |r.value| == |v.s| && forall k :: 0 <= k < |v.s| ==> r.value[k] == JStr([v.s[k]])
    ensures v.JDict? ==>
      |r.value| == |v.entries| && forall k :: 0 <= k < |v.entries| ==> r.value[k] == JStr(v.entries[k].0)
  {
    match v
    case JList(items) => Ok(items)
    case JStr(s) => Ok(seq(|s|, k requires 0 <= k < |s| => JStr([s[k]])))
    case JDict(entries) => Ok(seq(|entries|, k requires 0 <= k < |entries| => JStr(entries[k].0)))
    case _ => Err(TypeError)
  }

  // ---------------------------------------------------------------------
  // str() and repr()

  /** `str(v)`, the text an f-string puts in place of `{v}`. */
  function Show(v: Json): string {
    match v
    case JStr(s) => s
    case _ => Repr(v)
  }

  /** `repr(v)`; strings are quoted with `'` and not escaped. */
  function Repr(v: Json): string
    decreases v
  {
    match v
    case JNull => "None"
    case JBool(b) => if b then "True" else "False"
    case JInt(i) => IntToString(i)
    case JStr(s) => "'" + s + "'"
    case JList(items) => "[" + ReprItems(items) + "]"
    case JDict(entries) => "{" + ReprEntries(entries) + "}"
  }

  function ReprItems(items: seq<Json>): string
    decreases items
  {
    if items == [] then ""
    else Repr(items[0]) + (if |items| > 1 then ", " else "") + ReprItems(items[1..])
  }

  function ReprEntries(entries: seq<(string, Json)>): string
    decreases entries
  {
    if entries == [] then ""
    else
      assert entries[0].1 < entries[0];
      "'" + entries[0].0 + "': " + Repr(entries[0].1)
      + (if |entries| > 1 then ", " else "") + ReprEntries(entries[1..])
  }
}
