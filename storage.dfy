/** The browser's `localStorage`, as the front end uses it: every value it
    writes is `JSON.stringify` of some value, and every value it reads is
    passed to `JSON.parse`. Serialisation is modelled as the injective
    constructor `Serialized`; text that some other writer left behind and
    that does not parse is `Unparseable`. */
module Storage {

  import opened Wrappers

  /** JSON values. Numbers are integers here; the front end stores no
      fractional number under the keys it reads back. */
  datatype Json =
    | JNull
    | JBool(b: bool)
    | JNum(n: int)
    | JStr(s: string)
    | JArr(items: seq<Json>)
    | JObj(fields: map<string, Json>)

  /** What a key of the store holds. */
  datatype Stored = Serialized(value: Json) | Unparseable(text: string)

  /** `localStorage`: a string-keyed store that the page mutates in place. */
  class LocalStorage {
    var items: map<string, Stored>

    constructor(initial: map<string, Stored>)
      ensures items == initial
    {
      items := initial;
    }

    /** `getItem(key)`: `null` (None) for a missing key. */
    function GetItem(key: string): (r: Option<Stored>)
      reads this
      ensures r.Some? <==> key in items
      ensures r.Some? ==> r.value == items[key]
    {
      if key in items then Some(items[key]) else None
    }

    /** `setItem(key, JSON.stringify(v))`. */
    method SetItem(key: string, v: Json)
      modifies this
      ensures items == old(items)[key := Serialized(v)]
    {
      items := items[key := Serialized(v)];
    }

    /** `removeItem(key)`. */
    method RemoveItem(key: string)
      modifies this
      ensures items == old(items) - {key}
    {
      items := items - {key};
    }
  }
}
