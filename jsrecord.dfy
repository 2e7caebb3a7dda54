/**
 * Reading a property of a plain JavaScript object literal (`table[key]`)
 * used as a lookup table. The literal inherits the members of
 * `Object.prototype`, so a key that names one of them reads that member
 * instead of `undefined`.
 */
module JsRecord {

  /** The property names an object literal inherits from `Object.prototype` in a browser. */
  const ObjectPrototypeMembers: set<string> := {
    "constructor", "hasOwnProperty", "isPrototypeOf", "propertyIsEnumerable",
    "toLocaleString", "toString", "valueOf", "__proto__",
    "__defineGetter__", "__defineSetter__", "__lookupGetter__", "__lookupSetter__"
  }

  /**
   * The inherited property names under Deno, which runs the edge
   * functions: Deno deletes the `Object.prototype.__proto__` accessor, so
   * reading `__proto__` gives `undefined` there.
   */
  const DenoPrototypeMembers: set<string> := ObjectPrototypeMembers - {"__proto__"}

  /** What `table[key]` evaluates to. */
  datatype Read<V> =
    | Own(value: V)             // an entry of the literal itself
    | Inherited(member: string) // a method of Object.prototype, or (for `__proto__`) that object itself: truthy, and not a V
    | Undefined

  /** `table[key]` for an object literal whose own entries are `table` and which inherits the names `inherited`. */
  function PropertyRead<V>(table: map<string, V>, inherited: set<string>, key: string): (r: Read<V>)
    ensures r.Own? <==> key in table
    ensures r.Own? ==> r.value == table[key]
    ensures r.Inherited? <==> key !in table && key in inherited
    ensures r.Inherited? ==> r.member == key
  {
    if key in table then Own(table[key])
    else if key in inherited then Inherited(key)
    else Undefined
  }
}
