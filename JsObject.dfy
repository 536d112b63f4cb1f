/**
 * How script.js reads a category's limit, taking into account that it reads
 * it from a plain JavaScript object. `limits[c]` and `spent[c]` are looked up
 * along the prototype chain, so a category spelled like a property of
 * `Object.prototype` ("toString", "constructor", ...) finds a function there
 * even though nobody set that limit.
 */
module JsObject {
  import opened Ledger
  import opened Views

  /** The property names every plain object inherits from `Object.prototype`. */
  const InheritedNames: set<string> :=
    {"constructor", "hasOwnProperty", "isPrototypeOf", "propertyIsEnumerable", "toLocaleString",
     "toString", "valueOf", "__proto__", "__defineGetter__", "__defineSetter__",
     "__lookupGetter__", "__lookupSetter__"}

  /** What `obj[k]` finds: an own number, something inherited, or `undefined`. */
  datatype Property = Own(value: real) | Inherited | Undefined

  function Lookup(obj: map<string, real>, k: string): Property {
    if k in obj then Own(obj[k])
    else if k in InheritedNames then Inherited
    else Undefined
  }

  /** `limit !== undefined`, as the expense form and the categories table test it. */
  predicate HasLimitAsWritten(limits: map<string, real>, c: string) {
    Lookup(limits, c) != Undefined
  }

  /**
   * As written, a category called "toString" with no limit set is treated as
   * having one: its row fills the limit and remaining cells (with the
   * formatting of a function, "$NaN") instead of showing a dash.
   */
  lemma InheritedNameLooksLimited()
    ensures HasLimitAsWritten(map[], "toString")
    ensures LimitOf(map[], "toString").None?
  {
  }

  /**
   * The intended test is an own-property lookup, which is what the model uses
   * (`LimitOf`). For names not inherited from `Object.prototype` the test as
   * written agrees with it, and a category without a limit is never flagged
   * and has no remaining amount.
   */
  lemma OwnLookupIsIntended(limits: map<string, real>, c: string, spent: real)
    ensures c !in InheritedNames ==> (HasLimitAsWritten(limits, c) <==> LimitOf(limits, c).Some?)
    ensures c !in limits ==>
      (MakeRow(spent, LimitOf(limits, c)).status == Ok && MakeRow(spent, LimitOf(limits, c)).remaining.None?)
  {
  }
}
