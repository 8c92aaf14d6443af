/** Names a plain JavaScript object answers to before anything is stored in it. */
module PlainObjects {
  /** Assigning to this one changes the object's prototype and stores nothing. */
  const PROTO: string := "__proto__"

  /** What `in` finds on every plain object. */
  const INHERITED: set<string> := {
    PROTO, "constructor", "hasOwnProperty", "isPrototypeOf", "propertyIsEnumerable", "toLocaleString", "toString",
    "valueOf", "__defineGetter__", "__defineSetter__", "__lookupGetter__", "__lookupSetter__"
  }

  predicate Inherited(name: string) {
    name in INHERITED
  }

  lemma InheritedAreLong(name: string)
    requires Inherited(name)
    ensures |name| > 6
  {
  }
}
