/** Property reads on plain JavaScript objects (`{}` literals and `Record`s). */
module JsObjects {

  /** The properties every plain object inherits from Object.prototype. Each of them reads as
      a function or, for `__proto__`, as Object.prototype itself: never as a string, never falsy. */
  const InheritedMembers: set<string> := {
    "constructor", "hasOwnProperty", "isPrototypeOf", "propertyIsEnumerable",
    "toLocaleString", "toString", "valueOf", "__proto__",
    "__defineGetter__", "__defineSetter__", "__lookupGetter__", "__lookupSetter__"
  }

  predicate IsInherited(name: string) {
    name in InheritedMembers
  }
}
