/** Names a fresh JavaScript object already answers to, though nobody put them there. */
module ObjectNames {
  predicate Inherited(name: string) {
    name in {
      "constructor", "toString", "toLocaleString", "valueOf", "hasOwnProperty", "isPrototypeOf",
      "propertyIsEnumerable", "__proto__", "__defineGetter__", "__defineSetter__", "__lookupGetter__",
      "__lookupSetter__"}
  }
}
