/**
 * Property reads on plain JavaScript object literals: a name the object does
 * not own is looked up on Object.prototype, which supplies a value for a few
 * names.
 */
module JsObjects {
  import opened Wrappers

  /** How a template literal, or `+` with a string, renders the Object constructor. */
  const OBJECT_SOURCE: string := "function Object() { [native code] }"

  /**
   * What a property read on a plain object literal yields for a name it does
   * not own but inherits from Object.prototype, rendered as `+` or a template
   * literal renders it; None for a name with no such property.
   */
  function InheritedProperty(name: string): (v: Option<string>)
    ensures v.Some? ==> |name| > 3 && v.value != ""
  {
    if name == "constructor" then Some(OBJECT_SOURCE)
    else if name == "__proto__" then Some("[object Object]")
    else if name in ["toString", "toLocaleString", "valueOf", "hasOwnProperty", "isPrototypeOf",
                     "propertyIsEnumerable", "__defineGetter__", "__defineSetter__",
                     "__lookupGetter__", "__lookupSetter__"]
    then Some("function " + name + "() { [native code] }")
    else None
  }
}
