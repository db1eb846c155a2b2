/**
 * References (ECMA-262 5.1 section 8.7): a base value, a referenced name
 * and a strict flag. Reference.cs is not part of this model; its predicates
 * are written here as section 8.7 defines them for this value model.
 */
module References {
  import opened Wrappers
  import opened JsValues

  datatype Reference = Reference(baseValue: JsValue, name: string, strict: bool)
  {
    /** The base is Undefined: the name was not found in any environment. */
    predicate IsUnresolvableReference() { baseValue.JsUndefined? }

    /** The base has a primitive tag (Undefined and Null included), or is an object that is not an environment record. */
    predicate IsPropertyReference() {
      (Tag(baseValue) != TypeObject && Tag(baseValue) != TypeNone)
      || (baseValue.JsObject? && !baseValue.kind.EnvironmentRecord?)
    }

    predicate HasEnvironmentRecordBase() { baseValue.JsObject? && baseValue.kind.EnvironmentRecord? }
  }

  /**
   * `AssertValid`: a strict reference to `eval` or `arguments` through an
   * environment record may not be assigned (section 11.13.1).
   */
  function AssertValid(r: Reference): (res: Result<()>)
    ensures res.Err? <==> r.strict && r.HasEnvironmentRecordBase() && (r.name == "eval" || r.name == "arguments")
    ensures res.Err? ==> res.error == JavaScriptException(SyntaxError, None)
  {
    if r.strict && r.HasEnvironmentRecordBase() && (r.name == "eval" || r.name == "arguments")
    then JsThrow(SyntaxError)
    else Ok(())
  }
}
