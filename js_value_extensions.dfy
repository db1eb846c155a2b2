/** `JsValueExtensions`: the checked accessors for the payload of a value. */
module JsValueExtensions {
  import opened Wrappers
  import opened Numbers
  import opened JsValues

  /** `AsBoolean`: the stored bool of a Boolean, else an ArgumentException. */
  function AsBoolean(v: JsValue): (r: Result<bool>)
    ensures r.Ok? <==> IsBoolean(v)
    ensures r.Ok? ==> v == JsBoolean(r.value)
    ensures r.Err? ==> r.error == ClrException(ArgumentError)
  {
    if Tag(v) != Types.TypeBoolean then ClrThrow(ArgumentError) else Ok(v.b)
  }

  /** `AsNumber`: the stored double of a Number. */
  function AsNumber(v: JsValue): (r: Result<Num>)
    ensures r.Ok? <==> IsNumber(v)
    ensures r.Ok? ==> v == JsNumber(r.value)
    ensures r.Err? ==> r.error == ClrException(ArgumentError)
  {
    if Tag(v) != Types.TypeNumber then ClrThrow(ArgumentError) else Ok(v.n)
  }

  /** `AsString`: the value's `ToString()` once the tag is String. */
  function AsString(v: JsValue): (r: Result<string>)
    ensures r.Ok? <==> IsString(v)
    ensures r.Ok? ==> v == JsString(r.value)
    ensures r.Err? ==> r.error == ClrException(ArgumentError)
  {
    if Tag(v) != Types.TypeString then ClrThrow(ArgumentError) else Ok(AsStringWithoutTypeCheck(v))
  }

  /** `AsStringWithoutTypeCheck`: `ToString()`, which for a string is its contents. */
  function AsStringWithoutTypeCheck(v: JsValue): string
    requires v.JsString?
  {
    v.s
  }

  /** `AsSymbol`: the stored description of a Symbol. */
  function AsSymbol(v: JsValue): (r: Result<string>)
    ensures r.Ok? <==> IsSymbol(v)
    ensures r.Ok? ==> v.JsSymbol? && r.value == v.description
    ensures r.Err? ==> r.error == ClrException(ArgumentError)
  {
    if Tag(v) != Types.TypeSymbol then ClrThrow(ArgumentError) else Ok(v.description)
  }

  /** Converting back and forth: the accessor recovers what the implicit conversion stored. */
  lemma AccessorsInvertConversions(b: bool, n: Num, s: string)
    ensures AsBoolean(FromBool(b)) == Ok(b)
    ensures AsNumber(FromDouble(n)) == Ok(n)
    ensures AsString(FromString(Some(s))) == Ok(s)
    ensures AsString(FromString(None)).Err?
  {
  }
}
