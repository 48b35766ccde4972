/** Query- and path-parameter normalisation (apps/backend/src/shared/http.ts). */
module SharedHttp {
  import opened Js

  /** `asString`: the first element of an array, a string as is, `""`
      for `undefined`/`null`, and `String(v)` for anything else. */
  function AsString(v: JsValue): (r: string)
    ensures v.Str? ==> r == v.s
    ensures IsNullish(v) ==> r == ""
    ensures v.Arr? && |v.items| == 0 ==> r == ""
    ensures v.Arr? && |v.items| > 0 ==> r == StringOrEmpty(v.items[0])
    ensures !v.Arr? ==> r == StringOrEmpty(v)
  {
    if v.Arr? then
      (if |v.items| == 0 then "" else StringOrEmpty(v.items[0]))
    else StringOrEmpty(v)
  }
}
