/** Normalisation of a thrown value into the API error shape
    `{ status, message, error, details }`. */
module ApiUtils {
  import opened Wrappers
  import opened Text

  /** A JavaScript value, as far as the normalisation looks into it. */
  datatype JsValue =
    | JsUndefined
    | JsNull
    | JsBool(b: bool)
    | JsNumber(x: real)
    | JsString(s: string)
    | JsArray(items: seq<JsValue>)
    | JsObject(props: map<string, JsValue>)

  /** `typeof v`. */
  function TypeOf(v: JsValue): string
  {
    match v
    case JsUndefined => "undefined"
    case JsBool(_) => "boolean"
    case JsNumber(_) => "number"
    case JsString(_) => "string"
    case _ => "object"
  }

  /** `isRecord`: `typeof v === "object" && v !== null && !Array.isArray(v)`. */
  predicate IsRecord(v: JsValue)
  {
    TypeOf(v) == "object" && v != JsNull && !v.JsArray?
  }

  /** Only plain objects are records: neither `null` nor an array is. */
  lemma IsRecordMeans(v: JsValue)
    ensures IsRecord(v) <==> v.JsObject?
  {
  }

  /** `v[key]` when it is a string (`typeof v[key] === "string"`). */
  function StringProp(v: JsValue, key: string): (r: Option<string>)
    ensures r.Some? <==> v.JsObject? && key in v.props && v.props[key].JsString?
  {
    if v.JsObject? && key in v.props && v.props[key].JsString? then Some(v.props[key].s) else None
  }

  /** The HTTP response an axios error carries. */
  datatype Response = Response(status: Option<int>, data: JsValue)

  /** What can be thrown: an axios error (its `message`, its `response`, and
      what its `toJSON` gives, `JsUndefined` when it has none), another
      `Error`, or any other value. */
  datatype Thrown =
    | AxiosError(message: Option<string>, response: Option<Response>, toJson: JsValue)
    | PlainError(errorMessage: string)
    | Other(value: JsValue)

  /** Where `details` points: at the response body or `toJSON()` result, or
      at the thrown value itself. */
  datatype Details = Data(v: JsValue) | Itself(e: Thrown)

  datatype ApiError = ApiError(status: int, message: string, error: Option<string>, details: Details)

  const Unknown: string := "Error desconocido"

  /** `e.response?.data`. */
  function Body(e: Thrown): JsValue
    requires e.AxiosError?
  {
    if e.response.Some? then e.response.value.data else JsUndefined
  }

  /** `e.response?.status ?? 500`. */
  function StatusOf(e: Thrown): int
    requires e.AxiosError?
  {
    if e.response.Some? && e.response.value.status.Some? then e.response.value.status.value else 500
  }

  /** `parseAxiosError`. */
  method ParseAxiosError(e: Thrown) returns (r: ApiError)
    ensures e.AxiosError? ==> r.status == StatusOf(e)
    ensures e.AxiosError? && IsRecord(Body(e)) ==>
      r.message == StringProp(Body(e), "message").GetOr(e.message.GetOr(Unknown))
    ensures e.AxiosError? && Body(e).JsString? && Trim(Body(e).s) != "" ==> r.message == Body(e).s
    ensures e.AxiosError? && !IsRecord(Body(e)) && !(Body(e).JsString? && Trim(Body(e).s) != "") ==>
      r.message == e.message.GetOr(Unknown)
    ensures e.AxiosError? && !IsRecord(Body(e)) ==> r.error.None?
    ensures e.AxiosError? && IsRecord(Body(e)) ==>
      r.error == if StringProp(Body(e), "error").Some? && StringProp(Body(e), "error").value != "" then StringProp(Body(e), "error")
                 else if StringProp(Body(e), "name").Some? then StringProp(Body(e), "name")
                 else StringProp(Body(e), "error")
    ensures e.AxiosError? && (IsRecord(Body(e)) || Body(e).JsArray? || Body(e).JsString?) ==> r.details == Data(Body(e))
    ensures e.AxiosError? && !(IsRecord(Body(e)) || Body(e).JsArray? || Body(e).JsString?) ==>
      r.details == Data(if e.toJson.JsUndefined? || e.toJson.JsNull? then JsNull else e.toJson)
    ensures e.PlainError? ==> r == ApiError(500, e.errorMessage, None, Itself(e))
    ensures e.Other? ==> r == ApiError(500, Unknown, None, Itself(e))
  {
    match e {
      case AxiosError(msg, response, toJson) =>
        var status := if response.Some? && response.value.status.Some? then response.value.status.value else 500;
        var data := if response.Some? then response.value.data else JsUndefined;
        var message := if msg.Some? then msg.value else Unknown;
        var error: Option<string> := None;
        if IsRecord(data) {
          if StringProp(data, "message").Some? {
            message := StringProp(data, "message").value;
          }
          if StringProp(data, "error").Some? {
            error := StringProp(data, "error");
          }
          if (error.None? || error.value == "") && StringProp(data, "name").Some? {
            error := StringProp(data, "name");
          }
        } else if data.JsString? && Trim(data.s) != "" {
          message := data.s;
        }
        var details := if IsRecord(data) || data.JsArray? || data.JsString? then data
                       else if toJson.JsUndefined? || toJson.JsNull? then JsNull
                       else toJson;
        r := ApiError(status, message, error, Data(details));
      case PlainError(m) =>
        r := ApiError(500, m, None, Itself(e));
      case Other(_) =>
        r := ApiError(500, Unknown, None, Itself(e));
    }
  }
}
