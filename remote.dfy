/*
 * The boundary to the remote server. Every HTTP call the screens make is reduced to its
 * outcome, which the model takes as a parameter: a 2xx response with a (possibly absent)
 * body, a response with any other status, or an exception thrown by the transport.
 */
module Remote {
  import opened KotlinStd

  /** The exception classes the screens tell apart; each thrown exception is exactly one. */
  datatype Exception =
    | SocketTimeout(message: Option<string>)   // java.net.SocketTimeoutException (an IOException)
    | Connect(message: Option<string>)         // java.net.ConnectException (an IOException)
    | SslHandshake(message: Option<string>)    // javax.net.ssl.SSLHandshakeException (an IOException)
    | OtherIo(message: Option<string>)         // any other java.io.IOException
    | Other(message: Option<string>)           // any other Exception

  predicate IsIOException(e: Exception) {
    !e.Other?
  }

  datatype Outcome<T> =
    | Success(body: Option<T>)
    | NonSuccess(code: int, errorBody: Option<string>)
    | Failure(error: Exception)

  /** A value in a request body built with `mapOf(... to ...)`. */
  datatype BodyValue = Text(text: string) | Number(number: int)

  /** A JSON value as Gson decodes it into `Map<String, Any>`: numbers become doubles. */
  datatype Json =
    | JNull
    | JBool(b: bool)
    | JNumber(n: real)
    | JString(s: string)
    | JArray(elems: seq<Json>)
    | JObject(fields: map<string, Json>)

  /** `(obj[key] as? String)`: null when the key is absent or holds anything but a string. */
  function AsString(obj: map<string, Json>, key: string): (r: Option<string>)
    ensures r.Some? <==> key in obj && obj[key].JString?
    ensures r.Some? ==> obj[key] == JString(r.value)
  {
    if key in obj && obj[key].JString? then Some(obj[key].s) else None
  }

  /** `(obj[key] as? Number)?.toInt()`. */
  function AsInt(obj: map<string, Json>, key: string): (r: Option<int>)
    ensures r.Some? <==> key in obj && obj[key].JNumber?
    ensures r.Some? ==> IsInt32(r.value)
    ensures r.Some? ==> r.value == DoubleToInt(obj[key].n)
  {
    if key in obj && obj[key].JNumber? then Some(DoubleToInt(obj[key].n)) else None
  }

  /** Kotlin's string template `"${x}"` of a nullable string. */
  function ShowNullable(s: Option<string>): (r: string)
    ensures s.Some? ==> r == s.value
    ensures s.None? ==> r == "null"
  {
    s.GetOr("null")
  }
}
