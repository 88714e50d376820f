/**
 * The Foundation values both versions of NetworkManager work with: the
 * `URLRequest` they fill in, what a `URLSession` data task hands back to its
 * completion handler, Swift's `Result`, and the platform services the
 * managers call (Keychain, `UUID`, `URL(string:)`, `JSONSerialization`,
 * `JSONDecoder`, `URLSession`), which are given as inputs rather than
 * modelled.
 */
module Foundation {
  import opened Common
  import opened Json

  /** Swift's `Result<Success, Failure>`. */
  datatype Result<+T, +E> = Success(value: T) | Failure(error: E)

  /** The `Error` a data task reports when the exchange itself failed. */
  datatype TransportError = TransportError(description: string)

  /** The `URLResponse` of a data task: an HTTP response with its status code, or some other kind. */
  datatype URLResponse = HTTPURLResponse(statusCode: int) | OtherResponse

  /** The three optionals a data task passes to its completion handler. */
  datatype Reply = Reply(data: Option<seq<byte>>, response: Option<URLResponse>, error: Option<TransportError>)

  /** `response as? HTTPURLResponse`, as the status code it carries. */
  function StatusCode(response: Option<URLResponse>): (r: Option<int>)
    ensures r.Some? <==> response.Some? && response.value.HTTPURLResponse?
    ensures r.Some? ==> response.value == HTTPURLResponse(r.value)
  {
    match response
    case Some(HTTPURLResponse(code)) => Some(code)
    case _ => None
  }

  /** `(200...299).contains(statusCode)`. */
  predicate IsSuccessStatus(code: int) {
    200 <= code <= 299
  }

  /**
   * Whether the typed decode is reached: either the response is not an HTTP
   * response, so the status check is skipped, or its status is 2xx.
   */
  predicate DecodeReached(response: Option<URLResponse>) {
    StatusCode(response).None? || IsSuccessStatus(StatusCode(response).value)
  }

  /** The outcome of `JSONDecoder().decode(T.self, from:)`. */
  datatype Decoding<+T> = Decoded(value: T) | DecodeFailed

  /** The parts of a `URLRequest` the managers set. */
  datatype URLRequest = URLRequest(url: string, httpMethod: string, headers: map<string, string>, httpBody: Option<seq<byte>>)

  /** `URLRequest(url:)`: a GET with no header fields and no body. */
  function NewRequest(url: string): URLRequest {
    URLRequest(url, "GET", map[], None)
  }

  /**
   * `setValue(_:forHTTPHeaderField:)`: the field gets the value, replacing any
   * earlier one, and every other part of the request stays as it was.
   */
  function SetValue(request: URLRequest, value: string, field: string): (r: URLRequest)
    ensures r.headers.Keys == request.headers.Keys + {field}
    ensures r.headers[field] == value
    ensures forall f :: f in request.headers && f != field ==> r.headers[f] == request.headers[f]
    ensures r.url == request.url && r.httpMethod == request.httpMethod && r.httpBody == request.httpBody
  {
    request.(headers := request.headers[field := value])
  }

  /** `try? JSONSerialization.data(withJSONObject:)`. */
  function TrySerialize(s: Serialization): (r: Option<seq<byte>>)
    ensures r.Some? <==> s.Serialized?
    ensures r.Some? ==> s == Serialized(r.value)
  {
    match s
    case Serialized(bytes) => Some(bytes)
    case Threw(_) => None
  }

  /**
   * The services a request depends on, fixed for one call:
   * - `baseURL`: `EnvLoader.baseURL`;
   * - `urlAccepts`: whether `URL(string:)` accepts a string;
   * - `token`: `KeychainHelper.standard.readString(service: "bullion-ecosystem", account: "auth-token")`;
   * - `uuid`: the `UUID().uuidString` drawn for a multipart boundary;
   * - `serialize`: `JSONSerialization.data(withJSONObject:)` on a dictionary;
   * - `send`: what `URLSession.shared.dataTask(with:)` reports for a request;
   * - `parse`: `JSONSerialization.jsonObject(with:)`, `None` when it throws;
   * - `decode`: `JSONDecoder().decode(T.self, from:)`.
   */
  datatype Platform<T> = Platform(
    baseURL: string,
    urlAccepts: string -> bool,
    token: Option<string>,
    uuid: string,
    serialize: Dictionary -> Serialization,
    send: URLRequest -> Reply,
    parse: seq<byte> -> Option<Json>,
    decode: seq<byte> -> Decoding<T>)

  /** Header field names and the value prefix used for the bearer token. */
  const ContentTypeField := "Content-Type"
  const AuthorizationField := "Authorization"
  const JsonContentType := "application/json"

  /** `"Bearer \(token)"`. */
  function BearerValue(token: string): (r: string)
    ensures |r| == 7 + |token| && r[..7] == "Bearer " && r[7..] == token
  {
    "Bearer " + token
  }
}
