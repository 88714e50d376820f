/**
 * The older HTTP client, BullionTest/NetworkManager.swift: JSON requests
 * only, a serialisation failure reported before anything is sent, the
 * non-2xx message built by overwriting a default, and a 2xx decode failure
 * that only recognises `err_message_en`.
 *
 * Its `NetworkError` has the same four cases and descriptions as the
 * current one, so the model uses `Networking.NetworkError` for both.
 */
module LegacyNetworking {
  import opened Common
  import opened Json
  import opened Foundation
  import API = APIConfiguration
  import Networking
  import Text

  type NetworkError = Networking.NetworkError

  /**
   * The `Error` the completion handler receives: the data task's own error,
   * the error `JSONSerialization.data(withJSONObject:options:)` threw, or a
   * `NetworkError`.
   */
  datatype RequestError =
    | Transport(cause: TransportError)
    | Serialization(reason: string)
    | Network(error: NetworkError)

  // ---------------------------------------------------------------------
  // The message of a non-2xx response

  /**
   * The message for a non-2xx status: the default `"Server returned <code>"`
   * unless the body is a JSON object with a string under `err_message_en`,
   * `err_message` or `message`, the first of them winning.
   */
  function FallbackMessage(code: int, data: seq<byte>, parse: seq<byte> -> Option<Json>): (r: string)
    ensures AsObject(parse(data)).None? ==> r == Networking.DefaultServerMessage(code)
    ensures AsObject(parse(data)).Some? ==>
      r == FirstStringMember(AsObject(parse(data)).value, Networking.ErrorMessageKeys).GetOr(Networking.DefaultServerMessage(code))
  {
    match AsObject(parse(data))
    case None => Networking.DefaultServerMessage(code)
    case Some(json) =>
      Networking.MessageKeysFallback(json);
      if StringMember(json, "err_message_en").Some? then StringMember(json, "err_message_en").value
      else if StringMember(json, "err_message").Some? then StringMember(json, "err_message").value
      else if StringMember(json, "message").Some? then StringMember(json, "message").value
      else Networking.DefaultServerMessage(code)
  }

  /** Lines 78-88: `errorMessage` starts as the default and is overwritten by the first message key found. */
  method NonSuccessMessage(code: int, data: seq<byte>, parse: seq<byte> -> Option<Json>) returns (errorMessage: string)
    ensures errorMessage == FallbackMessage(code, data, parse)
  {
    errorMessage := "Server returned " + Text.IntToDecimal(code);
    var json := AsObject(parse(data));
    if json.Some? {
      var fields := json.value;
      if StringMember(fields, "err_message_en").Some? {
        errorMessage := StringMember(fields, "err_message_en").value;
      } else if StringMember(fields, "err_message").Some? {
        errorMessage := StringMember(fields, "err_message").value;
      } else if StringMember(fields, "message").Some? {
        errorMessage := StringMember(fields, "message").value;
      }
    }
  }

  /** The message of a non-2xx response is the default exactly when the body offers none of the three keys as a string. */
  lemma FallbackMessageDefault(code: int, data: seq<byte>, parse: seq<byte> -> Option<Json>)
    ensures Networking.ParseErrorMessage(data, parse).None? ==> FallbackMessage(code, data, parse) == Networking.DefaultServerMessage(code)
    ensures Networking.ParseErrorMessage(data, parse).Some? ==> FallbackMessage(code, data, parse) == Networking.ParseErrorMessage(data, parse).value
  {
  }

  // ---------------------------------------------------------------------
  // Classifying what the data task reports

  /** Lines 102-103: on a failed decode only `err_message_en` is looked at. */
  function EnglishMessage(data: seq<byte>, parse: seq<byte> -> Option<Json>): (r: Option<string>)
    ensures r.Some? <==> AsObject(parse(data)).Some? && StringMember(AsObject(parse(data)).value, "err_message_en").Some?
    ensures r.Some? ==> AsObject(parse(data)).value["err_message_en"] == JString(r.value)
  {
    match AsObject(parse(data))
    case None => None
    case Some(json) => StringMember(json, "err_message_en")
  }

  /**
   * The completion handler (lines 57-108, logging aside): a transport
   * error first, then missing data, then a non-2xx status with the fallback
   * message; otherwise the decode, whose failure gives a server error only
   * when `err_message_en` is a string.
   */
  function Classify<T>(reply: Reply, parse: seq<byte> -> Option<Json>, decode: seq<byte> -> Decoding<T>): (r: Result<T, RequestError>)
    ensures reply.error.Some? ==> r == Failure(Transport(reply.error.value))
    ensures reply.error.None? && reply.data.None? ==> r == Failure(Network(Networking.NoData))
    ensures reply.error.None? && reply.data.Some? && !DecodeReached(reply.response) ==>
      r == Failure(Network(Networking.ServerError(FallbackMessage(StatusCode(reply.response).value, reply.data.value, parse))))
    ensures reply.error.None? && reply.data.Some? && DecodeReached(reply.response) && decode(reply.data.value).DecodeFailed? ==>
      r == Failure(Network(
        match EnglishMessage(reply.data.value, parse)
        case Some(m) => Networking.ServerError(m)
        case None => Networking.DecodingError))
    ensures r.Success? <==> reply.error.None? && reply.data.Some? && DecodeReached(reply.response) && decode(reply.data.value).Decoded?
    ensures r.Success? ==> decode(reply.data.value) == Decoded(r.value)
  {
    if reply.error.Some? then Failure(Transport(reply.error.value))
    else if reply.data.None? then Failure(Network(Networking.NoData))
    else
      var data := reply.data.value;
      if !DecodeReached(reply.response) then
        Failure(Network(Networking.ServerError(FallbackMessage(StatusCode(reply.response).value, data, parse))))
      else
        match decode(data)
        case Decoded(v) => Success(v)
        case DecodeFailed =>
          match EnglishMessage(data, parse)
          case Some(m) => Failure(Network(Networking.ServerError(m)))
          case None => Failure(Network(Networking.DecodingError))
  }

  /** The data task's completion handler, step by step, building the non-2xx message in a variable. */
  method Complete<T>(reply: Reply, parse: seq<byte> -> Option<Json>, decode: seq<byte> -> Decoding<T>) returns (result: Result<T, RequestError>)
    ensures result == Classify(reply, parse, decode)
  {
    if reply.error.Some? {
      return Failure(Transport(reply.error.value));
    }
    if reply.data.None? {
      return Failure(Network(Networking.NoData));
    }
    var data := reply.data.value;
    var status := StatusCode(reply.response);
    if status.Some? && !IsSuccessStatus(status.value) {
      var errorMessage := NonSuccessMessage(status.value, data, parse);
      return Failure(Network(Networking.ServerError(errorMessage)));
    }
    match decode(data)
    case Decoded(v) =>
      result := Success(v);
    case DecodeFailed =>
      var english := EnglishMessage(data, parse);
      if english.Some? {
        result := Failure(Network(Networking.ServerError(english.value)));
      } else {
        result := Failure(Network(Networking.DecodingError));
      }
  }

  /** A body whose only message is under `err_message` or `message` still gives `decodingError` after a 2xx decode failure. */
  lemma OtherKeysIgnoredOnDecodeFailure<T>(reply: Reply, parse: seq<byte> -> Option<Json>, decode: seq<byte> -> Decoding<T>)
    requires reply.error.None? && reply.data.Some? && DecodeReached(reply.response) && decode(reply.data.value).DecodeFailed?
    requires AsObject(parse(reply.data.value)).Some?
    requires StringMember(AsObject(parse(reply.data.value)).value, "err_message_en").None?
    ensures Classify(reply, parse, decode) == Failure(Network(Networking.DecodingError))
  {
  }

  // ---------------------------------------------------------------------
  // Building and sending a request

  /**
   * The request lines 36-52 prepare: the endpoint's URL and verb,
   * `Content-Type: application/json` always, `Authorization` exactly when
   * the keychain holds a token, and the serialised body when there is one,
   * which therefore must have serialised.
   */
  predicate Prepared<T>(request: URLRequest, endpoint: API.APIEndpoint, body: Option<Dictionary>, platform: Platform<T>) {
    && request.url == API.Url(endpoint, platform.baseURL)
    && request.httpMethod == API.RawValue(API.Method(endpoint))
    && request.headers.Keys == {ContentTypeField} + (if platform.token.Some? then {AuthorizationField} else {})
    && request.headers[ContentTypeField] == JsonContentType
    && (platform.token.Some? ==> request.headers[AuthorizationField] == BearerValue(platform.token.value))
    && (body.None? ==> request.httpBody.None?)
    && (body.Some? ==> platform.serialize(body.value).Serialized? && request.httpBody == Some(platform.serialize(body.value).bytes))
  }

  /**
   * `request(endpoint:body:completion:)`: nothing is sent when the URL is
   * refused (`invalidURL`) or when serialising the body throws (that
   * error); otherwise the prepared request is sent and its reply
   * classified.
   */
  method Request<T>(endpoint: API.APIEndpoint, body: Option<Dictionary>, platform: Platform<T>)
    returns (sent: Option<URLRequest>, result: Result<T, RequestError>)
    ensures sent.None? <==> !platform.urlAccepts(API.Url(endpoint, platform.baseURL)) || (body.Some? && platform.serialize(body.value).Threw?)
    ensures !platform.urlAccepts(API.Url(endpoint, platform.baseURL)) ==> result == Failure(Network(Networking.InvalidURL))
    ensures platform.urlAccepts(API.Url(endpoint, platform.baseURL)) && body.Some? && platform.serialize(body.value).Threw? ==>
      result == Failure(Serialization(platform.serialize(body.value).reason))
    ensures sent.Some? ==> Prepared(sent.value, endpoint, body, platform)
    ensures sent.Some? ==> result == Classify(platform.send(sent.value), platform.parse, platform.decode)
  {
    var url := API.Url(endpoint, platform.baseURL);
    if !platform.urlAccepts(url) {
      return None, Failure(Network(Networking.InvalidURL));
    }
    var request := NewRequest(url);
    request := request.(httpMethod := API.RawValue(API.Method(endpoint)));
    request := SetValue(request, JsonContentType, ContentTypeField);
    if platform.token.Some? {
      request := SetValue(request, BearerValue(platform.token.value), AuthorizationField);
    }
    if body.Some? {
      match platform.serialize(body.value)
      case Serialized(bytes) =>
        request := request.(httpBody := Some(bytes));
      case Threw(reason) =>
        return None, Failure(Serialization(reason));
    }
    var reply := platform.send(request);
    result := Complete(reply, platform.parse, platform.decode);
    sent := Some(request);
  }
}
