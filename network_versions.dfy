/**
 * How the two versions of NetworkManager relate: they build the same JSON
 * request and classify replies alike, except after a decode failure, where
 * the older one recognises only `err_message_en`, and except when
 * serialising the body throws, where the older one sends nothing and the
 * current one sends the request without a body.
 */
module NetworkVersions {
  import opened Common
  import opened Json
  import opened Foundation
  import N = Networking
  import L = LegacyNetworking
  import API = APIConfiguration

  /** A result of the current version read as a result of the older one. */
  function AsLegacy<T>(r: Result<T, N.RequestError>): (l: Result<T, L.RequestError>)
    ensures l.Success? <==> r.Success?
    ensures r.Success? ==> l.value == r.value
    ensures r.Failure? && r.error.Transport? ==> l == Failure(L.Transport(r.error.cause))
    ensures r.Failure? && r.error.Network? ==> l == Failure(L.Network(r.error.error))
  {
    if r.Success? then Success(r.value)
    else if r.error.Transport? then Failure(L.Transport(r.error.cause))
    else Failure(L.Network(r.error.error))
  }

  /**
   * Reading a result as one of the older manager loses nothing: two results
   * read alike exactly when they are equal, so a `!=` between an older
   * result and a read current one means the two managers report different
   * things.
   */
  lemma AsLegacyInjective<T>(a: Result<T, N.RequestError>, b: Result<T, N.RequestError>)
    ensures AsLegacy(a) == AsLegacy(b) <==> a == b
  {
    if AsLegacy(a) == AsLegacy(b) {
      if a.Success? {
        assert b.Success? && a.value == b.value;
      } else if a.error.Transport? {
        assert AsLegacy(b) == Failure(L.Transport(a.error.cause));
      } else {
        assert AsLegacy(b) == Failure(L.Network(a.error.error));
      }
    }
  }

  /** Whenever the decode is not reached, or succeeds, both versions give the same result. */
  lemma AgreeUnlessDecodeFails<T>(reply: Reply, parse: seq<byte> -> Option<Json>, decode: seq<byte> -> Decoding<T>)
    requires !(reply.error.None? && reply.data.Some? && DecodeReached(reply.response) && decode(reply.data.value).DecodeFailed?)
    ensures L.Classify(reply, parse, decode) == AsLegacy(N.Classify(reply, parse, decode))
  {
    if reply.error.None? && reply.data.Some? && !DecodeReached(reply.response) {
      L.FallbackMessageDefault(StatusCode(reply.response).value, reply.data.value, parse);
    }
  }

  /** After a decode failure both versions agree whenever `err_message_en` is a string. */
  lemma AgreeOnEnglishMessage<T>(reply: Reply, parse: seq<byte> -> Option<Json>, decode: seq<byte> -> Decoding<T>)
    requires reply.data.Some? && AsObject(parse(reply.data.value)).Some?
    requires StringMember(AsObject(parse(reply.data.value)).value, "err_message_en").Some?
    ensures L.Classify(reply, parse, decode) == AsLegacy(N.Classify(reply, parse, decode))
  {
    if reply.error.None? && !DecodeReached(reply.response) {
      L.FallbackMessageDefault(StatusCode(reply.response).value, reply.data.value, parse);
    }
  }

  /**
   * The versions differ exactly on a reached decode that fails while the
   * body carries no `err_message_en` string but does carry `err_message`
   * or `message`: the current version reports that message, the older one
   * `decodingError`.
   */
  lemma DifferExactly<T>(reply: Reply, parse: seq<byte> -> Option<Json>, decode: seq<byte> -> Decoding<T>)
    ensures L.Classify(reply, parse, decode) != AsLegacy(N.Classify(reply, parse, decode)) <==>
      && reply.error.None? && reply.data.Some? && DecodeReached(reply.response) && decode(reply.data.value).DecodeFailed?
      && L.EnglishMessage(reply.data.value, parse).None? && N.ParseErrorMessage(reply.data.value, parse).Some?
    ensures L.Classify(reply, parse, decode) != AsLegacy(N.Classify(reply, parse, decode)) ==>
      && N.Classify(reply, parse, decode) == Failure(N.Network(N.ServerError(N.ParseErrorMessage(reply.data.value, parse).value)))
      && L.Classify(reply, parse, decode) == Failure(L.Network(N.DecodingError))
  {
    if !(reply.error.None? && reply.data.Some? && DecodeReached(reply.response) && decode(reply.data.value).DecodeFailed?) {
      AgreeUnlessDecodeFails(reply, parse, decode);
    } else {
      var data := reply.data.value;
      if L.EnglishMessage(data, parse).Some? {
        AgreeOnEnglishMessage(reply, parse, decode);
      }
    }
  }

  /**
   * A 200 response whose body has only `err_message` and does not decode:
   * the versions part ways. A single input, as a witness that the case
   * `DifferExactly` describes does occur.
   */
  lemma DifferOnPlainErrorMessage()
    ensures var data: seq<byte> := [123, 125];
      var parse: seq<byte> -> Option<Json> := d => Some(JObject(map["err_message" := JString("Token expired")]));
      var decode: seq<byte> -> Decoding<int> := d => DecodeFailed;
      var reply := Reply(Some(data), Some(HTTPURLResponse(200)), None);
      && N.Classify(reply, parse, decode) == Failure(N.Network(N.ServerError("Token expired")))
      && L.Classify(reply, parse, decode) == Failure(L.Network(N.DecodingError))
  {
    var data: seq<byte> := [123, 125];
    var parse: seq<byte> -> Option<Json> := d => Some(JObject(map["err_message" := JString("Token expired")]));
    var json := map["err_message" := JString("Token expired")];
    assert "err_message_en" !in json;
    assert StringMember(json, "err_message") == Some("Token expired");
  }

  /** When the body serialises (or there is none), both versions prepare the very same JSON request. */
  lemma SameJsonRequest<T>(request: URLRequest, endpoint: API.APIEndpoint, body: Option<Dictionary>, platform: Platform<T>)
    requires body.None? || platform.serialize(body.value).Serialized?
    ensures N.Prepared(request, N.Call(endpoint, body, false, None, None), platform) <==> L.Prepared(request, endpoint, body, platform)
  {
  }

  /**
   * When serialising the body throws, the current version still prepares a
   * request, without a body, while the older one sends nothing.
   */
  lemma SerializationFailureDiffers<T>(request: URLRequest, endpoint: API.APIEndpoint, body: Dictionary, platform: Platform<T>)
    requires platform.serialize(body).Threw?
    requires N.Prepared(request, N.Call(endpoint, Some(body), false, None, None), platform)
    ensures request.httpBody.None?
    ensures !L.Prepared(request, endpoint, Some(body), platform)
  {
  }
}
