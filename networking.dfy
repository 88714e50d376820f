/**
 * The current HTTP client, BullionTest/Networking/NetworkManager.swift:
 * its error type, how `performRequest` fills in the request (method,
 * `Content-Type`, bearer token, JSON or multipart body), how the completion
 * handler classifies what the data task reports, the multipart body
 * encoder, the error-message lookup and the debug truncation of response
 * dictionaries.
 */
module Networking {
  import opened Common
  import opened Json
  import opened Foundation
  import Text
  import Utf8
  import API = APIConfiguration

  // ---------------------------------------------------------------------
  // Errors

  datatype NetworkError = InvalidURL | NoData | DecodingError | ServerError(message: string)

  /** `errorDescription`. */
  function ErrorDescription(e: NetworkError): string {
    match e
    case InvalidURL => "Invalid URL"
    case NoData => "No data received from server"
    case DecodingError => "Failed to decode response"
    case ServerError(message) => message
  }

  /**
   * A server error is described by its own message, and the three fixed
   * descriptions are distinct, so a description names its error among them.
   */
  lemma ErrorDescriptionFaithful(e1: NetworkError, e2: NetworkError)
    ensures e1.ServerError? ==> ErrorDescription(e1) == e1.message
    ensures !e1.ServerError? && !e2.ServerError? ==> (ErrorDescription(e1) == ErrorDescription(e2) <==> e1 == e2)
  {
    if !e1.ServerError? && !e2.ServerError? && e1 != e2 {
      var d1, d2 := ErrorDescription(e1), ErrorDescription(e2);
      assert d1[0] != d2[0] || |d1| != |d2|;
    }
  }

  /** The `Error` a completion handler receives: the data task's own error, or a `NetworkError`. */
  datatype RequestError = Transport(cause: TransportError) | Network(error: NetworkError)

  // ---------------------------------------------------------------------
  // Error messages in a response body

  /** The keys `parseErrorMessage` tries, in order. */
  const ErrorMessageKeys: seq<string> := ["err_message_en", "err_message", "message"]

  /**
   * `parseErrorMessage(from:)`: when the body is a JSON object, the first of
   * `err_message_en`, `err_message` and `message` whose value is a string;
   * `None` when none is, or when the body is not a JSON object.
   */
  function ParseErrorMessage(data: seq<byte>, parse: seq<byte> -> Option<Json>): (r: Option<string>)
    ensures AsObject(parse(data)).None? ==> r.None?
    ensures AsObject(parse(data)).Some? ==> r == FirstStringMember(AsObject(parse(data)).value, ErrorMessageKeys)
  {
    match AsObject(parse(data))
    case None => None
    case Some(json) =>
      var r :=
        if StringMember(json, "err_message_en").Some? then StringMember(json, "err_message_en")
        else if StringMember(json, "err_message").Some? then StringMember(json, "err_message")
        else StringMember(json, "message");
      MessageKeysFallback(json);
      r
  }

  lemma MessageKeysFallback(json: map<string, Json>)
    ensures FirstStringMember(json, ErrorMessageKeys) ==
      if StringMember(json, "err_message_en").Some? then StringMember(json, "err_message_en")
      else if StringMember(json, "err_message").Some? then StringMember(json, "err_message")
      else StringMember(json, "message")
  {
    var keys := ErrorMessageKeys;
    assert keys[1..] == ["err_message", "message"];
    assert keys[1..][1..] == ["message"];
    assert keys[1..][1..][1..] == [];
    assert FirstStringMember(json, ["message"]) == StringMember(json, "message");
    assert FirstStringMember(json, ["err_message", "message"]) ==
      if StringMember(json, "err_message").Some? then StringMember(json, "err_message")
      else StringMember(json, "message");
  }

  // ---------------------------------------------------------------------
  // Classifying what the data task reports

  /** The fallback message for a non-2xx status: `"Server returned \(statusCode)"`. */
  function DefaultServerMessage(code: int): (r: string)
    ensures |r| > 16 && r[..16] == "Server returned " && Text.ParseInt(r[16..]) == Some(code)
  {
    var r := "Server returned " + Text.IntToDecimal(code);
    assert r[16..] == Text.IntToDecimal(code);
    Text.IntToDecimalRoundTrip(code);
    r
  }

  /**
   * The data task's completion handler (the debug logging aside): a
   * transport error is passed on as it is; no data gives `noData`; an HTTP
   * status outside 200...299 gives a server error with the body's message
   * or the default one, without decoding; otherwise the typed decode is
   * tried, and when it fails the body's message, if any, gives a server
   * error and otherwise the result is `decodingError`.
   */
  function Classify<T>(reply: Reply, parse: seq<byte> -> Option<Json>, decode: seq<byte> -> Decoding<T>): (r: Result<T, RequestError>)
    ensures reply.error.Some? ==> r == Failure(Transport(reply.error.value))
    ensures reply.error.None? && reply.data.None? ==> r == Failure(Network(NoData))
    ensures reply.error.None? && reply.data.Some? && !DecodeReached(reply.response) ==>
      var code := StatusCode(reply.response).value;
      r == Failure(Network(ServerError(ParseErrorMessage(reply.data.value, parse).GetOr(DefaultServerMessage(code)))))
    ensures reply.error.None? && reply.data.Some? && DecodeReached(reply.response) && decode(reply.data.value).DecodeFailed? ==>
      r == Failure(Network(
        match ParseErrorMessage(reply.data.value, parse)
        case Some(m) => ServerError(m)
        case None => DecodingError))
    ensures r.Success? <==> reply.error.None? && reply.data.Some? && DecodeReached(reply.response) && decode(reply.data.value).Decoded?
    ensures r.Success? ==> decode(reply.data.value) == Decoded(r.value)
  {
    if reply.error.Some? then Failure(Transport(reply.error.value))
    else if reply.data.None? then Failure(Network(NoData))
    else
      var data := reply.data.value;
      if !DecodeReached(reply.response) then
        var code := StatusCode(reply.response).value;
        Failure(Network(ServerError(ParseErrorMessage(data, parse).GetOr(DefaultServerMessage(code)))))
      else
        match decode(data)
        case Decoded(v) => Success(v)
        case DecodeFailed =>
          match ParseErrorMessage(data, parse)
          case Some(m) => Failure(Network(ServerError(m)))
          case None => Failure(Network(DecodingError))
  }

  /** For a non-2xx status the decoder is never consulted: any two decoders give the same result. */
  lemma NonSuccessIgnoresDecoder<T>(reply: Reply, parse: seq<byte> -> Option<Json>, d1: seq<byte> -> Decoding<T>, d2: seq<byte> -> Decoding<T>)
    requires !DecodeReached(reply.response)
    ensures Classify(reply, parse, d1) == Classify(reply, parse, d2)
    ensures Classify(reply, parse, d1).Failure?
  {
  }

  /**
   * `decodingError` is reported exactly when the decode was reached and
   * failed and the body carries none of the three message keys as a string.
   */
  lemma DecodingErrorExactly<T>(reply: Reply, parse: seq<byte> -> Option<Json>, decode: seq<byte> -> Decoding<T>)
    ensures Classify(reply, parse, decode) == Failure(Network(DecodingError)) <==>
      reply.error.None? && reply.data.Some? && DecodeReached(reply.response)
      && decode(reply.data.value).DecodeFailed? && ParseErrorMessage(reply.data.value, parse).None?
  {
  }

  /** The completion handler never reports `invalidURL`: that is decided before anything is sent. */
  lemma ClassifyNeverInvalidURL<T>(reply: Reply, parse: seq<byte> -> Option<Json>, decode: seq<byte> -> Decoding<T>)
    ensures Classify(reply, parse, decode) != Failure(Network(InvalidURL))
  {
  }

  // ---------------------------------------------------------------------
  // Multipart bodies

  const LineBreak := "\r\n"

  /** The `--<boundary>` line that opens every part. */
  function DelimiterLine(boundary: string): string {
    "--" + boundary + LineBreak
  }

  /** A field's disposition line and the blank line after it. No escaping of the key. */
  function FieldDisposition(key: string): string {
    "Content-Disposition: form-data; name=\"" + key + "\"" + LineBreak + LineBreak
  }

  function ValueLine(value: string): string {
    value + LineBreak
  }

  /** The part for one form field: boundary line, disposition line, blank line, the value. No escaping of key or value. */
  function FieldText(boundary: string, key: string, value: string): string {
    DelimiterLine(boundary) + FieldDisposition(key) + ValueLine(value)
  }

  /** The field parts of `params`, one after another in the order given. */
  function FieldsText(params: seq<(string, string)>, boundary: string): string {
    if params == [] then ""
    else
      var last := params[|params| - 1];
      FieldsText(params[..|params| - 1], boundary) + FieldText(boundary, last.0, last.1)
  }

  /** What precedes the image bytes in the image part. */
  function ImageHeader(boundary: string, imageKey: string): string {
    DelimiterLine(boundary) + ImageDisposition(imageKey) + ImageTypeLines
  }

  /** The image's disposition line, with the fixed file name `photo.jpg`. */
  function ImageDisposition(imageKey: string): string {
    "Content-Disposition: form-data; name=\"" + imageKey + "\"; filename=\"photo.jpg\"" + LineBreak
  }

  const ImageTypeLines := "Content-Type: image/jpeg" + LineBreak + LineBreak

  /** The image part: empty without image data; otherwise its header, the raw bytes and a line break. */
  function ImagePart(boundary: string, imageKey: string, imageData: Option<seq<byte>>): seq<byte> {
    match imageData
    case None => []
    case Some(data) => Utf8.Encode(ImageHeader(boundary, imageKey)) + data + Utf8.Encode(LineBreak)
  }

  function ClosingDelimiter(boundary: string): string {
    "--" + boundary + "--" + LineBreak
  }

  /**
   * The body `createMultipartBody` returns: the field parts, then the image
   * part, then the closing delimiter, all text in UTF-8.
   */
  function MultipartBody(params: seq<(string, string)>, imageData: Option<seq<byte>>, imageKey: string, boundary: string): seq<byte> {
    Utf8.Encode(FieldsText(params, boundary)) + ImagePart(boundary, imageKey, imageData) + Utf8.Encode(ClosingDelimiter(boundary))
  }

  /** The body starts with the field parts and always ends with the closing delimiter `--<boundary>--` CR LF. */
  lemma BodyFraming(params: seq<(string, string)>, imageData: Option<seq<byte>>, imageKey: string, boundary: string)
    ensures var body := MultipartBody(params, imageData, imageKey, boundary);
      var fields := Utf8.Encode(FieldsText(params, boundary));
      var close := Utf8.Encode(ClosingDelimiter(boundary));
      |fields| + |close| <= |body| && body[..|fields|] == fields && body[|body| - |close|..] == close
  {
    Framing(Utf8.Encode(FieldsText(params, boundary)), ImagePart(boundary, imageKey, imageData), Utf8.Encode(ClosingDelimiter(boundary)));
  }

  lemma Framing<X>(a: seq<X>, b: seq<X>, c: seq<X>)
    ensures var s := a + b + c;
      |a| + |c| <= |s| && s[..|a|] == a && s[|s| - |c|..] == c
  {
  }

  /** `createMultipartBody(params:imageData:imageKey:boundary:)`, appending piece by piece to an empty `Data`. */
  method CreateMultipartBody(params: seq<(string, string)>, imageData: Option<seq<byte>>, imageKey: string, boundary: string)
    returns (body: seq<byte>)
    ensures body == MultipartBody(params, imageData, imageKey, boundary)
  {
    body := [];
    var lineBreak := LineBreak;
    for i := 0 to |params|
      invariant body == Utf8.Encode(FieldsText(params[..i], boundary))
    {
      var (key, value) := params[i];
      FieldStep(params, boundary, i);
      body := body + Utf8.Encode("--" + boundary + lineBreak);
      body := body + Utf8.Encode("Content-Disposition: form-data; name=\"" + key + "\"" + lineBreak + lineBreak);
      body := body + Utf8.Encode(value + lineBreak);
    }
    assert params[..|params|] == params;
    ghost var fields := body;
    if imageData.Some? {
      body := body + Utf8.Encode("--" + boundary + lineBreak);
      body := body + Utf8.Encode("Content-Disposition: form-data; name=\"" + imageKey + "\"; filename=\"photo.jpg\"" + lineBreak);
      body := body + Utf8.Encode("Content-Type: image/jpeg" + lineBreak + lineBreak);
      body := body + imageData.value;
      body := body + Utf8.Encode(lineBreak);
    }
    body := body + Utf8.Encode("--" + boundary + "--" + lineBreak);
    if imageData.Some? {
      AssemblyWithImage(params, imageData.value, imageKey, boundary, fields, body);
    } else {
      AssemblyWithoutImage(params, imageKey, boundary, fields, body);
    }
  }

  /** One more parameter appends the encoding of its three lines. */
  lemma FieldStep(params: seq<(string, string)>, boundary: string, i: nat)
    requires i < |params|
    ensures Utf8.Encode(FieldsText(params[..i + 1], boundary)) ==
      Utf8.Encode(FieldsText(params[..i], boundary))
      + Utf8.Encode(DelimiterLine(boundary))
      + Utf8.Encode(FieldDisposition(params[i].0))
      + Utf8.Encode(ValueLine(params[i].1))
  {
    var (key, value) := params[i];
    var before := FieldsText(params[..i], boundary);
    FieldsTextStep(params, boundary, i);
    Utf8.EncodeAppend(before, FieldText(boundary, key, value));
    EncodeFieldText(boundary, key, value);
    AppendThree(Utf8.Encode(before), Utf8.Encode(DelimiterLine(boundary)), Utf8.Encode(FieldDisposition(key)), Utf8.Encode(ValueLine(value)));
  }

  lemma AppendThree<X>(x: seq<X>, a: seq<X>, b: seq<X>, c: seq<X>)
    ensures x + (a + b + c) == x + a + b + c
  {
  }

  lemma AssemblyWithImage(params: seq<(string, string)>, data: seq<byte>, imageKey: string, boundary: string, fields: seq<byte>, body: seq<byte>)
    requires fields == Utf8.Encode(FieldsText(params, boundary))
    requires body == fields + Utf8.Encode(DelimiterLine(boundary)) + Utf8.Encode(ImageDisposition(imageKey)) + Utf8.Encode(ImageTypeLines)
      + data + Utf8.Encode(LineBreak) + Utf8.Encode(ClosingDelimiter(boundary))
    ensures body == MultipartBody(params, Some(data), imageKey, boundary)
  {
    EncodeImageHeader(boundary, imageKey);
    GroupMiddle(fields, Utf8.Encode(DelimiterLine(boundary)), Utf8.Encode(ImageDisposition(imageKey)), Utf8.Encode(ImageTypeLines),
      data, Utf8.Encode(LineBreak), Utf8.Encode(ClosingDelimiter(boundary)));
  }

  lemma GroupMiddle<X>(f: seq<X>, a: seq<X>, b: seq<X>, c: seq<X>, d: seq<X>, l: seq<X>, z: seq<X>)
    ensures f + a + b + c + d + l + z == f + ((a + b + c) + d + l) + z
  {
  }

  lemma AssemblyWithoutImage(params: seq<(string, string)>, imageKey: string, boundary: string, fields: seq<byte>, body: seq<byte>)
    requires fields == Utf8.Encode(FieldsText(params, boundary))
    requires body == fields + Utf8.Encode(ClosingDelimiter(boundary))
    ensures body == MultipartBody(params, None, imageKey, boundary)
  {
  }

  /** Appending the three lines of a field part one by one gives the encoding of the whole part. */
  lemma EncodeFieldText(boundary: string, key: string, value: string)
    ensures Utf8.Encode(FieldText(boundary, key, value)) ==
      Utf8.Encode(DelimiterLine(boundary)) + Utf8.Encode(FieldDisposition(key)) + Utf8.Encode(ValueLine(value))
  {
    EncodeThree(DelimiterLine(boundary), FieldDisposition(key), ValueLine(value));
  }

  lemma EncodeImageHeader(boundary: string, imageKey: string)
    ensures Utf8.Encode(ImageHeader(boundary, imageKey)) ==
      Utf8.Encode(DelimiterLine(boundary)) + Utf8.Encode(ImageDisposition(imageKey)) + Utf8.Encode(ImageTypeLines)
  {
    EncodeThree(DelimiterLine(boundary), ImageDisposition(imageKey), ImageTypeLines);
  }

  /** Appending three strings one after the other appends the encoding of their concatenation. */
  lemma EncodeThree(a: string, b: string, c: string)
    ensures Utf8.Encode(a + b + c) == Utf8.Encode(a) + Utf8.Encode(b) + Utf8.Encode(c)
  {
    Utf8.EncodeAppend(a + b, c);
    Utf8.EncodeAppend(a, b);
  }

  /** The parts of the first `j` parameters are a prefix of the parts of all of them. */
  lemma {:induction false} FieldsTextPrefix(params: seq<(string, string)>, boundary: string, j: nat)
    requires j <= |params|
    ensures FieldsText(params[..j], boundary) <= FieldsText(params, boundary)
    decreases |params| - j
  {
    if j < |params| {
      FieldsTextPrefix(params, boundary, j + 1);
      FieldsTextStep(params, boundary, j);
    } else {
      assert params[..j] == params;
    }
  }

  /** `part` occurs in `s` at offset `off`. */
  ghost predicate PartAt(s: seq<byte>, off: int, part: seq<byte>) {
    0 <= off && off + |part| <= |s| && s[off..off + |part|] == part
  }

  /**
   * Every parameter contributes its own part, unchanged, at the offset of
   * the parameters before it.
   */
  lemma FieldPartInBody(params: seq<(string, string)>, imageData: Option<seq<byte>>, imageKey: string, boundary: string, i: nat)
    requires i < |params|
    ensures PartAt(MultipartBody(params, imageData, imageKey, boundary),
      |Utf8.Encode(FieldsText(params[..i], boundary))|, Utf8.Encode(FieldText(boundary, params[i].0, params[i].1)))
  {
    FieldPartInFields(params, boundary, i);
    BodyShape(params, imageData, imageKey, boundary);
    PartAtAppend(Utf8.Encode(FieldsText(params, boundary)), ImagePart(boundary, imageKey, imageData) + Utf8.Encode(ClosingDelimiter(boundary)),
      |Utf8.Encode(FieldsText(params[..i], boundary))|, Utf8.Encode(FieldText(boundary, params[i].0, params[i].1)));
  }

  /** Every parameter's part sits, unchanged, at the offset of the parameters before it in the encoded field parts. */
  lemma FieldPartInFields(params: seq<(string, string)>, boundary: string, i: nat)
    requires i < |params|
    ensures PartAt(Utf8.Encode(FieldsText(params, boundary)),
      |Utf8.Encode(FieldsText(params[..i], boundary))|, Utf8.Encode(FieldText(boundary, params[i].0, params[i].1)))
  {
    var before := FieldsText(params[..i], boundary);
    var part := FieldText(boundary, params[i].0, params[i].1);
    var rest := FieldsSplit(params, boundary, i);
    EncodeThree(before, part, rest);
    MiddleAt(Utf8.Encode(before), Utf8.Encode(part), Utf8.Encode(rest));
  }

  /** The field parts split around the part of parameter `i`. */
  lemma FieldsSplit(params: seq<(string, string)>, boundary: string, i: nat) returns (rest: string)
    requires i < |params|
    ensures FieldsText(params, boundary) == FieldsText(params[..i], boundary) + FieldText(boundary, params[i].0, params[i].1) + rest
  {
    var all := FieldsText(params, boundary);
    var upTo := FieldsText(params[..i + 1], boundary);
    FieldsTextStep(params, boundary, i);
    FieldsTextPrefix(params, boundary, i + 1);
    rest := all[|upTo|..];
    assert all == upTo + rest;
  }

  lemma MiddleAt(a: seq<byte>, b: seq<byte>, c: seq<byte>)
    ensures PartAt(a + b + c, |a|, b)
  {
    assert (a + b + c)[..|a| + |b|] == a + b;
  }

  lemma PartAtAppend(s: seq<byte>, tail: seq<byte>, off: int, part: seq<byte>)
    requires PartAt(s, off, part)
    ensures PartAt(s + tail, off, part)
  {
    assert (s + tail)[off..off + |part|] == s[off..off + |part|];
  }

  lemma BodyShape(params: seq<(string, string)>, imageData: Option<seq<byte>>, imageKey: string, boundary: string)
    ensures MultipartBody(params, imageData, imageKey, boundary)
      == Utf8.Encode(FieldsText(params, boundary)) + (ImagePart(boundary, imageKey, imageData) + Utf8.Encode(ClosingDelimiter(boundary)))
  {
    Associative(Utf8.Encode(FieldsText(params, boundary)), ImagePart(boundary, imageKey, imageData), Utf8.Encode(ClosingDelimiter(boundary)));
  }

  lemma FieldsTextStep(params: seq<(string, string)>, boundary: string, i: nat)
    requires i < |params|
    ensures FieldsText(params[..i + 1], boundary) == FieldsText(params[..i], boundary) + FieldText(boundary, params[i].0, params[i].1)
  {
    var p := params[..i + 1];
    assert p[..|p| - 1] == params[..i];
  }

  /** Without image data the body is pure text: the field parts followed by the closing delimiter. */
  lemma BodyWithoutImage(params: seq<(string, string)>, imageKey: string, boundary: string)
    ensures Utf8.Decode(MultipartBody(params, None, imageKey, boundary)) == Some(FieldsText(params, boundary) + ClosingDelimiter(boundary))
  {
    var text := FieldsText(params, boundary) + ClosingDelimiter(boundary);
    Utf8.EncodeAppend(FieldsText(params, boundary), ClosingDelimiter(boundary));
    assert MultipartBody(params, None, imageKey, boundary) == Utf8.Encode(text);
    Utf8.DecodeEncode(text);
  }

  /** The field parts as they are sent. */
  function FieldsBytes(params: seq<(string, string)>, boundary: string): seq<byte> {
    Utf8.Encode(FieldsText(params, boundary))
  }

  /** The image header as it is sent. */
  function HeaderBytes(boundary: string, imageKey: string): seq<byte> {
    Utf8.Encode(ImageHeader(boundary, imageKey))
  }

  /**
   * With image data, the image header follows the field parts and the
   * image's bytes follow the header unchanged.
   */
  lemma BodyWithImage(params: seq<(string, string)>, data: seq<byte>, imageKey: string, boundary: string)
    ensures PartAt(MultipartBody(params, Some(data), imageKey, boundary), |FieldsBytes(params, boundary)|, HeaderBytes(boundary, imageKey))
    ensures PartAt(MultipartBody(params, Some(data), imageKey, boundary),
      |FieldsBytes(params, boundary)| + |HeaderBytes(boundary, imageKey)|, data)
  {
    ImageBodyShape(params, data, imageKey, boundary);
    MiddleParts(MultipartBody(params, Some(data), imageKey, boundary), FieldsBytes(params, boundary), HeaderBytes(boundary, imageKey),
      data, Utf8.Encode(LineBreak) + Utf8.Encode(ClosingDelimiter(boundary)));
  }

  lemma ImageBodyShape(params: seq<(string, string)>, data: seq<byte>, imageKey: string, boundary: string)
    ensures MultipartBody(params, Some(data), imageKey, boundary) ==
      Utf8.Encode(FieldsText(params, boundary)) + Utf8.Encode(ImageHeader(boundary, imageKey))
      + (data + (Utf8.Encode(LineBreak) + Utf8.Encode(ClosingDelimiter(boundary))))
  {
    Regroup(Utf8.Encode(FieldsText(params, boundary)), Utf8.Encode(ImageHeader(boundary, imageKey)), data,
      Utf8.Encode(LineBreak), Utf8.Encode(ClosingDelimiter(boundary)));
  }

  lemma Regroup<X>(f: seq<X>, h: seq<X>, d: seq<X>, l: seq<X>, c: seq<X>)
    ensures f + (h + d + l) + c == f + h + (d + (l + c))
  {
  }

  lemma MiddleParts(body: seq<byte>, f: seq<byte>, h: seq<byte>, data: seq<byte>, rest: seq<byte>)
    requires body == f + h + (data + rest)
    ensures PartAt(body, |f|, h) && PartAt(body, |f| + |h|, data)
  {
    MiddleAt(f, h, data + rest);
    assert f + h + (data + rest) == (f + h) + data + rest;
    MiddleAt(f + h, data, rest);
  }

  /**
   * An image part is emitted if and only if there is image data: right
   * after the field parts and the `--<boundary>` that every delimiter
   * starts with, an image part continues with CR, while the closing
   * delimiter continues with `-`.
   */
  lemma ImagePartIffImageData(params: seq<(string, string)>, imageData: Option<seq<byte>>, imageKey: string, boundary: string)
    ensures var body := MultipartBody(params, imageData, imageKey, boundary);
      var at := |Utf8.Encode(FieldsText(params, boundary))| + |Utf8.Encode("--" + boundary)|;
      at < |body| && (body[at] == '\r' as int <==> imageData.Some?)
  {
    if imageData.Some? {
      ByteAfterFieldsWithImage(params, imageData.value, imageKey, boundary);
    } else {
      ByteAfterFieldsWithoutImage(params, imageKey, boundary);
    }
  }

  lemma ByteAfterFieldsWithImage(params: seq<(string, string)>, data: seq<byte>, imageKey: string, boundary: string)
    ensures var body := MultipartBody(params, Some(data), imageKey, boundary);
      var at := |Utf8.Encode(FieldsText(params, boundary))| + |Utf8.Encode("--" + boundary)|;
      at < |body| && body[at] == '\r' as int
  {
    var fields := Utf8.Encode(FieldsText(params, boundary));
    var header := ImageHeader(boundary, imageKey);
    var rest := header[|"--" + boundary|..];
    AfterDashes(header, boundary, '\r');
    ImageBodyShape(params, data, imageKey, boundary);
    ByteAfter(fields, Utf8.Encode("--" + boundary), Utf8.Encode(rest), data + (Utf8.Encode(LineBreak) + Utf8.Encode(ClosingDelimiter(boundary))));
  }

  lemma ByteAfterFieldsWithoutImage(params: seq<(string, string)>, imageKey: string, boundary: string)
    ensures var body := MultipartBody(params, None, imageKey, boundary);
      var at := |Utf8.Encode(FieldsText(params, boundary))| + |Utf8.Encode("--" + boundary)|;
      at < |body| && body[at] == '-' as int
  {
    var fields := Utf8.Encode(FieldsText(params, boundary));
    var close := ClosingDelimiter(boundary);
    var rest := close[|"--" + boundary|..];
    AfterDashes(close, boundary, '-');
    BodyShape(params, None, imageKey, boundary);
    ByteAfter(fields, Utf8.Encode("--" + boundary), Utf8.Encode(rest), []);
    assert fields + Utf8.Encode(close) == fields + (Utf8.Encode("--" + boundary) + Utf8.Encode(rest)) + [];
  }

  /** A string that starts with `--<boundary>` then `c` encodes as the dashes' encoding followed by that of the rest, which starts with `c`'s byte. */
  lemma AfterDashes(s: string, boundary: string, c: char)
    requires |"--" + boundary| < |s| && s[..|"--" + boundary|] == "--" + boundary && s[|"--" + boundary|] == c
    requires c as int < 0x80
    ensures var rest := s[|"--" + boundary|..];
      Utf8.Encode(s) == Utf8.Encode("--" + boundary) + Utf8.Encode(rest)
      && |Utf8.Encode(rest)| > 0 && Utf8.Encode(rest)[0] == c as int
  {
    var d := "--" + boundary;
    var rest := s[|d|..];
    assert s == d + rest;
    Utf8.EncodeAppend(d, rest);
    assert rest == [rest[0]] + rest[1..];
    Utf8.EncodeAppend([rest[0]], rest[1..]);
  }

  lemma ByteAfter(fields: seq<byte>, dashes: seq<byte>, rest: seq<byte>, tail: seq<byte>)
    requires |rest| > 0
    ensures var s := fields + (dashes + rest) + tail;
      |fields| + |dashes| < |s| && s[|fields| + |dashes|] == rest[0]
  {
  }

  // ---------------------------------------------------------------------
  // Building and sending a request

  const BoundaryPrefix := "Boundary-"
  const DefaultImageKey := "photo"
  const MultipartContentTypePrefix := "multipart/form-data; boundary="

  /** The arguments of `performRequest`. */
  datatype Call = Call(
    endpoint: API.APIEndpoint,
    body: Option<Dictionary>,
    isMultipart: bool,
    imageData: Option<seq<byte>>,
    imageKey: Option<string>)

  predicate AllStrings(d: Dictionary) {
    forall i :: 0 <= i < |d| ==> d[i].1.JString?
  }

  /** `body as? [String: String] ?? [:]`: the entries when every value is a string, and no entries otherwise. */
  function StringParams(body: Option<Dictionary>): (r: seq<(string, string)>)
    ensures body.Some? && AllStrings(body.value) ==>
      |r| == |body.value| && forall i :: 0 <= i < |r| ==> r[i] == (body.value[i].0, body.value[i].1.s)
    ensures !(body.Some? && AllStrings(body.value)) ==> r == []
  {
    if body.Some? && AllStrings(body.value) then
      var d := body.value;
      seq(|d|, i requires 0 <= i < |d| => (d[i].0, d[i].1.s))
    else []
  }

  /** `params` passed where `[String: Any]?` is expected. */
  function AsDictionary(params: seq<(string, string)>): (r: Dictionary)
    ensures |r| == |params| && forall i :: 0 <= i < |r| ==> r[i] == (params[i].0, JString(params[i].1))
  {
    seq(|params|, i requires 0 <= i < |params| => (params[i].0, JString(params[i].1)))
  }

  /** Casting the dictionary of strings back to `[String: String]` gives the parameters again. */
  lemma StringParamsRoundTrip(params: seq<(string, string)>)
    ensures StringParams(Some(AsDictionary(params))) == params
  {
  }

  /**
   * The request lines 44-61 prepare: the endpoint's URL and verb; an
   * `Authorization` field exactly when the keychain holds a token; and then
   * either a multipart `Content-Type` and body with boundary
   * `Boundary-<uuid>` and image field name defaulting to `photo`, or
   * `application/json` with the serialised body, which is dropped when
   * serialisation throws.
   */
  predicate Prepared<T>(request: URLRequest, call: Call, platform: Platform<T>) {
    var boundary := BoundaryPrefix + platform.uuid;
    && request.url == API.Url(call.endpoint, platform.baseURL)
    && request.httpMethod == API.RawValue(API.Method(call.endpoint))
    && request.headers.Keys == {ContentTypeField} + (if platform.token.Some? then {AuthorizationField} else {})
    && (platform.token.Some? ==> request.headers[AuthorizationField] == BearerValue(platform.token.value))
    && request.headers[ContentTypeField] == (if call.isMultipart then MultipartContentTypePrefix + boundary else JsonContentType)
    && request.httpBody ==
      if call.isMultipart then Some(MultipartBody(StringParams(call.body), call.imageData, call.imageKey.GetOr(DefaultImageKey), boundary))
      else if call.body.None? then None
      else TrySerialize(platform.serialize(call.body.value))
  }

  /**
   * Lines 39-61: `None` when `URL(string:)` refuses the endpoint's URL, and
   * otherwise the prepared request.
   */
  method BuildRequest<T>(call: Call, platform: Platform<T>) returns (built: Option<URLRequest>)
    ensures built.None? <==> !platform.urlAccepts(API.Url(call.endpoint, platform.baseURL))
    ensures built.Some? ==> Prepared(built.value, call, platform)
  {
    var url := API.Url(call.endpoint, platform.baseURL);
    if !platform.urlAccepts(url) {
      return None;
    }
    var request := NewRequest(url);
    request := request.(httpMethod := API.RawValue(API.Method(call.endpoint)));
    if platform.token.Some? {
      request := SetValue(request, BearerValue(platform.token.value), AuthorizationField);
    }
    if call.isMultipart {
      var boundary := BoundaryPrefix + platform.uuid;
      request := SetValue(request, MultipartContentTypePrefix + boundary, ContentTypeField);
      var body := CreateMultipartBody(StringParams(call.body), call.imageData, call.imageKey.GetOr(DefaultImageKey), boundary);
      request := request.(httpBody := Some(body));
    } else {
      request := SetValue(request, JsonContentType, ContentTypeField);
      if call.body.Some? {
        request := request.(httpBody := TrySerialize(platform.serialize(call.body.value)));
      }
    }
    return Some(request);
  }

  /**
   * `performRequest`: an unusable URL completes with `invalidURL` and sends
   * nothing; otherwise the prepared request is sent and the completion
   * receives the classification of the reply.
   */
  method PerformRequest<T>(call: Call, platform: Platform<T>) returns (sent: Option<URLRequest>, result: Result<T, RequestError>)
    ensures sent.None? <==> !platform.urlAccepts(API.Url(call.endpoint, platform.baseURL))
    ensures sent.None? ==> result == Failure(Network(InvalidURL))
    ensures sent.Some? ==> Prepared(sent.value, call, platform)
    ensures sent.Some? ==> result == Classify(platform.send(sent.value), platform.parse, platform.decode)
  {
    sent := BuildRequest(call, platform);
    if sent.None? {
      result := Failure(Network(InvalidURL));
    } else {
      var reply := platform.send(sent.value);
      result := Classify(reply, platform.parse, platform.decode);
    }
  }

  /**
   * `request(endpoint:body:completion:)`: a JSON request, whose
   * `Content-Type` is `application/json` and whose body is the serialised
   * dictionary, or none.
   */
  method Request<T>(endpoint: API.APIEndpoint, body: Option<Dictionary>, platform: Platform<T>)
    returns (sent: Option<URLRequest>, result: Result<T, RequestError>)
    ensures sent.None? <==> !platform.urlAccepts(API.Url(endpoint, platform.baseURL))
    ensures sent.None? ==> result == Failure(Network(InvalidURL))
    ensures sent.Some? ==> Prepared(sent.value, Call(endpoint, body, false, None, None), platform)
    ensures sent.Some? ==> sent.value.headers[ContentTypeField] == JsonContentType
    ensures sent.Some? ==> sent.value.httpBody == if body.None? then None else TrySerialize(platform.serialize(body.value))
    ensures sent.Some? ==> result == Classify(platform.send(sent.value), platform.parse, platform.decode)
  {
    sent, result := PerformRequest(Call(endpoint, body, false, None, None), platform);
  }

  /**
   * `multipartRequest(endpoint:params:imageData:imageKey:completion:)`: the
   * body is the multipart encoding of exactly the given parameters, under
   * boundary `Boundary-<uuid>`, with the given image field name.
   */
  method MultipartRequest<T>(endpoint: API.APIEndpoint, params: seq<(string, string)>, imageData: Option<seq<byte>>, imageKey: string, platform: Platform<T>)
    returns (sent: Option<URLRequest>, result: Result<T, RequestError>)
    ensures sent.None? <==> !platform.urlAccepts(API.Url(endpoint, platform.baseURL))
    ensures sent.None? ==> result == Failure(Network(InvalidURL))
    ensures sent.Some? ==> Prepared(sent.value, Call(endpoint, Some(AsDictionary(params)), true, imageData, Some(imageKey)), platform)
    ensures sent.Some? ==> sent.value.headers[ContentTypeField] == MultipartContentTypePrefix + BoundaryPrefix + platform.uuid
    ensures sent.Some? ==> sent.value.httpBody == Some(MultipartBody(params, imageData, imageKey, BoundaryPrefix + platform.uuid))
    ensures sent.Some? ==> result == Classify(platform.send(sent.value), platform.parse, platform.decode)
  {
    StringParamsRoundTrip(params);
    sent, result := PerformRequest(Call(endpoint, Some(AsDictionary(params)), true, imageData, Some(imageKey)), platform);
  }

  /** A multipart call without an image key names the image field `photo`. */
  lemma DefaultImageKeyIsPhoto<T>(request: URLRequest, call: Call, platform: Platform<T>)
    requires Prepared(request, call, platform) && call.isMultipart && call.imageKey.None?
    ensures request.httpBody == Some(MultipartBody(StringParams(call.body), call.imageData, "photo", BoundaryPrefix + platform.uuid))
  {
  }

  // ---------------------------------------------------------------------
  // Debug truncation of response dictionaries

  const TruncationLength := 100

  /** `value as? [[String: Any]]`: an array whose every element is an object. */
  predicate AllObjects(items: seq<Json>) {
    forall i :: 0 <= i < |items| ==> items[i].JObject?
  }

  /**
   * What `truncateStrings(in:)` stores for one value: a string longer than
   * 100 characters becomes its first 100 followed by "...", an object and
   * an array of objects are truncated recursively, and anything else is
   * kept.
   */
  function TruncateValue(v: Json): Json
    decreases v, 1
  {
    match v
    case JString(s) => if |s| > TruncationLength then JString(s[..TruncationLength] + "...") else v
    case JObject(fields) => JObject(Truncated(fields))
    case JArray(items) =>
      if AllObjects(items) then JArray(seq(|items|, i requires 0 <= i < |items| => TruncateValue(items[i])))
      else v
    case _ => v
  }

  /** `truncateStrings(in:)` as a function of the dictionary: every entry's value truncated. */
  function Truncated(fields: map<string, Json>): (r: map<string, Json>)
    ensures r.Keys == fields.Keys
    decreases JObject(fields), 0
  {
    map k | k in fields :: TruncateValue(fields[k])
  }

  /**
   * `truncateStrings(in:)`: copies the dictionary and overwrites the entries
   * to be shortened, visiting the keys in some order.
   */
  method TruncateStrings(dict: map<string, Json>) returns (newDict: map<string, Json>)
    ensures newDict == Truncated(dict)
    decreases JObject(dict)
  {
    newDict := dict;
    var pending := dict.Keys;
    while pending != {}
      invariant pending <= dict.Keys && newDict.Keys == dict.Keys
      invariant forall k :: k in pending ==> newDict[k] == dict[k]
      invariant forall k :: k in dict && k !in pending ==> newDict[k] == TruncateValue(dict[k])
      decreases pending
    {
      var key :| key in pending;
      pending := pending - {key};
      var value := dict[key];
      if value.JString? && |value.s| > TruncationLength {
        newDict := newDict[key := JString(value.s[..TruncationLength] + "...")];
      } else if value.JObject? {
        var inner := TruncateStrings(value.fields);
        newDict := newDict[key := JObject(inner)];
      } else if value.JArray? && AllObjects(value.items) {
        var mapped := TruncateArray(value.items);
        newDict := newDict[key := JArray(mapped)];
      }
    }
  }

  /** `array.map { truncateStrings(in: $0) }` over an array of objects. */
  method TruncateArray(items: seq<Json>) returns (mapped: seq<Json>)
    requires AllObjects(items)
    ensures mapped == seq(|items|, i requires 0 <= i < |items| => TruncateValue(items[i]))
    decreases JArray(items)
  {
    mapped := [];
    for i := 0 to |items|
      invariant |mapped| == i
      invariant forall j :: 0 <= j < i ==> mapped[j] == TruncateValue(items[j])
    {
      assert items[i] < JArray(items);
      var inner := TruncateStrings(items[i].fields);
      mapped := mapped + [JObject(inner)];
    }
  }

  /** Truncating twice changes nothing more than truncating once. */
  lemma {:induction false} TruncateValueIdempotent(v: Json)
    ensures TruncateValue(TruncateValue(v)) == TruncateValue(v)
    decreases v, 1
  {
    match v
    case JString(s) =>
    case JObject(fields) => TruncatedIdempotent(fields);
    case JArray(items) =>
      if AllObjects(items) {
        var once := seq(|items|, i requires 0 <= i < |items| => TruncateValue(items[i]));
        assert AllObjects(once);
        forall i | 0 <= i < |items| ensures TruncateValue(once[i]) == once[i] {
          TruncateValueIdempotent(items[i]);
        }
      }
    case _ =>
  }

  lemma {:induction false} TruncatedIdempotent(fields: map<string, Json>)
    ensures Truncated(Truncated(fields)) == Truncated(fields)
    decreases JObject(fields), 0
  {
    forall k | k in fields ensures TruncateValue(TruncateValue(fields[k])) == TruncateValue(fields[k]) {
      TruncateValueIdempotent(fields[k]);
    }
  }

  /**
   * At the top level of the result, a long string shows its first 100
   * characters followed by "...", so no string is longer than 103, and a
   * value of any other kind keeps its kind.
   */
  lemma TruncatedEntries(fields: map<string, Json>, k: string)
    requires k in fields
    ensures var before, after := fields[k], Truncated(fields)[k];
      && (before.JString? <==> after.JString?)
      && (before.JObject? <==> after.JObject?)
      && (before.JArray? <==> after.JArray?)
      && (before.JString? && |before.s| <= TruncationLength ==> after == before)
      && (before.JString? && |before.s| > TruncationLength ==>
            |after.s| == TruncationLength + 3 && after.s[..TruncationLength] == before.s[..TruncationLength] && after.s[TruncationLength..] == "...")
      && (before.JObject? ==> after == JObject(Truncated(before.fields)))
      && (before.JArray? ==> |after.items| == |before.items|)
      && (before.JArray? && AllObjects(before.items) ==>
            forall i :: 0 <= i < |before.items| ==> after.items[i] == JObject(Truncated(before.items[i].fields)))
      && (before.JArray? && !AllObjects(before.items) ==> after == before)
      && (!before.JString? && !before.JObject? && !before.JArray? ==> after == before)
  {
    var before := fields[k];
    if before.JArray? && AllObjects(before.items) {
      forall i | 0 <= i < |before.items| ensures TruncateValue(before.items[i]) == JObject(Truncated(before.items[i].fields)) {
        assert before.items[i].JObject?;
      }
    }
  }
}
