/**
 * The IoT Hub registry REST client (app/services/iothub/iothub_http.py),
 * reduced to what it decides: the requests it sends (verb, URL, headers,
 * body) and how it turns each reply into a return value or an exception.
 * The transport itself (httpx, its timeout, JSON encoding) is outside the
 * model; a reply is given as a value.
 */
module RegistryHttp {
  import opened Wrappers
  import Normalize

  /** The registry REST API version every request names. */
  const ApiVersion: string := "2021-04-12"

  /** The JSON media type every request declares. */
  const JsonMediaType: string := "application/json"

  datatype Verb = Get | Put | Post | Delete

  /** The `authentication` object of a new device: SAS keys left for the hub to generate. */
  datatype Authentication = Authentication(kind: string, primaryKey: string, secondaryKey: string)

  /** The device identity document `create_device` sends. */
  datatype DevicePayload = DevicePayload(deviceId: string, status: string, authentication: Authentication)

  /** A request body: none, a device document, or an already serialised cloud-to-device message. */
  datatype Body = NoBody | DeviceBody(device: DevicePayload) | MessageBody(json: string)

  datatype Request = Request(verb: Verb, url: string, headers: seq<(string, string)>, body: Body)

  /** The decoded body of a reply; `Document` stands for any JSON value other than `null`. */
  datatype JsonBody = Malformed | JsonNull | Document(text: string)

  /** What the transport hands back: an HTTP reply, or an exception raised before one arrived. */
  datatype Reply = HttpReply(status: int, body: JsonBody) | TransportError(reason: string)

  /** The exceptions the client lets escape. */
  datatype RemoteError = HttpStatusError(status: int) | TransportFailure(reason: string) | DecodeError

  /**
   * The value of the first header called `name`, if any: how the receiving
   * side reads the header dictionary. The client has no such function; it
   * serves as the reader the header lemmas are stated with.
   */
  function HeaderValue(headers: seq<(string, string)>, name: string): (r: Option<string>)
    ensures r.Some? <==> exists i :: 0 <= i < |headers| && headers[i].0 == name
    ensures r.Some? ==> (name, r.value) in headers
  {
    if headers == [] then None
    else if headers[0].0 == name then Some(headers[0].1)
    else HeaderValue(headers[1..], name)
  }

  // ---------------------------------------------------------------- URLs

  const DevicesPath: string := "/devices/"
  const QueryPrefix: string := "?api-version="
  const DeviceBoundPath: string := "/messages/deviceBound"

  /** `https://{host}/devices/{id}?api-version=2021-04-12`; the id is inserted unescaped. */
  function DeviceUrl(host: string, id: string): (u: string)
    ensures |u| == |Prefix(host)| + |id| + |Suffix()|
    ensures u[..|Prefix(host)|] == Prefix(host) && u[|u| - |Suffix()|..] == Suffix()
    ensures u[|Prefix(host)|..|u| - |Suffix()|] == id
  {
    Prefix(host) + id + Suffix()
  }

  function Prefix(host: string): string {
    "https://" + host + DevicesPath
  }

  function Suffix(): string {
    QueryPrefix + ApiVersion
  }

  /** The cloud-to-device message URL: the device URL with `/messages/deviceBound` after the id. */
  function C2dUrl(host: string, id: string): (u: string)
    ensures u == DeviceUrl(host, id + DeviceBoundPath)
  {
    "https://" + host + "/devices/" + id + "/messages/deviceBound" + "?api-version=" + ApiVersion
  }

  /**
   * The device id a device URL for `host` names, when `url` has that shape:
   * the registry's reading of the URL. The client has no such function; it is
   * the inverse the URL round-trip lemmas are stated with.
   */
  function DeviceIdOf(host: string, url: string): (r: Option<string>)
    ensures r.Some? ==> DeviceUrl(host, r.value) == url
  {
    var p := Prefix(host);
    var s := Suffix();
    if |p| + |s| <= |url| && url[..|p|] == p && url[|url| - |s|..] == s then
      var id := url[|p|..|url| - |s|];
      assert url == p + id + s;
      Some(id)
    else None
  }

  /** The device URL names its device: the id can be read back from it, so distinct ids get distinct URLs. */
  lemma DeviceUrlRoundTrip(host: string, id: string)
    ensures DeviceIdOf(host, DeviceUrl(host, id)) == Some(id)
  {
    var u := DeviceUrl(host, id);
    var p := Prefix(host);
    var s := Suffix();
    assert u[..|p|] == p;
    assert u[|u| - |s|..] == s;
    assert u[|p|..|u| - |s|] == id;
  }

  lemma DeviceUrlInjective(host: string, a: string, b: string)
    ensures DeviceUrl(host, a) == DeviceUrl(host, b) ==> a == b
  {
    DeviceUrlRoundTrip(host, a);
    DeviceUrlRoundTrip(host, b);
  }

  // ------------------------------------------------------------ requests

  /** The headers of every request but the delete: the SAS token and the JSON content type. */
  function JsonHeaders(token: string): seq<(string, string)> {
    [("Authorization", token), ("Content-Type", JsonMediaType)]
  }

  /** The identity document for a new device: its id, the normalised status and empty SAS keys. */
  function CreatePayload(podId: string, status: Option<string>): (p: DevicePayload)
    ensures p.deviceId == podId
    ensures p.status == "enabled" || p.status == "disabled"
    ensures p.status == "disabled" <==> status.Some? && Normalize.Canonical(status.value) in Normalize.DisableWords
    ensures p.authentication == Authentication("sas", "", "")
  {
    DevicePayload(podId, Normalize.NormalizeDeviceStatus(status), Authentication("sas", "", ""))
  }

  /** `create_device`: PUT of the identity document to the device URL. */
  function CreateRequest(host: string, token: string, podId: string, status: Option<string>): (r: Request)
    ensures r.body.DeviceBody? && r.body.device.deviceId == podId
    ensures r.body.device.status == "disabled" <==> status.Some? && Normalize.Canonical(status.value) in Normalize.DisableWords
  {
    Request(Put, DeviceUrl(host, podId), JsonHeaders(token), DeviceBody(CreatePayload(podId, status)))
  }

  /** `get_identity_device`: GET of the device URL. */
  function GetRequest(host: string, token: string, podId: string): (r: Request)
    ensures r.body.NoBody?
    ensures r.url == CreateRequest(host, token, podId, None).url
    ensures r.headers == CreateRequest(host, token, podId, None).headers
  {
    Request(Get, DeviceUrl(host, podId), JsonHeaders(token), NoBody)
  }

  /** `delete_devices`: unconditional DELETE (`If-Match: *`) of the device URL. */
  function DeleteRequest(host: string, token: string, podId: string): (r: Request)
    ensures r.body.NoBody?
    ensures r.url == GetRequest(host, token, podId).url
  {
    Request(Delete, DeviceUrl(host, podId), [("Authorization", token), ("If-Match", "*"), ("Content-Type", JsonMediaType)], NoBody)
  }

  /** `send_c2d_message`: POST of the serialised payload to the device-bound message URL. */
  function SendRequest(host: string, token: string, deviceId: string, json: string): (r: Request)
    ensures r.body == MessageBody(json)
    ensures r.url == DeviceUrl(host, deviceId + DeviceBoundPath)
    ensures r.headers == GetRequest(host, token, deviceId).headers
  {
    Request(Post, C2dUrl(host, deviceId), JsonHeaders(token), MessageBody(json))
  }

  /** Each request goes to the URL of the device it names, with the verb its operation calls for. */
  lemma RequestsTargetTheirDevice(host: string, token: string, id: string, status: Option<string>, json: string)
    ensures DeviceIdOf(host, CreateRequest(host, token, id, status).url) == Some(id)
    ensures DeviceIdOf(host, GetRequest(host, token, id).url) == Some(id)
    ensures DeviceIdOf(host, DeleteRequest(host, token, id).url) == Some(id)
    ensures DeviceIdOf(host, SendRequest(host, token, id, json).url) == Some(id + DeviceBoundPath)
    ensures CreateRequest(host, token, id, status).verb == Put && GetRequest(host, token, id).verb == Get
    ensures DeleteRequest(host, token, id).verb == Delete && SendRequest(host, token, id, json).verb == Post
  {
    DeviceUrlRoundTrip(host, id);
    DeviceUrlRoundTrip(host, id + DeviceBoundPath);
  }

  /** Every request carries the SAS token as its `Authorization` header and declares JSON content. */
  lemma EveryRequestAuthorized(host: string, token: string, id: string, status: Option<string>, json: string)
    ensures HeaderValue(CreateRequest(host, token, id, status).headers, "Authorization") == Some(token)
    ensures HeaderValue(GetRequest(host, token, id).headers, "Authorization") == Some(token)
    ensures HeaderValue(DeleteRequest(host, token, id).headers, "Authorization") == Some(token)
    ensures HeaderValue(SendRequest(host, token, id, json).headers, "Authorization") == Some(token)
    ensures HeaderValue(CreateRequest(host, token, id, status).headers, "Content-Type") == Some(JsonMediaType)
    ensures HeaderValue(GetRequest(host, token, id).headers, "Content-Type") == Some(JsonMediaType)
    ensures HeaderValue(DeleteRequest(host, token, id).headers, "Content-Type") == Some(JsonMediaType)
    ensures HeaderValue(SendRequest(host, token, id, json).headers, "Content-Type") == Some(JsonMediaType)
  {
    assert "Content-Type" != "Authorization";
    assert "Content-Type" != "If-Match";
  }

  /** Only the delete is conditional, and it matches any version of the device (`If-Match: *`). */
  lemma OnlyDeleteSendsIfMatch(host: string, token: string, id: string, status: Option<string>, json: string)
    ensures HeaderValue(DeleteRequest(host, token, id).headers, "If-Match") == Some("*")
    ensures HeaderValue(CreateRequest(host, token, id, status).headers, "If-Match") == None
    ensures HeaderValue(GetRequest(host, token, id).headers, "If-Match") == None
    ensures HeaderValue(SendRequest(host, token, id, json).headers, "If-Match") == None
  {
    assert "If-Match" != "Authorization";
    assert "If-Match" != "Content-Type";
  }

  // ------------------------------------------------------------- replies

  /** httpx's `is_success`: a 2xx status. */
  predicate IsSuccess(status: int) {
    200 <= status <= 299
  }

  /** `raise_for_status()` together with a transport exception: the error that escapes, if any. */
  function RaiseForStatus(reply: Reply): (e: Option<RemoteError>)
    ensures e.None? <==> reply.HttpReply? && IsSuccess(reply.status)
    ensures reply.TransportError? ==> e == Some(TransportFailure(reply.reason))
    ensures reply.HttpReply? && !IsSuccess(reply.status) ==> e == Some(HttpStatusError(reply.status))
  {
    match reply
    case TransportError(reason) => Some(TransportFailure(reason))
    case HttpReply(status, _) => if IsSuccess(status) then None else Some(HttpStatusError(status))
  }

  /**
   * `get_identity_device`: `None` for a 404, an exception for any other
   * non-2xx status, and the decoded body otherwise (a JSON `null` body is
   * also `None`).
   */
  function GetIdentityOutcome(reply: Reply): (r: Result<Option<string>, RemoteError>)
    ensures reply.HttpReply? && reply.status == 404 ==> r == Success(None)
    ensures r.Failure? <==> reply.TransportError? || (reply.status != 404 && (!IsSuccess(reply.status) || reply.body.Malformed?))
    ensures r == Success(None) <==> reply.HttpReply? && (reply.status == 404 || (IsSuccess(reply.status) && reply.body.JsonNull?))
    ensures r.Success? && r.value.Some? ==> reply.HttpReply? && IsSuccess(reply.status) && reply.body == Document(r.value.value)
  {
    if reply.HttpReply? && reply.status == 404 then Success(None)
    else match RaiseForStatus(reply)
      case Some(e) => Failure(e)
      case None =>
        match reply.body
        case Malformed => Failure(DecodeError)
        case JsonNull => Success(None)
        case Document(text) => Success(Some(text))
  }

  /** `delete_devices`: `True` on a 2xx reply, an exception on anything else. */
  function DeleteOutcome(reply: Reply): (r: Result<bool, RemoteError>)
    ensures r.Success? <==> reply.HttpReply? && IsSuccess(reply.status)
    ensures r.Failure? ==> r.error == RaiseForStatus(reply).value
  {
    match RaiseForStatus(reply)
    case Some(e) => Failure(e)
    case None => Success(true)
  }

  /** `delete_devices` never returns a false value: it returns `True` or raises. */
  lemma DeleteNeverReturnsFalse(reply: Reply)
    ensures DeleteOutcome(reply) != Success(false)
  {
  }

  /** `create_device` and `send_c2d_message`: nothing on a 2xx reply, an exception otherwise. */
  function CreateOutcome(reply: Reply): (r: Result<(), RemoteError>)
    ensures r.Success? <==> reply.HttpReply? && IsSuccess(reply.status)
  {
    match RaiseForStatus(reply)
    case Some(e) => Failure(e)
    case None => Success(())
  }

  function SendOutcome(reply: Reply): (r: Result<(), RemoteError>)
    ensures r.Success? <==> reply.HttpReply? && IsSuccess(reply.status)
  {
    CreateOutcome(reply)
  }

  /** A missing device is "not found" to the lookup but an error to the delete. */
  lemma MissingDeviceOutcomes(body: JsonBody)
    ensures GetIdentityOutcome(HttpReply(404, body)) == Success(None)
    ensures DeleteOutcome(HttpReply(404, body)) == Failure(HttpStatusError(404))
  {
  }
}
