/**
 * The `OutlineVPN` management client (src/index.ts): each public method shapes
 * one request for the server's REST API, sends it through the pinned fetch,
 * and maps the outcome onto the client's tri-state convention: `null` when
 * there is no response, `false` (or `null`, for `getServer`) when the
 * response is not ok or cannot be used, and a value otherwise.
 *
 * Sending is the parameter `send`: `fetchWithPin` (the Fetch module) called
 * with the request and the client's pin and applied to the network. It gives
 * a response (None standing for `null`) or the error the call rejects with.
 * `JSON.parse` of a response body is the parameter `parse` (None when it
 * throws).
 */
module Client {
  import opened Wrappers
  import opened Json
  import Fetch

  /** The request method, as the literal the source passes. */
  datatype Method = GET | PUT | POST | DELETE

  /** `HttpRequest`; the body is the document that `JSON.stringify` serialises. */
  datatype HttpRequest = HttpRequest(url: string, verb: Method, headers: map<string, string>, body: Option<Value>)

  /**
   * How a public method's promise settles: resolved, rejected by an exception
   * of the method's own code, or rejected with the error of `fetchWithPin`.
   */
  datatype Settled = Resolved(value: Value) | Rejected(error: JsError) | FetchFailed(failure: Fetch.FetchError)

  type Send = (HttpRequest, string) -> Result<Option<Fetch.HttpResponse>, Fetch.FetchError>
  type Parse = seq<Fetch.byte> -> Option<Value>

  /** The public methods of `OutlineVPN`, with their arguments. */
  datatype Call =
    | GetServer
    | RenameServer(name: string)
    | SetDefaultDataLimit(bytes: int)
    | DeleteDefaultDataLimit
    | SetHostnameForAccessKeys(hostname: string)
    | SetPortForNewAccessKeys(port: int)
    | GetDataUsage
    | GetDataUserUsage(id: string)
    | GetShareMetrics
    | SetShareMetrics(metricsEnabled: bool)
    | GetUsers
    | GetUser(id: string)
    | CreateUser
    | DeleteUser(id: string)
    | RenameUser(id: string, name: string)
    | AddDataLimit(id: string, bytes: int)
    | DeleteDataLimit(id: string)
    | DisableUser(id: string)
    | EnableUser(id: string)

  /** Methods whose result is `response.ok`, or `null` without a response. */
  predicate IsCommand(call: Call) {
    call.RenameServer? || call.SetDefaultDataLimit? || call.DeleteDefaultDataLimit? ||
    call.SetHostnameForAccessKeys? || call.SetPortForNewAccessKeys? || call.DeleteUser? ||
    call.RenameUser? || call.AddDataLimit? || call.DeleteDataLimit? ||
    call.DisableUser? || call.EnableUser?
  }

  /** Methods whose result is the parsed body, `false` when not ok or unparsable, or `null` without a response. */
  predicate IsQuery(call: Call) {
    call.GetDataUsage? || call.GetShareMetrics? || call.SetShareMetrics? ||
    call.GetUser? || call.CreateUser?
  }

  /** The access-key id a method puts in its URL. */
  function KeyId(call: Call): Option<string> {
    match call
    case GetUser(id) => Some(id)
    case DeleteUser(id) => Some(id)
    case RenameUser(id, _) => Some(id)
    case AddDataLimit(id, _) => Some(id)
    case DeleteDataLimit(id) => Some(id)
    case DisableUser(id) => Some(id)
    case EnableUser(id) => Some(id)
    case _ => None
  }

  const JsonContentType: map<string, string> := map["Content-Type" := "application/json"]

  /** `{ limit: { bytes } }` */
  function LimitPayload(bytes: int): Value {
    Obj(map["limit" := Obj(map["bytes" := Number(bytes)])])
  }

  /** A command method's result: `response.ok`, or `null` without a response. */
  function CommandReply(response: Option<Fetch.HttpResponse>): (r: Value)
    ensures response.None? ==> r == Null
    ensures response.Some? ==> r == Bool(response.value.ok)
  {
    if response != None then Bool(response.value.ok) else Null
  }

  /**
   * A query method's result: `data` starts as false and becomes the parsed
   * body when the response is ok and `JSON.parse` does not throw.
   */
  function QueryReply(response: Option<Fetch.HttpResponse>, parse: Parse): (r: Value)
    ensures response.None? ==> r == Null
    ensures response.Some? && (!response.value.ok || parse(response.value.body).None?) ==> r == Bool(false)
    ensures response.Some? && response.value.ok && parse(response.value.body).Some? ==>
      r == parse(response.value.body).value
  {
    if response != None then
      var data := Bool(false);
      if response.value.ok then
        match parse(response.value.body)
        case Some(json) => json
        case None => data
      else data
    else Null
  }

  /** `getServer`'s result: null unless ok; `JSON.parse` runs outside any `try`, so a parse failure rejects. */
  function ServerReply(response: Option<Fetch.HttpResponse>, parse: Parse): (r: Settled)
    ensures response.None? || !response.value.ok ==> r == Resolved(Null)
    ensures response.Some? && response.value.ok && parse(response.value.body).None? ==> r == Rejected(SyntaxError)
    ensures response.Some? && response.value.ok && parse(response.value.body).Some? ==>
      r == Resolved(parse(response.value.body).value)
  {
    if response != None && response.value.ok then
      match parse(response.value.body)
      case Some(json) => Resolved(json)
      case None => Rejected(SyntaxError)
    else Resolved(Null)
  }

  /**
   * `getUsers`' result: `const { accessKeys } = JSON.parse(body)` inside a
   * `try`; a parse failure or a parsed `null` leaves `data` false, and a
   * parsed value that is not an object has no `accessKeys`.
   */
  function UsersReply(response: Option<Fetch.HttpResponse>, parse: Parse): (r: Value)
    ensures response.None? ==> r == Null
    ensures response.Some? && (!response.value.ok || parse(response.value.body) in {None, Some(Null), Some(Undefined)}) ==>
      r == Bool(false)
    ensures response.Some? && response.value.ok && parse(response.value.body).Some? && parse(response.value.body).value.Obj? ==>
      var fields := parse(response.value.body).value.fields;
      r == if "accessKeys" in fields then fields["accessKeys"] else Undefined
    ensures response.Some? && response.value.ok && parse(response.value.body).Some? &&
            parse(response.value.body).value !in {Null, Undefined} && !parse(response.value.body).value.Obj? ==>
      r == Undefined
  {
    if response != None then
      var data := Bool(false);
      if response.value.ok then
        match parse(response.value.body)
        case None => data
        case Some(json) =>
          match Get(json, "accessKeys")
          case Failure(_) => data
          case Success(accessKeys) => accessKeys
      else data
    else Null
  }

  /**
   * `getDataUserUsage`'s result from the value `getDataUsage` resolved to:
   * null unless that value is truthy and its entry for id is truthy, in which
   * case the entry; reading the entry throws when `bytesTransferredByUserId`
   * is null or missing.
   */
  function UserUsageReply(usage: Value, id: string): (r: Settled)
    ensures !Truthy(usage) ==> r == Resolved(Null)
    ensures Truthy(usage) && Get(usage, "bytesTransferredByUserId") in {Success(Null), Success(Undefined)} ==>
      r == Rejected(TypeError)
    ensures Truthy(usage) && Get(usage, "bytesTransferredByUserId").Success? &&
            Get(usage, "bytesTransferredByUserId").value.Obj? ==>
      var table := Get(usage, "bytesTransferredByUserId").value.fields;
      r == Resolved(if id in table && Truthy(table[id]) then table[id] else Null)
    ensures Truthy(usage) && Get(usage, "bytesTransferredByUserId").Success? &&
            Get(usage, "bytesTransferredByUserId").value !in {Null, Undefined} &&
            !Get(usage, "bytesTransferredByUserId").value.Obj? ==>
      r == Resolved(Null)
    ensures r.Resolved? ==> r.value == Null || Truthy(r.value)
  {
    if Truthy(usage) then
      match Get(usage, "bytesTransferredByUserId")
      case Failure(e) => Rejected(e)
      case Success(table) =>
        match Get(table, id)
        case Failure(e) => Rejected(e)
        case Success(entry) => if Truthy(entry) then Resolved(entry) else Resolved(Null)
    else Resolved(Null)
  }

  /** Content-Type: application/json is sent exactly with a body, and a body exactly on PUT. */
  predicate JsonShaped(r: HttpRequest) {
    ("Content-Type" in r.headers <==> r.body.Some?) &&
    ("Content-Type" in r.headers ==> r.headers["Content-Type"] == "application/json") &&
    (r.body.Some? <==> r.verb == PUT)
  }

  /** A request without a body or headers. */
  function Bodiless(url: string, verb: Method): (r: HttpRequest)
    requires verb != PUT
    ensures r.url == url && JsonShaped(r)
  {
    HttpRequest(url, verb, map[], None)
  }

  /** A PUT whose body is a JSON document, announced by its Content-Type. */
  function JsonPut(url: string, payload: Value): (r: HttpRequest)
    ensures r.url == url && JsonShaped(r)
  {
    HttpRequest(url, PUT, JsonContentType, Some(payload))
  }

  datatype OutlineVPN = OutlineVPN(apiUrl: string, fingerprint: string, timeout: Option<int>) {

    /** `${this.apiUrl}` followed by a fixed path. */
    function Url(path: string): (u: string)
      requires path != [] && path[0] == '/'
      ensures apiUrl + "/" <= u
    {
      assert (apiUrl + path)[..|apiUrl| + 1] == apiUrl + "/";
      apiUrl + path
    }

    /** `${this.apiUrl}/access-keys/${id}` followed by a fixed suffix. */
    function KeyUrl(id: string, suffix: string): (u: string)
      ensures apiUrl + "/" <= u
      ensures apiUrl + "/access-keys/" + id <= u
    {
      assert (apiUrl + "/access-keys/" + id + suffix)[..|apiUrl| + 1] == apiUrl + "/";
      apiUrl + "/access-keys/" + id + suffix
    }

    /**
     * The request each method sends: `apiUrl` followed by the method's path,
     * a JSON Content-Type exactly when a body is sent, and a body exactly on PUT.
     */
    function RequestOf(call: Call): (r: HttpRequest)
      decreases if call.DisableUser? || call.EnableUser? || call.GetDataUserUsage? then 1 else 0
      ensures apiUrl + "/" <= r.url
      ensures JsonShaped(r)
    {
      match call
      case GetServer => Bodiless(Url("/server"), GET)
      case RenameServer(name) => JsonPut(Url("/name"), Obj(map["name" := Str(name)]))
      case SetDefaultDataLimit(bytes) => JsonPut(Url("/server/access-key-data-limit"), LimitPayload(bytes))
      case DeleteDefaultDataLimit => Bodiless(Url("/server/access-key-data-limit"), DELETE)
      case SetHostnameForAccessKeys(hostname) =>
        JsonPut(Url("/server/hostname-for-access-keys"), Obj(map["hostname" := Str(hostname)]))
      case SetPortForNewAccessKeys(port) =>
        JsonPut(Url("/server/port-for-new-access-keys"), Obj(map["port" := Number(port)]))
      case GetDataUsage => Bodiless(Url("/metrics/transfer"), GET)
      case GetDataUserUsage(_) => RequestOf(GetDataUsage)
      case GetShareMetrics => Bodiless(Url("/metrics/enabled"), GET)
      case SetShareMetrics(metricsEnabled) =>
        JsonPut(Url("/metrics/enabled"), Obj(map["metricsEnabled" := Bool(metricsEnabled)]))
      case GetUsers => Bodiless(Url("/access-keys"), GET)
      case GetUser(id) => Bodiless(KeyUrl(id, ""), GET)
      case CreateUser => Bodiless(Url("/access-keys"), POST)
      case DeleteUser(id) => Bodiless(KeyUrl(id, ""), DELETE)
      case RenameUser(id, name) => JsonPut(KeyUrl(id, "/name"), Obj(map["name" := Str(name)]))
      case AddDataLimit(id, bytes) => JsonPut(KeyUrl(id, "/data-limit"), LimitPayload(bytes))
      case DeleteDataLimit(id) => Bodiless(KeyUrl(id, "/data-limit"), DELETE)
      case DisableUser(id) => RequestOf(AddDataLimit(id, 0))
      case EnableUser(id) => RequestOf(DeleteDataLimit(id))
    }

    /**
     * Runs one public method: `this.fetch(req)` sends its request with the
     * client's pin; a rejection of that call, a fingerprint mismatch included,
     * passes through unchanged, and a response is mapped onto the method's result.
     */
    function Invoke(call: Call, send: Send, parse: Parse): (r: Settled)
      ensures send(RequestOf(call), fingerprint).Failure? ==>
        r == FetchFailed(send(RequestOf(call), fingerprint).error)
      ensures send(RequestOf(call), fingerprint).Success? ==> !r.FetchFailed?
      ensures send(RequestOf(call), fingerprint).Success? ==>
        r == ReplyOf(call, send(RequestOf(call), fingerprint).value, parse)
    {
      match send(RequestOf(call), fingerprint)
      case Failure(e) => FetchFailed(e)
      case Success(response) => ReplyOf(call, response, parse)
    }
  }

  /**
   * Each public method's mapping of the response (None standing for `null`)
   * onto its result. Every method gives null without a response; only
   * `getServer` and `getDataUserUsage` can reject on their own.
   */
  function ReplyOf(call: Call, response: Option<Fetch.HttpResponse>, parse: Parse): (r: Settled)
    ensures response.None? ==> r == Resolved(Null)
    ensures IsCommand(call) ==> r == Resolved(CommandReply(response))
    ensures IsQuery(call) ==> r == Resolved(QueryReply(response, parse))
    ensures call == GetServer ==> r == ServerReply(response, parse)
    ensures call == GetUsers ==> r == Resolved(UsersReply(response, parse))
    ensures call.GetDataUserUsage? ==> r == UserUsageReply(QueryReply(response, parse), call.id)
    ensures r.Rejected? ==> call == GetServer || call.GetDataUserUsage?
    ensures !r.FetchFailed?
  {
    match call
    case GetServer => ServerReply(response, parse)
    case GetUsers => Resolved(UsersReply(response, parse))
    case GetDataUserUsage(id) => UserUsageReply(QueryReply(response, parse), id)
    case GetDataUsage => Resolved(QueryReply(response, parse))
    case GetShareMetrics => Resolved(QueryReply(response, parse))
    case SetShareMetrics(_) => Resolved(QueryReply(response, parse))
    case GetUser(_) => Resolved(QueryReply(response, parse))
    case CreateUser => Resolved(QueryReply(response, parse))
    case _ => Resolved(CommandReply(response))
  }

  /** A method that acts on one access key sends its request under `apiUrl/access-keys/<id>`. */
  lemma KeyRequestUrl(c: OutlineVPN, call: Call)
    requires KeyId(call).Some?
    ensures c.apiUrl + "/access-keys/" + KeyId(call).value <= c.RequestOf(call).url
  {
  }

  /** `disableUser(id)` is `addDataLimit(id, 0)`: a zero-byte limit on the key, with the same result. */
  lemma DisableUserIsZeroDataLimit(c: OutlineVPN, id: string, send: Send, parse: Parse)
    ensures c.RequestOf(DisableUser(id)) ==
      HttpRequest(c.apiUrl + "/access-keys/" + id + "/data-limit", PUT, JsonContentType, Some(LimitPayload(0)))
    ensures c.Invoke(DisableUser(id), send, parse) == c.Invoke(AddDataLimit(id, 0), send, parse)
  {
  }

  /** `enableUser(id)` is `deleteDataLimit(id)`: the key's limit is deleted, with the same result. */
  lemma EnableUserIsDeleteDataLimit(c: OutlineVPN, id: string, send: Send, parse: Parse)
    ensures c.RequestOf(EnableUser(id)) ==
      HttpRequest(c.apiUrl + "/access-keys/" + id + "/data-limit", DELETE, map[], None)
    ensures c.Invoke(EnableUser(id), send, parse) == c.Invoke(DeleteDataLimit(id), send, parse)
  {
  }

  /**
   * `getDataUserUsage(id)` awaits `getDataUsage()`: it sends the same request,
   * reads the resolved usage value for one key, and passes a rejection of the
   * fetch through unchanged.
   */
  lemma GetDataUserUsageViaGetDataUsage(c: OutlineVPN, id: string, send: Send, parse: Parse)
    ensures c.RequestOf(GetDataUserUsage(id)) == c.RequestOf(GetDataUsage)
    ensures var usage := c.Invoke(GetDataUsage, send, parse);
      usage.Resolved? || usage.FetchFailed?
    ensures var usage := c.Invoke(GetDataUsage, send, parse);
      c.Invoke(GetDataUserUsage(id), send, parse) ==
        if usage.Resolved? then UserUsageReply(usage.value, id) else usage
  {
  }
}
