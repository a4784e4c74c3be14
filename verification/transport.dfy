/** makeHTTPRequest (api.go) without the network: `NewRequest` builds the
    request it would hand to the HTTP client, and `Receive` turns the reply
    the client got back into the operation's result. The reply is an input,
    so the same code path can be examined for every reply a server might
    give. */
module Transport {
  import opened Common
  import opened Json
  import opened Decoding
  import Urls

  /** Everything an operation can fail with. The first five are the
      package's own error values; the rest carry the error of the library
      call that failed. */
  datatype ClientError =
    | InvalidParameters
    | NoAuthData
    | MarshalError
    | InvalidApiKey
    | InvalidStatusCode
    | UrlFailure(urlError: Urls.UrlError)
    | TransportFailure(reason: string)
    | ReadFailure(reason: string)
    | DecodeFailure(decodeError: DecodeError)

  datatype Method = GET | POST

  datatype Header = Header(name: string, value: string)

  /** A request as handed to the HTTP client: the body is the JSON object
      the request record was marshalled to. */
  datatype HttpRequest = HttpRequest(verb: Method, target: string, headers: seq<Header>, body: Option<seq<Member>>)

  /** The request record passed to makeHTTPRequest, seen through
      `json.Marshal`: none, one that marshals to an object, or one that
      cannot be marshalled. */
  datatype Payload = NoPayload | Marshalled(members: seq<Member>) | Unmarshallable

  /** A response body as `ioutil.ReadAll` and the JSON scanner see it. */
  datatype Body = Unreadable(reason: string) | Malformed | Document(doc: Json)

  /** What `http.Client.Do` returned: an error, or a response. */
  datatype Reply = Unreachable(reason: string) | Response(status: int, body: Body)

  const ContentType := Header("Content-Type", "application/json")

  /** The two headers every request carries; the bearer token is the key
      as it stands, empty or not. */
  function Headers(key: string): (hs: seq<Header>)
    ensures |hs| == 2 && hs[0] == ContentType
    ensures hs[1].name == "Authorization" && |hs[1].value| == |key| + 7 && hs[1].value[..7] == "Bearer " && hs[1].value[7..] == key
  {
    [ContentType, Header("Authorization", "Bearer " + key)]
  }

  /** The part of makeHTTPRequest before the network: a POST marshals its
      request record, and a record that cannot be marshalled stops the call
      with the package's marshal error; a GET has no body. The callers
      always pass a record with POST (the source indexes it unchecked). */
  function NewRequest(verb: Method, target: string, key: string, payload: Payload): (r: Result<HttpRequest, ClientError>)
    requires verb == POST ==> !payload.NoPayload?
    ensures r.Failure? <==> verb == POST && payload.Unmarshallable?
    ensures r.Failure? ==> r.error == MarshalError
    ensures r.Success? ==> r.value.verb == verb && r.value.target == target && r.value.headers == Headers(key)
    ensures r.Success? ==> (r.value.body.Some? <==> verb == POST)
    ensures r.Success? && verb == POST ==> r.value.body == Some(payload.members)
  {
    match verb
    case GET => Success(HttpRequest(GET, target, Headers(key), None))
    case POST =>
      match payload
      case Marshalled(members) => Success(HttpRequest(POST, target, Headers(key), Some(members)))
      case _ => Failure(MarshalError)
  }

  /** The part of makeHTTPRequest after the network: a transport error is
      returned as is; 401 is the invalid-key error, checked before any other
      status; every other status but 200 is the invalid-status error and
      the body is never read; a 200 body is read and decoded into the
      response value. */
  function Receive<T>(reply: Reply, decode: Json -> Decoded<T>): (r: Result<T, ClientError>)
    ensures reply.Unreachable? ==> r == Failure(TransportFailure(reply.reason))
    ensures reply.Response? && reply.status == 401 ==> r == Failure(InvalidApiKey)
    ensures reply.Response? && reply.status != 401 && reply.status != 200 ==> r == Failure(InvalidStatusCode)
    ensures reply.Response? && reply.status == 200 && reply.body.Unreadable? ==> r == Failure(ReadFailure(reply.body.reason))
    ensures reply.Response? && reply.status == 200 && reply.body.Malformed? ==> r == Failure(DecodeFailure(Syntax))
    ensures r.Success? <==> reply.Response? && reply.status == 200 && reply.body.Document? && decode(reply.body.doc).error.None?
    ensures r.Success? ==> r.value == decode(reply.body.doc).value
    ensures reply.Response? && reply.status == 200 && reply.body.Document? && decode(reply.body.doc).error.Some? ==>
      r == Failure(DecodeFailure(decode(reply.body.doc).error.value))
  {
    match reply
    case Unreachable(reason) => Failure(TransportFailure(reason))
    case Response(status, body) =>
      if status == 401 then Failure(InvalidApiKey)
      else if status != 200 then Failure(InvalidStatusCode)
      else
        match body
        case Unreadable(reason) => Failure(ReadFailure(reason))
        case Malformed => Failure(DecodeFailure(Syntax))
        case Document(doc) =>
          var d := decode(doc);
          if d.error.Some? then Failure(DecodeFailure(d.error.value)) else Success(d.value)
  }

  /** Outside a 200 the body makes no difference to the result. */
  lemma BodyIgnoredUnlessOk<T>(status: int, a: Body, b: Body, decode: Json -> Decoded<T>)
    requires status != 200
    ensures Receive(Response(status, a), decode) == Receive(Response(status, b), decode)
    ensures Receive(Response(status, a), decode).Failure?
  {
  }

  /** The errors raised before the network (bad arguments, missing key,
      unparseable base URL, marshalling) never come out of a reply. */
  lemma ReplyErrorsFollowTheNetwork<T>(reply: Reply, decode: Json -> Decoded<T>)
    ensures var r := Receive(reply, decode);
      r.Failure? ==> !r.error.InvalidParameters? && !r.error.NoAuthData? && !r.error.MarshalError? && !r.error.UrlFailure?
  {
  }
}
