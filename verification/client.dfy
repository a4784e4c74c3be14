/** The `Transkit` client of api.go. Its state is an immutable record and
    the setters return an updated copy. Each operation is split in two:
    - a plan, which holds the argument checks, joinURL and request
      construction, and ends in an early error or in the request to send;
    - its execution against the reply the network gave.
    A property stated for every reply therefore says that the network
    cannot influence the outcome. */
module Client {
  import opened Common
  import opened Json
  import opened Records
  import opened Decoding
  import opened Transport
  import Urls
  import Paths

  const DefaultHost: string := "api.transkit.vicomtech.org"
  const DefaultApiUrl: string := "https://" + DefaultHost + "/"
  const OnlinePath: string := "online/transcribe"
  const OfflinePath: string := "offline/transcribe"
  const StatusPath: string := "offline/status"
  const QuotaPath: string := "quota"

  /** The bearer key, the base URL and the optional extra configuration
      sent with offline transcriptions. */
  datatype Transkit = Transkit(key: string, apiUrl: string, extraConfig: Option<Extra>)

  /** A `Transkit` value before `Init`: every field at its zero value. */
  const Uninitialized := Transkit("", "", None)

  // ---------------------------------------------------------------------
  // Setters
  // ---------------------------------------------------------------------

  /** Sets the key and resets the base URL to the service's default. */
  function Init(t: Transkit, key: string): (r: Transkit)
    ensures r.key == key && r.apiUrl == DefaultApiUrl
    ensures r.extraConfig == t.extraConfig
  {
    t.(key := key, apiUrl := DefaultApiUrl)
  }

  /** Replaces the extra configuration; `None` is a nil `interface{}`. */
  function SetConfig(t: Transkit, config: Option<Extra>): (r: Transkit)
    ensures r.extraConfig == config
    ensures r.key == t.key && r.apiUrl == t.apiUrl
  {
    t.(extraConfig := config)
  }

  function SetEndpoint(t: Transkit, apiUrl: string): (r: Transkit)
    ensures r.apiUrl == apiUrl
    ensures r.key == t.key && r.extraConfig == t.extraConfig
  {
    t.(apiUrl := apiUrl)
  }

  // ---------------------------------------------------------------------
  // Plans: everything before the network
  // ---------------------------------------------------------------------

  datatype Plan = Abort(error: ClientError) | Send(request: HttpRequest)

  /** The variadic tags: `append` onto a nil slice only when some were
      given, so no tags leaves the field nil. */
  function GivenTags(tags: seq<string>): (r: Option<seq<string>>)
    ensures r.None? <==> |tags| == 0
    ensures r.Some? ==> r.value == tags
  {
    if |tags| > 0 then Some(tags) else None
  }

  /** `json.Marshal` of an offline request record. */
  function MarshalOffline(r: OfflineRequest): (p: Payload)
    ensures p.Unmarshallable? <==> r.config == Some(Unencodable)
    ensures p.Marshalled? ==> Some(p.members) == EncodeOfflineRequest(r)
    ensures !p.NoPayload?
  {
    match EncodeOfflineRequest(r)
    case None => Unmarshallable
    case Some(members) => Marshalled(members)
  }

  /** joinURL followed by the request stage of makeHTTPRequest: an
      unparseable base URL stops before anything is marshalled. */
  function Dispatch(t: Transkit, verb: Method, segments: seq<string>, payload: Payload): (p: Plan)
    requires verb == POST ==> !payload.NoPayload?
    ensures (p.Abort? && p.error.UrlFailure?) <==> Urls.Parse(t.apiUrl).Failure?
    ensures Urls.Parse(t.apiUrl).Failure? ==> p == Abort(UrlFailure(Urls.Parse(t.apiUrl).error))
    ensures p == Abort(MarshalError) <==> Urls.Parse(t.apiUrl).Success? && verb == POST && payload.Unmarshallable?
    ensures p.Abort? ==> p.error.UrlFailure? || p.error == MarshalError
    ensures p.Send? ==>
      && p.request.verb == verb && p.request.headers == Headers(t.key)
      && p.request.target == Urls.JoinUrl(t.apiUrl, segments).value
      && (p.request.body.Some? <==> verb == POST)
      && (verb == POST ==> p.request.body == Some(payload.members))
  {
    match Urls.JoinUrl(t.apiUrl, segments)
    case Failure(e) => Abort(UrlFailure(e))
    case Success(target) =>
      match NewRequest(verb, target, t.key, payload)
      case Failure(e) => Abort(e)
      case Success(request) => Send(request)
  }

  /** TranscribeOnline up to the network: empty audio or pipeline is
      refused before anything else; otherwise a POST to the online path
      carrying the audio, the pipeline and the tags. The extra
      configuration is never consulted. */
  function PlanOnline(t: Transkit, audio: string, pipeline: string, tags: seq<string>): (p: Plan)
    ensures p == Abort(InvalidParameters) <==> |audio| == 0 || |pipeline| == 0
    ensures p.Send? <==> |audio| > 0 && |pipeline| > 0 && Urls.Parse(t.apiUrl).Success?
    ensures |audio| > 0 && |pipeline| > 0 && Urls.Parse(t.apiUrl).Failure? ==>
      p == Abort(UrlFailure(Urls.Parse(t.apiUrl).error))
    ensures p.Send? ==>
      && p.request.verb == POST && p.request.headers == Headers(t.key)
      && p.request.target == Urls.JoinUrl(t.apiUrl, [OnlinePath]).value
    ensures p.Send? ==> (p.request.body.Some? &&
      var b := p.request.body.value;
      && Keys(b) == ["audio", "pipeline", "tags"]
      && b[0].value == Str(audio) && b[1].value == Str(pipeline) && b[2].value == TagsJson(GivenTags(tags)))
  {
    if |audio| == 0 || |pipeline| == 0 then Abort(InvalidParameters)
    else Dispatch(t, POST, [OnlinePath], Marshalled(EncodeOnlineRequest(OnlineRequest(audio, pipeline, GivenTags(tags)))))
  }

  /** TranscribeOffline up to the network: the same argument check, then
      the stored extra configuration goes into the record, then the base
      URL is parsed, then the record is marshalled. */
  function PlanOffline(t: Transkit, audioUrl: string, pipeline: string, tags: seq<string>): (p: Plan)
    ensures p == Abort(InvalidParameters) <==> |audioUrl| == 0 || |pipeline| == 0
    ensures p == Abort(MarshalError) <==>
      |audioUrl| > 0 && |pipeline| > 0 && Urls.Parse(t.apiUrl).Success? && t.extraConfig == Some(Unencodable)
    ensures p.Send? <==>
      |audioUrl| > 0 && |pipeline| > 0 && Urls.Parse(t.apiUrl).Success? && t.extraConfig != Some(Unencodable)
    ensures |audioUrl| > 0 && |pipeline| > 0 && Urls.Parse(t.apiUrl).Failure? ==>
      p == Abort(UrlFailure(Urls.Parse(t.apiUrl).error))
    ensures p.Send? ==>
      && p.request.verb == POST && p.request.headers == Headers(t.key)
      && p.request.target == Urls.JoinUrl(t.apiUrl, [OfflinePath]).value
    ensures p.Send? ==> (p.request.body.Some? &&
      Some(p.request.body.value) == EncodeOfflineRequest(OfflineRequest(pipeline, audioUrl, t.extraConfig, GivenTags(tags))))
  {
    if |audioUrl| == 0 || |pipeline| == 0 then Abort(InvalidParameters)
    else
      var record := OfflineRequest(pipeline, audioUrl, t.extraConfig, GivenTags(tags));
      var payload := MarshalOffline(record);
      Dispatch(t, POST, [OfflinePath], payload)
  }

  /** TranscribeOfflineStatus up to the network: only the key is checked
      (the id may be empty); then a GET to the status path followed by the
      id. */
  function PlanStatus(t: Transkit, id: string): (p: Plan)
    ensures p == Abort(NoAuthData) <==> |t.key| == 0
    ensures p.Send? <==> |t.key| > 0 && Urls.Parse(t.apiUrl).Success?
    ensures |t.key| > 0 && Urls.Parse(t.apiUrl).Failure? ==> p == Abort(UrlFailure(Urls.Parse(t.apiUrl).error))
    ensures p.Send? ==>
      && p.request.verb == GET && p.request.headers == Headers(t.key) && p.request.body.None?
      && p.request.target == Urls.JoinUrl(t.apiUrl, [StatusPath, id]).value
  {
    if |t.key| == 0 then Abort(NoAuthData)
    else Dispatch(t, GET, [StatusPath, id], NoPayload)
  }

  /** GetQuota up to the network: the key is checked, then a GET to the
      quota path. */
  function PlanQuota(t: Transkit): (p: Plan)
    ensures p == Abort(NoAuthData) <==> |t.key| == 0
    ensures p.Send? <==> |t.key| > 0 && Urls.Parse(t.apiUrl).Success?
    ensures |t.key| > 0 && Urls.Parse(t.apiUrl).Failure? ==> p == Abort(UrlFailure(Urls.Parse(t.apiUrl).error))
    ensures p.Send? ==>
      && p.request.verb == GET && p.request.headers == Headers(t.key) && p.request.body.None?
      && p.request.target == Urls.JoinUrl(t.apiUrl, [QuotaPath]).value
  {
    if |t.key| == 0 then Abort(NoAuthData)
    else Dispatch(t, GET, [QuotaPath], NoPayload)
  }

  // ---------------------------------------------------------------------
  // The operations
  // ---------------------------------------------------------------------

  /** A plan carried out: an early error is returned without using the
      reply; a request is answered by the reply. */
  function Execute<T>(p: Plan, reply: Reply, decode: Json -> Decoded<T>): (r: Result<T, ClientError>)
    ensures p.Abort? ==> r == Failure(p.error)
    ensures p.Send? ==> r == Receive(reply, decode)
  {
    match p
    case Abort(e) => Failure(e)
    case Send(_) => Receive(reply, decode)
  }

  /** TranscribeOnline: the argument check, then the base URL, then the
      reply decoded into an online response. */
  function TranscribeOnline(t: Transkit, audio: string, pipeline: string, tags: seq<string>, reply: Reply): (r: Result<OnlineResponse, ClientError>)
    ensures |audio| == 0 || |pipeline| == 0 ==> r == Failure(InvalidParameters)
    ensures |audio| > 0 && |pipeline| > 0 && Urls.Parse(t.apiUrl).Failure? ==> r == Failure(UrlFailure(Urls.Parse(t.apiUrl).error))
    ensures |audio| > 0 && |pipeline| > 0 && Urls.Parse(t.apiUrl).Success? ==> r == Receive(reply, DecodeOnline)
  {
    Execute(PlanOnline(t, audio, pipeline, tags), reply, DecodeOnline)
  }

  /** TranscribeOffline: the argument check, then the base URL, then the
      marshalling of the configuration, then the reply decoded into an
      offline response. */
  function TranscribeOffline(t: Transkit, audioUrl: string, pipeline: string, tags: seq<string>, reply: Reply): (r: Result<OfflineResponse, ClientError>)
    ensures |audioUrl| == 0 || |pipeline| == 0 ==> r == Failure(InvalidParameters)
    ensures |audioUrl| > 0 && |pipeline| > 0 && Urls.Parse(t.apiUrl).Failure? ==> r == Failure(UrlFailure(Urls.Parse(t.apiUrl).error))
    ensures |audioUrl| > 0 && |pipeline| > 0 && Urls.Parse(t.apiUrl).Success? && t.extraConfig == Some(Unencodable) ==>
      r == Failure(MarshalError)
    ensures |audioUrl| > 0 && |pipeline| > 0 && Urls.Parse(t.apiUrl).Success? && t.extraConfig != Some(Unencodable) ==>
      r == Receive(reply, DecodeOffline)
  {
    Execute(PlanOffline(t, audioUrl, pipeline, tags), reply, DecodeOffline)
  }

  /** TranscribeOfflineStatus: the key check, then the base URL, then the
      reply decoded into a status response; the id is never checked. */
  function TranscribeOfflineStatus(t: Transkit, id: string, reply: Reply): (r: Result<StatusResponse, ClientError>)
    ensures |t.key| == 0 ==> r == Failure(NoAuthData)
    ensures |t.key| > 0 && Urls.Parse(t.apiUrl).Failure? ==> r == Failure(UrlFailure(Urls.Parse(t.apiUrl).error))
    ensures |t.key| > 0 && Urls.Parse(t.apiUrl).Success? ==> r == Receive(reply, DecodeStatus)
  {
    Execute(PlanStatus(t, id), reply, DecodeStatus)
  }

  /** GetQuota: the key check, then the base URL, then the reply decoded
      into a quota response. */
  function GetQuota(t: Transkit, reply: Reply): (r: Result<ConsumedQuota, ClientError>)
    ensures |t.key| == 0 ==> r == Failure(NoAuthData)
    ensures |t.key| > 0 && Urls.Parse(t.apiUrl).Failure? ==> r == Failure(UrlFailure(Urls.Parse(t.apiUrl).error))
    ensures |t.key| > 0 && Urls.Parse(t.apiUrl).Success? ==> r == Receive(reply, DecodeQuota)
  {
    Execute(PlanQuota(t), reply, DecodeQuota)
  }

  // ---------------------------------------------------------------------
  // Checks made before the network
  // ---------------------------------------------------------------------

  /** Empty audio, audio URL or pipeline is refused whatever the server
      would have answered: no reply can change the outcome. */
  lemma ParametersCheckedOffline(t: Transkit, audio: string, pipeline: string, tags: seq<string>, reply: Reply)
    requires |audio| == 0 || |pipeline| == 0
    ensures TranscribeOnline(t, audio, pipeline, tags, reply) == Failure(InvalidParameters)
    ensures TranscribeOffline(t, audio, pipeline, tags, reply) == Failure(InvalidParameters)
  {
  }

  /** Without a key the status and quota calls are refused whatever the
      server would have answered, and whatever the job id is. */
  lemma KeyCheckedOffline(t: Transkit, id: string, reply: Reply)
    requires |t.key| == 0
    ensures TranscribeOfflineStatus(t, id, reply) == Failure(NoAuthData)
    ensures GetQuota(t, reply) == Failure(NoAuthData)
  {
  }

  /** The transcription calls do not check the key: with an empty key
      they still send a request, whose bearer token is then empty. */
  lemma TranscriptionSendsEmptyKey(t: Transkit, audio: string, pipeline: string, tags: seq<string>)
    requires |t.key| == 0 && |audio| > 0 && |pipeline| > 0
    requires Urls.Parse(t.apiUrl).Success? && t.extraConfig != Some(Unencodable)
    ensures PlanOnline(t, audio, pipeline, tags).Send?
    ensures PlanOnline(t, audio, pipeline, tags).request.headers[1].value == "Bearer "
    ensures PlanOffline(t, audio, pipeline, tags).Send?
    ensures PlanOffline(t, audio, pipeline, tags).request.headers[1].value == "Bearer "
  {
    var h := Headers(t.key);
    assert h[1].value == h[1].value[..7];
  }

  /** A marshalling failure is reported before the network is used, but
      only once the base URL has been parsed. */
  lemma MarshalCheckedOffline(t: Transkit, audioUrl: string, pipeline: string, tags: seq<string>, reply: Reply)
    requires |audioUrl| > 0 && |pipeline| > 0 && t.extraConfig == Some(Unencodable)
    ensures Urls.Parse(t.apiUrl).Success? ==> TranscribeOffline(t, audioUrl, pipeline, tags, reply) == Failure(MarshalError)
    ensures Urls.Parse(t.apiUrl).Failure? ==>
      TranscribeOffline(t, audioUrl, pipeline, tags, reply) == Failure(UrlFailure(Urls.Parse(t.apiUrl).error))
  {
  }

  // ---------------------------------------------------------------------
  // What is sent
  // ---------------------------------------------------------------------

  /** The online body holds the tags as given, in order, and null when
      none were given. */
  lemma OnlineTagsOnWire(t: Transkit, audio: string, pipeline: string, tags: seq<string>)
    requires PlanOnline(t, audio, pipeline, tags).Send?
    ensures var b := PlanOnline(t, audio, pipeline, tags).request.body.value;
      && (|tags| == 0 ==> b[2].value == Null)
      && (|tags| > 0 ==>
            && b[2].value.Arr? && |b[2].value.items| == |tags|
            && forall i :: 0 <= i < |tags| ==> b[2].value.items[i] == Str(tags[i]))
  {
  }

  /** The offline body: pipeline and audio URL as given, the tags in
      order (null when none were given), and a `config` member exactly
      when an extra configuration is set, holding that configuration. */
  lemma OfflineBody(t: Transkit, audioUrl: string, pipeline: string, tags: seq<string>)
    requires PlanOffline(t, audioUrl, pipeline, tags).Send?
    ensures var b := PlanOffline(t, audioUrl, pipeline, tags).request.body.value;
      && Keys(b) == ["pipeline", "url"] + (if t.extraConfig.Some? then ["config"] else []) + ["tags"]
      && b[0].value == Str(pipeline) && b[1].value == Str(audioUrl)
      && b[|b| - 1].value == TagsJson(GivenTags(tags))
      && ("config" in Keys(b) <==> t.extraConfig.Some?)
      && (t.extraConfig.Some? ==> b[2].value == t.extraConfig.value.doc)
  {
    var b := PlanOffline(t, audioUrl, pipeline, tags).request.body.value;
    OfflineMembers(OfflineRequest(pipeline, audioUrl, t.extraConfig, GivenTags(tags)), b);
  }

  /** The member list of an encodable offline request, key by key; split
      out of `OfflineBody` so that the plan is not unfolded there. */
  lemma OfflineMembers(r: OfflineRequest, b: seq<Member>)
    requires EncodeOfflineRequest(r) == Some(b)
    ensures && Keys(b) == ["pipeline", "url"] + (if r.config.Some? then ["config"] else []) + ["tags"]
      && b[0].value == Str(r.pipeline) && b[1].value == Str(r.url)
      && b[|b| - 1].value == TagsJson(r.tags)
      && ("config" in Keys(b) <==> r.config.Some?)
      && (r.config.Some? ==> b[2].value == r.config.value.doc)
  {
    if r.config.None? {
      assert Keys(b) == ["pipeline", "url", "tags"];
      assert "config" != "pipeline" && "config" != "url" && "config" != "tags";
    } else {
      assert Keys(b)[2] == "config";
    }
  }

  /** The extra configuration reaches the offline request only: the
      online, status and quota plans are the same with or without it, and
      an online body never has a `config` member. */
  lemma ConfigOnlyReachesOffline(t: Transkit, config: Option<Extra>, audio: string, pipeline: string, tags: seq<string>, id: string)
    ensures PlanOnline(SetConfig(t, config), audio, pipeline, tags) == PlanOnline(t, audio, pipeline, tags)
    ensures PlanStatus(SetConfig(t, config), id) == PlanStatus(t, id)
    ensures PlanQuota(SetConfig(t, config)) == PlanQuota(t)
    ensures PlanOnline(t, audio, pipeline, tags).Send? ==>
      "config" !in Keys(PlanOnline(t, audio, pipeline, tags).request.body.value)
  {
    var c := SetConfig(t, config);
    var body := Marshalled(EncodeOnlineRequest(OnlineRequest(audio, pipeline, GivenTags(tags))));
    DispatchSeesKeyAndUrl(c, t, POST, [OnlinePath], body);
    DispatchSeesKeyAndUrl(c, t, GET, [StatusPath, id], NoPayload);
    DispatchSeesKeyAndUrl(c, t, GET, [QuotaPath], NoPayload);
    var p := PlanOnline(t, audio, pipeline, tags);
    if p.Send? {
      assert Keys(p.request.body.value) == ["audio", "pipeline", "tags"];
      assert "config" != "audio" && "config" != "pipeline" && "config" != "tags";
    }
  }

  /** `Dispatch` reads only the key and the base URL of the client. */
  lemma DispatchSeesKeyAndUrl(t: Transkit, u: Transkit, verb: Method, segments: seq<string>, payload: Payload)
    requires verb == POST ==> !payload.NoPayload?
    requires t.key == u.key && t.apiUrl == u.apiUrl
    ensures Dispatch(t, verb, segments, payload) == Dispatch(u, verb, segments, payload)
  {
  }

  /** `Init` forgets any endpoint set before it. */
  lemma InitResetsEndpoint(t: Transkit, apiUrl: string, key: string)
    ensures Init(SetEndpoint(t, apiUrl), key) == Init(t, key)
  {
  }

  // ---------------------------------------------------------------------
  // Where requests go
  // ---------------------------------------------------------------------

  /** A base URL with a scheme and a host, as `url.Parse` reads it. */
  ghost predicate HostedBase(t: Transkit)
  {
    Urls.Parse(t.apiUrl).Success? && Urls.Parse(t.apiUrl).value.scheme != "" && Urls.Parse(t.apiUrl).value.host != ""
  }

  /** The URL a request for `segments` reads back as: the base with its
      path joined onto. */
  ghost function Routed(t: Transkit, segments: seq<string>): Urls.Url
    requires Urls.Parse(t.apiUrl).Success?
  {
    var u := Urls.Parse(t.apiUrl).value;
    u.(path := Urls.RootedPath(Paths.JoinAll(u.path, segments)))
  }

  lemma ConstantPathsAreText()
    ensures Urls.PathText(OnlinePath) && Urls.PathText(OfflinePath)
    ensures Urls.PathText(StatusPath) && Urls.PathText(QuotaPath)
  {
  }

  /** Each transcription request goes to the base URL with only its path
      extended: scheme, host, query and fragment of the base are kept, and
      the path is the base path joined with the operation's path. */
  lemma RoutedUnderBase(t: Transkit, audio: string, pipeline: string, tags: seq<string>)
    requires HostedBase(t)
    ensures |audio| > 0 && |pipeline| > 0 ==>
      Urls.Parse(PlanOnline(t, audio, pipeline, tags).request.target) == Success(Routed(t, [OnlinePath]))
    ensures |audio| > 0 && |pipeline| > 0 && t.extraConfig != Some(Unencodable) ==>
      Urls.Parse(PlanOffline(t, audio, pipeline, tags).request.target) == Success(Routed(t, [OfflinePath]))
  {
    ConstantPathsAreText();
    JoinRouted(t, [OnlinePath]);
    JoinRouted(t, [OfflinePath]);
  }

  /** The same for the status and quota requests; the job id is joined
      after the status path. */
  lemma QueriesRoutedUnderBase(t: Transkit, id: string)
    requires HostedBase(t) && Urls.PathText(id)
    ensures |t.key| > 0 ==> Urls.Parse(PlanStatus(t, id).request.target) == Success(Routed(t, [StatusPath, id]))
    ensures |t.key| > 0 ==> Urls.Parse(PlanQuota(t).request.target) == Success(Routed(t, [QuotaPath]))
  {
    ConstantPathsAreText();
    JoinRouted(t, [StatusPath, id]);
    JoinRouted(t, [QuotaPath]);
  }

  lemma JoinRouted(t: Transkit, segments: seq<string>)
    requires HostedBase(t)
    requires forall i :: 0 <= i < |segments| ==> Urls.PathText(segments[i])
    ensures Urls.JoinUrl(t.apiUrl, segments).Success?
    ensures Urls.Parse(Urls.JoinUrl(t.apiUrl, segments).value) == Success(Routed(t, segments))
  {
    Urls.JoinUrlTarget(t.apiUrl, segments);
  }

  /** An empty job id is dropped by the join: the status request then
      goes to the status path itself. */
  lemma EmptyIdTargetsStatusPath(t: Transkit)
    requires PlanStatus(t, "").Send?
    ensures PlanStatus(t, "").request.target == Urls.JoinUrl(t.apiUrl, [StatusPath]).value
  {
    var u := Urls.Parse(t.apiUrl).value;
    Paths.JoinTrailingEmpty(u.path, StatusPath);
    assert Urls.JoinUrl(t.apiUrl, [StatusPath, ""]) == Success(Urls.Render(u.(path := Paths.JoinAll(u.path, [StatusPath, ""]))));
  }

  /** Joining plain names onto a base whose text is a rendered absolute
      URL with a rooted path: the names follow the base path's
      components. */
  lemma JoinNames(u: Urls.Url, segments: seq<string>, names: seq<string>)
    requires Urls.AbsoluteUrl(u) && Paths.Rooted(u.path)
    requires |segments| > 0 && Paths.SplitAll(segments) == names
    requires forall i :: 0 <= i < |names| ==> Paths.IsName(names[i])
    ensures Urls.Parse(Urls.Render(u)) == Success(u)
    ensures Urls.JoinUrl(Urls.Render(u), segments)
         == Success(Urls.Render(u.(path := Paths.Render(true, Paths.Resolved(u.path) + names))))
  {
    Urls.ParseRender(u);
    assert Urls.RootedPath(u.path) == u.path;
    assert u.(path := u.path) == u;
    Urls.JoinUrlValue(Urls.Render(u), segments);
    Paths.JoinAllNames(u.path, segments);
    Paths.NonEmptyNames(names);
  }

  /** The components of a directory path "/", or "/a/b/" for the stack
      [a, b]. */
  lemma DirectoryResolved(stack: seq<string>)
    requires forall i :: 0 <= i < |stack| ==> Paths.IsName(stack[i])
    ensures Paths.Resolved(if |stack| == 0 then "/" else "/" + Paths.Unsplit(stack) + "/") == stack
  {
    if |stack| == 0 {
      Paths.ResolvedRoot();
    } else {
      var p := "/" + Paths.Unsplit(stack);
      Paths.ResolvedRootedStack(stack);
      Paths.SplitConcat(p, "");
      assert p + "/" + "" == p + "/";
      Paths.ResolveAppend(true, [], Paths.Split(p), [""]);
      assert Paths.Split("") == [""];
      assert Paths.Resolve(true, stack, [""]) == stack;
    }
  }

  /** With a base URL whose path is a directory ("/" or "/a/b/"), joinURL
      appends the segments' names to the base path itself. */
  lemma JoinUnderDirectory(u: Urls.Url, stack: seq<string>, segments: seq<string>, names: seq<string>)
    requires Urls.AbsoluteUrl(u)
    requires u.path == if |stack| == 0 then "/" else "/" + Paths.Unsplit(stack) + "/"
    requires forall i :: 0 <= i < |stack| ==> Paths.IsName(stack[i])
    requires |segments| > 0 && Paths.SplitAll(segments) == names && |names| > 0
    requires forall i :: 0 <= i < |names| ==> Paths.IsName(names[i])
    ensures Urls.JoinUrl(Urls.Render(u), segments) == Success(Urls.Render(u.(path := u.path + Paths.Unsplit(names))))
  {
    DirectoryResolved(stack);
    DirectoryJoined(u.path, stack, names);
    JoinNames(u, segments, names);
  }

  lemma DirectoryJoined(p: string, stack: seq<string>, names: seq<string>)
    requires p == if |stack| == 0 then "/" else "/" + Paths.Unsplit(stack) + "/"
    requires |names| > 0
    ensures Paths.Render(true, stack + names) == p + Paths.Unsplit(names)
  {
    if |stack| > 0 {
      Paths.UnsplitConcat(stack, names);
      Paths.ConcatAssoc("/" + Paths.Unsplit(stack), "/", Paths.Unsplit(names));
      Paths.ConcatAssoc("/", Paths.Unsplit(stack) + "/", Paths.Unsplit(names));
      Paths.ConcatAssoc("/", Paths.Unsplit(stack), "/");
    } else {
      assert stack + names == names;
    }
  }

  /** The text of a URL with a host, a rooted path and no query or
      fragment. */
  lemma RenderRooted(u: Urls.Url, p: string)
    requires u.scheme != "" && u.opaquePart == "" && u.host != "" && !u.omitHost
    requires !u.forceQuery && u.rawQuery == "" && u.fragment == ""
    requires |p| > 0 && p[0] == '/'
    ensures Urls.Render(u.(path := p)) == u.scheme + ":" + "//" + u.host + p
  {
  }

  /** The default base URL as `url.Parse` reads it. */
  const DefaultBase := Urls.Url("https", "", DefaultHost, false, "/", false, "", "")

  /** A host text with no control character and none of the characters
      that end a host. */
  ghost predicate PlainHost(s: string)
  {
    Urls.NoControl(s) && '/' !in s && '?' !in s && '#' !in s
  }

  lemma PlainHostConcat(a: string, b: string)
    requires PlainHost(a) && PlainHost(b)
    ensures PlainHost(a + b)
  {
    assert forall c :: c in a + b ==> c in a || c in b;
  }

  // Solver helpers: the default host checked piece by piece, since one
  // check of the whole literal is costly for the solver.
  lemma HostPieceApi() ensures PlainHost("api.") {}
  lemma HostPieceTranskit() ensures PlainHost("transkit.") {}
  lemma HostPieceVicomtech() ensures PlainHost("vicomtech.") {}
  lemma HostPieceOrg() ensures PlainHost("org") {}
  lemma HostPieces() ensures "api." + "transkit." + "vicomtech." + "org" == DefaultHost {}

  lemma DefaultHostPlain()
    ensures PlainHost(DefaultHost)
  {
    HostPieceApi(); HostPieceTranskit(); HostPieceVicomtech(); HostPieceOrg(); HostPieces();
    PlainHostConcat("api.", "transkit.");
    PlainHostConcat("api." + "transkit.", "vicomtech.");
    PlainHostConcat("api." + "transkit." + "vicomtech.", "org");
  }

  lemma DefaultBaseText()
    ensures Urls.Render(DefaultBase) == DefaultApiUrl
  {
    RenderRooted(DefaultBase, "/");
    assert DefaultBase.(path := "/") == DefaultBase;
    assert "https" + ":" + "//" == "https://";
  }

  lemma DefaultBaseAbsolute()
    ensures Urls.AbsoluteUrl(DefaultBase)
  {
    DefaultHostPlain();
    assert Urls.Lower("https") == "https";
    assert Urls.PathText("/");
  }

  /** Solver helper: a three-element sequence built by appending. */
  lemma SnocThree(a: string, b: string, c: string)
    ensures [a, b] + [c] == [a, b, c]
  {
  }

  /** `strings.Split` of a path of two names. */
  lemma SplitTwo(a: string, b: string)
    requires '/' !in a && '/' !in b
    ensures Paths.Split(a + "/" + b) == [a, b]
  {
    Paths.SplitConcat(a, b);
    Paths.SplitNoSlash(a);
    Paths.SplitNoSlash(b);
  }

  lemma OnlinePathSplit()
    ensures Paths.SplitAll([OnlinePath]) == ["online", "transcribe"]
  {
    SplitTwo("online", "transcribe");
    assert OnlinePath == "online" + "/" + "transcribe";
    assert [OnlinePath][..0] == [];
  }

  lemma OfflinePathSplit()
    ensures Paths.SplitAll([OfflinePath]) == ["offline", "transcribe"]
  {
    SplitTwo("offline", "transcribe");
    assert OfflinePath == "offline" + "/" + "transcribe";
    assert [OfflinePath][..0] == [];
  }

  lemma QuotaPathSplit()
    ensures Paths.SplitAll([QuotaPath]) == ["quota"]
  {
    Paths.SplitNoSlash(QuotaPath);
    assert [QuotaPath][..0] == [];
  }

  lemma StatusPathSplit(id: string)
    requires '/' !in id
    ensures Paths.SplitAll([StatusPath, id]) == ["offline", "status", id]
  {
    SplitTwo("offline", "status");
    assert StatusPath == "offline" + "/" + "status";
    assert [StatusPath][..0] == [];
    Paths.SplitNoSlash(id);
    assert [StatusPath, id][..1] == [StatusPath];
    assert Paths.SplitAll([StatusPath]) == ["offline", "status"];
    assert Paths.SplitAll([StatusPath, id]) == Paths.SplitAll([StatusPath]) + Paths.Split(id);
  }

  /** joinURL on a base URL with a host and the root path appends the
      names to the base text. */
  lemma RootRoute(u: Urls.Url, segments: seq<string>, names: seq<string>)
    requires Urls.AbsoluteUrl(u) && u.path == "/" && u.rawQuery == "" && !u.forceQuery && u.fragment == ""
    requires |segments| > 0 && Paths.SplitAll(segments) == names && |names| > 0
    requires forall i :: 0 <= i < |names| ==> Paths.IsName(names[i])
    ensures Urls.JoinUrl(Urls.Render(u), segments) == Success(Urls.Render(u) + Paths.Unsplit(names))
  {
    JoinUnderDirectory(u, [], segments, names);
    RenderRooted(u, u.path + Paths.Unsplit(names));
    RenderRooted(u, u.path);
    assert u.(path := u.path) == u;
    Paths.ConcatAssoc(u.scheme + ":" + "//" + u.host, u.path, Paths.Unsplit(names));
  }

  lemma DefaultRoute(segments: seq<string>, names: seq<string>)
    requires |segments| > 0 && Paths.SplitAll(segments) == names && |names| > 0
    requires forall i :: 0 <= i < |names| ==> Paths.IsName(names[i])
    ensures Urls.JoinUrl(DefaultApiUrl, segments) == Success(DefaultApiUrl + Paths.Unsplit(names))
  {
    DefaultBaseAbsolute();
    DefaultBaseText();
    RootRoute(DefaultBase, segments, names);
  }

  lemma OnlineRoute()
    ensures Urls.JoinUrl(DefaultApiUrl, [OnlinePath]) == Success(DefaultApiUrl + OnlinePath)
  {
    OnlinePathSplit();
    SplitTwo("online", "transcribe");
    Paths.UnsplitSplit(OnlinePath);
    DefaultRoute([OnlinePath], ["online", "transcribe"]);
  }

  lemma OfflineRoute()
    ensures Urls.JoinUrl(DefaultApiUrl, [OfflinePath]) == Success(DefaultApiUrl + OfflinePath)
  {
    OfflinePathSplit();
    SplitTwo("offline", "transcribe");
    Paths.UnsplitSplit(OfflinePath);
    DefaultRoute([OfflinePath], ["offline", "transcribe"]);
  }

  lemma QuotaRoute()
    ensures Urls.JoinUrl(DefaultApiUrl, [QuotaPath]) == Success(DefaultApiUrl + QuotaPath)
  {
    QuotaPathSplit();
    Paths.SplitNoSlash(QuotaPath);
    Paths.UnsplitSplit(QuotaPath);
    DefaultRoute([QuotaPath], ["quota"]);
  }

  lemma StatusNames(id: string)
    ensures Paths.Unsplit(["offline", "status", id]) == StatusPath + "/" + id
  {
    SplitTwo("offline", "status");
    Paths.UnsplitSplit(StatusPath);
    Paths.UnsplitSnoc(["offline", "status"], id);
    SnocThree("offline", "status", id);
  }

  lemma StatusRoute(id: string)
    requires Paths.IsName(id)
    ensures Urls.JoinUrl(DefaultApiUrl, [StatusPath, id]) == Success(DefaultApiUrl + StatusPath + "/" + id)
  {
    StatusPathSplit(id);
    StatusNames(id);
    DefaultRoute([StatusPath, id], ["offline", "status", id]);
    Paths.ConcatAssoc(DefaultApiUrl, StatusPath + "/", id);
    Paths.ConcatAssoc(DefaultApiUrl, StatusPath, "/");
  }

  /** After `Init` every request goes to the service's own host: the
      default base URL followed by the operation's path (and, for the
      status call, a slash and the job id). */
  lemma DefaultTargets(t: Transkit, key: string, audio: string, pipeline: string, tags: seq<string>, id: string)
    requires Paths.IsName(id)
    ensures var d := Init(t, key);
      |audio| > 0 && |pipeline| > 0 ==>
        PlanOnline(d, audio, pipeline, tags).Send? && PlanOnline(d, audio, pipeline, tags).request.target == DefaultApiUrl + OnlinePath
    ensures var d := Init(t, key);
      |audio| > 0 && |pipeline| > 0 && t.extraConfig != Some(Unencodable) ==>
        PlanOffline(d, audio, pipeline, tags).Send? && PlanOffline(d, audio, pipeline, tags).request.target == DefaultApiUrl + OfflinePath
    ensures var d := Init(t, key);
      |key| > 0 ==> PlanStatus(d, id).Send? && PlanStatus(d, id).request.target == DefaultApiUrl + StatusPath + "/" + id
    ensures var d := Init(t, key);
      |key| > 0 ==> PlanQuota(d).Send? && PlanQuota(d).request.target == DefaultApiUrl + QuotaPath
  {
    OnlineRoute();
    OfflineRoute();
    StatusRoute(id);
    QuotaRoute();
  }
}
