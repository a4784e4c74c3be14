/** The request and response records of the service (structs.go) and the
    JSON objects `json.Marshal` makes of them: lowercase keys in declaration
    order, `omitempty` fields left out when empty, and the embedded
    `ConsumedQuotaResponse` flattened into the enclosing object. */
module Records {
  import opened Common
  import opened Json

  /** Go's `int` on a 64-bit platform. */
  newtype Int64 = i: int | -0x8000_0000_0000_0000 <= i < 0x8000_0000_0000_0000

  /** `OnlineTranscriptionRequest`. A nil `Tags` slice is `None`. */
  datatype OnlineRequest = OnlineRequest(audio: string, pipeline: string, tags: Option<seq<string>>)

  /** `OnlineWord`. The float64 fields hold the JSON number they were read
      from. */
  datatype OnlineWord = OnlineWord(confidence: Number, length: Number, start: Number, word: string)

  /** `ConsumedQuotaResponse`, on its own or embedded. */
  datatype ConsumedQuota = ConsumedQuota(consumedQuota: Int64)

  /** `OnlineTranscriptionResponse`. A nil and an empty `Words` slice are
      both the empty sequence. */
  datatype OnlineResponse = OnlineResponse(error: string, text: string, words: seq<OnlineWord>, quota: ConsumedQuota)

  /** The `interface{}` extra configuration: a value `json.Marshal` turns
      into a document, or one it refuses (a channel, a function, a NaN). */
  datatype Extra = Encodable(doc: Json) | Unencodable

  /** `OfflineTranscriptionRequest`. A nil `Config` interface is `None`. */
  datatype OfflineRequest = OfflineRequest(pipeline: string, url: string, config: Option<Extra>, tags: Option<seq<string>>)

  /** `OfflineTranscriptionResponse`. */
  datatype OfflineResponse = OfflineResponse(id: string, quota: ConsumedQuota)

  /** `OfflineError`. */
  datatype OfflineError = OfflineError(code: Int64, message: string, moduleName: string)

  /** `OfflineTranscriptionStatusResponse`. A nil `*OfflineError` is `None`. */
  datatype StatusResponse = StatusResponse(status: Int64, message: string, error: Option<OfflineError>, url: string)

  /** A `[]string` field without `omitempty`: nil is written as null. */
  function TagsJson(tags: Option<seq<string>>): Json
  {
    match tags
    case None => Null
    case Some(ts) => Strings(ts)
  }

  function IntJson(i: Int64): Json
  {
    Num(Int(i as int))
  }

  function EncodeOnlineRequest(r: OnlineRequest): (members: seq<Member>)
    ensures Keys(members) == ["audio", "pipeline", "tags"]
    ensures members[0].value == Str(r.audio) && members[1].value == Str(r.pipeline)
    ensures members[2].value == TagsJson(r.tags)
  {
    [Member("audio", Str(r.audio)), Member("pipeline", Str(r.pipeline)), Member("tags", TagsJson(r.tags))]
  }

  /** The quota on its own, or as the members an enclosing response
      gains by embedding it. */
  function EncodeQuota(q: ConsumedQuota): (members: seq<Member>)
    ensures Keys(members) == ["consumedquota"]
    ensures members[0].value == Num(Int(q.consumedQuota as int))
  {
    [Member("consumedquota", IntJson(q.consumedQuota))]
  }

  function EncodeWord(w: OnlineWord): (members: seq<Member>)
    ensures Keys(members) == ["confidence", "length", "start", "word"]
    ensures members[0].value == Num(w.confidence) && members[1].value == Num(w.length)
    ensures members[2].value == Num(w.start) && members[3].value == Str(w.word)
  {
    [Member("confidence", Num(w.confidence)), Member("length", Num(w.length)),
     Member("start", Num(w.start)), Member("word", Str(w.word))]
  }

  function EncodeWords(words: seq<OnlineWord>): (items: seq<Json>)
    ensures |items| == |words|
  {
    seq(|words|, i requires 0 <= i < |words| => Obj(EncodeWord(words[i])))
  }

  /** `text` and `consumedquota` are always written, `error` and `words`
      only when non-empty; the quota is flattened into the object. */
  function EncodeOnlineResponse(r: OnlineResponse): (members: seq<Member>)
    ensures Keys(members) == (if r.error != "" then ["error"] else []) + ["text"]
      + (if |r.words| > 0 then ["words"] else []) + ["consumedquota"]
    ensures members[|members| - 1..] == EncodeQuota(r.quota)
  {
    var e: seq<Member> := if r.error != "" then [Member("error", Str(r.error))] else [];
    var w: seq<Member> := if |r.words| > 0 then [Member("words", Arr(EncodeWords(r.words)))] else [];
    e + [Member("text", Str(r.text))] + w + EncodeQuota(r.quota)
  }

  /** `json.Marshal` of an offline request: `pipeline`, `url` and `tags`
      always, `config` exactly when one is set, holding the configured
      document unchanged. Encoding fails only for an unencodable
      configuration. */
  function EncodeOfflineRequest(r: OfflineRequest): (e: Option<seq<Member>>)
    ensures e.None? <==> r.config == Some(Unencodable)
    ensures e.Some? ==>
      && Keys(e.value) == ["pipeline", "url"] + (if r.config.Some? then ["config"] else []) + ["tags"]
      && e.value[0].value == Str(r.pipeline) && e.value[1].value == Str(r.url)
      && e.value[|e.value| - 1].value == TagsJson(r.tags)
      && (r.config.Some? ==> e.value[2].value == r.config.value.doc)
  {
    match r.config
    case Some(Unencodable) => None
    case Some(Encodable(doc)) =>
      Some([Member("pipeline", Str(r.pipeline)), Member("url", Str(r.url)),
            Member("config", doc), Member("tags", TagsJson(r.tags))])
    case None =>
      Some([Member("pipeline", Str(r.pipeline)), Member("url", Str(r.url)),
            Member("tags", TagsJson(r.tags))])
  }

  /** `id`, then the flattened quota. */
  function EncodeOfflineResponse(r: OfflineResponse): (members: seq<Member>)
    ensures Keys(members) == ["id", "consumedquota"]
    ensures members[1..] == EncodeQuota(r.quota)
  {
    [Member("id", Str(r.id))] + EncodeQuota(r.quota)
  }

  function EncodeOfflineError(e: OfflineError): (members: seq<Member>)
    ensures Keys(members) == ["code", "message", "module"]
  {
    [Member("code", IntJson(e.code)), Member("message", Str(e.message)), Member("module", Str(e.moduleName))]
  }

  /** `status` and `message` always, `error` only when present and `url`
      only when non-empty. */
  function EncodeStatus(r: StatusResponse): (members: seq<Member>)
    ensures Keys(members) == ["status", "message"]
      + (if r.error.Some? then ["error"] else []) + (if r.url != "" then ["url"] else [])
  {
    var e: seq<Member> := match r.error case Some(x) => [Member("error", Obj(EncodeOfflineError(x)))] case None => [];
    var u: seq<Member> := if r.url != "" then [Member("url", Str(r.url))] else [];
    [Member("status", IntJson(r.status)), Member("message", Str(r.message))] + e + u
  }
}
