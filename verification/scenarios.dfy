/** Whole calls of the client: a request built from the client's state,
    answered by a server that encodes a response record the way the
    service does, decoded back into that record. */
module Scenarios {
  import opened Common
  import opened Json
  import opened Records
  import opened Decoding
  import opened Transport
  import opened Client
  import Urls

  /** A 200 reply whose body is the object `members`. */
  function Answer(members: seq<Member>): Reply
  {
    Response(200, Document(Obj(members)))
  }

  /** A quota call with a key against a parseable base URL returns the
      count the server encoded. */
  lemma QuotaEndToEnd(t: Transkit, q: ConsumedQuota)
    requires |t.key| > 0 && Urls.Parse(t.apiUrl).Success?
    ensures GetQuota(t, Answer(EncodeQuota(q))) == Success(q)
  {
    var ms := EncodeQuota(q);
    QuotaRoundTrip(q, ZeroQuota);
    assert DecodeQuota(Obj(ms)) == Decoded(q, None);
    assert GetQuota(t, Answer(ms)) == Receive(Answer(ms), DecodeQuota);
  }

  /** An online transcription with audio and a pipeline returns the
      transcription the server encoded, words and quota included. */
  lemma OnlineEndToEnd(t: Transkit, audio: string, pipeline: string, tags: seq<string>, r: OnlineResponse)
    requires |audio| > 0 && |pipeline| > 0 && Urls.Parse(t.apiUrl).Success?
    ensures TranscribeOnline(t, audio, pipeline, tags, Answer(EncodeOnlineResponse(r))) == Success(r)
  {
    OnlineRoundTrip(r);
  }

  /** An offline transcription with an encodable configuration (or none)
      returns the job the server encoded. */
  lemma OfflineEndToEnd(t: Transkit, audioUrl: string, pipeline: string, tags: seq<string>, r: OfflineResponse)
    requires |audioUrl| > 0 && |pipeline| > 0 && Urls.Parse(t.apiUrl).Success?
    requires t.extraConfig != Some(Unencodable)
    ensures TranscribeOffline(t, audioUrl, pipeline, tags, Answer(EncodeOfflineResponse(r))) == Success(r)
  {
    OfflineRoundTrip(r);
  }

  /** A status call with a key returns the status the server encoded,
      nested error record included. */
  lemma StatusEndToEnd(t: Transkit, id: string, r: StatusResponse)
    requires |t.key| > 0 && Urls.Parse(t.apiUrl).Success?
    ensures TranscribeOfflineStatus(t, id, Answer(EncodeStatus(r))) == Success(r)
  {
    StatusRoundTrip(r);
  }

  /** The default client set up with a key: the offline job `job-1` is
      polled at the status path of the service's own address. */
  lemma DefaultStatusRequest(key: string)
    requires |key| > 0
    ensures var p := PlanStatus(Init(Uninitialized, key), "job-1");
      && p.Send? && p.request.verb == GET && p.request.body.None?
      && p.request.target == DefaultApiUrl + StatusPath + "/" + "job-1"
      && p.request.headers == Headers(key)
  {
    DefaultTargets(Uninitialized, key, "", "", [], "job-1");
  }

  /** A failed job as the server reports it: the nested error record is
      decoded field by field. */
  lemma FailedJobDecoded()
    ensures DecodeStatus(Obj([
        Member("status", Num(Int(3))), Member("message", Str("failed")),
        Member("error", Obj([Member("code", Num(Int(7))), Member("message", Str("bad audio")), Member("module", Str("asr"))]))]))
      == Decoded(StatusResponse(3, "failed", Some(OfflineError(7, "bad audio", "asr")), ""), None)
  {
    StatusRoundTrip(StatusResponse(3, "failed", Some(OfflineError(7, "bad audio", "asr")), ""));
  }

  /** A rejected key: whatever the body, a 401 is the invalid-key error
      for the default client. */
  lemma RejectedKey(key: string, body: Body)
    requires |key| > 0
    ensures TranscribeOnline(Init(Uninitialized, key), "AA==", "default", [], Response(401, body)) == Failure(InvalidApiKey)
    ensures GetQuota(Init(Uninitialized, key), Response(401, body)) == Failure(InvalidApiKey)
  {
    DefaultTargets(Uninitialized, key, "AA==", "default", [], "x");
  }
}
