/** `json.Unmarshal` into the response records of structs.go: object
    members are applied in wire order to the field whose key matches them
    case-insensitively, so a later duplicate overwrites an earlier one;
    unknown keys are skipped; `null` leaves a scalar field as it was and
    resets a pointer or slice; a value of the wrong type is skipped, the
    first such mismatch is remembered, and decoding carries on. */
module Decoding {
  import opened Common
  import opened Json
  import opened Records

  /** `Syntax`: the body is not JSON text at all (nothing is decoded).
      `TypeMismatch`: a value could not be stored in the field `key`
      names (the wire key, or "" for the document itself). */
  datatype DecodeError = Syntax | TypeMismatch(key: string)

  /** What decoding left in the target, and the first error it met. */
  datatype Decoded<T> = Decoded(value: T, error: Option<DecodeError>)

  function FirstError(a: Option<DecodeError>, b: Option<DecodeError>): Option<DecodeError>
  {
    if a.Some? then a else b
  }

  /** A wire key selects the field whose JSON name it equals up to ASCII
      case. */
  predicate KeyMatches(key: string, name: string)
  {
    |key| == |name| && forall i :: 0 <= i < |key| ==> LowerChar(key[i]) == LowerChar(name[i])
  }

  // ---------------------------------------------------------------------
  // Zero values: what a freshly declared response variable holds
  // ---------------------------------------------------------------------

  const ZeroQuota := ConsumedQuota(0)
  const ZeroWord := OnlineWord(Int(0), Int(0), Int(0), "")
  const ZeroOnline := OnlineResponse("", "", [], ZeroQuota)
  const ZeroOffline := OfflineResponse("", ZeroQuota)
  const ZeroError := OfflineError(0, "", "")
  const ZeroStatus := StatusResponse(0, "", None, "")

  // ---------------------------------------------------------------------
  // Storing one value into one field
  // ---------------------------------------------------------------------

  /** A `string` field takes a JSON string; null keeps it. */
  function StringField(key: string, current: string, v: Json): (d: Decoded<string>)
    ensures d.error.None? <==> v.Null? || v.Str?
    ensures d.value == (if v.Str? then v.s else current)
  {
    match v
    case Null => Decoded(current, None)
    case Str(s) => Decoded(s, None)
    case _ => Decoded(current, Some(TypeMismatch(key)))
  }

  /** An `int` field takes an integer literal within 64 bits; a fraction,
      an exponent or an overflow is a mismatch and keeps the field. */
  function IntField(key: string, current: Int64, v: Json): (d: Decoded<Int64>)
    ensures d.error.None? <==> v.Null? || (v.Num? && v.n.Int? && -0x8000_0000_0000_0000 <= v.n.value < 0x8000_0000_0000_0000)
    ensures d.error.None? && v.Num? ==> d.value as int == v.n.value
    ensures d.error.Some? || v.Null? ==> d.value == current
  {
    match v
    case Null => Decoded(current, None)
    case Num(Int(n)) =>
      if -0x8000_0000_0000_0000 <= n < 0x8000_0000_0000_0000 then Decoded(n as Int64, None)
      else Decoded(current, Some(TypeMismatch(key)))
    case _ => Decoded(current, Some(TypeMismatch(key)))
  }

  /** A `float64` field takes any number, kept as read. */
  function FloatField(key: string, current: Number, v: Json): (d: Decoded<Number>)
    ensures d.error.None? <==> v.Null? || v.Num?
    ensures d.value == (if v.Num? then v.n else current)
  {
    match v
    case Null => Decoded(current, None)
    case Num(n) => Decoded(n, None)
    case _ => Decoded(current, Some(TypeMismatch(key)))
  }

  // ---------------------------------------------------------------------
  // Objects into structs
  // ---------------------------------------------------------------------

  /** Applies the members of an object to `acc` in wire order; `step`
      stores one member into the field it selects. */
  function Fold<T>(acc: T, members: seq<Member>, step: (T, Member) -> Decoded<T>): (d: Decoded<T>)
    ensures |members| == 0 ==> d == Decoded(acc, None)
    decreases |members|
  {
    if |members| == 0 then Decoded(acc, None)
    else
      var first := step(acc, members[0]);
      var rest := Fold(first.value, members[1..], step);
      Decoded(rest.value, FirstError(first.error, rest.error))
  }

  /** A JSON value decoded into a struct: an object is folded in, null
      changes nothing, anything else is a mismatch. */
  function Into<T>(key: string, acc: T, v: Json, step: (T, Member) -> Decoded<T>): (d: Decoded<T>)
    ensures v.Null? ==> d == Decoded(acc, None)
    ensures !v.Null? && !v.Obj? ==> d == Decoded(acc, Some(TypeMismatch(key)))
  {
    match v
    case Null => Decoded(acc, None)
    case Obj(members) => Fold(acc, members, step)
    case _ => Decoded(acc, Some(TypeMismatch(key)))
  }

  function QuotaStep(q: ConsumedQuota, m: Member): Decoded<ConsumedQuota>
  {
    if KeyMatches(m.key, "consumedquota") then
      var d := IntField(m.key, q.consumedQuota, m.value);
      Decoded(q.(consumedQuota := d.value), d.error)
    else Decoded(q, None)
  }

  function WordStep(w: OnlineWord, m: Member): Decoded<OnlineWord>
  {
    if KeyMatches(m.key, "confidence") then
      var d := FloatField(m.key, w.confidence, m.value); Decoded(w.(confidence := d.value), d.error)
    else if KeyMatches(m.key, "length") then
      var d := FloatField(m.key, w.length, m.value); Decoded(w.(length := d.value), d.error)
    else if KeyMatches(m.key, "start") then
      var d := FloatField(m.key, w.start, m.value); Decoded(w.(start := d.value), d.error)
    else if KeyMatches(m.key, "word") then
      var d := StringField(m.key, w.word, m.value); Decoded(w.(word := d.value), d.error)
    else Decoded(w, None)
  }

  /** The elements of a JSON array decoded into a `[]OnlineWord` slice:
      element i is decoded over the slice's element i when there is one,
      over a zero word otherwise, and the slice takes the array's length. */
  function WordItems(key: string, current: seq<OnlineWord>, items: seq<Json>): (d: Decoded<seq<OnlineWord>>)
    ensures |d.value| == |items|
    decreases |items|
  {
    if |items| == 0 then Decoded([], None)
    else
      var start := if |current| > 0 then current[0] else ZeroWord;
      var h := Into(key, start, items[0], WordStep);
      var t := WordItems(key, if |current| > 0 then current[1..] else [], items[1..]);
      Decoded([h.value] + t.value, FirstError(h.error, t.error))
  }

  /** The `words` slice: null empties it, an array replaces its elements. */
  function WordsField(key: string, current: seq<OnlineWord>, v: Json): (d: Decoded<seq<OnlineWord>>)
    ensures v.Null? ==> d == Decoded([], None)
    ensures v.Arr? ==> |d.value| == |v.items|
    ensures !v.Null? && !v.Arr? ==> d == Decoded(current, Some(TypeMismatch(key)))
  {
    match v
    case Null => Decoded([], None)
    case Arr(items) => WordItems(key, current, items)
    case _ => Decoded(current, Some(TypeMismatch(key)))
  }

  function ErrorStep(e: OfflineError, m: Member): Decoded<OfflineError>
  {
    if KeyMatches(m.key, "code") then
      var d := IntField(m.key, e.code, m.value); Decoded(e.(code := d.value), d.error)
    else if KeyMatches(m.key, "message") then
      var d := StringField(m.key, e.message, m.value); Decoded(e.(message := d.value), d.error)
    else if KeyMatches(m.key, "module") then
      var d := StringField(m.key, e.moduleName, m.value); Decoded(e.(moduleName := d.value), d.error)
    else Decoded(e, None)
  }

  /** The `*OfflineError` field: null sets it to nil; any other value
      first makes the pointer non-nil (a zero record if it was nil), then
      an object is decoded into the record it points to. */
  function ErrorField(key: string, current: Option<OfflineError>, v: Json): (d: Decoded<Option<OfflineError>>)
    ensures d.value.None? <==> v.Null?
    ensures d.error.None? ==> v.Null? || v.Obj?
  {
    match v
    case Null => Decoded(None, None)
    case Obj(members) =>
      var d := Fold(current.GetOr(ZeroError), members, ErrorStep);
      Decoded(Some(d.value), d.error)
    case _ => Decoded(Some(current.GetOr(ZeroError)), Some(TypeMismatch(key)))
  }

  /** The fields of `OnlineTranscriptionResponse`, then those promoted from
      the embedded quota record. */
  function OnlineStep(r: OnlineResponse, m: Member): Decoded<OnlineResponse>
  {
    if KeyMatches(m.key, "error") then
      var d := StringField(m.key, r.error, m.value); Decoded(r.(error := d.value), d.error)
    else if KeyMatches(m.key, "text") then
      var d := StringField(m.key, r.text, m.value); Decoded(r.(text := d.value), d.error)
    else if KeyMatches(m.key, "words") then
      var d := WordsField(m.key, r.words, m.value); Decoded(r.(words := d.value), d.error)
    else
      var d := QuotaStep(r.quota, m); Decoded(r.(quota := d.value), d.error)
  }

  function OfflineStep(r: OfflineResponse, m: Member): Decoded<OfflineResponse>
  {
    if KeyMatches(m.key, "id") then
      var d := StringField(m.key, r.id, m.value); Decoded(r.(id := d.value), d.error)
    else
      var d := QuotaStep(r.quota, m); Decoded(r.(quota := d.value), d.error)
  }

  function StatusStep(r: StatusResponse, m: Member): Decoded<StatusResponse>
  {
    if KeyMatches(m.key, "status") then
      var d := IntField(m.key, r.status, m.value); Decoded(r.(status := d.value), d.error)
    else if KeyMatches(m.key, "message") then
      var d := StringField(m.key, r.message, m.value); Decoded(r.(message := d.value), d.error)
    else if KeyMatches(m.key, "error") then
      var d := ErrorField(m.key, r.error, m.value); Decoded(r.(error := d.value), d.error)
    else if KeyMatches(m.key, "url") then
      var d := StringField(m.key, r.url, m.value); Decoded(r.(url := d.value), d.error)
    else Decoded(r, None)
  }

  // ---------------------------------------------------------------------
  // Whole documents into a zero-valued response
  // ---------------------------------------------------------------------

  function DecodeQuota(doc: Json): (d: Decoded<ConsumedQuota>)
    ensures doc.Null? ==> d == Decoded(ZeroQuota, None)
    ensures !doc.Null? && !doc.Obj? ==> d == Decoded(ZeroQuota, Some(TypeMismatch("")))
    ensures doc.Obj? && |doc.members| == 0 ==> d == Decoded(ZeroQuota, None)
  {
    Into("", ZeroQuota, doc, QuotaStep)
  }

  function DecodeOnline(doc: Json): (d: Decoded<OnlineResponse>)
    ensures doc.Null? ==> d == Decoded(ZeroOnline, None)
    ensures !doc.Null? && !doc.Obj? ==> d == Decoded(ZeroOnline, Some(TypeMismatch("")))
    ensures doc.Obj? && |doc.members| == 0 ==> d == Decoded(ZeroOnline, None)
  {
    Into("", ZeroOnline, doc, OnlineStep)
  }

  function DecodeOffline(doc: Json): (d: Decoded<OfflineResponse>)
    ensures doc.Null? ==> d == Decoded(ZeroOffline, None)
    ensures !doc.Null? && !doc.Obj? ==> d == Decoded(ZeroOffline, Some(TypeMismatch("")))
    ensures doc.Obj? && |doc.members| == 0 ==> d == Decoded(ZeroOffline, None)
  {
    Into("", ZeroOffline, doc, OfflineStep)
  }

  function DecodeStatus(doc: Json): (d: Decoded<StatusResponse>)
    ensures doc.Null? ==> d == Decoded(ZeroStatus, None)
    ensures !doc.Null? && !doc.Obj? ==> d == Decoded(ZeroStatus, Some(TypeMismatch("")))
    ensures doc.Obj? && |doc.members| == 0 ==> d == Decoded(ZeroStatus, None)
  {
    Into("", ZeroStatus, doc, StatusStep)
  }

  // ---------------------------------------------------------------------
  // Properties
  // ---------------------------------------------------------------------

  /** Decoding the members of `a + b` is decoding `a`, then decoding `b`
      over the result; the first error of `a` takes precedence. */
  lemma {:induction false} FoldAppend<T>(acc: T, a: seq<Member>, b: seq<Member>, step: (T, Member) -> Decoded<T>)
    ensures Fold(acc, a + b, step)
         == Decoded(Fold(Fold(acc, a, step).value, b, step).value,
                    FirstError(Fold(acc, a, step).error, Fold(Fold(acc, a, step).value, b, step).error))
    decreases |a|
  {
    if |a| == 0 {
      assert a + b == b;
    } else {
      var first := step(acc, a[0]);
      assert (a + b)[0] == a[0];
      assert (a + b)[1..] == a[1..] + b;
      FoldAppend(first.value, a[1..], b, step);
    }
  }

  lemma WordRoundTrip(w: OnlineWord, start: OnlineWord)
    ensures Fold(start, EncodeWord(w), WordStep) == Decoded(w, None)
  {
    var ms := EncodeWord(w);
    var s1 := start.(confidence := w.confidence);
    var s2 := s1.(length := w.length);
    var s3 := s2.(start := w.start);
    assert WordStep(start, ms[0]) == Decoded(s1, None);
    assert WordStep(s1, ms[1]) == Decoded(s2, None);
    assert WordStep(s2, ms[2]) == Decoded(s3, None);
    assert WordStep(s3, ms[3]) == Decoded(w, None);
    assert Fold(s3, ms[3..], WordStep) == Decoded(w, None);
    assert ms[2..][1..] == ms[3..];
    assert Fold(s2, ms[2..], WordStep) == Decoded(w, None);
    assert ms[1..][1..] == ms[2..];
    assert Fold(s1, ms[1..], WordStep) == Decoded(w, None);
  }

  lemma QuotaRoundTrip(q: ConsumedQuota, start: ConsumedQuota)
    ensures Fold(start, EncodeQuota(q), QuotaStep) == Decoded(q, None)
  {
  }

  /** An encoded word array decodes back to the same words, whatever the
      slice held before. */
  lemma {:induction false} WordsRoundTrip(key: string, current: seq<OnlineWord>, words: seq<OnlineWord>)
    ensures WordItems(key, current, EncodeWords(words)) == Decoded(words, None)
    decreases |words|
  {
    if |words| > 0 {
      var items := EncodeWords(words);
      var start := if |current| > 0 then current[0] else ZeroWord;
      var rest := if |current| > 0 then current[1..] else [];
      WordRoundTrip(words[0], start);
      assert items[0] == Obj(EncodeWord(words[0]));
      assert Into(key, start, items[0], WordStep) == Decoded(words[0], None);
      assert items[1..] == EncodeWords(words[1..]);
      WordsRoundTrip(key, rest, words[1..]);
      assert WordItems(key, current, items) == Decoded([words[0]] + words[1..], None);
      assert words == [words[0]] + words[1..];
    }
  }

  lemma ErrorRoundTrip(e: OfflineError, start: OfflineError)
    ensures Fold(start, EncodeOfflineError(e), ErrorStep) == Decoded(e, None)
  {
    var ms := EncodeOfflineError(e);
    var s1 := start.(code := e.code);
    var s2 := s1.(message := e.message);
    assert ErrorStep(start, ms[0]) == Decoded(s1, None);
    assert ErrorStep(s1, ms[1]) == Decoded(s2, None);
    assert ErrorStep(s2, ms[2]) == Decoded(e, None);
    assert Fold(s2, ms[2..], ErrorStep) == Decoded(e, None);
    assert ms[1..][1..] == ms[2..];
  }

  lemma WordsIsNotError()
    ensures !KeyMatches("words", "error") && !KeyMatches("error", "words")
  {
    assert LowerChar("words"[0]) != LowerChar("error"[0]);
  }

  /** Every online transcription response survives encoding and decoding:
      an omitted `error` or `words` decodes to the zero value it stood
      for. */
  lemma OnlineRoundTrip(r: OnlineResponse)
    ensures DecodeOnline(Obj(EncodeOnlineResponse(r))) == Decoded(r, None)
  {
    var e: seq<Member> := if r.error != "" then [Member("error", Str(r.error))] else [];
    var w: seq<Member> := if |r.words| > 0 then [Member("words", Arr(EncodeWords(r.words)))] else [];
    var t := [Member("text", Str(r.text))];
    var q := EncodeQuota(r.quota);
    assert EncodeOnlineResponse(r) == e + t + w + q;
    var s1 := ZeroOnline.(error := r.error);
    var s2 := s1.(text := r.text);
    var s3 := s2.(words := r.words);
    if r.error != "" {
      FoldSingle(ZeroOnline, e[0], OnlineStep);
    }
    FoldSingle(s1, t[0], OnlineStep);
    FoldAppend(ZeroOnline, e, t, OnlineStep);
    if |r.words| > 0 {
      OnlineWordsStep(s2, r.words);
      FoldSingle(s2, w[0], OnlineStep);
    }
    FoldAppend(ZeroOnline, e + t, w, OnlineStep);
    OnlineQuotaFold(s3, r.quota);
    FoldAppend(ZeroOnline, e + t + w, q, OnlineStep);
  }

  lemma OnlineWordsStep(acc: OnlineResponse, words: seq<OnlineWord>)
    requires |acc.words| == 0
    ensures OnlineStep(acc, Member("words", Arr(EncodeWords(words)))) == Decoded(acc.(words := words), None)
  {
    WordsIsNotError();
    WordsRoundTrip("words", [], words);
  }

  lemma OnlineQuotaFold(acc: OnlineResponse, q: ConsumedQuota)
    ensures Fold(acc, EncodeQuota(q), OnlineStep) == Decoded(acc.(quota := q), None)
  {
    FoldSingle(acc, EncodeQuota(q)[0], OnlineStep);
  }

  lemma OfflineRoundTrip(r: OfflineResponse)
    ensures DecodeOffline(Obj(EncodeOfflineResponse(r))) == Decoded(r, None)
  {
    var ms := EncodeOfflineResponse(r);
    assert OfflineStep(ZeroOffline, ms[0]) == Decoded(ZeroOffline.(id := r.id), None);
    assert OfflineStep(ZeroOffline.(id := r.id), ms[1]) == Decoded(r, None);
    assert Fold(ZeroOffline.(id := r.id), ms[1..], OfflineStep) == Decoded(r, None);
  }

  /** Every offline status response survives encoding and decoding,
      including its nested error record and an omitted `url`. */
  lemma StatusRoundTrip(r: StatusResponse)
    ensures DecodeStatus(Obj(EncodeStatus(r))) == Decoded(r, None)
  {
    var e: seq<Member> := match r.error case Some(x) => [Member("error", Obj(EncodeOfflineError(x)))] case None => [];
    var u: seq<Member> := if r.url != "" then [Member("url", Str(r.url))] else [];
    var h := [Member("status", IntJson(r.status)), Member("message", Str(r.message))];
    assert EncodeStatus(r) == h + e + u;
    var s2 := ZeroStatus.(status := r.status, message := r.message);
    var s3 := s2.(error := r.error);
    StatusHeadFold(r.status, r.message);
    if r.error.Some? {
      StatusErrorStep(s2, r.error.value);
      FoldSingle(s2, e[0], StatusStep);
    }
    FoldAppend(ZeroStatus, h, e, StatusStep);
    if r.url != "" {
      FoldSingle(s3, u[0], StatusStep);
    }
    FoldAppend(ZeroStatus, h + e, u, StatusStep);
  }

  lemma StatusHeadFold(status: Int64, message: string)
    ensures Fold(ZeroStatus, [Member("status", IntJson(status)), Member("message", Str(message))], StatusStep)
         == Decoded(ZeroStatus.(status := status, message := message), None)
  {
    var h := [Member("status", IntJson(status)), Member("message", Str(message))];
    assert StatusStep(ZeroStatus, h[0]) == Decoded(ZeroStatus.(status := status), None);
    assert h[1..] == [h[1]];
  }

  lemma StatusErrorStep(acc: StatusResponse, x: OfflineError)
    ensures StatusStep(acc, Member("error", Obj(EncodeOfflineError(x)))) == Decoded(acc.(error := Some(x)), None)
  {
    ErrorRoundTrip(x, acc.error.GetOr(ZeroError));
  }

  /** A single member is one step. */
  lemma FoldSingle<T>(acc: T, m: Member, step: (T, Member) -> Decoded<T>)
    ensures Fold(acc, [m], step) == step(acc, m)
  {
    assert [m][1..] == [];
  }

  /** A member appended after others is applied last, over what they left. */
  lemma FoldSnoc<T>(acc: T, a: seq<Member>, m: Member, step: (T, Member) -> Decoded<T>)
    ensures Fold(acc, a + [m], step)
         == Decoded(step(Fold(acc, a, step).value, m).value,
                    FirstError(Fold(acc, a, step).error, step(Fold(acc, a, step).value, m).error))
  {
    FoldAppend(acc, a, [m], step);
  }

  /** Once a mismatch has been met, later members can change the decoded
      value but not the error reported. */
  lemma FirstErrorKept<T>(acc: T, a: seq<Member>, b: seq<Member>, step: (T, Member) -> Decoded<T>)
    requires Fold(acc, a, step).error.Some?
    ensures Fold(acc, a + b, step).error == Fold(acc, a, step).error
  {
    FoldAppend(acc, a, b, step);
  }

  /** The JSON names of the status response's fields. */
  const StatusKeys: seq<string> := ["status", "message", "error", "url"]

  /** A member whose key selects no field changes nothing. */
  lemma StatusUnknownKey(members: seq<Member>, m: Member)
    requires forall name :: name in StatusKeys ==> !KeyMatches(m.key, name)
    ensures DecodeStatus(Obj(members + [m])) == DecodeStatus(Obj(members))
  {
    FoldSnoc(ZeroStatus, members, m, StatusStep);
  }

  /** A later `message` member overrides an earlier one, whatever its
      case, and leaves the other fields as they were. */
  lemma StatusLastMessageWins(members: seq<Member>, key: string, s: string)
    requires KeyMatches(key, "message")
    ensures DecodeStatus(Obj(members + [Member(key, Str(s))]))
         == Decoded(DecodeStatus(Obj(members)).value.(message := s), DecodeStatus(Obj(members)).error)
  {
    FoldSnoc(ZeroStatus, members, Member(key, Str(s)), StatusStep);
  }

  const OnlineKeys: seq<string> := ["error", "text", "words", "consumedquota"]

  lemma OnlineUnknownKey(members: seq<Member>, m: Member)
    requires forall name :: name in OnlineKeys ==> !KeyMatches(m.key, name)
    ensures DecodeOnline(Obj(members + [m])) == DecodeOnline(Obj(members))
  {
    FoldSnoc(ZeroOnline, members, m, OnlineStep);
  }

  /** A `words` member set to null empties the slice decoded so far. */
  lemma OnlineNullWords(members: seq<Member>, key: string)
    requires KeyMatches(key, "words")
    ensures DecodeOnline(Obj(members + [Member(key, Null)])).value
         == DecodeOnline(Obj(members)).value.(words := [])
  {
    WordsIsNotError();
    assert !KeyMatches(key, "error") by {
      assert LowerChar(key[0]) == LowerChar('w');
    }
    FoldSnoc(ZeroOnline, members, Member(key, Null), OnlineStep);
  }

  const OfflineKeys: seq<string> := ["id", "consumedquota"]

  lemma OfflineUnknownKey(members: seq<Member>, m: Member)
    requires forall name :: name in OfflineKeys ==> !KeyMatches(m.key, name)
    ensures DecodeOffline(Obj(members + [m])) == DecodeOffline(Obj(members))
  {
    FoldSnoc(ZeroOffline, members, m, OfflineStep);
  }

  lemma QuotaUnknownKey(members: seq<Member>, m: Member)
    requires !KeyMatches(m.key, "consumedquota")
    ensures DecodeQuota(Obj(members + [m])) == DecodeQuota(Obj(members))
  {
    FoldSnoc(ZeroQuota, members, m, QuotaStep);
  }

  /** A non-null `error` member of the wrong type still leaves a
      (zero-valued) nested record behind, and is reported. */
  lemma StatusErrorMismatch(members: seq<Member>, key: string, v: Json)
    requires KeyMatches(key, "error") && !v.Null? && !v.Obj?
    requires DecodeStatus(Obj(members)).value.error.None?
    ensures DecodeStatus(Obj(members + [Member(key, v)])).value.error == Some(ZeroError)
    ensures DecodeStatus(Obj(members + [Member(key, v)])).error.Some?
  {
    FoldSnoc(ZeroStatus, members, Member(key, v), StatusStep);
  }
}
