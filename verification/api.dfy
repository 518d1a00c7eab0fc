/** The request-building rules of the API service: the bearer header added
    to every request, the cached recording session, and the multipart form
    an audio upload sends. `localStorage` is a map from keys to strings; the
    server's replies are parameters: every reply whose `id` is a string, an
    integer, a boolean, `null` or `undefined` is covered. */
module Api {
  import opened Wrappers
  import opened Js

  type Storage = map<string, string>

  type Headers = map<string, string>

  /** The storage key the interceptor reads the token from. */
  const TokenKey: string := "token"

  /** The storage key the recording session id is cached under. */
  const SessionKey: string := "recordingSessionId"

  const AuthorizationHeader: string := "Authorization"

  /** `localStorage.getItem(key)` is truthy: present and not empty. */
  predicate HasItem(storage: Storage, key: string) {
    key in storage && storage[key] != ""
  }

  // ------------------------------------------------------------ interceptor

  /** The request interceptor: with a non-empty stored token the request
      carries `Authorization: Bearer <token>`; the other headers are kept,
      and without a token nothing changes. */
  function Intercept(storage: Storage, headers: Headers): (r: Headers)
    ensures HasItem(storage, TokenKey) ==>
      AuthorizationHeader in r && r[AuthorizationHeader] == "Bearer " + storage[TokenKey]
    ensures !HasItem(storage, TokenKey) ==> r == headers
    ensures forall h :: h != AuthorizationHeader ==>
      (h in r <==> h in headers) && (h in r ==> r[h] == headers[h])
  {
    if HasItem(storage, TokenKey) then headers[AuthorizationHeader := "Bearer " + storage[TokenKey]]
    else headers
  }

  // ---------------------------------------------------------- upload fields

  /** `type.split(';')[0]`: the MIME type without its parameters, that is
      the prefix of the type before its first `;`. */
  function SanitizeMimeType(mimeType: string): (r: string)
    ensures ';' !in r
    ensures |r| <= |mimeType| && r == mimeType[..|r|]
    ensures |r| < |mimeType| ==> mimeType[|r|] == ';'
    ensures ';' !in mimeType ==> r == mimeType
  {
    Split(mimeType, ';')[0]
  }

  /** Sanitising a sanitised type changes nothing. */
  lemma SanitizeIdempotent(mimeType: string)
    ensures SanitizeMimeType(SanitizeMimeType(mimeType)) == SanitizeMimeType(mimeType)
  {
    SplitWithoutSeparator(SanitizeMimeType(mimeType), ';');
  }

  /** The untyped metadata object of an upload; only the fields the form
      reads. */
  datatype Metadata = Metadata(
    format: JsValue,
    datasetId: JsValue,
    emotionId: JsValue,
    claimedDuration: JsValue)

  /** The `emocao` field: the emotion id on the emotion dataset (the string
      `'3'`, compared strictly) when it is truthy, `"none"` otherwise. */
  function Emocao(metadata: Metadata): (r: string)
    ensures metadata.datasetId == Str("3") && Truthy(metadata.emotionId) ==>
      r == ToString(metadata.emotionId)
    ensures metadata.datasetId != Str("3") || !Truthy(metadata.emotionId) ==> r == "none"
    ensures metadata.datasetId == Number(Int(3)) ==> r == "none"
  {
    var isEmotionDataset := metadata.datasetId == Str("3");
    ToString(if isEmotionDataset then (if Truthy(metadata.emotionId) then metadata.emotionId else Str("none"))
             else Str("none"))
  }

  /** The upload's file name: `recording.` and the format, `webm` when the
      format is missing or empty. */
  function UploadFilename(metadata: Metadata): (r: string)
    ensures StartsWith(r, "recording.") && |r| > |"recording."|
    ensures !Truthy(metadata.format) ==> r == "recording.webm"
    ensures Truthy(metadata.format) ==> r == "recording." + ToString(metadata.format)
    ensures metadata.format.Str? && metadata.format.s != "" ==> r == "recording." + metadata.format.s
  {
    var r := "recording." + ToString(if Truthy(metadata.format) then metadata.format else Str("webm"));
    assert r[..|"recording."|] == "recording.";
    TruthyNotEmpty(if Truthy(metadata.format) then metadata.format else Str("webm"));
    r
  }

  /** A truthy value never prints as the empty string. */
  lemma TruthyNotEmpty(v: JsValue)
    requires Truthy(v)
    ensures ToString(v) != ""
  {
  }

  /** One entry of a `FormData`. */
  datatype FormEntry =
    | TextField(name: string, value: string)
    | FileField(name: string, blob: Blob, filename: string)

  /** The entries `uploadAudio` appends, in order. */
  function UploadForm(audio: Blob, metadata: Metadata, sessionId: JsValue): (form: seq<FormEntry>)
    ensures |form| == 4
    ensures form[0].name == "audio" && form[1].name == "id_session"
         && form[2].name == "emocao" && form[3].name == "claimed_duration"
    ensures form[0].FileField? && form[0].blob.bytes == audio.bytes
    ensures form[0].blob.mimeType == SanitizeMimeType(audio.mimeType)
    ensures ';' !in form[0].blob.mimeType && StartsWith(audio.mimeType, form[0].blob.mimeType)
    ensures form[0].filename == UploadFilename(metadata)
    ensures form[1] == TextField("id_session", ToString(sessionId))
    ensures form[2].TextField? && form[2].value == Emocao(metadata) && form[2].value != ""
    ensures form[3] == TextField("claimed_duration", ToString(metadata.claimedDuration))
  {
    var sanitizedType := SanitizeMimeType(audio.mimeType);
    var sanitizedBlob := Blob(audio.bytes, sanitizedType);
    [ FileField("audio", sanitizedBlob, UploadFilename(metadata)),
      TextField("id_session", ToString(sessionId)),
      TextField("emocao", Emocao(metadata)),
      TextField("claimed_duration", ToString(metadata.claimedDuration)) ]
  }

  // --------------------------------------------------------------- requests

  datatype ApiError = MissingSessionId | RequestFailed

  /** What the server answers to a session request: a body whose `id` may be
      missing or falsy, or a failed request. */
  datatype SessionReply = SessionBody(id: JsValue) | SessionRequestFailed

  datatype Body = Json(dataset: string) | Multipart(form: seq<FormEntry>)

  /** A request as it leaves the client, after the interceptor. */
  datatype Request = Post(path: string, headers: Headers, body: Body)

  /** `getOrCreateSession` yields a session id: one is cached, or the
      server's reply carries a truthy one. */
  predicate SessionObtained(storage: Storage, reply: SessionReply) {
    HasItem(storage, SessionKey) || (reply.SessionBody? && Truthy(reply.id))
  }

  /** The id `getOrCreateSession` resolves with when it yields one. */
  function ObtainedId(storage: Storage, reply: SessionReply): JsValue
    requires SessionObtained(storage, reply)
  {
    if HasItem(storage, SessionKey) then Str(storage[SessionKey]) else reply.id
  }

  /** The requests `getOrCreateSession` sends: none when an id is cached,
      otherwise the session request. */
  function SessionRequests(storage: Storage, dataset: string): seq<Request> {
    if HasItem(storage, SessionKey) then []
    else [Post("/api/v1/sessions", Intercept(storage, map[]), Json(dataset))]
  }

  /** The API client: the browser's `localStorage` and the log of requests
      sent so far. */
  class Client {
    var storage: Storage
    var sent: seq<Request>

    constructor (storage: Storage)
      ensures this.storage == storage && sent == []
    {
      this.storage := storage;
      sent := [];
    }

    /** Sends one request through the interceptor. */
    method Send(path: string, headers: Headers, body: Body)
      modifies this
      ensures storage == old(storage)
      ensures sent == old(sent) + [Post(path, Intercept(storage, headers), body)]
    {
      sent := sent + [Post(path, Intercept(storage, headers), body)];
    }

    /** `getOrCreateSession`: a cached id is returned without a request;
        otherwise one session request is sent, and only a reply with a
        truthy id is stored (as its string) and returned. */
    method GetOrCreateSession(dataset: string, reply: SessionReply) returns (r: Result<JsValue, ApiError>)
      modifies this
      ensures HasItem(old(storage), SessionKey) ==>
        r == Success(Str(old(storage)[SessionKey])) && storage == old(storage) && sent == old(sent)
      ensures !HasItem(old(storage), SessionKey) ==>
        sent == old(sent) + [Post("/api/v1/sessions", Intercept(old(storage), map[]), Json(dataset))]
      ensures !HasItem(old(storage), SessionKey) && reply.SessionRequestFailed? ==>
        r == Failure(RequestFailed) && storage == old(storage)
      ensures !HasItem(old(storage), SessionKey) && reply.SessionBody? && !Truthy(reply.id) ==>
        r == Failure(MissingSessionId) && storage == old(storage)
      ensures !HasItem(old(storage), SessionKey) && reply.SessionBody? && Truthy(reply.id) ==>
        r == Success(reply.id) && storage == old(storage)[SessionKey := ToString(reply.id)]
      ensures r.Success? ==> HasItem(storage, SessionKey) && storage[SessionKey] == ToString(r.value)
    {
      if HasItem(storage, SessionKey) {
        return Success(Str(storage[SessionKey]));
      }
      Send("/api/v1/sessions", map[], Json(dataset));
      match reply
      case SessionRequestFailed =>
        r := Failure(RequestFailed);
      case SessionBody(id) =>
        if !Truthy(id) {
          r := Failure(MissingSessionId);
        } else {
          storage := storage[SessionKey := ToString(id)];
          r := Success(id);
        }
    }

    /** `uploadAudio`: obtain the session, then post the form; a session
        failure rejects before anything is uploaded. */
    method UploadAudio(audio: Blob, metadata: Metadata, dataset: string,
                       sessionReply: SessionReply, uploadSucceeded: bool)
      returns (r: Result<seq<FormEntry>, ApiError>)
      modifies this
      ensures r.Success? ==>
        && uploadSucceeded && HasItem(storage, SessionKey) && |sent| > 0
        && sent[|sent| - 1] == Post("/api/v1/recordings",
             Intercept(storage, map["Content-Type" := "multipart/form-data"]), Multipart(r.value))
        && r.value == UploadForm(audio, metadata, Str(storage[SessionKey]))
      ensures r == Failure(MissingSessionId) ==>
        storage == old(storage) && forall k :: |old(sent)| <= k < |sent| ==> !sent[k].body.Multipart?
      ensures SessionObtained(old(storage), sessionReply) ==>
        && storage == (if HasItem(old(storage), SessionKey) then old(storage)
                       else old(storage)[SessionKey := ToString(sessionReply.id)])
        && sent == old(sent) + SessionRequests(old(storage), dataset)
             + [Post("/api/v1/recordings",
                     Intercept(storage, map["Content-Type" := "multipart/form-data"]),
                     Multipart(UploadForm(audio, metadata, ObtainedId(old(storage), sessionReply))))]
        && (uploadSucceeded ==> r == Success(UploadForm(audio, metadata, ObtainedId(old(storage), sessionReply))))
        && (!uploadSucceeded ==> r == Failure(RequestFailed))
      ensures !SessionObtained(old(storage), sessionReply) ==>
        && r.Failure? && storage == old(storage)
        && sent == old(sent) + SessionRequests(old(storage), dataset)
        && (sessionReply.SessionRequestFailed? ==> r == Failure(RequestFailed))
        && (sessionReply.SessionBody? ==> r == Failure(MissingSessionId))
    {
      var session := GetOrCreateSession(dataset, sessionReply);
      if session.Failure? {
        return Failure(session.error);
      }
      var form := UploadForm(audio, metadata, session.value);
      assert session.value == ObtainedId(old(storage), sessionReply);
      assert form == UploadForm(audio, metadata, Str(storage[SessionKey]));
      Send("/api/v1/recordings", map["Content-Type" := "multipart/form-data"], Multipart(form));
      if uploadSucceeded {
        r := Success(form);
      } else {
        r := Failure(RequestFailed);
      }
    }
  }

  /** Two calls in a row: when the first one creates a session, the second
      returns that id as stored, without another request, whatever the
      server would have answered. */
  method SessionIsReused(c: Client, dataset: string, first: SessionReply, second: SessionReply)
    returns (r1: Result<JsValue, ApiError>, r2: Result<JsValue, ApiError>)
    requires !HasItem(c.storage, SessionKey)
    modifies c
    ensures r1.Success? ==> r2 == Success(Str(ToString(r1.value)))
    ensures r1.Success? ==> |c.sent| == |old(c.sent)| + 1
    ensures r1.Success? && r1.value.Str? ==> r2 == r1
  {
    r1 := c.GetOrCreateSession(dataset, first);
    if r1.Success? {
      TruthyNotEmpty(r1.value);
    }
    r2 := c.GetOrCreateSession(dataset, second);
  }
}
