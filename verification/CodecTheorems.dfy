/** What the codec promises end to end: which requests it can produce, how replies are labelled,
    and that relayed signals arrive as they were sent. */
module CodecTheorems {
  import opened Domain
  import opened Protocol
  import opened Codec

  /** Requests that a session with this id can issue: metadata and command agree, and every
      identity field is the session's own. */
  predicate Issued(r: Request, id: ParticipantId) {
    match r.command
    case CreateRoomCommand(p, _) => r.meta.kind == CreateRoom && r.meta.signaling.None? && p.id == id
    case JoinRoomCommand(_, p, _) => r.meta.kind == JoinRoom && r.meta.signaling.None? && p.id == id
    case LeaveRoomCommand(_, who) => r.meta.kind == LeaveRoom && r.meta.signaling.None? && who == id
    case SignalingCommand(s) =>
      && r.meta.kind == Signaling
      && r.meta.signaling == Some(s.kind)
      && s.from == id
      && s.data.Obj?
      && StringField(s.data, "room_code") == Some(s.room)
      && StringField(s.data, "target_participant_id") == Some(s.target)
  }

  /** The canonical message for a request; an absent password is left out. */
  function PayloadOf(c: Command): Json {
    match c
    case CreateRoomCommand(p, password) =>
      Obj(WithPassword(map["display_name" := Str(p.name)], password))
    case JoinRoomCommand(code, p, password) =>
      Obj(WithPassword(map["room_code" := Str(code), "display_name" := Str(p.name)], password))
    case LeaveRoomCommand(code, _) => Obj(map["room_code" := Str(code)])
    case SignalingCommand(s) => s.data
  }

  function WithPassword(fields: map<string, Json>, password: Option<string>): map<string, Json> {
    if password.Some? then fields["password" := Str(password.value)] else fields
  }

  function EncodeRequest(r: Request): Json {
    var fields := map["type" := Str(KindName(r.meta)), "payload" := PayloadOf(r.command)];
    Obj(if r.meta.requestId.Some? then fields["request_id" := Str(r.meta.requestId.value)] else fields)
  }

  lemma KindNamesRoundTrip(meta: Meta)
    requires meta.kind == Signaling <==> meta.signaling.Some?
    ensures KindOf(KindName(meta)) == Some((meta.kind, meta.signaling))
  {
  }

  lemma KindOfInverts(name: string)
    requires KindOf(name).Some?
    ensures forall requestId :: KindName(Meta(KindOf(name).value.0, requestId, KindOf(name).value.1)) == name
    ensures KindOf(name).value.0 == Signaling <==> KindOf(name).value.1.Some?
  {
  }

  lemma PayloadDecodes(r: Request, id: ParticipantId)
    requires Issued(r, id)
    ensures DecodeCommand(id, r.meta, PayloadOf(r.command)) == Got(r.command)
    ensures PayloadOf(r.command).Obj?
  {
    var payload := PayloadOf(r.command);
    match r.command
    case CreateRoomCommand(p, password) =>
      assert RequiredString(payload, "display_name") == Got(p.name);
      assert OptionalString(payload, "password") == Got(password);
    case JoinRoomCommand(code, p, password) =>
      assert RequiredString(payload, "room_code") == Got(code);
      assert RequiredString(payload, "display_name") == Got(p.name);
      assert OptionalString(payload, "password") == Got(password);
    case LeaveRoomCommand(code, _) =>
    case SignalingCommand(s) =>
  }

  lemma EnvelopeReads(r: Request)
    ensures StringField(EncodeRequest(r), "type") == Some(KindName(r.meta))
    ensures Field(EncodeRequest(r), "payload") == Some(PayloadOf(r.command))
    ensures StringField(EncodeRequest(r), "request_id") == r.meta.requestId
    ensures r.meta.requestId.None? ==> Field(EncodeRequest(r), "request_id").None?
  {
  }

  /** Decoding the canonical message of any request a session can issue returns that request. */
  lemma RequestRoundTrip(r: Request, id: ParticipantId)
    requires Issued(r, id)
    ensures DecodeRequest(id, EncodeRequest(r)) == Accepted(r)
  {
    EnvelopeReads(r);
    KindNamesRoundTrip(r.meta);
    PayloadDecodes(r, id);
    assert r.meta == Meta(r.meta.kind, r.meta.requestId, r.meta.signaling);
  }

  lemma CommandMatchesMeta(id: ParticipantId, meta: Meta, payload: Json)
    requires meta.kind == Signaling <==> meta.signaling.Some?
    requires payload.Obj?
    requires DecodeCommand(id, meta, payload).Got?
    ensures Issued(Request(meta, DecodeCommand(id, meta, payload).value), id)
  {
  }

  /** Conversely nothing else is ever accepted, so the dispatcher never meets a command that does
      not fit its metadata, and no message can speak for another participant. */
  lemma AcceptedRequestsAreIssued(id: ParticipantId, json: Json)
    requires DecodeRequest(id, json).Accepted?
    ensures Issued(DecodeRequest(id, json).request, id)
  {
    var name := StringField(json, "type").value;
    KindOfInverts(name);
    var r := DecodeRequest(id, json).request;
    CommandMatchesMeta(id, r.meta, Field(json, "payload").value);
  }

  /** The two together: the requests that reach the dispatcher from a session are exactly the
      issued ones. */
  lemma DecodableIffIssued(r: Request, id: ParticipantId)
    ensures Issued(r, id) <==> exists json :: DecodeRequest(id, json) == Accepted(r)
  {
    if Issued(r, id) {
      RequestRoundTrip(r, id);
    }
    if json :| DecodeRequest(id, json) == Accepted(r) {
      AcceptedRequestsAreIssued(id, json);
    }
  }

  // ------------------------------------------------------------------
  // Replies
  // ------------------------------------------------------------------

  /** The request id a reply must carry: that of a JSON object with a string type and a string id. */
  function ExpectedId(m: Inbound): Option<string> {
    if m.Text? && StringField(m.json, "type").Some? then StringField(m.json, "request_id") else None
  }

  /** The type a reply must have: the request's type plus `_result` for the six known types. */
  function ExpectedType(m: Inbound): string {
    if m.Text? && StringField(m.json, "type").Some? && KindOf(StringField(m.json, "type").value).Some?
    then StringField(m.json, "type").value + "_result"
    else "error"
  }

  predicate Answers(reply: Json, m: Inbound) {
    && IsReply(reply)
    && StringField(reply, "request_id") == ExpectedId(m)
    && StringField(reply, "type") == Some(ExpectedType(m))
  }

  lemma ResultTypeIsSuffixed(meta: Meta)
    requires meta.kind == Signaling ==> meta.signaling.Some?
    ensures ResultType(meta) == KindName(meta) + "_result"
  {
    match meta.kind
    case CreateRoom => assert "create_room" + "_result" == "create_room_result";
    case JoinRoom => assert "join_room" + "_result" == "join_room_result";
    case LeaveRoom => assert "leave_room" + "_result" == "leave_room_result";
    case Signaling =>
  }

  function ErrorReply(d: Decoded): Json
    requires d.Rejected?
  {
    EncodeProtocolError(d.meta, d.code, d.requestId)
  }

  lemma RejectionsAreAnswered(id: ParticipantId, json: Json)
    requires DecodeRequest(id, json).Rejected?
    ensures Answers(ErrorReply(DecodeRequest(id, json)), Text(json))
    ensures ReadRoster(ErrorReply(DecodeRequest(id, json))) == None
  {
    var d := DecodeRequest(id, json);
    ProtocolErrorShape(d.meta, d.code, d.requestId);
    if d.meta.Some? {
      KindOfInverts(StringField(json, "type").value);
      ResultTypeIsSuffixed(d.meta.value);
    }
  }

  lemma ProtocolErrorShape(meta: Option<Meta>, code: string, requestId: Option<string>)
    ensures var r := EncodeProtocolError(meta, code, requestId);
      && IsReply(r)
      && Verdict(r) == Some(false)
      && ErrorCodeOf(r) == Some(code)
      && StringField(r, "type") == Some(if meta.Some? then ResultType(meta.value) else "error")
      && StringField(r, "request_id") == (if meta.Some? && meta.value.requestId.Some? then meta.value.requestId else requestId)
      && ReadRoster(r) == None
      && Field(r, "error") == Some(ErrorBody(code))
  {
    ReplyShape(if meta.Some? then ResultType(meta.value) else "error", false, "error", ErrorBody(code),
               if meta.Some? && meta.value.requestId.Some? then meta.value.requestId else requestId);
    assert StringField(ErrorBody(code), "code") == Some(code);
  }

  /** Whatever the dispatcher decides about an accepted message, its encoding answers it. */
  lemma ResponsesAnswer(id: ParticipantId, json: Json, response: Response)
    requires DecodeRequest(id, json).Accepted?
    requires response.meta == DecodeRequest(id, json).request.meta
    requires response.Succeeded? ==> Fits(response.meta, response.payload)
    ensures Answers(EncodeResponse(response), Text(json))
  {
    ResponseShowsRoster(response);
    KindOfInverts(StringField(json, "type").value);
    ResultTypeIsSuffixed(response.meta);
  }

  /** The error code a client reads off a message. */
  function ErrorCodeOf(m: Json): Option<string> {
    match Field(m, "error")
    case Some(body) => StringField(body, "code")
    case None => None
  }

  /** No two failures share a code. */
  lemma ErrorCodesAreDistinct(f: Failure, g: Failure)
    requires ErrorCode(f) == ErrorCode(g)
    ensures f == g
  {
    assert ErrorCode(f)[|ErrorCode(f)| - 1] == ErrorCode(g)[|ErrorCode(g)| - 1];
    assert ErrorCode(f)[0] == ErrorCode(g)[0];
    assert |ErrorCode(f)| == |ErrorCode(g)|;
  }

  lemma ReplyTells(r: Response)
    ensures ErrorCodeOf(EncodeResponse(r)) == if r.Failed? then Some(ErrorCode(r.reason)) else None
  {
    match r
    case Succeeded(meta, payload) =>
      assert Field(Reply(ResultType(meta), true, "payload", SuccessBody(payload), meta.requestId), "error") == None;
    case Failed(meta, reason) =>
      ReplyShape(ResultType(meta), false, "error", ErrorBody(ErrorCode(reason)), meta.requestId);
      assert StringField(ErrorBody(ErrorCode(reason)), "code") == Some(ErrorCode(reason));
  }

  // ------------------------------------------------------------------
  // Relays
  // ------------------------------------------------------------------

  /** A relayed message shows the sender's payload with one field replaced: the sender is always
      the session that sent it, whatever the payload claimed. */
  lemma RelayIsFaithful(id: ParticipantId, json: Json)
    requires DecodeRequest(id, json).Accepted?
    requires DecodeRequest(id, json).request.command.SignalingCommand?
    ensures Field(json, "payload").Some?
    ensures var s := DecodeRequest(id, json).request.command.signal;
      var sent, relayed := Field(json, "payload").value, EncodeSignal(s);
      && sent.Obj?
      && StringField(relayed, "type") == StringField(json, "type")
      && Field(relayed, "payload") == Some(Obj(sent.fields["from_participant_id" := Str(id)]))
      && StringField(sent, "room_code") == Some(s.room)
      && StringField(sent, "target_participant_id") == Some(s.target)
      && !IsReply(relayed)
      && ReadRoster(relayed) == None
  {
    AcceptedRequestsAreIssued(id, json);
    var r := DecodeRequest(id, json).request;
    var s := r.command.signal;
    var sent := Field(json, "payload").value;
    assert s.data == sent;
    var fields := sent.fields;
    assert fields["room_code" := Str(s.room)] == fields;
    assert fields["target_participant_id" := Str(s.target)] == fields;
    PushShape(SignalingName(s.kind), RelayPayload(s));
    KindOfInverts(StringField(json, "type").value);
    NoRosterInSignals(s.kind);
  }
}
