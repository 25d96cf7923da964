/** Which messages are accepted, what they are taken to ask for, and what the others are told, stated
    on the fields of the message alone. */
module Decoding {
  import opened Domain
  import opened Protocol
  import opened Codec

  predicate KnownType(name: string) {
    || name == "create_room" || name == "join_room" || name == "leave_room"
    || name == "offer" || name == "answer" || name == "ice_candidate"
  }

  /** The payload fields that a message of this type is checked for, in the order of the checks. */
  function Checked(name: string): seq<string> {
    if name == "create_room" then ["display_name", "password"]
    else if name == "join_room" then ["room_code", "display_name", "password"]
    else if name == "leave_room" then ["room_code"]
    else ["room_code", "target_participant_id"]
  }

  predicate TextOrNothing(j: Json, key: string) {
    Field(j, key) == None || Field(j, key) == Some(Null) || StringField(j, key).Some?
  }

  /** Only the password may be left out or null. */
  predicate Good(payload: Json, key: string) {
    if key == "password" then TextOrNothing(payload, key) else StringField(payload, key).Some?
  }

  /** An object with a known type, a request id that is a string if it is there at all, and an object
      for a payload. */
  predicate GoodEnvelope(json: Json) {
    && StringField(json, "type").Some?
    && KnownType(StringField(json, "type").value)
    && TextOrNothing(json, "request_id")
    && Field(json, "payload").Some?
    && Field(json, "payload").value.Obj?
  }

  ghost predicate GoodFields(name: string, payload: Json) {
    forall i :: 0 <= i < |Checked(name)| ==> Good(payload, Checked(name)[i])
  }

  ghost predicate FirstBad(name: string, payload: Json, i: nat) {
    && i < |Checked(name)|
    && !Good(payload, Checked(name)[i])
    && forall j :: 0 <= j < i ==> Good(payload, Checked(name)[j])
  }

  /** Field `i` is the first bad one, and `code` says in which way. */
  ghost predicate FaultAt(name: string, payload: Json, i: nat, code: string) {
    && FirstBad(name, payload, i)
    && code == if Field(payload, Checked(name)[i]) == None then "missing_field" else "invalid_field"
  }

  /** What a message that is not accepted is told. */
  ghost predicate RightComplaint(json: Json, code: string) {
    if !GoodEnvelope(json) then code == "invalid_message"
    else
      var name, payload := StringField(json, "type").value, Field(json, "payload").value;
      exists i: nat :: FaultAt(name, payload, i, code)
  }

  lemma RequiredIsGood(payload: Json, key: string)
    requires key != "password"
    ensures RequiredString(payload, key).Got? <==> Good(payload, key)
    ensures RequiredString(payload, key).Got? ==> StringField(payload, key) == Some(RequiredString(payload, key).value)
    ensures RequiredString(payload, key).Bad? ==>
      RequiredString(payload, key).code == if Field(payload, key) == None then "missing_field" else "invalid_field"
  {
  }

  lemma OptionalIsGood(payload: Json)
    ensures OptionalString(payload, "password").Got? <==> Good(payload, "password")
    ensures OptionalString(payload, "password").Got? ==> OptionalString(payload, "password").value == StringField(payload, "password")
    ensures OptionalString(payload, "password").Bad? ==>
      OptionalString(payload, "password").code == "invalid_field" && Field(payload, "password").Some?
  {
  }

  lemma FieldsDecide(id: ParticipantId, meta: Meta, payload: Json, name: string)
    requires KnownType(name) && KindOf(name) == Some((meta.kind, meta.signaling))
    ensures DecodeCommand(id, meta, payload).Got? <==> GoodFields(name, payload)
    ensures DecodeCommand(id, meta, payload).Bad? ==>
      exists i: nat :: FaultAt(name, payload, i, DecodeCommand(id, meta, payload).code)
  {
    hide RequiredString, OptionalString, Good, GoodFields, FirstBad;
    RequiredIsGood(payload, "display_name");
    RequiredIsGood(payload, "room_code");
    RequiredIsGood(payload, "target_participant_id");
    OptionalIsGood(payload);
    FirstIsFirst(name, payload);
    var command, keys := DecodeCommand(id, meta, payload), Checked(name);
    if command.Bad? {
      var i := if !Good(payload, keys[0]) then 0 else if !Good(payload, keys[1]) then 1 else 2;
      assert FaultAt(name, payload, i, command.code);
    }
  }

  lemma FirstIsFirst(name: string, payload: Json)
    ensures var keys := Checked(name);
      && 1 <= |keys| <= 3
      && (GoodFields(name, payload) <==>
            Good(payload, keys[0]) && (|keys| < 2 || Good(payload, keys[1])) && (|keys| < 3 || Good(payload, keys[2])))
      && (!Good(payload, keys[0]) ==> FirstBad(name, payload, 0))
      && (|keys| > 1 && Good(payload, keys[0]) && !Good(payload, keys[1]) ==> FirstBad(name, payload, 1))
      && (|keys| > 2 && Good(payload, keys[0]) && Good(payload, keys[1]) && !Good(payload, keys[2]) ==> FirstBad(name, payload, 2))
  {
    hide Good;
    CheckedLength(name);
    hide Checked;
  }

  lemma CheckedLength(name: string)
    ensures 1 <= |Checked(name)| <= 3
  {
  }

  /** A message is accepted if and only if its envelope and all its fields are as they should be. */
  lemma AcceptedIff(id: ParticipantId, json: Json)
    ensures DecodeRequest(id, json).Accepted? <==>
      GoodEnvelope(json) && GoodFields(StringField(json, "type").value, Field(json, "payload").value)
  {
    hide DecodeCommand;
    if GoodEnvelope(json) {
      var name := StringField(json, "type").value;
      var kind := KindOf(name).value;
      FieldsDecide(id, Meta(kind.0, StringField(json, "request_id"), kind.1), Field(json, "payload").value, name);
    }
  }

  /** Otherwise the code names the first thing that is wrong: the envelope, or the first field that is
      missing or of the wrong type. */
  lemma RejectionNamesFirstFault(id: ParticipantId, json: Json)
    requires DecodeRequest(id, json).Rejected?
    ensures RightComplaint(json, DecodeRequest(id, json).code)
  {
    hide DecodeCommand;
    if GoodEnvelope(json) {
      var name := StringField(json, "type").value;
      var kind := KindOf(name).value;
      FieldsDecide(id, Meta(kind.0, StringField(json, "request_id"), kind.1), Field(json, "payload").value, name);
    }
  }

  /** No two codes are right for one message. */
  lemma OneRightComplaint(json: Json, a: string, b: string)
    requires RightComplaint(json, a) && RightComplaint(json, b)
    ensures a == b
  {
    if GoodEnvelope(json) {
      var name, payload := StringField(json, "type").value, Field(json, "payload").value;
      var i: nat :| FaultAt(name, payload, i, a);
      var j: nat :| FaultAt(name, payload, j, b);
      assert i == j;
    }
  }

  /** The request that a message with these fields makes when session `id` sends it. */
  ghost predicate Requests(id: ParticipantId, json: Json, r: Request)
    requires StringField(json, "type").Some? && Field(json, "payload").Some?
  {
    var name, payload := StringField(json, "type").value, Field(json, "payload").value;
    var text := (key: string) => StringField(payload, key);
    && r.meta.requestId == StringField(json, "request_id")
    && match r.command
       case CreateRoomCommand(p, password) =>
         && name == "create_room" && r.meta.kind == CreateRoom && r.meta.signaling == None
         && p.id == id && text("display_name") == Some(p.name) && text("password") == password
       case JoinRoomCommand(room, p, password) =>
         && name == "join_room" && r.meta.kind == JoinRoom && r.meta.signaling == None
         && text("room_code") == Some(room)
         && p.id == id && text("display_name") == Some(p.name) && text("password") == password
       case LeaveRoomCommand(room, who) =>
         && name == "leave_room" && r.meta.kind == LeaveRoom && r.meta.signaling == None
         && text("room_code") == Some(room) && who == id
       case SignalingCommand(s) =>
         && r.meta.kind == Signaling && r.meta.signaling == Some(s.kind)
         && (name == "offer" <==> s.kind == Offer)
         && (name == "answer" <==> s.kind == Answer)
         && (name == "ice_candidate" <==> s.kind == IceCandidate)
         && text("room_code") == Some(s.room) && text("target_participant_id") == Some(s.target)
         && s.from == id && s.data == payload
  }

  lemma RequestIsRead(id: ParticipantId, json: Json)
    requires DecodeRequest(id, json).Accepted?
    ensures StringField(json, "type").Some? && Field(json, "payload").Some?
    ensures Requests(id, json, DecodeRequest(id, json).request)
  {
    hide RequiredString, OptionalString;
    var payload := Field(json, "payload").value;
    RequiredIsGood(payload, "display_name");
    RequiredIsGood(payload, "room_code");
    RequiredIsGood(payload, "target_participant_id");
    OptionalIsGood(payload);
  }

  lemma OneRequest(id: ParticipantId, json: Json, r: Request, q: Request)
    requires StringField(json, "type").Some? && Field(json, "payload").Some?
    requires KnownType(StringField(json, "type").value)
    requires Requests(id, json, r) && Requests(id, json, q)
    ensures r == q
  {
    hide StringField;
  }

  /** An accepted message makes exactly the request that its fields say. */
  lemma AcceptedReads(id: ParticipantId, json: Json)
    requires DecodeRequest(id, json).Accepted?
    ensures StringField(json, "type").Some? && Field(json, "payload").Some?
    ensures forall r :: Requests(id, json, r) <==> r == DecodeRequest(id, json).request
  {
    hide DecodeRequest, Requests, GoodFields;
    AcceptedIff(id, json);
    RequestIsRead(id, json);
    forall r | Requests(id, json, r) ensures r == DecodeRequest(id, json).request {
      OneRequest(id, json, r, DecodeRequest(id, json).request);
    }
  }
}
