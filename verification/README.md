# BuzzWeb server: a verified model

BuzzWeb is a signaling server for voice and video rooms. Clients connect over WebSocket, create,
join and leave rooms, and exchange WebRTC offers, answers and ICE candidates through the server.
This project models its stack from the room to the socket callbacks and proves what every run of it
keeps.

The model has two layers.

- **Values.** Rooms, the store, requests, replies, sessions and the whole server are values; each
  operation is a function on them. The theorems about runs are stated here.
- **Objects.** The classes that change things in place (`RoomObjects`, `SessionObjects`) have the
  source's fields and loops. Every method is proved to do exactly what the function on values says;
  every socket callback is proved to be exactly one step of the server machine. `EventLoop` delivers
  completions to these objects one after the other: every run of the objects is a
  run of the machine, so the theorems about runs hold of the objects.

Two machines are built from the same operations.

- **Server** runs to completion: every completion handler and every posted closure is one step, as one
  thread running the executor makes it (src/net/Server.cpp:11, src/net/Server.cpp:37). A run is any
  sequence of enabled steps: connects, accepts, reads, writes, failures, closes, posted closures, for
  any number of sessions, any messages, any drawn room codes and any order in which the store lists
  its codes.
- **Interleaving** lets any number of threads call the room service at once. Only single repository
  calls are atomic (each holds the repository's mutex), as docs/ARCHITECTURE.md:164-167 demands.

## Modules

| file | content |
|---|---|
| `Domain`, `RoomCodes`, `RoomStore` | rooms, six-digit codes, repository operations and use cases as functions |
| `Protocol`, `Codec`, `Decoding`, `CodecTheorems` | typed messages, JSON values, decoding and encoding, which messages are accepted, round trips |
| `Dispatcher`, `Refusals` | routing, and what the reply to any message says |
| `History` | the record of a run, written from requests and outcomes, and what it says about the store |
| `Sessions`, `Server` | one session's asynchronous state, the server machine |
| `Deliveries`, `Effects` | who receives what from one handled message or one disconnect |
| `ServerInvariant`, `ServerTheorems`, `Confinement`, `Announcements`, `Lifecycle`, `LateRead` | what every step keeps, and the theorems about runs |
| `Interleaving`, `InterleavedSweep`, `CreateAttempts`, `CreatorRace`, `Uninterrupted` | threads calling the room service |
| `Refinement` | the abstract picture: room secrets and a membership relation |
| `RoomObjects`, `SessionObjects`, `EventLoop` | the mutable objects and their runs |

## Assumptions

- Participant ids of distinct sessions are distinct: they are 64 random bits
  (src/net/Session.cpp:22-30). A session is named by its id, and `Connect` needs an unused one.
- Allocation, encoding and handlers do not throw. With exceptions, the first `catch` of `LeaveRoom`
  falls through to the later tests (src/app/RoomService.cpp:155-165), and a throwing handler would be
  called a second time (src/app/ControlDispatcher.cpp:56-144).
- Closures posted to one session's executor run in the order they were posted; those of different
  sessions may interleave freely.

## Findings

- **A message read after its session's cleanup makes an unreachable member.** `OnRead` and
  `HandleMessage` look at neither `closing_` nor `registered_` (include/buzzweb/net/Session.hpp:134-157).
  When a write fails, `Fail` cleans the session up while its read is still outstanding
  (include/buzzweb/net/Session.hpp:164-191). If that read completes with a message, having completed
  before the transport was closed, the session can enter a room that nothing will ever take it out of
  (`LateRead.LateReadBreaksLiveness`). `ServerTheorems.LivenessLostIff` and
  `ServerTheorems.LiveThroughoutIff` give the exact condition.
- **`participant_unavailable` is otherwise dead.** docs/ARCHITECTURE.md:84 lists it as a regular
  outcome; unless a cleaned-up session is let into a room, nobody is ever sent it
  (`Confinement.NobodyIsEverUnavailable`).
- **Under interleaving a creator can lose its own room.** `create_room` adds the room and joins it in two
  repository calls. The creator gets into the room it opened if and only if no other thread's erase hits
  the still empty room in between (`CreatorRace.CreatorGetsInIff`). The erase can be that of a visitor
  who came and went (`CreatorRace.VisitorLocksCreatorOut`), or one left over from the code's previous
  room, with no visitor at all (`CreatorRace.StaleEraseLocksCreatorOut`). If the code has been taken
  again by then, the creator is refused or let in by somebody else's room: one that asked for a password
  can be answered ok for a stranger's open room (`CreatorRace.CreatorCanEndUpInForeignRoom`).
  `CreatorRace.CreatorsFate` decides every outcome. On one thread none of this can happen
  (`RoomStore.CreatorAlwaysGetsIn`), and no room leaks either way.

## Model

| member | source | states |
|---|---|---|
| `ServerTheorems.ReplicaAgreement` | src/net/Session.cpp:67-107 | in every run, the latest list about a room sent to any of its registered members is the room's list in order; once that member's messages are written, so is the latest list on the wire |
| `ServerTheorems.FullReplicaAgreement` | src/app/ControlDispatcher.cpp:76-118 | unless a cleaned-up session is let into a room, this holds for every member of every room |
| `ServerTheorems.MembersAreLive` | src/net/Session.cpp:114-128 | unless a cleaned-up session is let into a room, every room member has a registered session |
| `ServerTheorems.LivenessLostIff` | include/buzzweb/net/Session.hpp:134-157 | a step makes a member unreachable if and only if it reads, on an unregistered session, a message that opens or enters a room |
| `ServerTheorems.LiveThroughoutIff` | include/buzzweb/net/Session.hpp:134-157 | over whole runs: members stay live throughout if and only if no such step occurs |
| `LateRead.LateReadBreaksLiveness` | include/buzzweb/net/Session.hpp:134-191 | a concrete run (accept, a binary frame, its error reply fails to be written, a late create_room) after which a member has no session |
| `ServerTheorems.DisciplineSuffices` | include/buzzweb/net/Session.hpp:134-157 | reading nothing at all on cleaned-up sessions is enough for that |
| `ServerTheorems.OrderedReplies` | src/net/Session.cpp:46-85 | every message read has exactly one reply, in order, with its request id and type; the replies on the wire are the first of these |
| `ServerTheorems.WriteQueueSafety` | include/buzzweb/net/Session.hpp:158-191 | in every run: one write in flight at most and it writes the queue's front; until closing, a write is in flight iff the queue is non-empty; written plus queued plus posted messages are the sent ones in order; cleanup runs at most once |
| `ServerTheorems.NoWriteStartsOnceClosing` | include/buzzweb/net/Session.hpp:158-161 | once closing, a session stays closing, starts no write and has no more writes outstanding than before, however the run continues |
| `Lifecycle.StepMovesFlags` | include/buzzweb/net/Session.hpp:73-191 | for every step and session: it becomes closing iff it acted and its accept, read or write failed or a close closure ran; its phase changes only when its accept ends or a read ends without a message; it is registered by a successful accept and unregistered by exactly the steps that clean up |
| `Lifecycle.NewcomersAreFresh` | src/net/Listener.cpp:72-90 | sessions come into being by connecting only, and start with nothing set, queued or read |
| `Lifecycle.FlagsTell` | include/buzzweb/net/Session.hpp:115-191 | in every run: closing iff a step closed it; accepting until its accept ends, then reading exactly until a read ends without a message; registered only while reading, and always while reading and not closing |
| `Lifecycle.WritesGoOn` | include/buzzweb/net/Session.hpp:158-180 | in every run a session that no step closed is not closing and has a write in flight iff its queue is non-empty |
| `Lifecycle.CanAlwaysDrain` | include/buzzweb/net/Session.hpp:60-72 | wherever a run has led, a session not closing and with no close posted can have everything it was sent written, in exactly as many steps as there are closures and writes left |
| `Lifecycle.CloseTakesEffect` | include/buzzweb/net/Session.hpp:73-96 | once the closures posted up to a call of `Close` have run the session is closing, and out of the registry if it was live, whatever else the run does |
| `ServerTheorems.EventReplay` | src/app/ControlDispatcher.cpp:76-118 | replaying reported creations, joins and leaves reproduces every room's list exactly, an absent room's being empty |
| `ServerTheorems.Conservation` | src/app/RoomService.cpp:177-188 | the sum of room sizes is creations plus joins minus leaves, disconnects included |
| `ServerTheorems.PasswordBackedMembership` | src/domain/Room.cpp:31-47 | a room has the secret of its current incarnation's opening, and each member got in by a request of that incarnation that supplied it and has not left since |
| `ServerTheorems.StoreIsSound` | src/domain/InMemoryRoomRepository.cpp:11-22 | between handlers: keys are stored codes, nobody is listed twice, no room is empty, at most a million rooms |
| `ServerInvariant.StepKeepsInv` | include/buzzweb/net/Session.hpp:57-196 | every step keeps the joint invariant of store, record, registry, sessions and replicas |
| `Confinement.RoomConfinement` | src/app/ControlDispatcher.cpp:120-139 | every message sent in any step is a reply to the acting session, a current list to somebody who was and is a member of that room, or a signal between two members of one room that changes no room |
| `Confinement.StepHasThatEffect` | src/net/Session.cpp:87-107 | a step sends exactly the deliveries of its handled message or its cleanup, and changes the rooms in no other way |
| `Confinement.UnavailableIff` | src/net/Session.cpp:69-77 | participant_unavailable is sent iff both ends are in the room and the target has no registered session |
| `Confinement.NobodyIsEverUnavailable` | docs/ARCHITECTURE.md:84 | unless a cleaned-up session is let into a room, no session is ever sent participant_unavailable |
| `Effects.EveryMessageIsAnsweredOnce` | src/net/Session.cpp:46-85 | any inbound message yields exactly one reply to its sender, fitting the message, and none to others |
| `Effects.HandleRefreshes` | src/net/Session.cpp:82-107 | whoever is in a room and reachable after a message was handled was shown its list, or nothing about the room changed |
| `Effects.CleanupRefreshes` | src/net/Session.cpp:114-128 | the same for a disconnect, whatever order the codes are listed in |
| `Effects.DeparturesShown` | src/net/Session.cpp:87-107 | disconnect events reach exactly the remaining members, with the list they are left with |
| `Announcements.HandlingAnnounces` | src/net/Session.cpp:67-107 | what anybody is sent unasked when a message is handled: to each other registered member one participant_joined naming the newcomer, or one participant_left naming who left, with the new list; to a registered signal target inside the room the signal; to everybody else nothing |
| `Announcements.CleanupAnnounces` | src/net/Session.cpp:114-128 | a disconnect sends every registered co-member exactly one participant_left per shared room, naming the one who left and those who remain, and nothing else |
| `Announcements.RunAnnounces` | src/net/Session.cpp:87-128 | the two together for every step of every run; other steps send nothing |
| `Deliveries.ReceiversGetOne` | src/net/Session.cpp:93-104 | every listed participant with a registered session gets the event once, except the one who joined |
| `Deliveries.DispatchExplained` | src/app/ControlDispatcher.cpp:46-145 | every request a session can issue opens, enters, leaves or changes nothing, decided by store, request and draws, with the response, events and record that report it |
| `Interleaving.NoLeakedEmptyRooms` | src/app/RoomService.cpp:132-175 | under every interleaving each empty room has a thread whose next call settles it; with nothing in flight no room is empty; at most a million rooms |
| `Interleaving.SettlingWorks` | src/domain/InMemoryRoomRepository.cpp:69-84 | that thread's next call leaves the room erased or inhabited, whatever others did meanwhile |
| `Interleaving.NoLostJoins` | src/domain/InMemoryRoomRepository.cpp:36-56 | under every interleaving a member stays in the same room, and nobody overtakes it there, until a leave of that id from that room commits |
| `Interleaving.CommittedLeaveStays` | src/app/RoomService.cpp:132-150 | after a leave call the participant is out of the room, whatever other threads do, until somebody joins as it; the others keep their order |
| `Interleaving.CommittedJoinStays` | src/app/RoomService.cpp:92-104 | once a join commits, whatever other threads do until that id leaves that room, it is in the same incarnation, under the secret that admitted it, behind nobody but those it found there |
| `InterleavedSweep.InterleavedCleanupIsComplete` | src/app/RoomService.cpp:177-188 | a sweep that others interleave takes the participant out of exactly the rooms that held it when the codes were listed, leaves it in none, and reports each of them once with those who remained when its leave committed |
| `InterleavedSweep.SweepTouchesNobodyElse` | src/app/RoomService.cpp:177-188 | the sweep's own calls keep every other member of every room, in order |
| `CreateAttempts.HundredAttempts` | src/app/RoomService.cpp:61-80 | in every interleaving a creating thread makes at most 100 attempts and gives up iff all 100 met a taken code; otherwise it opens a room within them |
| `Uninterrupted.CreateAlone` | src/app/ControlDispatcher.cpp:58-74 | the repository calls of an uninterrupted create, for any 100 draws, end where creating and then joining end |
| `Uninterrupted.JoinAlone` | src/app/RoomService.cpp:82-130 | the same for a join |
| `Uninterrupted.LeaveAlone` | src/app/RoomService.cpp:132-175 | the same for a leave |
| `Uninterrupted.SweepAlone` | src/app/RoomService.cpp:177-188 | the same for a cleanup in any listing order, with the reports it collects |
| `CreatorRace.CreatorGetsInIff` | src/app/ControlDispatcher.cpp:58-74 | for every interleaving between the two calls in which nobody else joins as the creator: its join succeeds, into the room it opened, iff no call erased that room |
| `CreatorRace.CreatorsFate` | src/app/ControlDispatcher.cpp:58-74 | for every interleaving between the two calls: not found iff erased and not opened again, each password refusal iff opened again with a secret that refuses, already joined iff somebody joined under its id, ok otherwise; with the list it is answered |
| `CreatorRace.VisitorLocksCreatorOut` | src/app/ControlDispatcher.cpp:66-74 | a run in which a visitor joins and leaves in between and the creator is told room not found |
| `CreatorRace.StaleEraseLocksCreatorOut` | src/app/RoomService.cpp:167-170 | a run in which an erase pending since the code's previous room takes the new, protected one |
| `CreatorRace.CreatorCanEndUpInForeignRoom` | src/app/ControlDispatcher.cpp:66-80 | a run in which a creator who asked for a password is answered ok for a stranger's open room |
| `Refinement.JoinRefines` | src/app/RoomService.cpp:82-130 | joining is decided by secrets and membership relation alone; it adds one pair or nothing |
| `Refinement.LeaveRefines` | src/app/RoomService.cpp:132-175 | leaving removes one pair, and the room with its last member, or nothing |
| `Refinement.CreateRefines` | src/app/RoomService.cpp:61-80 | creating adds one uninhabited room, or nothing |
| `Refinement.CleanupRefines` | src/app/RoomService.cpp:177-188 | a whole cleanup is one departure from everything |
| `Refinement.EveryCallIsOneStepOrNone` | src/domain/InMemoryRoomRepository.cpp:36-84 | every atomic call of interleaved threads is one step of the picture or a stutter |
| `RoomStore.CleanupIsComplete` | src/app/RoomService.cpp:177-188 | for any listing of the codes the loop removes the participant everywhere, drops exactly the rooms it had alone, keeps everybody else's order, and reports each of its rooms once |
| `RoomStore.CreateRoomTakesFirstFreeCode` | src/app/RoomService.cpp:61-80 | the room gets the first free code among the draws; it fails iff all are taken, and then changes nothing |
| `RoomStore.CreatorAlwaysGetsIn` | src/app/ControlDispatcher.cpp:58-82 | after a creation the creator's join succeeds with the singleton list, for every secret option |
| `RoomStore.AtomicOperationsKeepWellFormed` | src/domain/InMemoryRoomRepository.cpp:11-84 | no repository operation breaks key, code or distinctness invariants |
| `RoomCodes.CodeRoundTrip` | src/app/RoomService.cpp:39-47 | a code is six digits and denotes the number it was printed from |
| `RoomCodes.SixDigitsAreACode` | src/app/RoomService.cpp:39-47 | conversely every string of six digits is the code of some draw |
| `RoomCodes.CodesAreInjective` | src/app/RoomService.cpp:39-47 | distinct draws have distinct codes |
| `RoomCodes.CodeSpaceBound` | src/app/RoomService.cpp:39-47 | any set of codes has at most a million elements |
| `Decoding.AcceptedIff` | src/app/ProtocolCodec.cpp:142-217 | a message is accepted iff it is an object with one of the six types, a request id that is a string, null or absent, an object payload, every required field a string, and a password that is a string, null or absent |
| `Decoding.AcceptedReads` | src/app/ProtocolCodec.cpp:184-213 | an accepted message makes exactly the request its fields say, field by field, for the session's own id |
| `Decoding.RejectionNamesFirstFault` | src/app/ProtocolCodec.cpp:12-34 | a rejection says invalid_message for a bad envelope, else missing_field or invalid_field as the first bad field, in the order of the checks, is absent or of the wrong type |
| `Decoding.OneRightComplaint` | src/app/ProtocolCodec.cpp:12-34 | and no other code is right for the same message |
| `CodecTheorems.RequestRoundTrip` | src/app/ProtocolCodec.cpp:142-217 | decoding the canonical message of any request a session can issue returns it |
| `CodecTheorems.DecodableIffIssued` | src/app/ProtocolCodec.cpp:142-217 | the requests accepted from a session are exactly those whose metadata fits the command and whose identity fields are the session's own |
| `CodecTheorems.RejectionsAreAnswered` | src/app/ProtocolCodec.cpp:284-301 | every rejected message gets an error with the request id and type it calls for |
| `CodecTheorems.ResponsesAnswer` | src/app/ProtocolCodec.cpp:219-250 | every response to an accepted message carries its request id and its type plus `_result` |
| `Codec.ResponseNames` | src/app/ProtocolCodec.cpp:219-250 | `ok` is true iff the response is a success; a success names its room, and for create and join the participant let in |
| `CodecTheorems.RelayIsFaithful` | src/app/ProtocolCodec.cpp:272-282 | a relayed payload is the sender's with only from_participant_id set, to the sending session's id; room and target are the checked ones |
| `Codec.ParticipantsRoundTrip` | src/app/ProtocolCodec.cpp:36-51 | a client reads back exactly the encoded participant list |
| `Codec.ParticipantsToJson` | src/app/ProtocolCodec.cpp:44-51 | the encoder's loop yields an array that reads back as the list |
| `Codec.EventShowsRoster` | src/app/ProtocolCodec.cpp:252-270 | an event shows its room and list, and is no reply |
| `Codec.EventAnnounces` | src/app/ProtocolCodec.cpp:252-270 | a join is sent as participant_joined with the participant who came, a leave as participant_left with the id that went, each with room and list |
| `Codec.ResponseShowsRoster` | src/app/ProtocolCodec.cpp:219-250 | exactly create and join results show a list, the one of the response |
| `Refusals.JoinRefusalsAreTold` | src/app/RoomService.cpp:106-129 | the error code on the one reply to a join message, each iff its condition on the rooms; none iff it is let in |
| `Refusals.LeaveRefusalsAreTold` | src/app/RoomService.cpp:152-165 | the same for a leave message |
| `Refusals.CreateRefusalsAreTold` | src/app/ControlDispatcher.cpp:58-82 | the reply to create_room has an error code iff every draw is taken |
| `Refusals.HundredDraws` | src/app/RoomService.cpp:63-79 | in every run create_room draws 100 codes, and is told room_code_generation_failed iff all 100 are taken |
| `Refusals.RejectionsAreTold` | src/net/Session.cpp:46-64 | the reply to a binary frame says invalid_message, to malformed text invalid_json, and to any other rejected message the code of its first fault |
| `Refusals.VerdictsAreHonest` | src/app/ProtocolCodec.cpp:219-301 | the reply to any message at all has `ok` true iff it has no error code |
| `Refusals.InternalErrorsDoNotHappen` | src/app/ControlDispatcher.cpp:46-145 | no message whatever is told internal_error or room_already_exists |
| `Refusals.SuccessesAreTold` | src/app/ProtocolCodec.cpp:235-246 | the reply to a granted request names the room created, joined, left or signalled in; for create and join also the participant and the list that the room then has |
| `Refusals.SignalRefusalsAreTold` | src/net/Session.cpp:67-85 | the reply to a signal says not_in_room iff an end is outside the room, participant_unavailable iff both are inside and the target has no registered session, and confirms it otherwise |
| `CodecTheorems.ErrorCodesAreDistinct` | src/app/ProtocolCodec.cpp:103-117 | no two failures share a code |
| `CodecTheorems.ReplyTells` | src/app/ProtocolCodec.cpp:219-250 | the error code read off an encoded response is that of its failure, and a success has none |
| `Effects.AcceptedReply` | src/net/Session.cpp:67-85 | the only reply to an accepted message is the dispatcher's response, or participant_unavailable for a signal whose target has no registered session |
| `RoomObjects.Room.HasParticipant` | src/domain/Room.cpp:69-78 | true iff somebody with that id is listed |
| `RoomObjects.Room.TryAddParticipant` | src/domain/Room.cpp:31-47 | the verdict, and an append iff it is Joined |
| `RoomObjects.Room.RemoveParticipant` | src/domain/Room.cpp:49-67 | the others remain, in order; Left iff the id was listed |
| `RoomObjects.InMemoryRoomRepository.Add` | src/domain/InMemoryRoomRepository.cpp:11-22 | stores a room under a free code, never overwrites |
| `RoomObjects.InMemoryRoomRepository.Update` | src/domain/InMemoryRoomRepository.cpp:36-56 | copy-then-commit: the store changes iff the updater commits, and the updater's captured results are those of the committed room |
| `RoomObjects.InMemoryRoomRepository.RemoveIfEmpty` | src/domain/InMemoryRoomRepository.cpp:69-84 | erases exactly an empty room and says which case it was |
| `RoomObjects.InMemoryRoomRepository.ParticipantInRoom` | src/domain/InMemoryRoomRepository.cpp:92-100 | true iff the room exists and lists the participant |
| `RoomObjects.InMemoryRoomRepository.GetRoomCodes` | src/domain/InMemoryRoomRepository.cpp:102-113 | lists every code once |
| `RoomObjects.RoomService.CreateRoom` | src/app/RoomService.cpp:61-80 | the retry loop refines `RoomStore.CreateRoom`, and fails iff all 100 drawn codes are taken |
| `RoomObjects.RoomService.JoinRoom` | src/app/RoomService.cpp:82-130 | refines `RoomStore.JoinRoom`, results and errors included |
| `RoomObjects.RoomService.LeaveRoom` | src/app/RoomService.cpp:132-175 | update and conditional erase together refine `RoomStore.LeaveRoom` |
| `RoomObjects.RoomService.LeaveAllRooms` | src/app/RoomService.cpp:177-188 | the loop over the snapshot refines `RoomStore.LeaveAll` |
| `RoomObjects.ControlDispatcher.Dispatch` | src/app/ControlDispatcher.cpp:46-145 | refines `Dispatcher.Dispatch` |
| `RoomObjects.ControlDispatcher.HandleParticipantDisconnected` | src/app/ControlDispatcher.cpp:147-166 | one left event per room left, in order |
| `SessionObjects.SessionRegistry.Add` | src/net/SessionRegistry.cpp:13-21 | files the session under its id |
| `SessionObjects.SessionRegistry.Remove` | src/net/SessionRegistry.cpp:23-27 | removes the entry |
| `SessionObjects.SessionRegistry.Find` | src/net/SessionRegistry.cpp:29-38 | the entry, if there is one |
| `SessionObjects.Session.Send` | include/buzzweb/net/Session.hpp:60-72 | posts one message and changes nothing else |
| `SessionObjects.Session.DoWrite` | include/buzzweb/net/Session.hpp:158-180 | starts a write of the front unless empty or closing |
| `SessionObjects.Session.OnWriteSucceeded` | include/buzzweb/net/Session.hpp:166-178 | pops the written message, which is the front, and keeps the queue safe |
| `SessionObjects.Session.DeliverEvents` | src/net/Session.cpp:87-107 | the nested loops deliver exactly `Server.DeliverEvents` to everybody |
| `SessionObjects.Session.HandleMessage` | src/net/Session.cpp:46-85 | changes rooms and everybody's posted messages exactly as `Server.Handle` says |
| `SessionObjects.Session.RemoveFromRegistry` | src/net/Session.cpp:114-128 | once only: registry, rooms and everybody's messages as the machine says |
| `SessionObjects.Session.Fail` | include/buzzweb/net/Session.hpp:181-191 | marks closing and cleans up as the machine says; sessions and registry still fit together |
| `SessionObjects.Session.OnWebSocketAccept` | include/buzzweb/net/Session.hpp:115-124 | is exactly the machine's accept step, and the next callback can follow |
| `SessionObjects.Session.OnReadError` | include/buzzweb/net/Session.hpp:134-144 | is exactly the machine's closed or failed read step, and the next callback can follow |
| `SessionObjects.Session.OnReadMessage` | include/buzzweb/net/Session.hpp:146-157 | is exactly the machine's message step, and the next callback can follow |
| `SessionObjects.Session.OnWrite` | include/buzzweb/net/Session.hpp:164-180 | is exactly the machine's write completion step, and the next callback can follow |
| `SessionObjects.Session.Close` | include/buzzweb/net/Session.hpp:73-96 | is exactly the machine's close call, and the next callback can follow |
| `SessionObjects.Session.RunPosted` | include/buzzweb/net/Session.hpp:60-96 | running a posted closure is exactly the machine's step, and the next callback can follow |
| `EventLoop.Executor.OutstandingIff` | include/buzzweb/net/Session.hpp:104-180 | the objects wait for a completion iff the machine can take the step that delivers it |
| `EventLoop.Executor.Accept` | src/net/Listener.cpp:72-90 | a connection gets a session of its own with the shared registry and dispatcher, as the machine's connect step says |
| `EventLoop.Executor.Deliver` | src/net/Server.cpp:33-38 | delivering an outstanding completion extends the run by the step that delivers it, and the objects are where that run leads |
| `EventLoop.Executor.Run` | src/net/Server.cpp:33-38 | whatever completions come, the objects go through a run of the machine, one step per completion, up to the first that nothing waits for |
| `EventLoop.Executor.ObjectsAgree` | src/net/Session.cpp:67-107 | in every state the objects reach, each registered member's session was last sent, and once drained has received, the room's list in order |
| `EventLoop.Executor.SessionsAreSafe` | include/buzzweb/net/Session.hpp:158-191 | in every such state: write-queue safety, one cleanup at most, and one fitting reply per message read, in order |
| `EventLoop.Executor.SessionsGoOn` | include/buzzweb/net/Session.hpp:158-180 | in every such state a session that nothing closed has a write in flight iff its queue is non-empty |
| `EventLoop.Executor.ObjectsAreSound` | src/net/SessionRegistry.cpp:13-38 | in every such state: sound rooms, none empty, and the registry holds exactly the registered sessions |

## Left out

- Sockets, TLS and WebSocket handshakes, timeouts, failed TCP accepts and stopping: foreign I/O; completions are environment steps, in any order, and a failed TLS handshake is a failed accept.
- JSON text: parsing and dumping belong to the JSON library; messages are JSON values, a malformed text is one inbound case, and a repeated key is what the parser makes of it.
- Random generators: draws and participant ids are arbitrary inputs.
- Exceptions and logging: see the assumptions; internal errors of the room service do not arise.
- Signaling membership checks are not steps of the Interleaving machine: they only read.
- `UnexpectedErrorResponse`: no service error maps to it, and it is encoded like an internal error.
- Error message texts are encoded but nothing is claimed about them, and nothing about the translation of service errors that never arise.
- `Repository::Remove`, `FindByCode`, `Exists`, `Room::FindParticipant`, `Participant::SetName`, `GetRoomParticipants`, `GetParticipantIds`: not used by the server's flows.
- The dispatcher's callback: `RoomObjects.ControlDispatcher.Dispatch` returns what the handler is called with, and the session's handler is a method of its own.
- The two updater closures of `Update` are the two cases of a datatype; other updaters do not exist in the repository.
- Configuration, environment loading, containers, scripts and the browser demo.
