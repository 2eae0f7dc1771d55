# WebRTC hands-on signaling: a Dafny model

This project models the two pieces of decision logic in a small WebRTC
demo: the WebSocket **relay** that forwards every message from one
connection to all other connections, and the browser **client** that
keeps a single `peerConnection` slot and drives the offer / answer /
candidate / close exchange through the relay.

- `relay.dfy` (module `Relay`): `isSame` as identity equality; the
  `forEach` fan-out as the loop method `FanOut`, specified by the function
  `Deliveries`; the hub state (`Hub`) with its registry `clients` and the
  log `sent` of every `client.send`. Connection identities and payloads are
  type parameters, so the relay cannot look inside a message.
- `wire.dfy` (module `Wire`): the four signaling messages
  (`{type, sdp}`, `{type: "candidate", ice}`, `{type: "close"}`) plus
  `Other` for any other `type`, and how the `type` field classifies a parsed object.
- `negotiation.dfy` (module `Negotiation`): the reference definition of
  every client handler as a function on `State(session, outbox)`, the
  properties of each handler, and properties of whole runs of events.
- `peer_client.dfy` (module `PeerClient`): the class `Agent` with the
  mutable fields `session` (the `peerConnection` slot) and `outbox` (what
  `ws.send` has sent). Each handler is a method whose body follows the
  JavaScript and whose `ensures` equates the new state with the reference
  function applied to the old state.
- `scenario.dfy` (module `Scenario`): two clients joined by the relay. It
  covers the offer/answer handshake and the close echo.

The peer-connection engine is abstract. An `EngineReplies` value says, for
one handler run, what `createOffer()` / `createAnswer()` produce (or that
they reject) and whether `setLocalDescription()` / `setRemoteDescription()`
resolve. When the engine reports an ICE state change, it first moves the
session's `ice` field to the new state; then the handler runs. Every
handler runs to completion before the next event is handled.

Where an idealised signaling protocol would differ, the model follows the
code:
- A second offer is not rejected. `setOffer` only logs, then replaces the slot with a new responder connection.
- Remote candidates are not buffered. With a session they go straight to the engine; without one they are dropped.
- `connect()` with a session already present is only logged. No error is raised, and no new session is made.
- Receiving `close` while live makes this side send its own `close`.
- ICE state `closed` calls `hangUp`, but `hangUp` then sees the state `closed` and does nothing. So only `failed` sends a close and empties the slot.
- The description is sent as soon as it is set locally. The send-on-gathering-complete variant appears only as a commented-out line.

## Model

| member | source | states |
|---|---|---|
| `Relay.IsSame` | server/signaling.js:20-22 | two connections are the same exactly when they are the identical connection |
| `Relay.IsSameIsEquivalence` | server/signaling.js:20-22 | "same client" is identity equality: reflexive, symmetric, transitive |
| `Relay.Deliveries` | server/signaling.js:10-16 | the fan-out's sends: no more sends than registered clients, and each one goes to a registered client other than the sender and carries the received message |
| `Relay.DeliveredIff` | server/signaling.js:10-16 | a send to `c` with payload `p` happens iff `c` is registered, `c` is not the sender, and `p` is the received message |
| `Relay.SenderExcluded` | server/signaling.js:11-12 | no send goes back to the sender |
| `Relay.PayloadUnchanged` | server/signaling.js:14 | every forwarded payload is the received message unchanged |
| `Relay.DeliveriesCount` | server/signaling.js:10-16 | with n distinct clients: n-1 sends if the sender is among them, n otherwise |
| `Relay.ReceivedOnce` | server/signaling.js:10-16 | each other registered client receives exactly one copy; everyone else receives nothing |
| `Relay.FanOut` | server/signaling.js:10-16 | the loop's sends are `Deliveries`: complete for every non-sender, and only to registered non-senders with the original payload |
| `Relay.Hub.constructor` | server/signaling.js:5 | the server starts with no registered connections and nothing sent |
| `Relay.Hub.Connect` | server/signaling.js:7-8 | an accepted connection joins the registry once; nothing is sent |
| `Relay.Hub.OnMessage` | server/signaling.js:9-17 | the registry is unchanged; the send log grows by `Deliveries`; each receiver's inbox grows by the message in arrival order |
| `Scenario.Forward` | server/signaling.js:10-16 | with both clients connected, a message reaches the other client once and never its sender |
| `Wire.TypeTag` | client/webrtc.js:244-264 | the `type` field: "offer" for an offer description and "answer" for an answer, "candidate", "close"; a tag is one of the four exactly when the message is not `Other` |
| `Wire.Classify` | client/webrtc.js:243-268 | classifying by `type` yields a message with that tag, carrying the object's `sdp` (offer, answer) or `ice` (candidate); unknown tags give `Other` |
| `Wire.ClassifyTypeTag` | client/webrtc.js:243-268 | an outbound message read back by its tag is the same message |
| `Negotiation.NewSession` | client/webrtc.js:42-111 | `prepareNewConnection(isOffer)` gives a connection with that role, no local or remote description, no remote candidates, ICE state `new` |
| `Negotiation.SendSdp` | client/webrtc.js:117-125 | the description goes out as one `{type, sdp}` message; the slot is untouched |
| `Negotiation.SendIceCandidate` | client/webrtc.js:280-285 | one `{type: "candidate", ice}` message goes out; the slot is untouched |
| `Negotiation.Connect` | client/webrtc.js:127-134 | nothing is sent; afterwards a session exists; an existing one is kept as is; a new one is an initiator |
| `Negotiation.NegotiationNeeded` | client/webrtc.js:68-83 | at most one message; nothing changes unless an initiator's createOffer and setLocalDescription both succeed; then only the local description changes, to the offer |
| `Negotiation.MakeAnswer` | client/webrtc.js:136-152 | at most one message; with no session nothing changes |
| `Negotiation.SetOffer` | client/webrtc.js:179-191 | at most one message; afterwards a responder session is in the slot |
| `Negotiation.SetAnswer` | client/webrtc.js:196-207 | nothing is sent; with a session, the answer becomes the remote description iff setRemoteDescription resolves, and nothing else in the session changes |
| `Negotiation.AddIceCandidate` | client/webrtc.js:271-278 | nothing is sent; with a session, the candidate is handed to the engine (appended to its remote candidates) and nothing else changes |
| `Negotiation.HangUp` | client/webrtc.js:209-224 | at most one message; the state changes iff the session is live, and then the slot is emptied |
| `Negotiation.OnSdpText` | client/webrtc.js:154-174 | at most one message; afterwards a session exists |
| `Negotiation.OnIceCandidate` | client/webrtc.js:58-66 | at most one message; the slot is untouched |
| `Negotiation.OnIceConnectionStateChange` | client/webrtc.js:85-99 | at most one message; with no session nothing changes |
| `Negotiation.OnMessage` | client/webrtc.js:241-269 | at most one message; an unknown type changes nothing |
| `Negotiation.ConnectCreatesInitiator` | client/webrtc.js:127-134 | with no session, `connect` creates a fresh initiator and sends nothing; with one, it changes nothing |
| `Negotiation.NegotiationNeededSendsOffer` | client/webrtc.js:68-83 | an offer is sent iff the session is an initiator and createOffer and setLocalDescription succeed; then exactly that offer goes out and becomes the local description, and nothing else in the session changes; a failed attempt or a responder changes nothing |
| `Negotiation.SetOfferReplaces` | client/webrtc.js:179-191 | the slot always ends with a fresh responder, even over an existing session; the remote description is the offer iff it was accepted; the answer becomes the local description and exactly one answer goes out iff every engine step succeeds |
| `Negotiation.NoSessionNoEffect` | client/webrtc.js:196-200 | with no session, setAnswer, makeAnswer (lines 138-141), addIceCandidate (lines 271-277), hangUp, negotiation-needed and ICE state changes leave the state unchanged |
| `Negotiation.LocalCandidateForwarded` | client/webrtc.js:58-66 | a non-null candidate sends exactly one candidate message; the null end-of-gathering event sends nothing |
| `Negotiation.HangUpOnce` | client/webrtc.js:209-224 | hangUp on a live session empties the slot and sends one close; hangUp is idempotent; two calls send one close in total |
| `Negotiation.DispatchByType` | client/webrtc.js:241-269 | offer goes to setOffer, answer to setAnswer, candidate to addIceCandidate, close to hangUp; any other type changes nothing |
| `Negotiation.CloseEchoed` | client/webrtc.js:261-263 | a received close on a live session empties the slot and sends this side's own close |
| `Negotiation.IceStateReaction` | client/webrtc.js:85-99 | `failed` empties the slot and sends one close; `closed`, `disconnected` and every other state only record the new state |
| `Negotiation.SdpTextRole` | client/webrtc.js:154-174 | pasted text is an answer when a session exists and an offer otherwise |
| `Negotiation.RunExtendsOutbox` | client/webrtc.js:241-269 | over any run of events, sent messages are never taken back, and every message sent is one of the four kinds |
| `Negotiation.CandidatesMatchDiscovery` | client/webrtc.js:58-66 | over any run, the `ice` values of the candidate messages sent are exactly the non-null local candidates, in discovery order |
| `Negotiation.NoSessionNoClose` | client/webrtc.js:209-224 | once the slot is empty, no close is sent until an event creates a new session |
| `Negotiation.RoleDiscipline` | client/webrtc.js:68-83 | over any run, a session's local description has the type of its role: offer for an initiator, answer for a responder |
| `PeerClient.Agent.constructor` | client/webrtc.js:6 | the slot starts empty and nothing has been sent |
| `PeerClient.Agent.SendSdp` | client/webrtc.js:117-125 | appends the description message to the outbox |
| `PeerClient.Agent.SendIceCandidate` | client/webrtc.js:280-285 | appends the candidate message to the outbox |
| `PeerClient.Agent.Connect` | client/webrtc.js:127-134 | new state is `Negotiation.Connect` of the old: an initiator is created only into an empty slot |
| `PeerClient.Agent.OnNegotiationNeeded` | client/webrtc.js:68-83 | new state is `Negotiation.NegotiationNeeded` of the old; on success the offer becomes the local description and is sent; a failed attempt or a responder leaves everything unchanged |
| `PeerClient.Agent.MakeAnswer` | client/webrtc.js:136-152 | new state is `Negotiation.MakeAnswer` of the old; no session means no change |
| `PeerClient.Agent.SetOffer` | client/webrtc.js:179-191 | new state is `Negotiation.SetOffer` of the old; ends with a responder session; at most one message |
| `PeerClient.Agent.SetAnswer` | client/webrtc.js:196-207 | new state is `Negotiation.SetAnswer` of the old; nothing is sent; no session means no change; with one, the answer becomes the remote description iff accepted |
| `PeerClient.Agent.HangUp` | client/webrtc.js:209-224 | new state is `Negotiation.HangUp` of the old; a live session is cleared with one close, otherwise nothing changes |
| `PeerClient.Agent.OnSdpText` | client/webrtc.js:154-174 | new state is `Negotiation.OnSdpText` of the old; a session exists afterwards |
| `PeerClient.Agent.OnIceCandidate` | client/webrtc.js:58-66 | new state is `Negotiation.OnIceCandidate` of the old; one candidate message for a non-null candidate, no change otherwise |
| `PeerClient.Agent.OnIceConnectionStateChange` | client/webrtc.js:85-99 | new state is `Negotiation.OnIceConnectionStateChange` of the old; no session means no change |
| `PeerClient.Agent.AddIceCandidate` | client/webrtc.js:271-278 | new state is `Negotiation.AddIceCandidate` of the old; nothing is sent; no session means no change; with one, the candidate is appended to the session's remote candidates |
| `PeerClient.Agent.OnMessage` | client/webrtc.js:241-269 | new state is `Negotiation.OnMessage` of the old; an unknown type changes nothing |
| `Scenario.OfferAnswerExchange` | client/webrtc.js:241-269 | the caller's offer reaches the callee, whose answer reaches the caller; both end with local and remote descriptions, each side's local being the other's remote |
| `Scenario.CloseReachesPeerOnce` | client/webrtc.js:209-224 | a hang-up reaches the live peer, which echoes one close; the echo changes nothing at the caller |

## Left out

- Media capture and playback (`startVideo`, `playVideo`, `cleanupVideoElement`, `ontrack`, `addTrack`): browser I/O with no decisions.
- Text-box reads and writes and console logging: UI side effects. Pasted text is a parameter of `OnSdpText`.
- The contents of descriptions and candidates, ICE gathering and the STUN configuration. These belong to the engine; descriptions and candidates are opaque strings here.
- `peerConnection.close()` inside `hangUp`: only its effect on the slot is modelled. Whether `addIceCandidate` later succeeds inside the engine is not modelled; its promise is not awaited in the code.
- WebSocket transport setup (`onopen`, `onerror`), the relay's server construction and port, and `JSON.parse` failures. These are network I/O, or an unhandled exception in the code.
- Removing a closed connection from the relay registry: the WebSocket library does this, not the relay code.
- Asynchronous interleaving of awaited promises and of concurrent relay connections: each handler runs to completion.
- Events raised by a peer connection after `setOffer` has replaced it in the slot without closing it: handler events always refer to the connection in the slot.
- The relay's per-receiver send failures: `client.send` is a foreign call and appears only as a logged send.
