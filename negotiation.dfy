/**
 * Reference definition of the browser client's negotiation logic: the
 * single `peerConnection` slot and the outbound signaling channel, and how
 * each handler changes them. The peer-connection engine is abstract: each
 * of its steps (create an offer or answer, set the local or remote
 * description) either succeeds or fails, as `EngineReplies` says.
 */
module Negotiation {
  import opened Wrappers
  import opened Wire

  /** The engine's ICE connection states. */
  datatype IceState = New | Checking | Connected | Completed | Disconnected | Failed | Closed

  /**
   * One peer connection: the role it was created with, the descriptions
   * the engine accepted, the remote candidates handed to the engine, and
   * the engine's current ICE connection state.
   */
  datatype Session = Session(
    isOffer: bool,
    local: Option<Description>,
    remote: Option<Description>,
    remoteCandidates: seq<IceDescriptor>,
    ice: IceState)

  /** A connection just made by `prepareNewConnection(isOffer)`. */
  function NewSession(isOffer: bool): (p: Session)
    ensures p.isOffer == isOffer
    ensures p.local.None? && p.remote.None? && p.remoteCandidates == [] && p.ice == New
  {
    Session(isOffer, None, None, [], New)
  }

  /** How the engine answers each abstract step while one handler runs. */
  datatype EngineReplies = EngineReplies(
    createOffer: Option<SdpText>,   // None: createOffer() rejects
    createAnswer: Option<SdpText>,  // None: createAnswer() rejects
    setLocalOk: bool,               // setLocalDescription() resolves
    setRemoteOk: bool)              // setRemoteDescription() resolves

  /** The client's state: the `peerConnection` slot and everything `ws.send` has sent. */
  datatype State = State(session: Option<Session>, outbox: seq<Msg>)

  /** `r` is `s` with at most one outbound message appended. */
  predicate SendsAtMostOne(s: State, r: State)
  {
    |s.outbox| <= |r.outbox| <= |s.outbox| + 1
    && r.outbox[..|s.outbox|] == s.outbox
    && (|r.outbox| > |s.outbox| ==> Outbound(r.outbox[|s.outbox|]))
  }

  /** A session is in the slot and its ICE state is not `closed`. */
  predicate Live(s: State)
  {
    s.session.Some? && s.session.value.ice != Closed
  }

  /** `sendSdp`: the description, serialised as `{type, sdp}`, goes out. */
  function SendSdp(s: State, d: Description): (r: State)
    ensures SendsAtMostOne(s, r) && r.session == s.session
    ensures |r.outbox| == |s.outbox| + 1 && r.outbox[|s.outbox|] == Sdp(d)
  {
    s.(outbox := s.outbox + [Sdp(d)])
  }

  /** `sendIceCandidate`: a local candidate goes out as `{type: "candidate", ice}`. */
  function SendIceCandidate(s: State, c: IceDescriptor): (r: State)
    ensures SendsAtMostOne(s, r) && r.session == s.session
    ensures |r.outbox| == |s.outbox| + 1 && r.outbox[|s.outbox|] == Candidate(c)
  {
    s.(outbox := s.outbox + [Candidate(c)])
  }

  /** `connect`: make an initiator connection unless one is already in the slot. */
  function Connect(s: State): (r: State)
    ensures r.outbox == s.outbox && r.session.Some?
    ensures s.session.Some? ==> r == s
    ensures s.session.None? ==> r.session.value.isOffer
  {
    if s.session.None? then s.(session := Some(NewSession(true))) else s
  }

  /**
   * `onnegotiationneeded`: an initiator creates an offer, sets it as its
   * local description and sends it; a responder does nothing; any failed
   * engine step is caught and nothing is sent.
   */
  function NegotiationNeeded(s: State, e: EngineReplies): (r: State)
    ensures SendsAtMostOne(s, r)
    ensures r.session.Some? == s.session.Some?
    ensures r != s ==> s.session.Some? && s.session.value.isOffer
    ensures !(s.session.Some? && s.session.value.isOffer && e.createOffer.Some? && e.setLocalOk) ==> r == s
    ensures s.session.Some? && s.session.value.isOffer && e.createOffer.Some? && e.setLocalOk ==>
      r.session == Some(s.session.value.(local := Some(Description(OfferSdp, e.createOffer.value))))
  {
    if s.session.Some? && s.session.value.isOffer && e.createOffer.Some? && e.setLocalOk then
      var offer := Description(OfferSdp, e.createOffer.value);
      SendSdp(s.(session := Some(s.session.value.(local := Some(offer)))), offer)
    else s
  }

  /**
   * `makeAnswer`: with a session, create an answer, set it as the local
   * description and send it; with none, or on a failed step, nothing.
   */
  function MakeAnswer(s: State, e: EngineReplies): (r: State)
    ensures SendsAtMostOne(s, r)
    ensures r.session.Some? == s.session.Some?
    ensures s.session.None? ==> r == s
  {
    if s.session.Some? && e.createAnswer.Some? && e.setLocalOk then
      var answer := Description(AnswerSdp, e.createAnswer.value);
      SendSdp(s.(session := Some(s.session.value.(local := Some(answer)))), answer)
    else s
  }

  /**
   * `setOffer`: whatever is in the slot is replaced by a new responder
   * connection; if it accepts the offer as remote description, `makeAnswer`.
   */
  function SetOffer(s: State, offer: Description, e: EngineReplies): (r: State)
    ensures SendsAtMostOne(s, r)
    ensures r.session.Some? && !r.session.value.isOffer
  {
    var p := NewSession(false);
    if e.setRemoteOk then MakeAnswer(State(Some(p.(remote := Some(offer))), s.outbox), e)
    else State(Some(p), s.outbox)
  }

  /** `setAnswer`: with a session, try to accept the answer as remote description. */
  function SetAnswer(s: State, answer: Description, e: EngineReplies): (r: State)
    ensures r.outbox == s.outbox
    ensures r.session.Some? == s.session.Some?
    ensures s.session.Some? ==> r.session == Some(s.session.value.(remote :=
              if e.setRemoteOk then Some(answer) else s.session.value.remote))
  {
    if s.session.Some? && e.setRemoteOk then s.(session := Some(s.session.value.(remote := Some(answer))))
    else s
  }

  /** `addIceCandidate`: hand a remote candidate to the session's engine, or drop it. */
  function AddIceCandidate(s: State, c: IceDescriptor): (r: State)
    ensures r.outbox == s.outbox
    ensures r.session.Some? == s.session.Some?
    ensures s.session.Some? ==> r.session == Some(s.session.value.(remoteCandidates :=
              s.session.value.remoteCandidates + [c]))
  {
    if s.session.Some? then
      s.(session := Some(s.session.value.(remoteCandidates := s.session.value.remoteCandidates + [c])))
    else s
  }

  /**
   * `hangUp`: unless the slot is empty or its connection's ICE state is
   * already `closed`, close it, empty the slot and send `{type: "close"}`.
   */
  function HangUp(s: State): (r: State)
    ensures SendsAtMostOne(s, r)
    ensures r.session.None? || r == s
    ensures r != s <==> Live(s)
  {
    if Live(s) then State(None, s.outbox + [Close]) else s
  }

  /** `onSdpText`: pasted text is an answer when a session exists, an offer otherwise. */
  function OnSdpText(s: State, text: SdpText, e: EngineReplies): (r: State)
    ensures SendsAtMostOne(s, r)
    ensures r.session.Some?
  {
    if s.session.Some? then SetAnswer(s, Description(AnswerSdp, text), e)
    else SetOffer(s, Description(OfferSdp, text), e)
  }

  /** `onicecandidate`: a discovered candidate is sent; the end-of-gathering event is only logged. */
  function OnIceCandidate(s: State, c: Option<IceDescriptor>): (r: State)
    ensures SendsAtMostOne(s, r) && r.session == s.session
  {
    if c.Some? then SendIceCandidate(s, c.value) else s
  }

  /**
   * The engine moves the session's ICE state to `st`, then
   * `oniceconnectionstatechange` runs: on `closed` or `failed`, with a
   * session in the slot, `hangUp`; on every other state, nothing more.
   */
  function OnIceConnectionStateChange(s: State, st: IceState): (r: State)
    ensures SendsAtMostOne(s, r)
    ensures s.session.None? ==> r == s
  {
    var s1 := if s.session.Some? then s.(session := Some(s.session.value.(ice := st))) else s;
    if (st == Closed || st == Failed) && s1.session.Some? then HangUp(s1) else s1
  }

  /** `ws.onmessage`: dispatch a parsed message on its type. */
  function OnMessage(s: State, m: Msg, e: EngineReplies): (r: State)
    ensures SendsAtMostOne(s, r)
    ensures m.Other? ==> r == s
  {
    match m
    case Sdp(d) => if d.kind == OfferSdp then SetOffer(s, d, e) else SetAnswer(s, d, e)
    case Candidate(c) => AddIceCandidate(s, c)
    case Close => HangUp(s)
    case Other(_) => s
  }

  // ---------------------------------------------------------------------
  // Properties of single handlers
  // ---------------------------------------------------------------------

  lemma ConnectCreatesInitiator(s: State)
    ensures s.session.None? ==> Connect(s) == State(Some(NewSession(true)), s.outbox)
    ensures s.session.Some? ==> Connect(s) == s
  {
  }

  /** An offer goes out exactly when an initiator's createOffer and setLocalDescription succeed. */
  lemma NegotiationNeededSendsOffer(s: State, e: EngineReplies)
    ensures NegotiationNeeded(s, e).outbox != s.outbox
        <==> s.session.Some? && s.session.value.isOffer && e.createOffer.Some? && e.setLocalOk
    ensures NegotiationNeeded(s, e).outbox != s.outbox ==>
        NegotiationNeeded(s, e).outbox == s.outbox + [Sdp(Description(OfferSdp, e.createOffer.value))]
        && NegotiationNeeded(s, e).session
           == Some(s.session.value.(local := Some(Description(OfferSdp, e.createOffer.value))))
    ensures !(s.session.Some? && s.session.value.isOffer && e.createOffer.Some? && e.setLocalOk) ==>
        NegotiationNeeded(s, e) == s
    ensures s.session.Some? && !s.session.value.isOffer ==> NegotiationNeeded(s, e) == s
  {
  }

  /**
   * `setOffer` always leaves a fresh responder in the slot, even over an
   * existing session; exactly one answer goes out when every engine step
   * succeeds, and nothing otherwise.
   */
  lemma SetOfferReplaces(s: State, offer: Description, e: EngineReplies)
    ensures SetOffer(s, offer, e).session.Some?
    ensures var p := SetOffer(s, offer, e).session.value;
      !p.isOffer && p.remoteCandidates == [] && p.ice == New
      && p.remote == (if e.setRemoteOk then Some(offer) else None)
      && p.local == (if e.setRemoteOk && e.createAnswer.Some? && e.setLocalOk
                     then Some(Description(AnswerSdp, e.createAnswer.value)) else None)
    ensures SetOffer(s, offer, e).outbox ==
      if e.setRemoteOk && e.createAnswer.Some? && e.setLocalOk
      then s.outbox + [Sdp(Description(AnswerSdp, e.createAnswer.value))]
      else s.outbox
  {
  }

  /** Without a session, these handlers change nothing and send nothing. */
  lemma NoSessionNoEffect(s: State, d: Description, c: IceDescriptor, e: EngineReplies, st: IceState)
    requires s.session.None?
    ensures SetAnswer(s, d, e) == s
    ensures MakeAnswer(s, e) == s
    ensures AddIceCandidate(s, c) == s
    ensures HangUp(s) == s
    ensures NegotiationNeeded(s, e) == s
    ensures OnIceConnectionStateChange(s, st) == s
  {
  }

  /** A discovered candidate sends exactly one candidate message; end of gathering sends none. */
  lemma LocalCandidateForwarded(s: State, c: IceDescriptor)
    ensures OnIceCandidate(s, Some(c)) == State(s.session, s.outbox + [Candidate(c)])
    ensures OnIceCandidate(s, None) == s
  {
  }

  /** Hanging up a live session empties the slot and sends one close; a second hang-up sends nothing. */
  lemma HangUpOnce(s: State)
    ensures Live(s) ==> HangUp(s) == State(None, s.outbox + [Close])
    ensures HangUp(HangUp(s)) == HangUp(s)
    ensures CloseCount(HangUp(HangUp(s)).outbox) == CloseCount(s.outbox) + (if Live(s) then 1 else 0)
  {
  }

  /** `onmessage` hands each type to its handler and ignores every other type. */
  lemma DispatchByType(s: State, m: Msg, e: EngineReplies)
    ensures m.Sdp? && m.desc.kind == OfferSdp ==> OnMessage(s, m, e) == SetOffer(s, m.desc, e)
    ensures m.Sdp? && m.desc.kind == AnswerSdp ==> OnMessage(s, m, e) == SetAnswer(s, m.desc, e)
    ensures m.Candidate? ==> OnMessage(s, m, e) == AddIceCandidate(s, m.ice)
    ensures m.Close? ==> OnMessage(s, m, e) == HangUp(s)
    ensures m.Other? ==> OnMessage(s, m, e) == s
  {
  }

  /** A `close` received while live is answered with this side's own `close`. */
  lemma CloseEchoed(s: State, e: EngineReplies)
    requires Live(s)
    ensures OnMessage(s, Close, e) == State(None, s.outbox + [Close])
  {
  }

  /**
   * ICE `failed` on a session hangs it up; `closed` also calls `hangUp`,
   * which then finds the state `closed` and does nothing further; every
   * other state only records the new state.
   */
  lemma IceStateReaction(s: State, st: IceState)
    requires s.session.Some?
    ensures st == Failed ==> OnIceConnectionStateChange(s, st) == State(None, s.outbox + [Close])
    ensures st != Failed ==>
      OnIceConnectionStateChange(s, st) == State(Some(s.session.value.(ice := st)), s.outbox)
  {
  }

  /** A pasted text is taken as an answer with a session and as an offer without one. */
  lemma SdpTextRole(s: State, text: SdpText, e: EngineReplies)
    ensures s.session.Some? ==> OnSdpText(s, text, e) == SetAnswer(s, Description(AnswerSdp, text), e)
    ensures s.session.None? ==> OnSdpText(s, text, e) == SetOffer(s, Description(OfferSdp, text), e)
  {
  }

  // ---------------------------------------------------------------------
  // Runs of events
  // ---------------------------------------------------------------------

  /** Every event that drives the client. */
  datatype Event =
    | ConnectClicked
    | NegotiationNeededFired(e: EngineReplies)
    | LocalCandidate(c: Option<IceDescriptor>)
    | IceStateChanged(st: IceState)
    | SdpPasted(text: SdpText, e: EngineReplies)
    | Received(m: Msg, e: EngineReplies)
    | HangUpClicked

  function Step(s: State, ev: Event): (r: State)
    ensures SendsAtMostOne(s, r)
  {
    match ev
    case ConnectClicked => Connect(s)
    case NegotiationNeededFired(e) => NegotiationNeeded(s, e)
    case LocalCandidate(c) => OnIceCandidate(s, c)
    case IceStateChanged(st) => OnIceConnectionStateChange(s, st)
    case SdpPasted(text, e) => OnSdpText(s, text, e)
    case Received(m, e) => OnMessage(s, m, e)
    case HangUpClicked => HangUp(s)
  }

  /** The state after handling `evs` in order, each to completion. */
  function Run(s: State, evs: seq<Event>): State
    decreases |evs|
  {
    if evs == [] then s else Run(Step(s, evs[0]), evs[1..])
  }

  /** Every outbound message is one of the four kinds, and nothing sent is ever taken back. */
  lemma {:induction false} RunExtendsOutbox(s: State, evs: seq<Event>)
    requires AllOutbound(s.outbox)
    ensures |s.outbox| <= |Run(s, evs).outbox|
    ensures Run(s, evs).outbox[..|s.outbox|] == s.outbox
    ensures AllOutbound(Run(s, evs).outbox)
    decreases |evs|
  {
    if evs != [] {
      var s1 := Step(s, evs[0]);
      assert AllOutbound(s1.outbox) by {
        forall i | 0 <= i < |s1.outbox| ensures Outbound(s1.outbox[i]) {
          if i < |s.outbox| {
            assert s1.outbox[i] == s1.outbox[..|s.outbox|][i];
          }
        }
      }
      RunExtendsOutbox(s1, evs[1..]);
      var out := Run(s, evs).outbox;
      assert out[..|s.outbox|] == out[..|s1.outbox|][..|s.outbox|];
    }
  }

  /** The descriptors of the discovered (non-null) local candidates that `evs` reports, in order. */
  function Discovered(evs: seq<Event>): seq<IceDescriptor>
  {
    if evs == [] then []
    else (if evs[0].LocalCandidate? && evs[0].c.Some? then [evs[0].c.value] else []) + Discovered(evs[1..])
  }

  /** Only a discovered local candidate makes a handler send a candidate message, and it sends that one. */
  lemma StepSentCandidates(s: State, ev: Event)
    ensures SentCandidates(Step(s, ev).outbox)
         == SentCandidates(s.outbox) + (if ev.LocalCandidate? && ev.c.Some? then [ev.c.value] else [])
  {
    var r := Step(s, ev);
    if |r.outbox| == |s.outbox| {
      assert r.outbox == r.outbox[..|s.outbox|];
    } else {
      assert r.outbox == s.outbox + [r.outbox[|s.outbox|]];
      CountsAppend(s.outbox, [r.outbox[|s.outbox|]]);
      assert [r.outbox[|s.outbox|]][..0] == [];
    }
  }

  /** The candidate messages sent carry exactly the discovered local candidates, in discovery order. */
  lemma {:induction false} CandidatesMatchDiscovery(s: State, evs: seq<Event>)
    ensures SentCandidates(Run(s, evs).outbox) == SentCandidates(s.outbox) + Discovered(evs)
    decreases |evs|
  {
    if evs != [] {
      StepSentCandidates(s, evs[0]);
      CandidatesMatchDiscovery(Step(s, evs[0]), evs[1..]);
    }
  }

  /** Events that may put a new connection in the slot. */
  predicate CreatesSession(ev: Event)
  {
    ev.ConnectClicked? || ev.SdpPasted? || (ev.Received? && ev.m.Sdp? && ev.m.desc.kind == OfferSdp)
  }

  lemma StepKeepsEmpty(s: State, ev: Event)
    requires s.session.None? && !CreatesSession(ev)
    ensures Step(s, ev).session.None?
    ensures CloseCount(Step(s, ev).outbox) == CloseCount(s.outbox)
  {
  }

  /**
   * Once the slot is empty, no further `close` is sent until a new session
   * is created: a session is closed at most once.
   */
  lemma {:induction false} NoSessionNoClose(s: State, evs: seq<Event>)
    requires s.session.None?
    requires forall i :: 0 <= i < |evs| ==> !CreatesSession(evs[i])
    ensures Run(s, evs).session.None?
    ensures CloseCount(Run(s, evs).outbox) == CloseCount(s.outbox)
    decreases |evs|
  {
    if evs != [] {
      StepKeepsEmpty(s, evs[0]);
      NoSessionNoClose(Step(s, evs[0]), evs[1..]);
    }
  }

  /** A session's local description always has the type of its role. */
  predicate LocalMatchesRole(s: State)
  {
    s.session.Some? && s.session.value.local.Some? ==>
      s.session.value.local.value.kind == (if s.session.value.isOffer then OfferSdp else AnswerSdp)
  }

  /** Over any run, the session's local description has the type of the session's role. */
  lemma {:induction false} RoleDiscipline(s: State, evs: seq<Event>)
    requires LocalMatchesRole(s)
    ensures LocalMatchesRole(Run(s, evs))
    decreases |evs|
  {
    if evs != [] {
      RoleDiscipline(Step(s, evs[0]), evs[1..]);
    }
  }
}
