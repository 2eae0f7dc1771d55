/**
 * The browser client as the code runs it: one mutable `peerConnection`
 * slot, reassigned by the handlers, and the WebSocket's outbound channel,
 * to which `ws.send` appends. Each handler is a method whose new state is
 * the one the reference model in `Negotiation` gives.
 */
module PeerClient {
  import opened Wrappers
  import opened Wire
  import N = Negotiation

  class Agent {
    /** The `peerConnection` slot: null or one connection. */
    var session: Option<N.Session>
    /** Every message passed to `ws.send`, in order. */
    var outbox: seq<Msg>

    function Snapshot(): N.State
      reads this
    {
      N.State(session, outbox)
    }

    constructor ()
      ensures session.None? && outbox == []
    {
      session := None;
      outbox := [];
    }

    method SendSdp(d: Description)
      modifies this
      ensures Snapshot() == N.SendSdp(old(Snapshot()), d)
      ensures outbox == old(outbox) + [Sdp(d)] && session == old(session)
    {
      outbox := outbox + [Sdp(d)];
    }

    method SendIceCandidate(c: IceDescriptor)
      modifies this
      ensures Snapshot() == N.SendIceCandidate(old(Snapshot()), c)
      ensures outbox == old(outbox) + [Candidate(c)] && session == old(session)
    {
      outbox := outbox + [Candidate(c)];
    }

    method Connect()
      modifies this
      ensures Snapshot() == N.Connect(old(Snapshot()))
      ensures old(session).None? ==> session == Some(N.NewSession(true))
      ensures old(session).Some? ==> session == old(session)
      ensures outbox == old(outbox)
    {
      if session.None? {
        session := Some(N.NewSession(true));
      } else {
        // peer connection already exists
      }
    }

    method OnNegotiationNeeded(e: N.EngineReplies)
      modifies this
      ensures Snapshot() == N.NegotiationNeeded(old(Snapshot()), e)
      ensures old(session).Some? && !old(session).value.isOffer ==> unchanged(this)
      ensures !(old(session).Some? && old(session).value.isOffer && e.createOffer.Some? && e.setLocalOk) ==>
                unchanged(this)
      ensures old(session).Some? && old(session).value.isOffer && e.createOffer.Some? && e.setLocalOk ==>
                session == Some(old(session).value.(local := Some(Description(OfferSdp, e.createOffer.value))))
                && outbox == old(outbox) + [Sdp(Description(OfferSdp, e.createOffer.value))]
    {
      if session.Some? && session.value.isOffer {
        if e.createOffer.Some? {
          var offer := Description(OfferSdp, e.createOffer.value);
          if e.setLocalOk {
            session := Some(session.value.(local := Some(offer)));
            SendSdp(session.value.local.value);
          }
        }
      }
    }

    method MakeAnswer(e: N.EngineReplies)
      modifies this
      ensures Snapshot() == N.MakeAnswer(old(Snapshot()), e)
      ensures old(session).None? ==> unchanged(this)
    {
      if session.None? {
        return;
      }
      if e.createAnswer.Some? {
        var answer := Description(AnswerSdp, e.createAnswer.value);
        if e.setLocalOk {
          session := Some(session.value.(local := Some(answer)));
          SendSdp(session.value.local.value);
        }
      }
    }

    method SetOffer(offer: Description, e: N.EngineReplies)
      modifies this
      ensures Snapshot() == N.SetOffer(old(Snapshot()), offer, e)
      ensures session.Some? && !session.value.isOffer
      ensures |old(outbox)| <= |outbox| <= |old(outbox)| + 1
    {
      // an existing connection is only reported, then replaced
      session := Some(N.NewSession(false));
      if e.setRemoteOk {
        session := Some(session.value.(remote := Some(offer)));
        MakeAnswer(e);
      }
    }

    method SetAnswer(answer: Description, e: N.EngineReplies)
      modifies this
      ensures Snapshot() == N.SetAnswer(old(Snapshot()), answer, e)
      ensures outbox == old(outbox)
      ensures old(session).None? ==> unchanged(this)
      ensures old(session).Some? ==> session == Some(old(session).value.(remote :=
                if e.setRemoteOk then Some(answer) else old(session).value.remote))
    {
      if session.None? {
        return;
      }
      if e.setRemoteOk {
        session := Some(session.value.(remote := Some(answer)));
      }
    }

    method HangUp()
      modifies this
      ensures Snapshot() == N.HangUp(old(Snapshot()))
      ensures N.Live(old(Snapshot())) ==> session.None? && outbox == old(outbox) + [Close]
      ensures !N.Live(old(Snapshot())) ==> unchanged(this)
    {
      if session.Some? {
        if session.value.ice != N.Closed {
          session := None;
          outbox := outbox + [Close];
          return;
        }
      }
      // peer connection is closed
    }

    method OnSdpText(text: SdpText, e: N.EngineReplies)
      modifies this
      ensures Snapshot() == N.OnSdpText(old(Snapshot()), text, e)
      ensures session.Some?
    {
      if session.Some? {
        SetAnswer(Description(AnswerSdp, text), e);
      } else {
        SetOffer(Description(OfferSdp, text), e);
      }
    }

    method OnIceCandidate(c: Option<IceDescriptor>)
      modifies this
      ensures Snapshot() == N.OnIceCandidate(old(Snapshot()), c)
      ensures c.Some? ==> outbox == old(outbox) + [Candidate(c.value)]
      ensures c.None? ==> unchanged(this)
    {
      if c.Some? {
        SendIceCandidate(c.value);
      } else {
        // end of candidate gathering: only logged
      }
    }

    method OnIceConnectionStateChange(st: N.IceState)
      modifies this
      ensures Snapshot() == N.OnIceConnectionStateChange(old(Snapshot()), st)
      ensures old(session).None? ==> unchanged(this)
    {
      // the engine has moved the connection to its new state
      if session.Some? {
        session := Some(session.value.(ice := st));
      }
      match st
      case Closed | Failed =>
        if session.Some? {
          HangUp();
        }
      case _ =>
    }

    method AddIceCandidate(c: IceDescriptor)
      modifies this
      ensures Snapshot() == N.AddIceCandidate(old(Snapshot()), c)
      ensures outbox == old(outbox)
      ensures old(session).None? ==> unchanged(this)
      ensures old(session).Some? ==> session == Some(old(session).value.(remoteCandidates :=
                old(session).value.remoteCandidates + [c]))
    {
      if session.Some? {
        session := Some(session.value.(remoteCandidates := session.value.remoteCandidates + [c]));
      } else {
        return;
      }
    }

    method OnMessage(m: Msg, e: N.EngineReplies)
      modifies this
      ensures Snapshot() == N.OnMessage(old(Snapshot()), m, e)
      ensures m.Other? ==> unchanged(this)
    {
      match m
      case Sdp(d) =>
        if d.kind == OfferSdp {
          SetOffer(d, e);
        } else {
          SetAnswer(d, e);
        }
      case Candidate(c) => AddIceCandidate(c);
      case Close => HangUp();
      case Other(_) =>
        // invalid message
    }
  }
}
