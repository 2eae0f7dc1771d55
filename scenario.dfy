/**
 * Two browser clients joined by the relay: the relay carries each
 * client's outbound message to the other one only, and both clients end
 * with a local and a remote description; a hang-up on one side reaches
 * the other, which echoes its own `close`, and the echo is ignored.
 */
module Scenario {
  import opened Wrappers
  import opened Wire
  import Relay
  import N = Negotiation

  /** The relay connections of the two clients. */
  const Caller: int := 0
  const Callee: int := 1

  /** What `to` receives when `from` sends `m` through a relay holding both clients. */
  function Forward(m: Msg, from: int, to: int): (r: seq<Msg>)
    ensures r == if to != from && (to == Caller || to == Callee) then [m] else []
  {
    Relay.ReceivedOnce([Caller, Callee], from, m, to);
    Relay.Received(Relay.Deliveries([Caller, Callee], from, m), to)
  }

  /** Both descriptions are in place: media can flow once ICE connects. */
  predicate Exchanging(s: N.State)
  {
    s.session.Some? && s.session.value.local.Some? && s.session.value.remote.Some?
  }

  /**
   * The caller connects and its engine produces offer `x`; the relay gives
   * it to the callee, whose engine answers `y`; the relay gives the answer
   * to the caller. Both end exchanging, with matching descriptions.
   */
  lemma OfferAnswerExchange(a0: N.State, b0: N.State, x: SdpText, y: SdpText)
    requires a0.session.None? && b0.session.None?
    ensures
      var ea := N.EngineReplies(Some(x), None, true, true);
      var eb := N.EngineReplies(None, Some(y), true, true);
      var offer := Sdp(Description(OfferSdp, x));
      var answer := Sdp(Description(AnswerSdp, y));
      var a1 := N.NegotiationNeeded(N.Connect(a0), ea);
      var b1 := N.OnMessage(b0, Forward(offer, Caller, Callee)[0], eb);
      var a2 := N.OnMessage(a1, Forward(answer, Callee, Caller)[0], ea);
      a1.outbox == a0.outbox + [offer]
      && b1.outbox == b0.outbox + [answer]
      && a2.outbox == a1.outbox
      && Exchanging(a2) && Exchanging(b1)
      && a2.session.value.isOffer && !b1.session.value.isOffer
      && a2.session.value.local == b1.session.value.remote
      && a2.session.value.remote == b1.session.value.local
  {
  }

  /**
   * The caller hangs up a live session; the callee, live too, receives the
   * close and answers with its own; that echo finds the caller's slot empty
   * and changes nothing. Each side sends exactly one close.
   */
  lemma CloseReachesPeerOnce(a: N.State, b: N.State, e: N.EngineReplies)
    requires N.Live(a) && N.Live(b)
    ensures
      var a1 := N.HangUp(a);
      var b1 := N.OnMessage(b, Forward(Close, Caller, Callee)[0], e);
      var a2 := N.OnMessage(a1, Forward(Close, Callee, Caller)[0], e);
      a1.session.None? && b1.session.None? && a2 == a1
      && a1.outbox == a.outbox + [Close] && b1.outbox == b.outbox + [Close]
  {
  }
}
