/**
 * The messages the browser client puts on the signaling channel and the
 * session descriptions they carry. Description text and candidate
 * descriptors are opaque: they are produced and consumed by the browser's
 * peer-connection engine only.
 */
module Wire {

  /** Opaque SDP text. */
  type SdpText = string

  /** Opaque ICE candidate descriptor (the `ice` field of a candidate message). */
  type IceDescriptor = string

  /** The `type` of a session description. */
  datatype SdpType = OfferSdp | AnswerSdp

  /** A session description `{type, sdp}`, as `JSON.stringify` writes it. */
  datatype Description = Description(kind: SdpType, sdp: SdpText)

  /** A `type` value that is none of the four the client handles. */
  type UnknownTag = k: string | k !in {"offer", "answer", "candidate", "close"} witness ""

  /**
   * A parsed signaling message. `Other` stands for an object whose `type`
   * is none of "offer", "answer", "candidate" and "close".
   */
  datatype Msg =
    | Sdp(desc: Description)
    | Candidate(ice: IceDescriptor)
    | Close
    | Other(kind: UnknownTag)

  /** The `type` field of a message as it appears in the JSON text. */
  function TypeTag(m: Msg): (t: string)
    ensures m.Sdp? ==> t == (if m.desc.kind == OfferSdp then "offer" else "answer")
    ensures m.Candidate? ==> t == "candidate"
    ensures m.Close? ==> t == "close"
    ensures !m.Other? <==> t in {"offer", "answer", "candidate", "close"}
  {
    match m
    case Sdp(d) => if d.kind == OfferSdp then "offer" else "answer"
    case Candidate(_) => "candidate"
    case Close => "close"
    case Other(k) => k
  }

  /**
   * Reading a parsed JSON object by its `type` field, as the client's
   * `onmessage` switch does: `sdp` and `ice` are the object's other fields.
   */
  function Classify(t: string, sdp: SdpText, ice: IceDescriptor): (m: Msg)
    ensures TypeTag(m) == t
    ensures m.Other? <==> t !in {"offer", "answer", "candidate", "close"}
    ensures m.Sdp? ==> m.desc.sdp == sdp
    ensures m.Candidate? ==> m.ice == ice
  {
    if t == "offer" then Sdp(Description(OfferSdp, sdp))
    else if t == "answer" then Sdp(Description(AnswerSdp, sdp))
    else if t == "candidate" then Candidate(ice)
    else if t == "close" then Close
    else Other(t)
  }

  /** Writing an outbound message and reading it back by its tag gives it back. */
  lemma ClassifyTypeTag(m: Msg)
    requires Outbound(m)
    ensures Classify(TypeTag(m), if m.Sdp? then m.desc.sdp else "", if m.Candidate? then m.ice else "") == m
  {
  }

  /** A message the client itself may produce: one of the four kinds. */
  predicate Outbound(m: Msg)
  {
    !m.Other?
  }

  /** No message in `out` is of an unknown kind. */
  predicate AllOutbound(out: seq<Msg>)
  {
    forall i :: 0 <= i < |out| ==> Outbound(out[i])
  }

  /** How many `{type: "close"}` messages `out` holds. */
  function CloseCount(out: seq<Msg>): nat
  {
    if out == [] then 0 else CloseCount(out[..|out| - 1]) + (if out[|out| - 1].Close? then 1 else 0)
  }

  /** The `ice` descriptors of the candidate messages in `out`, in order. */
  function SentCandidates(out: seq<Msg>): seq<IceDescriptor>
  {
    if out == [] then []
    else SentCandidates(out[..|out| - 1]) + (if out[|out| - 1].Candidate? then [out[|out| - 1].ice] else [])
  }

  lemma {:induction false} CountsAppend(a: seq<Msg>, b: seq<Msg>)
    ensures CloseCount(a + b) == CloseCount(a) + CloseCount(b)
    ensures SentCandidates(a + b) == SentCandidates(a) + SentCandidates(b)
  {
    if b == [] {
      assert a + b == a;
    } else {
      assert (a + b)[..|a + b| - 1] == a + b[..|b| - 1];
      CountsAppend(a, b[..|b| - 1]);
    }
  }
}
