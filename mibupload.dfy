/**
 * handleOmci and StartOmci: the ONU's side of the OMCI MIB-upload session, keyed on the type of each
 * response. The OMCI encoders are external; the requests appear here as tokens carrying their
 * transaction id (and sequence number).
 */
module MibUpload {
  import opened Types
  import opened Messages
  import opened Tids

  datatype OmciRequest =
    | MibResetRequest(tid: uint16)
    | MibUploadRequest(tid: uint16)
    | MibUploadNextRequest(tid: uint16, seqNumber: uint16)
    | GalEnetRequest(tid: uint16)
    | GemPortRequest(tid: uint16)

  /** The number of MIB-upload-next responses the OMCI simulator answers. */
  const MibUploadNextLimit: uint16 := 290

  /** The ONU fields the session driver reads and writes. */
  datatype Session = Session(tid: uint16, seqNumber: uint16, hasGemPort: bool)

  /** What one response leads to: a fatal desynchronisation, or a new session, the requests sent, and whether `send_eapol_flow` is fired. */
  datatype Reply = Fatal | Continue(session: Session, sent: seq<OmciRequest>, sendEapolFlow: bool)

  /** The OMCI counters of a newly created ONU: the first transaction id, sequence number 0, no GEM port yet. */
  function Fresh(): (s: Session)
    ensures s.tid == TidStart && s.seqNumber == 0 && !s.hasGemPort
  {
    Session(TidStart, 0, false)
  }

  /** StartOmci: the MIB reset request with the next normal-priority tid. */
  function StartOmci(s: Session): (r: (Session, OmciRequest))
    ensures r.1 == MibResetRequest(s.tid)
    ensures r.0 == s.(tid := NextTid(s.tid))
  {
    (s.(tid := NextTid(s.tid)), MibResetRequest(s.tid))
  }

  /** handleOmci for a response of type `t`. */
  function Respond(s: Session, t: OmciMsgType): (r: Reply)
    ensures r.Fatal? <==> t.OtherMsgType?
    ensures r.Continue? ==> (|r.sent| == 1) != r.sendEapolFlow && |r.sent| <= 1
    ensures r.Continue? ==> forall q <- r.sent :: q.tid == s.tid
    ensures r.Continue? ==> r.session.tid == if r.sent == [] then s.tid else NextTid(s.tid)
    ensures r.Continue? ==> r.session.hasGemPort == (s.hasGemPort || t == CreateResponse)
    ensures r.Continue? ==> r.session.seqNumber == if t == MibUploadNextResponse then Inc16(s.seqNumber) else s.seqNumber
    ensures r.Continue? && r.sendEapolFlow <==> t == CreateResponse && s.hasGemPort
  {
    var next := s.(tid := NextTid(s.tid));
    match t
    case MibResetResponse => Continue(next, [MibUploadRequest(s.tid)], false)
    case MibUploadResponse => Continue(next, [MibUploadNextRequest(s.tid, s.seqNumber)], false)
    case MibUploadNextResponse =>
      var sq := Inc16(s.seqNumber);
      if sq > MibUploadNextLimit then Continue(next.(seqNumber := sq), [GalEnetRequest(s.tid)], false)
      else Continue(next.(seqNumber := sq), [MibUploadNextRequest(s.tid, sq)], false)
    case CreateResponse =>
      if !s.hasGemPort then Continue(next.(hasGemPort := true), [GemPortRequest(s.tid)], false)
      else Continue(s, [], true)
    case OtherMsgType(_) => Fatal
  }

  /**
   * Which request each response type asks for, from any session: the upload after the reset, the
   * upload-next for the current frame after the upload, the next frame or GAL Ethernet after an
   * upload-next depending on the incremented counter, the GEM port on the first create and
   * `send_eapol_flow` (and no request) on later ones.
   */
  lemma RequestForEachResponse(s: Session)
    ensures Respond(s, MibResetResponse).sent == [MibUploadRequest(s.tid)]
    ensures Respond(s, MibUploadResponse).sent == [MibUploadNextRequest(s.tid, s.seqNumber)]
    ensures Inc16(s.seqNumber) <= MibUploadNextLimit ==>
      Respond(s, MibUploadNextResponse).sent == [MibUploadNextRequest(s.tid, Inc16(s.seqNumber))]
    ensures Inc16(s.seqNumber) > MibUploadNextLimit ==> Respond(s, MibUploadNextResponse).sent == [GalEnetRequest(s.tid)]
    ensures !s.hasGemPort ==> Respond(s, CreateResponse).sent == [GemPortRequest(s.tid)]
    ensures s.hasGemPort ==> Respond(s, CreateResponse) == Continue(s, [], true)
  {
  }

  /** `r` preceded by the requests `out` and the `send_eapol_flow` flag `f` of earlier responses. */
  function Prepend(out: seq<OmciRequest>, f: bool, r: Reply): (r': Reply)
  {
    match r
    case Fatal => Fatal
    case Continue(s, out2, f2) => Continue(s, out + out2, f || f2)
  }

  /** handleOmci applied to the responses `ts` in order; the first unexpected one is fatal. */
  function Run(s: Session, ts: seq<OmciMsgType>): (r: Reply)
    decreases |ts|
  {
    if ts == [] then Continue(s, [], false)
    else match Respond(s, ts[0])
      case Fatal => Fatal
      case Continue(s1, out1, f1) => Prepend(out1, f1, Run(s1, ts[1..]))
  }

  /** Continuing reply `r` with the responses `ts`. */
  function Then(r: Reply, ts: seq<OmciMsgType>): (r': Reply)
  {
    match r
    case Fatal => Fatal
    case Continue(s, out, f) => Prepend(out, f, Run(s, ts))
  }

  lemma PrependThen(out: seq<OmciRequest>, f: bool, r: Reply, ts: seq<OmciMsgType>)
    ensures Then(Prepend(out, f, r), ts) == Prepend(out, f, Then(r, ts))
  {
    match r
    case Fatal =>
    case Continue(s, out2, f2) =>
      match Run(s, ts)
      case Fatal =>
      case Continue(s3, out3, f3) => assert (out + out2) + out3 == out + (out2 + out3);
  }

  lemma {:induction false} RunAppend(s: Session, a: seq<OmciMsgType>, b: seq<OmciMsgType>)
    ensures Run(s, a + b) == Then(Run(s, a), b)
    decreases |a|
  {
    if a == [] {
      assert a + b == b;
      match Run(s, b)
      case Fatal =>
      case Continue(s2, out2, f2) => assert [] + out2 == out2;
    } else {
      assert (a + b)[0] == a[0] && (a + b)[1..] == a[1..] + b;
      match Respond(s, a[0])
      case Fatal =>
      case Continue(s1, out1, f1) =>
        RunAppend(s1, a[1..], b);
        PrependThen(out1, f1, Run(s1, a[1..]), b);
    }
  }

  function Repeat<T>(x: T, n: nat): (r: seq<T>)
    ensures |r| == n && forall y <- r :: y == x
  {
    if n == 0 then [] else [x] + Repeat(x, n - 1)
  }

  /** `n` upload-next requests with consecutive tids and sequence numbers from (`t`, `q`). */
  function UploadNexts(t: uint16, q: uint16, n: nat): (r: seq<OmciRequest>)
    requires t + n < 0x1_0000 && q + n < 0x1_0000
    decreases n
  {
    if n == 0 then [] else [MibUploadNextRequest(t, q)] + UploadNexts(t + 1, q + 1, n - 1)
  }

  /** `UploadNexts(t, q, n)` holds exactly `n` requests, the i-th for frame `q + i` with tid `t + i`. */
  lemma {:induction false} UploadNextsAt(t: uint16, q: uint16, n: nat)
    requires t + n < 0x1_0000 && q + n < 0x1_0000
    ensures |UploadNexts(t, q, n)| == n
    ensures forall i :: 0 <= i < n ==> UploadNexts(t, q, n)[i] == MibUploadNextRequest(t + i, q + i)
    decreases n
  {
    if n > 0 {
      UploadNextsAt(t + 1, q + 1, n - 1);
    }
  }

  /** While the counter stays within the limit, each upload-next response asks for the next frame. */
  lemma {:induction false} UploadNextRun(s: Session, n: nat)
    requires 1 <= s.tid && s.tid + n < 0x8000 && s.seqNumber + n <= MibUploadNextLimit
    ensures Run(s, Repeat(MibUploadNextResponse, n))
         == Continue(Session(s.tid + n, s.seqNumber + n, s.hasGemPort), UploadNexts(s.tid, s.seqNumber + 1, n), false)
    decreases n
  {
    if n > 0 {
      var ts := Repeat(MibUploadNextResponse, n - 1);
      assert Repeat(MibUploadNextResponse, n) == [MibUploadNextResponse] + ts;
      var s1 := Session(s.tid + 1, s.seqNumber + 1, s.hasGemPort);
      UploadNextStep(s);
      RunCons(s, MibUploadNextResponse, ts);
      UploadNextRun(s1, n - 1);
    }
  }

  /** Below the limit, an upload-next response asks for the next frame with the next tid. */
  lemma UploadNextStep(s: Session)
    requires 1 <= s.tid < 0x7FFF && s.seqNumber < MibUploadNextLimit
    ensures Respond(s, MibUploadNextResponse)
         == Continue(Session(s.tid + 1, s.seqNumber + 1, s.hasGemPort), [MibUploadNextRequest(s.tid, s.seqNumber + 1)], false)
  {
  }

  lemma RunCons(s: Session, t: OmciMsgType, ts: seq<OmciMsgType>)
    ensures Run(s, [t] + ts) == Then(Respond(s, t), ts)
  {
    assert ([t] + ts)[0] == t && ([t] + ts)[1..] == ts;
  }

  /** The counter passes the limit on the 291st upload-next response, which asks for the GAL Ethernet profile. */
  lemma LastUploadNextAsksGalEnet(s: Session)
    requires s.seqNumber == MibUploadNextLimit
    ensures Respond(s, MibUploadNextResponse)
         == Continue(Session(NextTid(s.tid), MibUploadNextLimit + 1, s.hasGemPort), [GalEnetRequest(s.tid)], false)
  {
  }

  /** The reset and upload responses of a fresh session (after StartOmci) ask for the upload and the first upload-next. */
  lemma OpeningResponses()
    ensures Run(Session(2, 0, false), [MibResetResponse, MibUploadResponse])
         == Continue(Session(4, 0, false), [MibUploadRequest(2), MibUploadNextRequest(3, 0)], false)
  {
    var a: seq<OmciMsgType> := [MibResetResponse, MibUploadResponse];
    assert a[1..] == [MibUploadResponse] && a[1..][1..] == [];
  }

  /** The last upload-next response and two create responses: GAL Ethernet, then GEM port, then `send_eapol_flow`. */
  lemma ClosingResponses()
    ensures Run(Session(294, 290, false), [MibUploadNextResponse, CreateResponse, CreateResponse])
         == Continue(Session(296, 291, true), [GalEnetRequest(294), GemPortRequest(295)], true)
  {
    var c: seq<OmciMsgType> := [MibUploadNextResponse, CreateResponse, CreateResponse];
    assert c[1..] == [CreateResponse, CreateResponse] && c[1..][1..] == [CreateResponse] && c[1..][1..][1..] == [];
  }

  /**
   * A fresh ONU's whole session: StartOmci, then the reset and upload responses, n + 1 upload-next
   * responses with n = 290, and two create responses. It sends the upload request, one upload-next
   * request for the upload response and n more, the GAL Ethernet and GEM port requests, and fires
   * `send_eapol_flow`. The count is a parameter pinned to the limit, rather than the literal 290,
   * so that the verifier reasons about `Repeat(MibUploadNextResponse, n)` through UploadNextRun
   * instead of unrolling 290 responses.
   */
  lemma {:induction false} FreshSession(n: nat)
    requires n == MibUploadNextLimit
    ensures StartOmci(Fresh()) == (Session(2, 0, false), MibResetRequest(1))
    ensures Run(StartOmci(Fresh()).0,
                [MibResetResponse, MibUploadResponse] + Repeat(MibUploadNextResponse, n)
                + [MibUploadNextResponse, CreateResponse, CreateResponse])
         == Continue(Session(4 + n + 2, n + 1, true),
                     [MibUploadRequest(2), MibUploadNextRequest(3, 0)] + UploadNexts(4, 1, n)
                     + [GalEnetRequest(4 + n), GemPortRequest(4 + n + 1)],
                     true)
  {
    var s0 := StartOmci(Fresh()).0;
    assert s0 == Session(2, 0, false);
    var a: seq<OmciMsgType> := [MibResetResponse, MibUploadResponse];
    var b := Repeat(MibUploadNextResponse, n);
    var c: seq<OmciMsgType> := [MibUploadNextResponse, CreateResponse, CreateResponse];
    RunAppend(s0, a + b, c);
    RunAppend(s0, a, b);
    OpeningResponses();
    UploadNextRun(Session(4, 0, false), n);
    ClosingResponses();
    var x := [MibUploadRequest(2), MibUploadNextRequest(3, 0)];
    var y := UploadNexts(4, 1, n);
    var z := [GalEnetRequest(4 + n), GemPortRequest(4 + n + 1)];
    assert (x + y) + z == x + y + z;
  }
}
