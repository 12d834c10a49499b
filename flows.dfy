/** handleFlowUpdate and storePortNumber: how a controller flow rule moves the ONU's lifecycle. */
module Flows {
  import opened Types
  import opened Messages
  import opened Lifecycle

  const EthernetTypeEAPOL: uint32 := 0x888E
  const EthernetTypeIPv4: uint32 := 0x0800
  /** The outer VLAN the controller uses for the EAPOL trap flow. */
  const EapolVlan: uint32 := 4091
  const DhcpClientPort: uint32 := 68
  const DhcpServerPort: uint32 := 67

  datatype FlowKind = NotFirstUni | EapolFlow | DhcpFlow | OtherFlow

  /** The classifier: flows for another UNI are dropped, then EAPOL/4091, then IPv4 68 -> 67. */
  function Classify(f: Flow): (k: FlowKind)
    ensures k == NotFirstUni <==> f.uniId != 0
    ensures k == EapolFlow <==>
      f.uniId == 0 && f.classifier.ethType == EthernetTypeEAPOL && f.classifier.oVid == EapolVlan
    ensures k == DhcpFlow <==>
      && f.uniId == 0 && !(f.classifier.ethType == EthernetTypeEAPOL && f.classifier.oVid == EapolVlan)
      && f.classifier.ethType == EthernetTypeIPv4
      && f.classifier.srcPort == DhcpClientPort && f.classifier.dstPort == DhcpServerPort
  {
    var c := f.classifier;
    if f.uniId != 0 then NotFirstUni
    else if c.ethType == EthernetTypeEAPOL && c.oVid == EapolVlan then EapolFlow
    else if c.ethType == EthernetTypeIPv4 && c.srcPort == DhcpClientPort && c.dstPort == DhcpServerPort then DhcpFlow
    else OtherFlow
  }

  function Min(a: int, b: int): (m: int) { if a <= b then a else b }

  /** storePortNumber: the port kept after a flow with port `p` arrives while `cur` is stored (0 = unset). */
  function StoredPort(cur: uint32, p: uint32): (r: uint32)
    ensures cur == 0 ==> r == p
    ensures cur != 0 ==> r == Min(cur, p)
    ensures r == p || r == cur
  {
    if cur == 0 || p < cur then p else cur
  }

  /** Once a port is stored, a call never raises it, and repeating the same call changes nothing. */
  lemma StoredPortNeverIncreases(cur: uint32, p: uint32)
    ensures cur != 0 ==> StoredPort(cur, p) <= cur
    ensures cur != 0 ==> (StoredPort(cur, p) < cur <==> p < cur)
    ensures StoredPort(StoredPort(cur, p), p) == StoredPort(cur, p)
  {
  }

  /** A flow with port 0 clears the stored port, so the next flow's port is taken whatever its value. */
  lemma ZeroPortClearsBinding(cur: uint32, p: uint32)
    ensures StoredPort(StoredPort(cur, 0), p) == p
  {
  }

  /** Storing a sequence of ports one after the other. */
  function StoreAll(cur: uint32, ps: seq<uint32>): (r: uint32)
    decreases |ps|
  {
    if ps == [] then cur else StoreAll(StoredPort(cur, ps[0]), ps[1..])
  }

  function MinOf(ps: seq<uint32>): (m: uint32)
    requires ps != []
    ensures m in ps && forall p <- ps :: m <= p
    decreases |ps|
  {
    if |ps| == 1 then ps[0]
    else
      assert ps == [ps[0]] + ps[1..];
      var rest := MinOf(ps[1..]); if ps[0] <= rest then ps[0] else rest
  }

  /** From unset, a run of non-zero ports leaves the lowest of them stored. */
  lemma {:induction false} StoreAllKeepsLowest(ps: seq<uint32>)
    requires ps != [] && forall p <- ps :: p != 0
    ensures StoreAll(0, ps) == MinOf(ps)
  {
    assert ps[0] in ps;
    assert forall p <- ps[1..] :: p in ps;
    StoreAllFrom(ps[0], ps[1..]);
    if |ps| > 1 {
      assert MinOf(ps) == Min(ps[0], MinOf(ps[1..]));
    }
  }

  lemma {:induction false} StoreAllFrom(cur: uint32, ps: seq<uint32>)
    requires cur != 0 && forall p <- ps :: p != 0
    ensures ps == [] ==> StoreAll(cur, ps) == cur
    ensures ps != [] ==> StoreAll(cur, ps) == Min(cur, MinOf(ps))
    decreases |ps|
  {
    if ps != [] {
      assert ps[0] in ps;
      var next := StoredPort(cur, ps[0]);
      assert forall p <- ps[1..] :: p in ps;
      StoreAllFrom(next, ps[1..]);
      if |ps| > 1 {
        assert MinOf(ps) == Min(ps[0], MinOf(ps[1..]));
      }
    }
  }

  /** The event handleFlowUpdate fires, if any, for a flow of kind `k` in state `s`. */
  function FlowEvent(s: State, auth: bool, dhcp: bool, k: FlowKind): (e: Option<EventName>)
    ensures e == Some(ReceiveEapolFlow) <==> k == EapolFlow && s == Enabled
    ensures e == Some(StartAuth) <==> k == EapolFlow && s == GemPortAdded && auth
    ensures e == Some(StartDhcp) <==> k == DhcpFlow && dhcp
    ensures e.Some? ==> e.value in {ReceiveEapolFlow, StartAuth, StartDhcp}
  {
    match k
    case EapolFlow =>
      if s == Enabled then Some(ReceiveEapolFlow)
      else if s == GemPortAdded then (if auth then Some(StartAuth) else None)
      else None
    case DhcpFlow => if dhcp then Some(StartDhcp) else None
    case _ => None
  }

  /** The ONU fields handleFlowUpdate reads and writes, plus what it enqueues. */
  datatype FlowView = FlowView(state: State, portNo: uint32, dhcpFlowReceived: bool, emitted: seq<Message>)

  /** handleFlowUpdate on the ONU whose state, stored port and DHCP-flow flag are given. */
  function HandleFlow(s: State, portNo: uint32, dhcpFlowReceived: bool, auth: bool, dhcp: bool, who: Who, f: Flow): (v: FlowView)
    ensures Classify(f) != EapolFlow ==> v.portNo == portNo
    ensures Classify(f) == EapolFlow ==> v.portNo == StoredPort(portNo, f.portNo)
    ensures v.dhcpFlowReceived == (dhcpFlowReceived || Classify(f) == DhcpFlow)
    ensures FlowEvent(s, auth, dhcp, Classify(f)).None? ==> v.state == s && v.emitted == []
    ensures FlowEvent(s, auth, dhcp, Classify(f)).Some? ==>
      var o := Step(s, FlowEvent(s, auth, dhcp, Classify(f)).value, v.dhcpFlowReceived, who);
      v.state == o.state && v.emitted == o.emitted
  {
    var k := Classify(f);
    var port := if k == EapolFlow then StoredPort(portNo, f.portNo) else portNo;
    var flag := dhcpFlowReceived || k == DhcpFlow;
    match FlowEvent(s, auth, dhcp, k)
    case None => FlowView(s, port, flag, [])
    case Some(e) => var o := Step(s, e, flag, who); FlowView(o.state, port, flag, o.emitted)
  }

  /** A flow for a UNI other than 0 changes nothing. */
  lemma OtherUniIgnored(s: State, portNo: uint32, d: bool, auth: bool, dhcp: bool, who: Who, f: Flow)
    requires f.uniId != 0
    ensures HandleFlow(s, portNo, d, auth, dhcp, who, f) == FlowView(s, portNo, d, [])
  {
  }

  /** A flow for UNI 0 that is neither the EAPOL nor the DHCP flow takes neither branch and changes nothing. */
  lemma OtherFlowIgnored(s: State, portNo: uint32, d: bool, auth: bool, dhcp: bool, who: Who, f: Flow)
    requires Classify(f) == OtherFlow
    ensures HandleFlow(s, portNo, d, auth, dhcp, who, f) == FlowView(s, portNo, d, [])
  {
  }

  /** An EAPOL/4091 flow: `enabled` -> `eapol_flow_received`; `gem_port_added` -> `auth_started` only when Auth is set. */
  lemma EapolFlowTransitions(s: State, portNo: uint32, d: bool, auth: bool, dhcp: bool, who: Who, f: Flow)
    requires Classify(f) == EapolFlow
    ensures var v := HandleFlow(s, portNo, d, auth, dhcp, who, f);
      && v.portNo == StoredPort(portNo, f.portNo) && v.dhcpFlowReceived == d
      && (s == Enabled ==> v.state == EapolFlowReceived && v.emitted == [])
      && (s == GemPortAdded && auth ==> v.state == AuthStarted && v.emitted == [StartEAPOL(PacketMessage(who.ponPortId, who.onuId))])
      && (s !in {Enabled, GemPortAdded} || (s == GemPortAdded && !auth) ==> v.state == s && v.emitted == [])
  {
  }

  /**
   * An IPv4 68 -> 67 flow always records the DHCP flow; with Dhcp set it starts DHCP exactly when the
   * state is a source of `start_dhcp`, so the guard never refuses it on this path.
   */
  lemma DhcpFlowTransitions(s: State, portNo: uint32, d: bool, auth: bool, dhcp: bool, who: Who, f: Flow)
    requires Classify(f) == DhcpFlow
    ensures var v := HandleFlow(s, portNo, d, auth, dhcp, who, f);
      && v.dhcpFlowReceived && v.portNo == portNo
      && (dhcp && s in Transition(StartDhcp).src ==> v.state == DhcpStarted && v.emitted == [StartDHCP(PacketMessage(who.ponPortId, who.onuId))])
      && (!dhcp || s !in Transition(StartDhcp).src ==> v.state == s && v.emitted == [])
  {
  }

  /**
   * A DHCP flow that arrives again once DHCP is under way restarts it: four DHCP-phase states are
   * sources of `start_dhcp`, so with Dhcp set the ONU goes back to `dhcp_started` and a second
   * StartDHCP is queued.
   */
  lemma DhcpFlowRestartsDhcp(s: State, portNo: uint32, d: bool, auth: bool, who: Who, f: Flow)
    requires Classify(f) == DhcpFlow && s in {DhcpDiscoverySent, DhcpRequestSent, DhcpAckReceived, DhcpFailed}
    ensures HandleFlow(s, portNo, d, auth, true, who, f)
         == FlowView(DhcpStarted, portNo, true, [StartDHCP(PacketMessage(who.ponPortId, who.onuId))])
  {
  }

  /** A DHCP flow that arrives before authentication has succeeded never starts DHCP. */
  lemma DhcpFlowBeforeAuthWaits(s: State, portNo: uint32, d: bool, auth: bool, dhcp: bool, who: Who, f: Flow)
    requires Classify(f) == DhcpFlow && s !in AfterAuth
    ensures HandleFlow(s, portNo, d, auth, dhcp, who, f).state == s
  {
  }

  /** Receiving the same flow twice in a row: the second copy changes nothing and enqueues nothing. */
  lemma HandleFlowIdempotent(s: State, portNo: uint32, d: bool, auth: bool, dhcp: bool, who: Who, f: Flow)
    ensures var v := HandleFlow(s, portNo, d, auth, dhcp, who, f);
      HandleFlow(v.state, v.portNo, v.dhcpFlowReceived, auth, dhcp, who, f) == FlowView(v.state, v.portNo, v.dhcpFlowReceived, [])
  {
    StoredPortNeverIncreases(portNo, f.portNo);
  }

  /** The EAPOL trap flow sendEapolFlow installs for ONU `id` (UNI 0, port number = ONU id). */
  function BbrEapolFlow(id: uint32): (f: Flow)
    ensures Classify(f) == EapolFlow && f.uniId == 0 && f.portNo == id
  {
    Flow(0, id, Classifier(EthernetTypeEAPOL, EapolVlan, 0, 0))
  }

  /** The DHCP trap flow sendDhcpFlow installs for ONU `id`. */
  function BbrDhcpFlow(id: uint32): (f: Flow)
    ensures Classify(f) == DhcpFlow && f.uniId == 0 && f.portNo == id
  {
    Flow(0, id, Classifier(EthernetTypeIPv4, 0, DhcpClientPort, DhcpServerPort))
  }

  /** The two flows the bulk driver installs are exactly the ones the classifier acts on. */
  lemma BbrFlowsClassified(id: uint32)
    ensures Classify(BbrEapolFlow(id)) == EapolFlow
    ensures Classify(BbrDhcpFlow(id)) == DhcpFlow
  {
  }
}
