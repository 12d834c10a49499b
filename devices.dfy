/**
 * The emulated ONU: the fields CreateONU sets up and the handlers that update them in place.
 * Each method is proved against the pure definitions of the Lifecycle, Flows, Tids and MibUpload
 * modules; `channel` is the ONU's inbound queue and `omciOut` the OMCI requests sent to the OLT.
 */
module Devices {
  import opened Types
  import opened Identity
  import opened Messages
  import opened Lifecycle
  import opened Flows
  import opened Tids
  import opened MibUpload

  /** The OMCI simulator's notifications to the ONU; only the GEM port one is acted on. */
  datatype OmciChMessageType = OmciGemPortAdded | OmciOtherMessage

  /** The event processOmciMessage fires for notification `m` in state `s`, if any. */
  function GemPortEvent(m: OmciChMessageType, s: State): (e: Option<EventName>)
    ensures e == Some(AddGemPort) <==> m == OmciGemPortAdded && s == Enabled
    ensures e == Some(StartAuth) <==> m == OmciGemPortAdded && s == EapolFlowReceived
    ensures e.Some? ==> e.value in {AddGemPort, StartAuth}
  {
    if m != OmciGemPortAdded then None
    else if s == Enabled then Some(AddGemPort)
    else if s == EapolFlowReceived then Some(StartAuth)
    else None
  }

  /** A GEM port moves `enabled` to `gem_port_added` and `eapol_flow_received` to `auth_started`; elsewhere nothing. */
  lemma GemPortAddedTransitions(s: State, f: bool, who: Who)
    ensures s == Enabled ==> Step(s, GemPortEvent(OmciGemPortAdded, s).value, f, who) == Outcome(GemPortAdded, [])
    ensures s == EapolFlowReceived ==>
      Step(s, GemPortEvent(OmciGemPortAdded, s).value, f, who) == Outcome(AuthStarted, [StartEAPOL(PacketMessage(who.ponPortId, who.onuId))])
    ensures s !in {Enabled, EapolFlowReceived} ==> GemPortEvent(OmciGemPortAdded, s) == None
  {
  }

  /**
   * Either order of EAPOL flow and GEM port leads an enabled ONU with Auth set to `auth_started`
   * with one StartEAPOL enqueued. Only the flow-first order ignores Auth: processOmciMessage does
   * not read it.
   */
  lemma EapolFlowAndGemPortInEitherOrder(portNo: uint32, d: bool, auth: bool, dhcp: bool, who: Who, f: Flow)
    requires Classify(f) == EapolFlow
    ensures var v := HandleFlow(Enabled, portNo, d, auth, dhcp, who, f);
      && v.state == EapolFlowReceived && v.emitted == []
      && Step(v.state, GemPortEvent(OmciGemPortAdded, v.state).value, d, who) == Outcome(AuthStarted, [StartEAPOL(PacketMessage(who.ponPortId, who.onuId))])
    ensures var s := Step(Enabled, GemPortEvent(OmciGemPortAdded, Enabled).value, d, who).state;
      var v := HandleFlow(s, portNo, d, auth, dhcp, who, f);
      && s == GemPortAdded
      && (auth ==> v.state == AuthStarted && v.emitted == [StartEAPOL(PacketMessage(who.ponPortId, who.onuId))])
      && (!auth ==> v.state == GemPortAdded && v.emitted == [])
  {
  }

  class Onu {
    var id: uint32
    const ponPortId: uint32
    const sTag: int
    const cTag: int
    const auth: bool  // start EAPOL automatically
    const dhcp: bool  // start DHCP automatically
    const hwAddress: seq<byte>
    const serialNumber: SerialNumber

    var internalState: State
    var portNo: uint32
    var dhcpFlowReceived: bool
    var channel: seq<Message>

    var tid: uint16
    var hpTid: uint16
    var seqNumber: uint16
    var hasGemPort: bool
    var omciOut: seq<OmciRequest>

    /** The transaction-id counters stay in their ranges. */
    ghost predicate Valid()
      reads this
    {
      1 <= tid < 0x8000 && hpTid >= 0x8000
    }

    function WhoAmI(): (w: Who)
      reads this
    {
      Who(serialNumber, ponPortId, id)
    }

    function OmciSession(): (s: MibUpload.Session)
      reads this
    {
      MibUpload.Session(tid, seqNumber, hasGemPort)
    }

    /** CreateONU. */
    constructor (oltId: int, ponId: uint32, onuId: uint32, sTag: int, cTag: int, auth: bool, dhcp: bool)
      ensures id == onuId && ponPortId == ponId && this.sTag == sTag && this.cTag == cTag
      ensures this.auth == auth && this.dhcp == dhcp
      ensures hwAddress == HwAddress(ponId, onuId) && serialNumber == NewSN(oltId, ponId, onuId)
      ensures internalState == Created && portNo == 0 && !dhcpFlowReceived && channel == []
      ensures OmciSession() == Fresh() && hpTid == HpTidStart && omciOut == []
      ensures Valid()
    {
      id := onuId;
      ponPortId := ponId;
      this.sTag, this.cTag := sTag, cTag;
      this.auth, this.dhcp := auth, dhcp;
      hwAddress := HwAddress(ponId, onuId);
      serialNumber := NewSN(oltId, ponId, onuId);
      internalState := Created;
      portNo := 0;
      dhcpFlowReceived := false;
      channel := [];
      tid, hpTid, seqNumber, hasGemPort := TidStart, HpTidStart, 0, false;
      omciOut := [];
    }

    /** InternalState.Event: refuse and change nothing, or move to the destination and run its entry callback. */
    method Event(e: EventName) returns (err: Option<FsmError>)
      modifies this`internalState, this`channel
      ensures var r := Fire(old(internalState), e, dhcpFlowReceived);
        err == (if r.Success? then None else Some(r.error))
      ensures var o := Step(old(internalState), e, dhcpFlowReceived, WhoAmI());
        internalState == o.state && channel == old(channel) + o.emitted
    {
      match Fire(internalState, e, dhcpFlowReceived)
      case Failure(x) =>
        err := Some(x);
      case Success(dst) =>
        internalState := dst;
        channel := channel + EntryMessages(dst, WhoAmI());
        err := None;
    }

    /** sendOnuDiscIndication: after the indication is sent, fire `discover`; a failed send skips it. */
    method SendOnuDiscIndication(sendFailed: bool)
      modifies this`internalState, this`channel
      ensures sendFailed ==> internalState == old(internalState) && channel == old(channel)
      ensures !sendFailed ==> var o := Step(old(internalState), Discover, dhcpFlowReceived, WhoAmI());
        internalState == o.state && channel == old(channel) + o.emitted
    {
      if !sendFailed {
        var err := Event(Discover);
      }
    }

    /** processOmciMessage. */
    method ProcessOmciMessage(m: OmciChMessageType)
      modifies this`internalState, this`channel
      ensures match GemPortEvent(m, old(internalState))
        case None => internalState == old(internalState) && channel == old(channel)
        case Some(e) => var o := Step(old(internalState), e, dhcpFlowReceived, WhoAmI());
          internalState == o.state && channel == old(channel) + o.emitted
    {
      if m == OmciGemPortAdded {
        if internalState == Enabled {
          var err := Event(AddGemPort);
        } else if internalState == EapolFlowReceived {
          var err := Event(StartAuth);
        }
      }
    }

    /** storePortNumber. */
    method StorePortNumber(p: uint32)
      modifies this`portNo
      ensures portNo == StoredPort(old(portNo), p)
    {
      if portNo == 0 || p < portNo {
        portNo := p;
      }
    }

    /** SetID. */
    method SetID(newId: uint32)
      modifies this`id
      ensures id == newId
    {
      id := newId;
    }

    /** handleFlowUpdate. */
    method HandleFlowUpdate(f: Flow)
      modifies this`internalState, this`channel, this`portNo, this`dhcpFlowReceived
      ensures var v := HandleFlow(old(internalState), old(portNo), old(dhcpFlowReceived), auth, dhcp, WhoAmI(), f);
        && internalState == v.state && portNo == v.portNo && dhcpFlowReceived == v.dhcpFlowReceived
        && channel == old(channel) + v.emitted
    {
      if f.uniId != 0 {
        return;
      }
      var c := f.classifier;
      if c.ethType == EthernetTypeEAPOL && c.oVid == EapolVlan {
        StorePortNumber(f.portNo);
        if internalState == Enabled {
          var err := Event(ReceiveEapolFlow);
        } else if internalState == GemPortAdded {
          if auth {
            var err := Event(StartAuth);
          }
        }
      } else if c.ethType == EthernetTypeIPv4 && c.srcPort == DhcpClientPort && c.dstPort == DhcpServerPort {
        dhcpFlowReceived := true;
        if dhcp {
          var err := Event(StartDhcp);
        }
      }
    }

    /** getNextTid: hands out the current value of one counter and advances only that one. */
    method GetNextTid(highPriority: bool) returns (next: uint16)
      requires Valid()
      modifies this`tid, this`hpTid
      ensures Valid()
      ensures highPriority ==> next == old(hpTid) && hpTid == NextHpTid(old(hpTid)) && tid == old(tid)
      ensures !highPriority ==> next == old(tid) && tid == NextTid(old(tid)) && hpTid == old(hpTid)
    {
      if highPriority {
        next := hpTid;
        hpTid := Inc16(hpTid);
        if hpTid < 0x8000 {
          hpTid := 0x8000;
        }
      } else {
        next := tid;
        tid := Inc16(tid);
        if tid >= 0x8000 {
          tid := 1;
        }
      }
    }

    /** StartOmci: sends the MIB reset request. */
    method StartOmci()
      requires Valid()
      modifies this`tid, this`hpTid, this`omciOut
      ensures Valid() && hpTid == old(hpTid)
      ensures var (s, req) := MibUpload.StartOmci(old(OmciSession()));
        OmciSession() == s && omciOut == old(omciOut) + [req]
    {
      var next := GetNextTid(false);
      omciOut := omciOut + [MibResetRequest(next)];
    }

    /** handleOmci: answers one decoded OMCI response; an unexpected type is fatal and changes nothing. */
    method HandleOmci(t: OmciMsgType) returns (fatal: bool)
      requires Valid()
      modifies this`tid, this`hpTid, this`seqNumber, this`hasGemPort, this`omciOut, this`internalState, this`channel
      ensures Valid() && hpTid == old(hpTid)
      ensures match Respond(old(OmciSession()), t)
        case Fatal =>
          && fatal && OmciSession() == old(OmciSession()) && omciOut == old(omciOut)
          && internalState == old(internalState) && channel == old(channel)
        case Continue(s, sent, sendEapolFlow) =>
          && !fatal && OmciSession() == s && omciOut == old(omciOut) + sent
          && (sendEapolFlow ==> var o := Step(old(internalState), PushEapolFlow, dhcpFlowReceived, WhoAmI());
                internalState == o.state && channel == old(channel) + o.emitted)
          && (!sendEapolFlow ==> internalState == old(internalState) && channel == old(channel))
    {
      fatal := false;
      match t
      case MibResetResponse =>
        var next := GetNextTid(false);
        omciOut := omciOut + [MibUploadRequest(next)];
      case MibUploadResponse =>
        var next := GetNextTid(false);
        omciOut := omciOut + [MibUploadNextRequest(next, seqNumber)];
      case MibUploadNextResponse =>
        seqNumber := Inc16(seqNumber);
        if seqNumber > MibUploadNextLimit {
          var next := GetNextTid(false);
          omciOut := omciOut + [GalEnetRequest(next)];
        } else {
          var next := GetNextTid(false);
          omciOut := omciOut + [MibUploadNextRequest(next, seqNumber)];
        }
      case CreateResponse =>
        if !hasGemPort {
          var next := GetNextTid(false);
          omciOut := omciOut + [GemPortRequest(next)];
          hasGemPort := true;
        } else {
          var err := Event(PushEapolFlow);
        }
      case OtherMsgType(_) =>
        fatal := true;
    }
  }

  /** ONU 5 on PON 2 with Auth set and Dhcp unset, discovered and enabled: one OnuIndication UP is queued. */
  method EnabledOnu() returns (onu: Onu)
    ensures fresh(onu)
    ensures onu.id == 5 && onu.ponPortId == 2 && onu.auth && !onu.dhcp
    ensures onu.internalState == Enabled && onu.portNo == 0 && !onu.dhcpFlowReceived
    ensures onu.channel == [OnuIndication(OnuIndicationMessage(onu.serialNumber, 2, Up))]
  {
    onu := new Onu(0, 2, 5, 900, 900, true, false);
    var err := onu.Event(Discover);
    assert onu.internalState == Discovered && onu.channel == [];
    err := onu.Event(Enable);
  }

  /**
   * That ONU takes an EAPOL flow to `eapol_flow_received`, storing the flow's port, and the GEM port
   * then to `auth_started`, which enqueues exactly one StartEAPOL after the indication.
   */
  method AuthScenario(eapolFlow: Flow) returns (onu: Onu)
    requires Classify(eapolFlow) == EapolFlow
    ensures onu.internalState == AuthStarted && onu.portNo == eapolFlow.portNo
    ensures onu.channel == [OnuIndication(OnuIndicationMessage(onu.serialNumber, 2, Up)), StartEAPOL(PacketMessage(2, 5))]
  {
    onu := EnabledOnu();
    var up := OnuIndication(OnuIndicationMessage(onu.serialNumber, 2, Up));
    onu.HandleFlowUpdate(eapolFlow);
    assert onu.internalState == EapolFlowReceived && onu.portNo == eapolFlow.portNo && onu.channel == [up];
    onu.ProcessOmciMessage(OmciGemPortAdded);
  }
}
