/**
 * The ONU's InternalState machine: the transition table built in CreateONU, the
 * `before_start_dhcp` guard and the `enter_<state>` callbacks that enqueue messages.
 */
module Lifecycle {
  import opened Types
  import opened Messages

  datatype State =
    | Created | Discovered | Enabled | EapolFlowReceived | GemPortAdded
    | AuthStarted | EapStartSent | EapResponseIdentitySent | EapResponseChallengeSent
    | EapResponseSuccessReceived | AuthFailed
    | DhcpStarted | DhcpDiscoverySent | DhcpRequestSent | DhcpAckReceived | DhcpFailed
    | Disabled | EapolFlowSent | DhcpFlowSent

  /** The named events of the table; `Name` gives the string the source fires. */
  datatype EventName =
    | Discover | Enable | ReceiveEapolFlow | AddGemPort | Disable
    | StartAuth | SendEapStart | SendEapResponseIdentity | SendEapResponseChallenge
    | ReceiveEapSuccess | FailAuth
    | StartDhcp | SendDhcpDiscovery | SendDhcpRequest | ReceiveDhcpAck | FailDhcp
    | PushEapolFlow | PushDhcpFlow

  function Name(e: EventName): (name: string)
    ensures name != [] && 'a' <= name[0] <= 'z'
  {
    match e
    case Discover => "discover"
    case Enable => "enable"
    case ReceiveEapolFlow => "receive_eapol_flow"
    case AddGemPort => "add_gem_port"
    case Disable => "disable"
    case StartAuth => "start_auth"
    case SendEapStart => "eap_start_sent"
    case SendEapResponseIdentity => "eap_response_identity_sent"
    case SendEapResponseChallenge => "eap_response_challenge_sent"
    case ReceiveEapSuccess => "eap_response_success_received"
    case FailAuth => "auth_failed"
    case StartDhcp => "start_dhcp"
    case SendDhcpDiscovery => "dhcp_discovery_sent"
    case SendDhcpRequest => "dhcp_request_sent"
    case ReceiveDhcpAck => "dhcp_ack_received"
    case FailDhcp => "dhcp_failed"
    case PushEapolFlow => "send_eapol_flow"
    case PushDhcpFlow => "send_dhcp_flow"
  }

  /** Distinct events fire distinct strings, so the enumeration loses nothing of the source's names. */
  lemma NamesDistinct(e1: EventName, e2: EventName)
    ensures Name(e1) == Name(e2) <==> e1 == e2
  {
  }

  /** One row of the table: the states an event is allowed from and the single destination. */
  datatype Rule = Rule(src: set<State>, dst: State)

  /** The table; no row lists its destination among its sources, so no accepted event is a self-loop. */
  function Transition(e: EventName): (r: Rule)
    ensures r.src != {} && r.dst !in r.src
  {
    match e
    case Discover => Rule({Created}, Discovered)
    case Enable => Rule({Discovered, Disabled}, Enabled)
    case ReceiveEapolFlow => Rule({Enabled, GemPortAdded}, EapolFlowReceived)
    case AddGemPort => Rule({Enabled, EapolFlowReceived}, GemPortAdded)
    case Disable => Rule({EapResponseSuccessReceived, AuthFailed, DhcpAckReceived, DhcpFailed}, Disabled)
    case StartAuth =>
      Rule({EapolFlowReceived, GemPortAdded, EapResponseSuccessReceived, AuthFailed, DhcpAckReceived, DhcpFailed}, AuthStarted)
    case SendEapStart => Rule({AuthStarted}, EapStartSent)
    case SendEapResponseIdentity => Rule({EapStartSent}, EapResponseIdentitySent)
    case SendEapResponseChallenge => Rule({EapResponseIdentitySent}, EapResponseChallengeSent)
    case ReceiveEapSuccess => Rule({EapResponseChallengeSent}, EapResponseSuccessReceived)
    case FailAuth => Rule({AuthStarted, EapStartSent, EapResponseIdentitySent, EapResponseChallengeSent}, AuthFailed)
    case StartDhcp =>
      Rule({EapResponseSuccessReceived, DhcpDiscoverySent, DhcpRequestSent, DhcpAckReceived, DhcpFailed}, DhcpStarted)
    case SendDhcpDiscovery => Rule({DhcpStarted}, DhcpDiscoverySent)
    case SendDhcpRequest => Rule({DhcpDiscoverySent}, DhcpRequestSent)
    case ReceiveDhcpAck => Rule({DhcpRequestSent}, DhcpAckReceived)
    case FailDhcp => Rule({DhcpStarted, DhcpDiscoverySent, DhcpRequestSent}, DhcpFailed)
    case PushEapolFlow => Rule({Created}, EapolFlowSent)
    case PushDhcpFlow => Rule({EapolFlowSent}, DhcpFlowSent)
  }

  /** Why the state machine refused an event. */
  datatype FsmError =
    | InvalidEvent(event: EventName, current: State)  // the current state is not a source of the event
    | Canceled(event: EventName)                      // a before_<event> callback cancelled it

  /** The `before_<event>` callbacks: only `before_start_dhcp` exists, and it needs the DHCP flow. */
  predicate BeforeAllows(e: EventName, dhcpFlowReceived: bool): (ok: bool)
    ensures e != StartDhcp ==> ok
    ensures e == StartDhcp ==> (ok <==> dhcpFlowReceived)
  {
    e == StartDhcp ==> dhcpFlowReceived
  }

  /** Firing `e` in state `cur`: the source check comes first, then the before_ callback. */
  function Fire(cur: State, e: EventName, dhcpFlowReceived: bool): (r: Result<State, FsmError>)
    ensures r.Success? <==> cur in Transition(e).src && (e == StartDhcp ==> dhcpFlowReceived)
    ensures r.Success? ==> r.value == Transition(e).dst && r.value != cur
    ensures r == Failure(InvalidEvent(e, cur)) <==> cur !in Transition(e).src
    ensures r == Failure(Canceled(e)) <==> cur in Transition(e).src && e == StartDhcp && !dhcpFlowReceived
  {
    var rule := Transition(e);
    if cur !in rule.src then Failure(InvalidEvent(e, cur))
    else if !BeforeAllows(e, dhcpFlowReceived) then Failure(Canceled(e))
    else Success(rule.dst)
  }

  /** The states whose `enter_<state>` callback pushes a message onto the ONU's channel. */
  const Enqueuing: set<State> := {Enabled, Disabled, AuthStarted, DhcpStarted, EapolFlowSent, DhcpFlowSent}

  /** What the `enter_<state>` callbacks append to the channel on entering `dst`. */
  function EntryMessages(dst: State, who: Who): (ms: seq<Message>)
    ensures |ms| <= 1
    ensures ms != [] <==> dst in Enqueuing
    ensures forall m <- ms :: m.OnuIndication? ==> m.indication.onuSN == who.sn && m.indication.ponPortId == who.ponPortId
    ensures forall m <- ms :: (m.StartEAPOL? || m.StartDHCP?) ==> m.packet == PacketMessage(who.ponPortId, who.onuId)
  {
    match dst
    case Enabled => [OnuIndication(OnuIndicationMessage(who.sn, who.ponPortId, Up))]
    case Disabled => [OnuIndication(OnuIndicationMessage(who.sn, who.ponPortId, Down))]
    case AuthStarted => [StartEAPOL(PacketMessage(who.ponPortId, who.onuId))]
    case DhcpStarted => [StartDHCP(PacketMessage(who.ponPortId, who.onuId))]
    case EapolFlowSent => [SendEapolFlow]
    case DhcpFlowSent => [SendDhcpFlow]
    case _ => []
  }

  /** The observable result of firing one event: the new state and what was enqueued. */
  datatype Outcome = Outcome(state: State, emitted: seq<Message>)

  /** The state after firing `e`: the destination when accepted, `cur` when refused. */
  function NextState(cur: State, e: EventName, dhcpFlowReceived: bool): (next: State)
  {
    match Fire(cur, e, dhcpFlowReceived)
    case Success(dst) => dst
    case Failure(_) => cur
  }

  function Step(cur: State, e: EventName, dhcpFlowReceived: bool, who: Who): (o: Outcome)
    ensures Fire(cur, e, dhcpFlowReceived).Failure? ==> o == Outcome(cur, [])
    ensures Fire(cur, e, dhcpFlowReceived).Success? ==>
      o.state == Transition(e).dst && o.emitted == EntryMessages(o.state, who)
  {
    var dst := NextState(cur, e, dhcpFlowReceived);
    Outcome(dst, if dst == cur then [] else EntryMessages(dst, who))
  }

  /** Each enqueuing state has its own message, so the message tells which state was entered. */
  lemma EntryMessagesDistinct(dst: State, who: Who)
    ensures EntryMessages(dst, who) == [OnuIndication(OnuIndicationMessage(who.sn, who.ponPortId, Up))] <==> dst == Enabled
    ensures EntryMessages(dst, who) == [OnuIndication(OnuIndicationMessage(who.sn, who.ponPortId, Down))] <==> dst == Disabled
    ensures EntryMessages(dst, who) == [StartEAPOL(PacketMessage(who.ponPortId, who.onuId))] <==> dst == AuthStarted
    ensures EntryMessages(dst, who) == [StartDHCP(PacketMessage(who.ponPortId, who.onuId))] <==> dst == DhcpStarted
    ensures EntryMessages(dst, who) == [SendEapolFlow] <==> dst == EapolFlowSent
    ensures EntryMessages(dst, who) == [SendDhcpFlow] <==> dst == DhcpFlowSent
  {
  }

  /** A fired event enqueues exactly the message of the state it enters, and a refused one enqueues nothing. */
  lemma EntryMessageKinds(cur: State, e: EventName, f: bool, who: Who)
    ensures var o := Step(cur, e, f, who);
      && (o.emitted == [OnuIndication(OnuIndicationMessage(who.sn, who.ponPortId, Up))] <==> o.state == Enabled && o.state != cur)
      && (o.emitted == [OnuIndication(OnuIndicationMessage(who.sn, who.ponPortId, Down))] <==> o.state == Disabled && o.state != cur)
      && (o.emitted == [StartEAPOL(PacketMessage(who.ponPortId, who.onuId))] <==> o.state == AuthStarted && o.state != cur)
      && (o.emitted == [StartDHCP(PacketMessage(who.ponPortId, who.onuId))] <==> o.state == DhcpStarted && o.state != cur)
      && (o.emitted == [SendEapolFlow] <==> o.state == EapolFlowSent && o.state != cur)
      && (o.emitted == [SendDhcpFlow] <==> o.state == DhcpFlowSent && o.state != cur)
  {
    match Fire(cur, e, f)
    case Failure(_) =>
    case Success(dst) => EntryMessagesDistinct(dst, who);
  }

  /** `discover` is allowed only from `created`; `send_dhcp_flow` only from `eapol_flow_sent`. */
  lemma DiscoverAndSendDhcpFlowSources(cur: State, f: bool)
    ensures Fire(cur, Discover, f).Success? <==> cur == Created
    ensures Fire(cur, PushDhcpFlow, f).Success? <==> cur == EapolFlowSent
  {
  }

  /** Without the DHCP flow `start_dhcp` never fires, even from a listed source such as `eap_response_success_received`. */
  lemma StartDhcpNeedsFlow(cur: State, who: Who)
    ensures Step(cur, StartDhcp, false, who) == Outcome(cur, [])
    ensures cur == EapResponseSuccessReceived ==> Fire(cur, StartDhcp, false) == Failure(Canceled(StartDhcp))
  {
  }

  /** The DHCP phase and the state reached by a successful authentication. */
  const AfterAuth: set<State> := {EapResponseSuccessReceived, DhcpStarted, DhcpDiscoverySent, DhcpRequestSent, DhcpAckReceived, DhcpFailed}

  /** The only event leading into the after-authentication states from outside is `eap_response_success_received`. */
  lemma EnterAfterAuthOnlyBySuccess(cur: State, e: EventName, f: bool)
    requires cur !in AfterAuth
    requires Fire(cur, e, f).Success? && Fire(cur, e, f).value in AfterAuth
    ensures e == ReceiveEapSuccess && Fire(cur, e, f).value == EapResponseSuccessReceived
  {
  }

  /** The states visited when firing `steps` from `s`, each event with the DHCP-flow flag it saw. */
  function Path(s: State, steps: seq<(EventName, bool)>): (p: seq<State>)
    ensures |p| == |steps| + 1 && p[0] == s
    decreases |steps|
  {
    if steps == [] then [s]
    else [s] + Path(NextState(s, steps[0].0, steps[0].1), steps[1..])
  }

  function Last<T>(s: seq<T>): (x: T)
    requires s != []
  {
    s[|s| - 1]
  }

  /** Whatever the events and flags, an ONU outside the DHCP phase reaches it only by passing `eap_response_success_received`. */
  lemma {:induction false} DhcpOnlyAfterAuthSuccess(s: State, steps: seq<(EventName, bool)>)
    requires s !in AfterAuth
    requires Last(Path(s, steps)) in AfterAuth
    ensures EapResponseSuccessReceived in Path(s, steps)
    decreases |steps|
  {
    if steps != [] {
      var next := NextState(s, steps[0].0, steps[0].1);
      var rest := Path(next, steps[1..]);
      assert Path(s, steps) == [s] + rest;
      assert Last(Path(s, steps)) == Last(rest);
      if next in AfterAuth {
        EnterAfterAuthOnlyBySuccess(s, steps[0].0, steps[0].1);
        assert rest[0] == EapResponseSuccessReceived;
      } else {
        DhcpOnlyAfterAuthSuccess(next, steps[1..]);
      }
    }
  }
}
