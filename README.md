# BBSim ONU protocol engine in Dafny

BBSim emulates a broadband access network. It has one OLT with PON ports, and ONUs hang off those ports.
This project models the per-ONU protocol engine of `internal/bbsim/devices/onu.go`:

- **Lifecycle.** The `InternalState` state machine: its transition table, the
  `before_start_dhcp` guard, and the `enter_<state>` callbacks that push messages onto the ONU's
  inbound channel.
- **Flows.** The flow classifier `handleFlowUpdate` and the port-number store `storePortNumber`.
- **GEM port.** The GEM-port notification handler `processOmciMessage`.
- **Transaction ids.** The two OMCI transaction-id counters of `getNextTid`.
- **MIB upload.** The sequence of requests that `StartOmci` and `handleOmci` send.
- **Helpers.** The hex decoder `HexDecode`, the serial number `NewSN`, and the hardware address set in
  `CreateONU`.

Modules:

| module | file | contents |
|---|---|---|
| `Types` | types.dfy | Go's fixed-width integers (`byte`, `uint16`, `uint32`), `Option`, `Result`, Go's `byte(x)` conversion and its truncating `%` |
| `Identity` | identity.dfy | `NewSN` and the MAC address |
| `Messages` | messages.dfy | flows, their classifiers, and the messages that travel on the ONU channel |
| `Lifecycle` | lifecycle.dfy | the state machine table as data, and how one event fires |
| `Flows` | flows.dfy | the classifier, `storePortNumber`, and the pure form of `handleFlowUpdate` |
| `Tids` | tids.dfy | the counters' wrap rules |
| `MibUpload` | mibupload.dfy | `handleOmci` as a function over a session record, and whole-session lemmas |
| `Hex` | hex.dfy | `HexDecode`, kept as the source's two-index loop over a fresh array, plus its specification |
| `Devices` | devices.dfy | class `Onu`, whose fields are updated in place |

Each method of `Devices.Onu` is proved against a pure function of the old state:
- `HandleFlowUpdate` against `Flows.HandleFlow`;
- `Event` against `Lifecycle.Step`;
- `HandleOmci` against `MibUpload.Respond`;
- `GetNextTid` against `Tids.NextTid` and `Tids.NextHpTid`.

The properties the source promises are proved as lemmas about those functions. The channel is a
`seq<Message>` that the callbacks append to. The OMCI requests sent to the OLT are collected in
`omciOut`, as abstract tokens that carry their transaction id.

Go's integer widths are written out explicitly:
- `uint16` increments wrap at 2^16;
- `byte(x)` keeps the low eight bits;
- `oltid % 256` truncates toward zero, as Go's `%` does on a signed `int`.

The two usage methods `Devices.EnabledOnu` and `Devices.AuthScenario` chain the class methods on one
concrete ONU. It is enabled, then given an EAPOL flow, then a GEM port. It ends in `auth_started` with
exactly one StartEAPOL queued after its OnuIndication UP.

Two facts about the code decide how long a session runs and when the DHCP guard can refuse:
- **MIB upload length.** `handleOmci` increments `seqNumber` before comparing it with 290. The GAL
  Ethernet request therefore goes out on the 291st upload-next response, and a run with only 290
  upload-next responses never sends it (`MibUpload.LastUploadNextAsksGalEnet`, `MibUpload.FreshSession`).
- **DHCP guard on the flow path.** On the `handleFlowUpdate` path, the `before_start_dhcp` guard never
  refuses, because `DhcpFlowReceived` is set before `start_dhcp` is fired (`Flows.DhcpFlowTransitions`).
  The guard refuses only when `start_dhcp` is fired with the flag unset (`Lifecycle.StartDhcpNeedsFlow`).

Three behaviours of the code are modelled as written, and each is stated as a lemma:
- **Port 0 clears the port.** A flow with port 0 clears the stored port, since 0 < PortNo. The next flow's
  port is then taken whatever its value (`Flows.ZeroPortClearsBinding`).
- **Auth is read on one path only.** When the EAPOL flow comes before the GEM port, `processOmciMessage`
  fires `start_auth` from eapol_flow_received without reading `Auth`. Only the GEM-port-first order
  honours the Auth flag (`Devices.EapolFlowAndGemPortInEitherOrder`).
- **A repeated DHCP flow restarts DHCP.** `start_dhcp` lists dhcp_discovery_sent, dhcp_request_sent,
  dhcp_ack_received and dhcp_failed among its sources, and `handleFlowUpdate` fires it on every DHCP flow
  while Dhcp is set. A DHCP flow that arrives in one of those states therefore sends the ONU back to
  dhcp_started and queues a second StartDHCP, although the comment beside the call says the transition
  should not be fired more than once (`Flows.DhcpFlowRestartsDhcp`). The harm is confined to those four
  states: in dhcp_started a repeat changes nothing (`Flows.HandleFlowIdempotent`), and in every state that
  is not a source of `start_dhcp` the event is refused and nothing is queued (`Flows.DhcpFlowTransitions`).

## Model

| member | source | states |
|---|---|---|
| Types.ToByte | internal/bbsim/devices/onu.go:87 | Go's `byte(x)`: a value below 256 is kept, and otherwise the result differs from x by a multiple of 256 |
| Types.GoRem256 | internal/bbsim/devices/onu.go:337 | Go's `% 256` on a signed int: it lies strictly between -256 and 256, differs from the operand by a multiple of 256, matches the residue for non-negative operands, and is never positive for negative ones (so it is the truncating remainder) |
| Types.ByteOfGoRem | internal/bbsim/devices/onu.go:337 | `byte(oltid % 256)` with Go's truncating remainder equals the non-negative residue of `oltid` modulo 256, for negative ids too |
| Identity.NewSN | internal/bbsim/devices/onu.go:331-340 | the vendor id is the ASCII of "BBSM"; the vendor-specific bytes are exactly [0, oltid mod 256, intfid mod 256, onuid mod 256] |
| Identity.SerialNumbersDistinct | internal/bbsim/devices/onu.go:336-337 | take two ONUs of one OLT whose PON and ONU ids are below 256; their serial numbers are equal if and only if both ids are equal |
| Identity.HwAddress | internal/bbsim/devices/onu.go:87 | the MAC is six bytes: 2e:60:70:13, then the PON id mod 256, then the ONU id mod 256 |
| Identity.HwAddressUnicastLocal | internal/bbsim/devices/onu.go:87 | for every PON and ONU id, the MAC is unicast and locally administered |
| Identity.HwAddressDistinct | internal/bbsim/devices/onu.go:87 | with ids below 256, two ONUs get the same MAC if and only if their PON and ONU ids are equal |
| Lifecycle.Transition | internal/bbsim/devices/onu.go:107-134 | the table row by row; every event has at least one source, and no row lists its destination among its sources |
| Lifecycle.NamesDistinct | internal/bbsim/devices/onu.go:111-133 | two events share a source name string if and only if they are the same event |
| Lifecycle.Name | internal/bbsim/devices/onu.go:111-133 | the name string of every event, as the table writes it; each is non-empty and starts with a lower-case letter (that no two are equal is `Lifecycle.NamesDistinct`) |
| Lifecycle.BeforeAllows | internal/bbsim/devices/onu.go:179-183 | only `start_dhcp` has a before callback; it lets the event through if and only if the DHCP flow was seen |
| Lifecycle.Fire | internal/bbsim/devices/onu.go:107-134 | an event succeeds if and only if the current state is in its source list and, for `start_dhcp`, the DHCP flow was seen; on success the result is the table's destination, which differs from the current state; it fails with InvalidEvent exactly when the state is not a source, and with Canceled exactly when `before_start_dhcp` refuses |
| Lifecycle.EntryMessages | internal/bbsim/devices/onu.go:139-212 | entering a state enqueues at most one message, and one exactly for enabled, disabled, auth_started, dhcp_started, eapol_flow_sent and dhcp_flow_sent; indications carry the ONU's serial and PON id, and StartEAPOL/StartDHCP carry its PON and ONU id |
| Lifecycle.Step | internal/bbsim/devices/onu.go:107-212 | a refused event leaves the state and the channel unchanged; an accepted one moves to the table's destination and enqueues that state's entry messages |
| Lifecycle.EntryMessagesDistinct | internal/bbsim/devices/onu.go:139-212 | each enqueuing state has its own message: UP for enabled, DOWN for disabled, StartEAPOL, StartDHCP, SendEapolFlow and SendDhcpFlow, each an if-and-only-if |
| Lifecycle.EntryMessageKinds | internal/bbsim/devices/onu.go:107-212 | firing any event enqueues exactly one of the six messages if and only if it moved the ONU into the matching state |
| Lifecycle.DiscoverAndSendDhcpFlowSources | internal/bbsim/devices/onu.go:111-133 | `discover` succeeds only from created; `send_dhcp_flow` succeeds only from eapol_flow_sent |
| Lifecycle.StartDhcpNeedsFlow | internal/bbsim/devices/onu.go:179-183 | without the DHCP flow, `start_dhcp` changes no state and enqueues nothing from any state; from eap_response_success_received it is Canceled |
| Lifecycle.EnterAfterAuthOnlyBySuccess | internal/bbsim/devices/onu.go:116-129 | the only accepted event that enters the success-or-DHCP states from outside them is `eap_response_success_received`, which lands in that state |
| Lifecycle.DhcpOnlyAfterAuthSuccess | internal/bbsim/devices/onu.go:116-129 | take any sequence of events and guard flags from a state outside the DHCP phase; if it ends inside the phase, it passed through eap_response_success_received |
| Flows.Classify | internal/bbsim/devices/onu.go:501-538 | a flow is ignored if and only if its UNI is not 0; it is the EAPOL flow if and only if its EtherType is 0x888E and outer VLAN is 4091; it is the DHCP flow if and only if it is not EAPOL and is IPv4 from port 68 to port 67 |
| Flows.StoredPort | internal/bbsim/devices/onu.go:468-477 | an unset (0) port takes the flow's port; a set port becomes the lower of the two; the result is always one of the two |
| Flows.StoredPortNeverIncreases | internal/bbsim/devices/onu.go:468-477 | a stored non-zero port never increases, and it drops if and only if the new port is lower; repeating a call with the same port changes nothing |
| Flows.ZeroPortClearsBinding | internal/bbsim/devices/onu.go:468-477 | after a flow with port 0, the next flow's port is stored whatever its value |
| Flows.StoreAllKeepsLowest | internal/bbsim/devices/onu.go:461-478 | from unset, a non-empty run of non-zero ports leaves exactly the lowest of them stored |
| Flows.StoreAllFrom | internal/bbsim/devices/onu.go:461-478 | from a set port, a run of non-zero ports leaves the lowest of the set port and the run |
| Flows.FlowEvent | internal/bbsim/devices/onu.go:511-555 | an EAPOL flow fires `receive_eapol_flow` if and only if the ONU is enabled, and `start_auth` if and only if it is in gem_port_added with Auth set; a DHCP flow fires `start_dhcp` if and only if Dhcp is set; nothing else fires |
| Flows.HandleFlow | internal/bbsim/devices/onu.go:484-556 | only an EAPOL flow updates the stored port, through storePortNumber; the DHCP flag becomes set if and only if it was set before or the flow is the DHCP flow; when FlowEvent selects no event nothing else changes, and otherwise the state and the enqueued messages are those of firing that event with the updated flag |
| Flows.OtherUniIgnored | internal/bbsim/devices/onu.go:501-509 | a flow for a UNI other than 0 changes no field and enqueues nothing |
| Flows.OtherFlowIgnored | internal/bbsim/devices/onu.go:511-555 | a UNI-0 flow that is neither the EAPOL nor the DHCP flow changes no field and enqueues nothing |
| Flows.EapolFlowTransitions | internal/bbsim/devices/onu.go:511-535 | an EAPOL flow stores its port; it moves enabled to eapol_flow_received silently, and gem_port_added to auth_started with one StartEAPOL only when Auth is set; in every other case the state is unchanged and nothing is enqueued |
| Flows.DhcpFlowTransitions | internal/bbsim/devices/onu.go:536-555 | a DHCP flow always sets DhcpFlowReceived, whatever Dhcp is; with Dhcp set it reaches dhcp_started with one StartDHCP exactly when the state is a source of `start_dhcp`; otherwise nothing changes |
| Flows.DhcpFlowBeforeAuthWaits | internal/bbsim/devices/onu.go:536-555 | a DHCP flow that arrives before authentication has succeeded leaves the state unchanged |
| Flows.HandleFlowIdempotent | internal/bbsim/devices/onu.go:484-556 | receiving the same flow a second time straight after the first changes nothing and enqueues nothing |
| Flows.DhcpFlowRestartsDhcp | internal/bbsim/devices/onu.go:536-555 | with Dhcp set, a DHCP flow in dhcp_discovery_sent, dhcp_request_sent, dhcp_ack_received or dhcp_failed moves the ONU back to dhcp_started and queues one more StartDHCP, whatever the flag was before |
| Flows.BbrFlowsClassified | internal/bbsim/devices/onu.go:681-765 | the EAPOL and DHCP flows that sendEapolFlow and sendDhcpFlow install are classified as the EAPOL and DHCP flows |
| Flows.BbrEapolFlow | internal/bbsim/devices/onu.go:683-704 | the flow sendEapolFlow builds for ONU `id` is on UNI 0, carries port number `id`, and is classified as the EAPOL trap flow |
| Flows.BbrDhcpFlow | internal/bbsim/devices/onu.go:725-747 | the flow sendDhcpFlow builds for ONU `id` is on UNI 0, carries port number `id`, and is classified as the DHCP trap flow |
| Tids.Inc16 | internal/bbsim/devices/onu.go:600-606 | the uint16 `+= 1`: it increments below 0xFFFF and wraps 0xFFFF to 0 |
| Tids.NextTid | internal/bbsim/devices/onu.go:605-609 | the normal counter stays in [1, 0x7FFF]; it returns to 1 if and only if it was 0x7FFF, and otherwise increments |
| Tids.NextHpTid | internal/bbsim/devices/onu.go:598-603 | the high-priority counter stays at or above 0x8000; it resets to 0x8000 if and only if the 16-bit increment overflows from 0xFFFF, and otherwise increments |
| Tids.TidAfterCycles | internal/bbsim/devices/onu.go:605-609 | after n calls on a fresh ONU, the normal counter is n mod 0x7FFF + 1 |
| Tids.HpTidAfterCycles | internal/bbsim/devices/onu.go:598-603 | after n calls on a fresh ONU, the high-priority counter is 0x8000 + n mod 0x8000 |
| MibUpload.StartOmci | internal/bbsim/devices/onu.go:615-618 | sends a MIB reset with the current normal tid and advances only that counter |
| MibUpload.Fresh | internal/bbsim/devices/onu.go:90-92 | a new ONU starts its OMCI counters at transaction id 1 and sequence number 0, with no GEM port seen |
| MibUpload.Respond | internal/bbsim/devices/onu.go:620-679 | an unexpected response type is fatal, and only that; otherwise one request goes out with the current tid, except for the second Create response, which sends nothing and fires `send_eapol_flow`; the tid advances exactly when a request goes out; seqNumber increments only on upload-next responses; HasGemPort becomes set on the first Create response |
| MibUpload.RequestForEachResponse | internal/bbsim/devices/onu.go:639-677 | from any session: a reset response asks for the upload; an upload response asks for upload-next with the current seqNumber; an upload-next response asks for the next frame while the incremented counter is at most 290, and for GAL Ethernet past it; the first Create asks for the GEM port; a later Create sends nothing and fires `send_eapol_flow` |
| MibUpload.RunAppend | internal/bbsim/devices/onu.go:620-679 | handling the responses a and then b gives the same result as handling a, and continuing with b |
| MibUpload.UploadNextsAt | internal/bbsim/devices/onu.go:652-653 | n consecutive upload-next requests: the i-th has tid t + i and sequence number q + i |
| MibUpload.UploadNextRun | internal/bbsim/devices/onu.go:645-655 | while seqNumber stays within 290 and the tid does not wrap, n upload-next responses send n upload-next requests with consecutive tids and sequence numbers |
| MibUpload.UploadNextStep | internal/bbsim/devices/onu.go:645-655 | below the limit, one upload-next response asks for the next frame with the next tid |
| MibUpload.LastUploadNextAsksGalEnet | internal/bbsim/devices/onu.go:645-651 | the upload-next response that lifts seqNumber past 290 asks for the GAL Ethernet profile |
| MibUpload.OpeningResponses | internal/bbsim/devices/onu.go:639-644 | after StartOmci, the reset and upload responses ask for the MIB upload (tid 2) and the first upload-next (tid 3, sequence 0) |
| MibUpload.ClosingResponses | internal/bbsim/devices/onu.go:645-677 | the 291st upload-next response and two Create responses send GAL Ethernet, then the GEM port, then fire `send_eapol_flow` |
| MibUpload.FreshSession | internal/bbsim/devices/onu.go:615-679 | a fresh ONU's whole session sends, in order: the reset, the upload, one upload-next for the upload response, 290 more, GAL Ethernet and the GEM port; it ends by firing `send_eapol_flow` |
| Hex.Nibble | internal/bbsim/devices/onu.go:563-564 | the branch-free digit value never exceeds 42, so it fits a byte without wrapping |
| Hex.Decoded | internal/bbsim/devices/onu.go:559-566 | an even-length input decodes to half as many bytes, byte j being PairByte of characters 2j and 2j+1, with `u<<4` wrapping mod 256 on non-hex characters |
| Hex.PairByte | internal/bbsim/devices/onu.go:565 | `u<<4 + l` in bytes: when both nibbles are below 16 the byte is exactly 16·u + l |
| Hex.NibbleOfHexDigit | internal/bbsim/devices/onu.go:563-564 | on 0-9, A-F and a-f the nibble trick gives the digit's hex value |
| Hex.PairOfHexDigits | internal/bbsim/devices/onu.go:563-565 | two hex digits make the byte 16 times the first value plus the second |
| Hex.PairByteWraps | internal/bbsim/devices/onu.go:563-565 | the pair "z0" decodes to 0x30, the same byte as the hex pair "30", because 'z' has nibble 19 and the shift wraps |
| Hex.DecodedHexDigits | internal/bbsim/devices/onu.go:559-566 | on hex text of even length, output byte j is 16·hex(c[2j]) + hex(c[2j+1]) |
| Hex.DecodeEncode | internal/bbsim/devices/onu.go:559-566 | decoding the lower-case hex text of any byte string gives the byte string back |
| Hex.HexDecode | internal/bbsim/devices/onu.go:559-569 | the loop succeeds if and only if the input has even length, and it then returns Decoded(pkt); an odd length reads past the end |
| Devices.GemPortEvent | internal/bbsim/devices/onu.go:319-327 | a GEM port notification fires `add_gem_port` if and only if the ONU is enabled, and `start_auth` if and only if it is in eapol_flow_received; no other notification fires anything |
| Devices.GemPortAddedTransitions | internal/bbsim/devices/onu.go:309-329 | a GEM port moves enabled to gem_port_added silently, and eapol_flow_received to auth_started with one StartEAPOL; in any other state it fires nothing |
| Devices.EapolFlowAndGemPortInEitherOrder | internal/bbsim/devices/onu.go:309-329 | from enabled, an EAPOL flow followed by a GEM port reaches auth_started with one StartEAPOL, whatever Auth is; GEM port first and then flow reaches auth_started only with Auth set, and otherwise stays in gem_port_added |
| Devices.Onu.constructor | internal/bbsim/devices/onu.go:77-106 | CreateONU: created, port 0, no DHCP flow, empty channel, tid 1, hpTid 0x8000, seqNumber 0, no GEM port; the serial number is NewSN and the MAC is HwAddress |
| Devices.Onu.Event | internal/bbsim/devices/onu.go:107-212 | returns the state machine's error when it refuses; the new state and the appended messages are those of Lifecycle.Step |
| Devices.Onu.SendOnuDiscIndication | internal/bbsim/devices/onu.go:367-391 | a failed send changes nothing; otherwise the ONU fires `discover` |
| Devices.Onu.ProcessOmciMessage | internal/bbsim/devices/onu.go:309-329 | fires the GemPortEvent event, if any, and otherwise leaves the state and the channel unchanged |
| Devices.Onu.StorePortNumber | internal/bbsim/devices/onu.go:461-478 | the new PortNo is StoredPort of the old one and the flow's port; nothing else changes |
| Devices.Onu.SetID | internal/bbsim/devices/onu.go:480-482 | the ONU id becomes the given one |
| Devices.Onu.HandleFlowUpdate | internal/bbsim/devices/onu.go:484-556 | state, PortNo, DhcpFlowReceived and the appended messages are exactly those of Flows.HandleFlow on the old fields |
| Devices.Onu.GetNextTid | internal/bbsim/devices/onu.go:596-612 | returns the old value of the chosen counter, advances it by NextTid or NextHpTid, leaves the other counter alone, and keeps both in range |
| Devices.Onu.StartOmci | internal/bbsim/devices/onu.go:615-618 | appends a MIB reset with the old tid and advances tid only |
| Devices.Onu.HandleOmci | internal/bbsim/devices/onu.go:620-679 | an unexpected response type is fatal and changes nothing; otherwise the session fields and the sent requests are those of MibUpload.Respond, and `send_eapol_flow` is fired exactly when Respond says so; hpTid is untouched |
| Devices.EnabledOnu | internal/bbsim/devices/onu.go:77-149 | a new ONU that is discovered and then enabled is in enabled, holds exactly one OnuIndication UP, and has no port and no DHCP flow |
| Devices.AuthScenario | internal/bbsim/devices/onu.go:511-520 | that enabled ONU takes an EAPOL flow and then a GEM port; it ends in auth_started with the flow's port stored and exactly [OnuIndication UP, StartEAPOL] on its channel |

## Left out

- `ProcessOnuMessages` (onu.go:226-307) is not modelled. It is a goroutine that drains a 2048-slot
  buffered channel until the channel closes; blocking, concurrency and the dispatch switch over message
  types are out of scope. Of the handlers it dispatches to, `handleFlowUpdate` and `handleOmci` are
  modelled; `sendOnuDiscIndication`, `sendEapolFlow` and `sendDhcpFlow` are modelled in part, as the
  next bullet says; the OMCI-simulator forwarding, the dying-gasp and indication sends and the EAPOL and
  DHCP responders are left out, as the bullets below say.
- Nothing that goes over gRPC is modelled: `stream.Send`, `client.FlowAdd` and `client.OmciMsgOut`. This
  takes in `sendOnuIndication`, `sendDyingGaspInd`, `handleOmciMessage` (which forwards to the OMCI
  simulator), `sendOmciMsg`, and the flow submission in `sendEapolFlow` and `sendDhcpFlow`. Of
  `sendOnuDiscIndication`, only whether the send failed and the `discover` transition are modelled. The
  two flows that `sendEapolFlow` and `sendDhcpFlow` build are kept as values, so that their
  classification can be stated.
- Devices.Onu.HandleOmci: `Fatalf` ends the process. The model returns a `fatal` result instead and leaves
  the ONU unchanged. A failed `sendOmciMsg` (also `Fatalf`) is not modelled, since the send is I/O.
- The EAPOL and DHCP responders, the OMCI encoders and decoder, and the OMCI simulator are external
  libraries and are not part of this model. OMCI requests are tokens that carry their transaction id and
  sequence number, and a received OMCI frame is reduced to its decoded message type.
- The looplab/fsm library is modelled only by what is observable at this ONU:
  - refusal when the current state is not a source;
  - cancellation by a `before_` callback;
  - the `enter_` callbacks after the move.
  Its in-transition and unknown-event errors cannot arise here, since events are an enumeration and
  callbacks run to completion. No row of the table has its destination among its sources, so its
  no-transition error cannot arise either.
- The `OperState` state machine is not part of this model; `getOperStateFSM` lies outside the modelled
  file.
- Logging is left out, and with it the `enter_state`, `enter_auth_failed` and `enter_dhcp_failed`
  callbacks, which only log.
- `Sn()`, the string form of the serial number, comes from a helper outside the modelled file.
- `DoneChannel` and `PonPort` are left out, because nothing in the modelled handlers reads them.
  Of the OLT, `CreateONU` reads only its `ID`, for the serial number (onu.go:96); the constructor takes
  that as `oltId`. `STag` and `CTag` are stored but never used by the modelled code.
- Flows.Classify: only the four classifier fields the handler reads are kept: EtherType, outer VLAN, and
  the source and destination ports. The model receives the flow already converted from the controller's
  message.
