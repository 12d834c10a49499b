/** The messages an ONU keeps on its inbound queue, and the controller flow rules they may carry. */
module Messages {
  import opened Types
  import opened Identity

  datatype OperState = Up | Down

  /** The classifier fields of an OpenOLT flow that the ONU inspects. */
  datatype Classifier = Classifier(ethType: uint32, oVid: uint32, srcPort: uint32, dstPort: uint32)

  /** An OpenOLT flow as far as the ONU looks at it (`UniId` is an int32 there). */
  datatype Flow = Flow(uniId: int, portNo: uint32, classifier: Classifier)

  /** The type of a decoded OMCI frame; the frame itself is decoded by an external library. */
  datatype OmciMsgType =
    | MibResetResponse
    | MibUploadResponse
    | MibUploadNextResponse
    | CreateResponse
    | OtherMsgType(code: int)

  datatype OnuIndicationMessage = OnuIndicationMessage(onuSN: SerialNumber, ponPortId: uint32, operState: OperState)

  datatype PacketMessage = PacketMessage(ponPortId: uint32, onuId: uint32)

  /** One entry of the ONU's `Channel`; payloads this model does not interpret are left out. */
  datatype Message =
    | OnuDiscIndication
    | OnuIndication(indication: OnuIndicationMessage)
    | Omci
    | FlowUpdate(flow: Flow)
    | StartEAPOL(packet: PacketMessage)
    | StartDHCP(packet: PacketMessage)
    | OnuPacketOut
    | OnuPacketIn
    | DyingGaspIndication
    | OmciIndication(msgType: OmciMsgType)
    | SendEapolFlow
    | SendDhcpFlow

  /** The fields of an ONU that its entry callbacks copy into the messages they enqueue. */
  datatype Who = Who(sn: SerialNumber, ponPortId: uint32, onuId: uint32)
}
