/** How an ONU's serial number and hardware address follow from its OLT, PON port and ONU ids. */
module Identity {
  import opened Types

  datatype SerialNumber = SerialNumber(vendorId: seq<byte>, vendorSpecific: seq<byte>)

  /** The ASCII bytes of "BBSM", the emulator's vendor id. */
  const VendorBBSM: seq<byte> := [0x42, 0x42, 0x53, 0x4D]

  /** The serial number the emulator assigns: vendor "BBSM" and [0, olt, pon, onu] truncated to bytes. */
  function NewSN(oltId: int, intfId: uint32, onuId: uint32): (sn: SerialNumber)
    ensures sn.vendorId == VendorBBSM
    ensures |sn.vendorSpecific| == 4 && sn.vendorSpecific[0] == 0
    ensures sn.vendorSpecific[1] == oltId % 0x100
    ensures sn.vendorSpecific[2] == intfId % 0x100
    ensures sn.vendorSpecific[3] == onuId % 0x100
  {
    ByteOfGoRem(oltId);
    SerialNumber(VendorBBSM, [0, ToByte(GoRem256(oltId)), ToByte(intfId), ToByte(onuId)])
  }

  /** Two ONUs of one OLT whose PON and ONU ids fit a byte get the same serial only if they are the same ONU. */
  lemma SerialNumbersDistinct(oltId: int, pon1: uint32, onu1: uint32, pon2: uint32, onu2: uint32)
    requires pon1 < 0x100 && onu1 < 0x100 && pon2 < 0x100 && onu2 < 0x100
    ensures NewSN(oltId, pon1, onu1) == NewSN(oltId, pon2, onu2) <==> pon1 == pon2 && onu1 == onu2
  {
    var a, b := NewSN(oltId, pon1, onu1), NewSN(oltId, pon2, onu2);
    if a == b {
      assert a.vendorSpecific[2] == b.vendorSpecific[2];
      assert a.vendorSpecific[3] == b.vendorSpecific[3];
    }
  }

  /** The ONU's MAC address, 2e:60:70:13:pon:onu with both ids truncated to a byte. */
  function HwAddress(ponId: uint32, onuId: uint32): (mac: seq<byte>)
    ensures |mac| == 6
    ensures mac[..4] == [0x2e, 0x60, 0x70, 0x13]
    ensures mac[4] == ponId % 0x100 && mac[5] == onuId % 0x100
  {
    [0x2e, 0x60, 0x70, 0x13, ToByte(ponId), ToByte(onuId)]
  }

  /** The address is a unicast (bit 0 clear), locally administered (bit 1 set) MAC whatever the ids. */
  lemma HwAddressUnicastLocal(ponId: uint32, onuId: uint32)
    ensures HwAddress(ponId, onuId)[0] % 2 == 0 && (HwAddress(ponId, onuId)[0] / 2) % 2 == 1
  {
  }

  /** Below 256, two ONUs get the same address if and only if they have the same PON and ONU ids. */
  lemma HwAddressDistinct(pon1: uint32, onu1: uint32, pon2: uint32, onu2: uint32)
    requires pon1 < 0x100 && onu1 < 0x100 && pon2 < 0x100 && onu2 < 0x100
    ensures HwAddress(pon1, onu1) == HwAddress(pon2, onu2) <==> pon1 == pon2 && onu1 == onu2
  {
    var a, b := HwAddress(pon1, onu1), HwAddress(pon2, onu2);
    if a == b {
      assert a[4] == b[4] && a[5] == b[5];
    }
  }
}
