/** The IEEE 802.21 (MIH) helpers of the link-layer interface: the total
    enum-to-name maps used in logs and the QoS parameter check applied to
    every Link_Resource request. Enumerations are C enums, so each map
    takes any integer and names out-of-range values "UNKNOWN". */
module MihProtocol {
  import opened Wrappers

  const Unknown := "UNKNOWN"

  // ------------------------------------------------------------ enum codes

  const ActionRequest := 0
  const ActionRelease := 1

  const StatusSuccess := 0
  const StatusFailure := 1
  const StatusInsufficientResources := 2
  const StatusInvalidBearer := 3
  const StatusLinkNotAvailable := 4
  const StatusQosNotSupported := 5

  const VendorStart := 0x80
  const VendorEnd := 0xFF

  const LinkEventDetected := 1
  const LinkEventUp := 2
  const LinkEventDown := 4
  const LinkEventGoingDown := 8
  const LinkEventParamReport := 16
  const LinkEventHandoverImminent := 32
  const LinkEventHandoverComplete := 64

  // ------------------------------------------------------------ name maps

  /** `resource_action_to_string`. */
  function ResourceActionName(action: int): string {
    if action == ActionRequest then "REQUEST"
    else if action == ActionRelease then "RELEASE"
    else Unknown
  }

  /** `status_to_string`. */
  function StatusName(status: int): string {
    if status == StatusSuccess then "SUCCESS"
    else if status == StatusFailure then "FAILURE"
    else if status == StatusInsufficientResources then "INSUFFICIENT_RESOURCES"
    else if status == StatusInvalidBearer then "INVALID_BEARER"
    else if status == StatusLinkNotAvailable then "LINK_NOT_AVAILABLE"
    else if status == StatusQosNotSupported then "QOS_NOT_SUPPORTED"
    else Unknown
  }

  /** `cos_id_to_string`. */
  function CosName(cos: int): string {
    if cos == 0 then "BEST_EFFORT"
    else if cos == 1 then "BACKGROUND"
    else if cos == 2 then "VIDEO"
    else if cos == 3 then "VOICE"
    else if cos == 4 then "INTERACTIVE"
    else if cos == 5 then "SIGNALING"
    else if cos == 6 then "NETWORK_CONTROL"
    else if cos == 7 then "EXPEDITED_FORWARDING"
    else Unknown
  }

  /** The link types `link_param_type_to_string` names; 802.20 (0x04) and
      802.22 (0x05) are declared but have no case. */
  predicate ListedLinkType(t: int) {
    0x00 <= t <= 0x03 || 0x10 <= t <= 0x15 || 0x20 <= t <= 0x25 || 0x30 <= t <= 0x36
  }

  /** `link_param_type_to_string`. */
  function LinkTypeName(t: int): string {
    if t == 0x00 then "GENERIC"
    else if t == 0x01 then "ETHERNET"
    else if t == 0x02 then "802.11/Wi-Fi"
    else if t == 0x03 then "802.16/WiMAX"
    else if t == 0x10 then "3G/UMTS"
    else if t == 0x11 then "CDMA2000"
    else if t == 0x12 then "4G/LTE-FDD"
    else if t == 0x13 then "4G/LTE-TDD"
    else if t == 0x14 then "CDMA2000/HRPD"
    else if t == 0x15 then "5G/NR"
    else if t == 0x20 then "INMARSAT"
    else if t == 0x21 then "SATCOM/L-Band"
    else if t == 0x22 then "SATCOM/Ku-Band"
    else if t == 0x23 then "SATCOM/Ka-Band"
    else if t == 0x24 then "IRIDIUM"
    else if t == 0x25 then "VSAT"
    else if t == 0x30 then "VDL-Mode2"
    else if t == 0x31 then "VDL-Mode3"
    else if t == 0x32 then "VDL-Mode4"
    else if t == 0x33 then "HFDL"
    else if t == 0x34 then "AeroMACS"
    else if t == 0x35 then "L-DACS"
    else if t == 0x36 then "Air-to-Ground"
    else if VendorStart <= t <= VendorEnd then "VENDOR_SPECIFIC"
    else Unknown
  }

  /** `link_event_type_to_string`: one name per single event bit. */
  function LinkEventName(e: int): string {
    if e == LinkEventDetected then "LINK_DETECTED"
    else if e == LinkEventUp then "LINK_UP"
    else if e == LinkEventDown then "LINK_DOWN"
    else if e == LinkEventGoingDown then "LINK_GOING_DOWN"
    else if e == LinkEventParamReport then "LINK_PARAMETERS_REPORT"
    else if e == LinkEventHandoverImminent then "HANDOVER_IMMINENT"
    else if e == LinkEventHandoverComplete then "HANDOVER_COMPLETE"
    else Unknown
  }

  /** `link_down_reason_to_string`. */
  function LinkDownReasonName(r: int): string {
    if r == 0 then "EXPLICIT_DISCONNECT"
    else if r == 1 then "SIGNAL_LOSS"
    else if r == 2 then "HANDOVER"
    else if r == 3 then "LINK_FAILURE"
    else if r == 4 then "POWER_OFF"
    else if r == 5 then "LOW_BATTERY"
    else if r == 6 then "TIMEOUT"
    else if r == 7 then "COVERAGE_LOST"
    else Unknown
  }

  // ---------------------------------------------------- what the maps mean

  /** A name other than "UNKNOWN" comes exactly from a declared action, and
      different actions have different names. */
  lemma ResourceActionNames(a: int, b: int)
    ensures ResourceActionName(a) != Unknown <==> 0 <= a <= 1
    ensures 0 <= a <= 1 && 0 <= b <= 1 && a != b ==> ResourceActionName(a) != ResourceActionName(b)
  {
  }

  lemma StatusNames(a: int, b: int)
    ensures StatusName(a) != Unknown <==> 0 <= a <= 5
    ensures 0 <= a <= 5 && 0 <= b <= 5 && a != b ==> StatusName(a) != StatusName(b)
  {
  }

  lemma CosNames(a: int, b: int)
    ensures CosName(a) != Unknown <==> 0 <= a <= 7
    ensures 0 <= a <= 7 && 0 <= b <= 7 && a != b ==> CosName(a) != CosName(b)
  {
  }

  lemma LinkDownReasonNames(a: int, b: int)
    ensures LinkDownReasonName(a) != Unknown <==> 0 <= a <= 7
    ensures 0 <= a <= 7 && 0 <= b <= 7 && a != b ==> LinkDownReasonName(a) != LinkDownReasonName(b)
  {
  }

  /** "VENDOR_SPECIFIC" is exactly the unlisted values of 0x80..0xFF;
      unlisted values below 0x80 and above 0xFF are "UNKNOWN". */
  lemma LinkTypeNames(a: int)
    ensures LinkTypeName(a) == "VENDOR_SPECIFIC" <==> VendorStart <= a <= VendorEnd
    ensures LinkTypeName(a) == Unknown <==> !ListedLinkType(a) && !(VendorStart <= a <= VendorEnd)
  {
  }

  /** Every listed type has a name of its own. */
  lemma LinkTypeNamesDistinct(a: int, b: int)
    requires ListedLinkType(a) && ListedLinkType(b) && a != b
    ensures LinkTypeName(a) != LinkTypeName(b)
  {
  }

  /** 2 to the power `k`. */
  function Pow2(k: nat): (r: nat)
    ensures r >= 1
  {
    if k == 0 then 1 else 2 * Pow2(k - 1)
  }

  /** Only the seven single event bits have names: a combined bitmap, zero
      and LINK_EVENT_ALL are all "UNKNOWN". */
  lemma LinkEventNames(e: int)
    ensures LinkEventName(e) != Unknown <==> exists k :: 0 <= k <= 6 && e == Pow2(k)
  {
    if LinkEventName(e) != Unknown {
      var k := if e == 1 then 0 else if e == 2 then 1 else if e == 4 then 2 else if e == 8 then 3
        else if e == 16 then 4 else if e == 32 then 5 else 6;
      assert e == Pow2(k);
    } else {
      forall k | 0 <= k <= 6 ensures e != Pow2(k) {
        assert Pow2(1) == 2 && Pow2(2) == 4 && Pow2(3) == 8 && Pow2(4) == 16 && Pow2(5) == 32 && Pow2(6) == 64;
      }
    }
  }

  // ---------------------------------------------------------- QoS check

  /** The fields of QOS_PARAM the check reads; the loss rate is a real. */
  datatype QosParam = QosParam(cos: int, forwardRate: nat, returnRate: nat, lossRate: real)

  /** `validate_qos_params`: a missing structure (NULL) is invalid. */
  predicate ValidQos(qos: Option<QosParam>) {
    qos.Some?
    && !(qos.value.forwardRate == 0 && qos.value.returnRate == 0)
    && !(qos.value.lossRate < 0.0 || qos.value.lossRate > 1.0)
  }

  /** A QoS structure is valid exactly when some direction has a rate and
      the loss rate is a fraction. */
  lemma ValidQosMeans(qos: QosParam)
    ensures ValidQos(Some(qos)) <==> (qos.forwardRate > 0 || qos.returnRate > 0) && 0.0 <= qos.lossRate <= 1.0
    ensures !ValidQos(None)
  {
  }
}
