/**
 * The constants of the netlink protocol between the userspace agent and the
 * kernel USB filter: fixed text widths, and the closed integer enumerations
 * (packet type and direction, rule action, opcode, result code, payload kind
 * and simple-rule kind). Each enumeration is a datatype whose `Code` is the
 * integer carried on the wire; the matching `Parse` function is its inverse
 * and rejects every integer outside the enumeration.
 */
module Protocol {
  import opened IntTypes

  datatype Option<+T> = None | Some(value: T)

  // Fixed text widths, in bytes.
  const TASK_COMM_LEN: nat := 16
  const DEV_TAB_DEVPATH_LEN: nat := 16
  const DEV_TAB_PRODUCT_LEN: nat := 32
  const DEV_TAB_MANUFACTURER_LEN: nat := 32
  const DEV_TAB_SERIAL_LEN: nat := 32
  const LUM_TAB_NAME_LEN: nat := 32
  const RULE_NAME_LEN: nat := 32

  /** The `valid` value that makes a criterion table take part in matching. */
  const TAB_VALID: int32 := 1

  /** Number of pgid or command-name slots in a simple rule. */
  const SIM_RULE_ENTRY_NUM: nat := 16

  const PKT_TAB_TYPE_ISO: int32 := 0
  const PKT_TAB_TYPE_INT: int32 := 1
  const PKT_TAB_TYPE_CTRL: int32 := 2
  const PKT_TAB_TYPE_BULK: int32 := 3
  const PKT_TAB_DIR_OUT: int32 := 0
  const PKT_TAB_DIR_IN: int32 := 1
  const RULE_ACTION_ALLOW: int32 := 0
  const RULE_ACTION_DROP: int32 := 1
  const OPC_INIT: int32 := 0
  const OPC_ADD: int32 := 1
  const OPC_DEL: int32 := 2
  const OPC_SYN: int32 := 3
  const OPC_ENA: int32 := 4
  const OPC_DIS: int32 := 5
  const OPC_CHG: int32 := 6
  const OPC_DMP: int32 := 7
  const OPC_ACK: int32 := 8
  const RES_SUCCESS: int32 := 0
  const RES_FAILURE: int32 := -1
  const RES_LAST: int32 := 1
  const TYPE_RULE: int32 := 0
  const TYPE_SIM_RULE: int32 := 1
  const SIM_RULE_TYPE_PGID: int32 := 0
  const SIM_RULE_TYPE_COMM: int32 := 1

  /** USB pipe type of a packet; lined up with the kernel's pipe types. */
  datatype PktType = Iso | Int | Ctrl | Bulk {
    function Code(): (c: int32) {
      match this
      case Iso => PKT_TAB_TYPE_ISO
      case Int => PKT_TAB_TYPE_INT
      case Ctrl => PKT_TAB_TYPE_CTRL
      case Bulk => PKT_TAB_TYPE_BULK
    }
  }

  function ParsePktType(v: int32): (r: Option<PktType>)
    ensures r.Some? <==> 0 <= v <= 3
    ensures r.Some? ==> r.value.Code() == v
  {
    if v == PKT_TAB_TYPE_ISO then Some(Iso)
    else if v == PKT_TAB_TYPE_INT then Some(Int)
    else if v == PKT_TAB_TYPE_CTRL then Some(Ctrl)
    else if v == PKT_TAB_TYPE_BULK then Some(Bulk)
    else None
  }

  /** Direction of a transfer: OUT is host to device, IN is device to host. */
  datatype PktDir = Out | In {
    function Code(): (c: int32) {
      match this
      case Out => PKT_TAB_DIR_OUT
      case In => PKT_TAB_DIR_IN
    }
  }

  function ParsePktDir(v: int32): (r: Option<PktDir>)
    ensures r.Some? <==> 0 <= v <= 1
    ensures r.Some? ==> r.value.Code() == v
  {
    if v == PKT_TAB_DIR_OUT then Some(Out)
    else if v == PKT_TAB_DIR_IN then Some(In)
    else None
  }

  datatype Action = Allow | Drop {
    function Code(): (c: int32) {
      match this
      case Allow => RULE_ACTION_ALLOW
      case Drop => RULE_ACTION_DROP
    }
  }

  function ParseAction(v: int32): (r: Option<Action>)
    ensures r.Some? <==> 0 <= v <= 1
    ensures r.Some? ==> r.value.Code() == v
  {
    if v == RULE_ACTION_ALLOW then Some(Allow)
    else if v == RULE_ACTION_DROP then Some(Drop)
    else None
  }

  /** The operation a message requests (or, for Ack, acknowledges). */
  datatype Opcode = Init | Add | Del | Syn | Ena | Dis | Chg | Dmp | Ack {
    function Code(): (c: int32) {
      match this
      case Init => OPC_INIT
      case Add => OPC_ADD
      case Del => OPC_DEL
      case Syn => OPC_SYN
      case Ena => OPC_ENA
      case Dis => OPC_DIS
      case Chg => OPC_CHG
      case Dmp => OPC_DMP
      case Ack => OPC_ACK
    }
  }

  function ParseOpcode(v: int32): (r: Option<Opcode>)
    ensures r.Some? <==> OPC_INIT <= v <= OPC_ACK
    ensures r.Some? ==> r.value.Code() == v
  {
    if v == OPC_INIT then Some(Init)
    else if v == OPC_ADD then Some(Add)
    else if v == OPC_DEL then Some(Del)
    else if v == OPC_SYN then Some(Syn)
    else if v == OPC_ENA then Some(Ena)
    else if v == OPC_DIS then Some(Dis)
    else if v == OPC_CHG then Some(Chg)
    else if v == OPC_DMP then Some(Dmp)
    else if v == OPC_ACK then Some(Ack)
    else None
  }

  /** The nine opcodes are nine distinct integers, exactly 0 through 8. */
  lemma OpcodesAreDistinct(a: Opcode, b: Opcode)
    ensures a.Code() == b.Code() <==> a == b
    ensures 0 <= a.Code() <= 8
    ensures ParseOpcode(a.Code()) == Some(a)
  {
  }

  /** Outcome reported by an ACK message; LAST ends a dump or sync stream. */
  datatype ResultCode = Success | Failure | Last {
    function Code(): (c: int32) {
      match this
      case Success => RES_SUCCESS
      case Failure => RES_FAILURE
      case Last => RES_LAST
    }
  }

  function ParseResultCode(v: int32): (r: Option<ResultCode>)
    ensures r.Some? <==> -1 <= v <= 1
    ensures r.Some? ==> r.value.Code() == v
  {
    if v == RES_SUCCESS then Some(Success)
    else if v == RES_FAILURE then Some(Failure)
    else if v == RES_LAST then Some(Last)
    else None
  }

  /** SUCCESS, FAILURE and LAST are pairwise distinct codes. */
  lemma ResultCodesAreDistinct(a: ResultCode, b: ResultCode)
    ensures a.Code() == b.Code() <==> a == b
    ensures ParseResultCode(a.Code()) == Some(a)
  {
  }

  /** Which arm of the message payload union is live. */
  datatype PayloadType = RuleType | SimRuleType {
    function Code(): (c: int32) {
      match this
      case RuleType => TYPE_RULE
      case SimRuleType => TYPE_SIM_RULE
    }
  }

  function ParsePayloadType(v: int32): (r: Option<PayloadType>)
    ensures r.Some? <==> 0 <= v <= 1
    ensures r.Some? ==> r.value.Code() == v
  {
    if v == TYPE_RULE then Some(RuleType)
    else if v == TYPE_SIM_RULE then Some(SimRuleType)
    else None
  }

  /** Which arm of the simple-rule table union is live. */
  datatype SimKind = PgidKind | CommKind {
    function Code(): (c: int32) {
      match this
      case PgidKind => SIM_RULE_TYPE_PGID
      case CommKind => SIM_RULE_TYPE_COMM
    }
  }

  function ParseSimKind(v: int32): (r: Option<SimKind>)
    ensures r.Some? <==> 0 <= v <= 1
    ensures r.Some? ==> r.value.Code() == v
  {
    if v == SIM_RULE_TYPE_PGID then Some(PgidKind)
    else if v == SIM_RULE_TYPE_COMM then Some(CommKind)
    else None
  }
}
