/**
 * The structures exchanged between the userspace agent and the kernel
 * filter: the four criterion tables, the full rule, the simple (whitelist)
 * rule and the message envelope.
 *
 * C unions become tagged variants: the `type` discriminant of a simple rule
 * and of a message is not stored separately but given by which constructor
 * is used (`Kind()`), so exactly one arm is ever live.
 *
 * `WellSized` says every text field and table has its declared fixed width
 * (what the C array types guarantee); `WellFormed` adds that every
 * enumerated field holds one of its defined codes.
 */
module Tables {
  import opened IntTypes
  import opened Protocol

  /** Which process issued the USB operation. */
  datatype ProcTab = ProcTab(
    valid: int32,
    pid: int32,
    ppid: int32,
    pgid: int32,
    uid: uint32,
    euid: uint32,
    gid: uint32,
    egid: uint32,
    comm: seq<byte>)
  {
    predicate Active() { valid == TAB_VALID }
    predicate WellSized() { |comm| == TASK_COMM_LEN }
  }

  /** Which USB device is involved. */
  datatype DevTab = DevTab(
    valid: int32,
    busnum: int32,
    devnum: int32,
    portnum: int32,
    ifnum: int32,
    devpath: seq<byte>,
    product: seq<byte>,
    manufacturer: seq<byte>,
    serial: seq<byte>)
  {
    predicate Active() { valid == TAB_VALID }
    predicate WellSized() {
      |devpath| == DEV_TAB_DEVPATH_LEN && |product| == DEV_TAB_PRODUCT_LEN &&
      |manufacturer| == DEV_TAB_MANUFACTURER_LEN && |serial| == DEV_TAB_SERIAL_LEN
    }
  }

  /** Which transfer shape (from the kernel's USB pipe). */
  datatype PktTab = PktTab(
    valid: int32,
    pipeType: int32,
    direction: int32,
    endpoint: int32,
    address: int32)
  {
    predicate Active() { valid == TAB_VALID }
    /** The type and direction are meaningful only in an active table. */
    predicate WellFormed() {
      Active() ==> ParsePktType(pipeType).Some? && ParsePktDir(direction).Some?
    }
  }

  /** Which loadable matcher module owns the rule. */
  datatype LumTab = LumTab(valid: int32, name: seq<byte>)
  {
    predicate Active() { valid == TAB_VALID }
    predicate WellSized() { |name| == LUM_TAB_NAME_LEN }
  }

  /**
   * A full rule. `mod` stands for the kernel's pointer to the real module
   * structure: userspace only carries it and never dereferences it.
   */
  datatype Rule = Rule(
    action: int32,
    name: seq<byte>,
    proc: ProcTab,
    dev: DevTab,
    pkt: PktTab,
    lum: LumTab,
    mod: uint64)
  {
    predicate WellSized() {
      |name| == RULE_NAME_LEN && proc.WellSized() && dev.WellSized() && lum.WellSized()
    }
    predicate WellFormed() {
      WellSized() && ParseAction(action).Some? && pkt.WellFormed()
    }
  }

  /** The live arm of a simple rule's table union. */
  datatype SimTab =
    | PgidTab(pgids: seq<int32>)
    | CommTab(comms: seq<seq<byte>>)
  {
    function Kind(): (k: SimKind) {
      match this
      case PgidTab(_) => PgidKind
      case CommTab(_) => CommKind
    }
    /** Exactly SIM_RULE_ENTRY_NUM slots, each command name TASK_COMM_LEN bytes. */
    predicate WellSized() {
      match this
      case PgidTab(pgids) => |pgids| == SIM_RULE_ENTRY_NUM
      case CommTab(comms) =>
        |comms| == SIM_RULE_ENTRY_NUM &&
        forall i :: 0 <= i < |comms| ==> |comms[i]| == TASK_COMM_LEN
    }
  }

  /** A whitelist rule matching on process-group ids or command names only. */
  datatype SimRule = SimRule(action: int32, name: seq<byte>, tab: SimTab)
  {
    predicate WellSized() { |name| == RULE_NAME_LEN && tab.WellSized() }
    predicate WellFormed() { WellSized() && ParseAction(action).Some? }
  }

  /** The live arm of a message's payload union. */
  datatype Payload =
    | RulePayload(rule: Rule)
    | SimRulePayload(simRule: SimRule)
  {
    function Kind(): (k: PayloadType) {
      match this
      case RulePayload(_) => RuleType
      case SimRulePayload(_) => SimRuleType
    }
    /** The `action` field, which both arms carry first. */
    function Action(): (a: int32) {
      match this
      case RulePayload(r) => r.action
      case SimRulePayload(s) => s.action
    }
    predicate WellSized() {
      match this
      case RulePayload(r) => r.WellSized()
      case SimRulePayload(s) => s.WellSized()
    }
    predicate WellFormed() {
      match this
      case RulePayload(r) => r.WellFormed()
      case SimRulePayload(s) => s.WellFormed()
    }
  }

  /**
   * The netlink message. `behavior` is the default-policy setting carried by
   * CHG; `result` is meaningful only on ACK.
   */
  datatype NlMsg = NlMsg(
    opcode: Opcode,
    behavior: int32,
    result: int32,
    payload: Payload)
  {
    predicate WellSized() { payload.WellSized() }
    predicate WellFormed() {
      payload.WellFormed() && (opcode == Ack ==> ParseResultCode(result).Some?)
    }
  }

  /**
   * What well-formedness demands, in the header's own constants: every text
   * field and table at its fixed width, an action of ALLOW or DROP, a type
   * ISO..BULK and a direction OUT or IN in an active packet table, and a
   * result of FAILURE, SUCCESS or LAST on an ACK.
   */
  lemma WellFormedMeaning(m: NlMsg)
    ensures m.WellFormed() <==>
      && m.WellSized()
      && RULE_ACTION_ALLOW <= m.payload.Action() <= RULE_ACTION_DROP
      && (m.payload.RulePayload? && m.payload.rule.pkt.Active() ==>
            && PKT_TAB_TYPE_ISO <= m.payload.rule.pkt.pipeType <= PKT_TAB_TYPE_BULK
            && PKT_TAB_DIR_OUT <= m.payload.rule.pkt.direction <= PKT_TAB_DIR_IN)
      && (m.opcode == Ack ==> RES_FAILURE <= m.result <= RES_LAST)
  {
  }
}
