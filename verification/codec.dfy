/**
 * The fixed-size frame a message occupies: the four header integers
 * (opcode, type, behavior, result) in declaration order, then the payload
 * union, as wide as its larger arm and zero-padded after the smaller one.
 * Every structure is laid out field by field in declaration order; integers
 * are 4-byte little-endian, text fields their fixed width, the `mod` handle
 * 8 bytes. Struct padding is not modelled (see README).
 *
 * Decoding checks the frame length and the three discriminants and reads
 * only the bytes of the arm they select.
 */
module Codec {
  import opened IntTypes
  import opened Protocol
  import opened Tables

  const PROC_TAB_LEN: nat := 8 * INT_LEN + TASK_COMM_LEN
  const DEV_TAB_LEN: nat := 5 * INT_LEN + DEV_TAB_DEVPATH_LEN + DEV_TAB_PRODUCT_LEN +
    DEV_TAB_MANUFACTURER_LEN + DEV_TAB_SERIAL_LEN
  const PKT_TAB_LEN: nat := 5 * INT_LEN
  const LUM_TAB_LEN: nat := INT_LEN + LUM_TAB_NAME_LEN
  const RULE_LEN: nat := INT_LEN + RULE_NAME_LEN + PROC_TAB_LEN + DEV_TAB_LEN +
    PKT_TAB_LEN + LUM_TAB_LEN + PTR_LEN
  const SIM_PGID_TAB_LEN: nat := SIM_RULE_ENTRY_NUM * INT_LEN
  const SIM_COMM_TAB_LEN: nat := SIM_RULE_ENTRY_NUM * TASK_COMM_LEN
  const SIM_TAB_LEN: nat := Max(SIM_PGID_TAB_LEN, SIM_COMM_TAB_LEN)
  /** Offset of the table union inside a simple rule: action, name, type. */
  const SIM_RULE_HEAD_LEN: nat := SIM_RULE_TYPE_OFF + INT_LEN
  const SIM_RULE_LEN: nat := SIM_RULE_HEAD_LEN + SIM_TAB_LEN
  const PAYLOAD_LEN: nat := Max(RULE_LEN, SIM_RULE_LEN)
  /** Offset of the payload union: opcode, type, behavior, result. */
  const HEADER_LEN: nat := 4 * INT_LEN
  /** sizeof(nlmsgt): the single length of every frame. */
  const NLM_MSG_LEN: nat := HEADER_LEN + PAYLOAD_LEN

  // Field offsets inside each structure, in declaration order. The integer
  // fields that open a structure sit at 0, 4, 8, ... (INT_LEN bytes each).
  const PROC_COMM_OFF: nat := 8 * INT_LEN
  const DEV_DEVPATH_OFF: nat := 5 * INT_LEN
  const DEV_PRODUCT_OFF: nat := DEV_DEVPATH_OFF + DEV_TAB_DEVPATH_LEN
  const DEV_MANUFACTURER_OFF: nat := DEV_PRODUCT_OFF + DEV_TAB_PRODUCT_LEN
  const DEV_SERIAL_OFF: nat := DEV_MANUFACTURER_OFF + DEV_TAB_MANUFACTURER_LEN
  const LUM_NAME_OFF: nat := INT_LEN
  const RULE_NAME_OFF: nat := INT_LEN
  const RULE_PROC_OFF: nat := RULE_NAME_OFF + RULE_NAME_LEN
  const RULE_DEV_OFF: nat := RULE_PROC_OFF + PROC_TAB_LEN
  const RULE_PKT_OFF: nat := RULE_DEV_OFF + DEV_TAB_LEN
  const RULE_LUM_OFF: nat := RULE_PKT_OFF + PKT_TAB_LEN
  const RULE_MOD_OFF: nat := RULE_LUM_OFF + LUM_TAB_LEN
  const SIM_RULE_NAME_OFF: nat := INT_LEN
  const SIM_RULE_TYPE_OFF: nat := SIM_RULE_NAME_OFF + RULE_NAME_LEN

  function Max(a: nat, b: nat): (m: nat) { if a < b then b else a }

  datatype DecodeError = MalformedFrame | UnknownOpcode | UnknownPayloadKind | UnknownSimKind

  datatype Result<+T> = Ok(value: T) | Err(error: DecodeError)

  function Zeros(n: nat): (r: seq<byte>)
    ensures |r| == n && forall i :: 0 <= i < n ==> r[i] == 0
  {
    seq(n, _ => 0)
  }

  // ---- sequences of fixed-width items ----

  function EncodeInt32s(xs: seq<int32>): (r: seq<byte>)
    ensures |r| == INT_LEN * |xs|
  {
    if xs == [] then [] else EncodeInt32(xs[0]) + EncodeInt32s(xs[1..])
  }

  function DecodeInt32s(s: seq<byte>): (xs: seq<int32>)
    requires |s| % INT_LEN == 0
    ensures INT_LEN * |xs| == |s|
  {
    if s == [] then [] else [DecodeInt32(s[..INT_LEN])] + DecodeInt32s(s[INT_LEN..])
  }

  lemma {:induction false} Int32sRoundTrip(xs: seq<int32>)
    ensures DecodeInt32s(EncodeInt32s(xs)) == xs
  {
    if xs != [] {
      var e := EncodeInt32s(xs);
      assert e[..INT_LEN] == EncodeInt32(xs[0]);
      assert e[INT_LEN..] == EncodeInt32s(xs[1..]);
      Int32sRoundTrip(xs[1..]);
    }
  }

  lemma {:induction false} Int32sBytesRoundTrip(s: seq<byte>)
    requires |s| % INT_LEN == 0
    ensures EncodeInt32s(DecodeInt32s(s)) == s
  {
    if s != [] {
      EncodeOfDecodeInt32(s[..INT_LEN]);
      Int32sBytesRoundTrip(s[INT_LEN..]);
      assert s == s[..INT_LEN] + s[INT_LEN..];
    }
  }

  /** Concatenation of command-name slots. */
  function Flatten(css: seq<seq<byte>>): (r: seq<byte>)
  {
    if css == [] then [] else css[0] + Flatten(css[1..])
  }

  predicate AllCommSized(css: seq<seq<byte>>)
  {
    forall i :: 0 <= i < |css| ==> |css[i]| == TASK_COMM_LEN
  }

  lemma {:induction false} FlattenLength(css: seq<seq<byte>>)
    requires AllCommSized(css)
    ensures |Flatten(css)| == TASK_COMM_LEN * |css|
  {
    if css != [] {
      FlattenLength(css[1..]);
    }
  }

  /** Cuts s into consecutive command-name slots of TASK_COMM_LEN bytes. */
  function Split(s: seq<byte>): (css: seq<seq<byte>>)
    requires |s| % TASK_COMM_LEN == 0
    ensures TASK_COMM_LEN * |css| == |s|
    ensures AllCommSized(css)
    decreases |s|
  {
    if s == [] then [] else [s[..TASK_COMM_LEN]] + Split(s[TASK_COMM_LEN..])
  }

  lemma {:induction false} SplitFlatten(css: seq<seq<byte>>)
    requires AllCommSized(css)
    ensures |Flatten(css)| % TASK_COMM_LEN == 0 && Split(Flatten(css)) == css
  {
    FlattenLength(css);
    if css != [] {
      var f := Flatten(css);
      FlattenLength(css[1..]);
      assert f[..TASK_COMM_LEN] == css[0];
      assert f[TASK_COMM_LEN..] == Flatten(css[1..]);
      SplitFlatten(css[1..]);
    }
  }

  lemma {:induction false} FlattenSplit(s: seq<byte>)
    requires |s| % TASK_COMM_LEN == 0
    ensures Flatten(Split(s)) == s
    decreases |s|
  {
    if s != [] {
      FlattenSplit(s[TASK_COMM_LEN..]);
      assert s == s[..TASK_COMM_LEN] + s[TASK_COMM_LEN..];
    }
  }

  // ---- criterion tables ----

  function EncodeProcTab(t: ProcTab): (r: seq<byte>)
    requires t.WellSized()
    ensures |r| == PROC_TAB_LEN
  {
    EncodeInt32(t.valid) + EncodeInt32(t.pid) + EncodeInt32(t.ppid) + EncodeInt32(t.pgid) +
    EncodeUInt32(t.uid) + EncodeUInt32(t.euid) + EncodeUInt32(t.gid) + EncodeUInt32(t.egid) +
    t.comm
  }

  function DecodeProcTab(s: seq<byte>): (t: ProcTab)
    requires |s| == PROC_TAB_LEN
    ensures t.WellSized()
  {
    ProcTab(DecodeInt32(s[0..4]), DecodeInt32(s[4..8]), DecodeInt32(s[8..12]),
            DecodeInt32(s[12..16]), DecodeUInt32(s[16..20]), DecodeUInt32(s[20..24]),
            DecodeUInt32(s[24..28]), DecodeUInt32(s[28..32]), s[PROC_COMM_OFF..])
  }

  lemma ProcTabRoundTrip(t: ProcTab)
    requires t.WellSized()
    ensures DecodeProcTab(EncodeProcTab(t)) == t
  {
    var e := EncodeProcTab(t);
    assert e[0..4] == EncodeInt32(t.valid);
    assert e[4..8] == EncodeInt32(t.pid);
    assert e[8..12] == EncodeInt32(t.ppid);
    assert e[12..16] == EncodeInt32(t.pgid);
    assert e[16..20] == EncodeUInt32(t.uid);
    assert e[20..24] == EncodeUInt32(t.euid);
    assert e[24..28] == EncodeUInt32(t.gid);
    assert e[28..32] == EncodeUInt32(t.egid);
    assert e[PROC_COMM_OFF..] == t.comm;
  }

  lemma ProcTabBytesRoundTrip(s: seq<byte>)
    requires |s| == PROC_TAB_LEN
    ensures EncodeProcTab(DecodeProcTab(s)) == s
  {
    EncodeOfDecodeInt32(s[0..4]);
    EncodeOfDecodeInt32(s[4..8]);
    EncodeOfDecodeInt32(s[8..12]);
    EncodeOfDecodeInt32(s[12..16]);
    EncodeOfDecodeUInt32(s[16..20]);
    EncodeOfDecodeUInt32(s[20..24]);
    EncodeOfDecodeUInt32(s[24..28]);
    EncodeOfDecodeUInt32(s[28..32]);
    assert s == s[0..4] + s[4..8] + s[8..12] + s[12..16] + s[16..20] + s[20..24] +
      s[24..28] + s[28..32] + s[PROC_COMM_OFF..];
  }

  function EncodeDevTab(t: DevTab): (r: seq<byte>)
    requires t.WellSized()
    ensures |r| == DEV_TAB_LEN
  {
    EncodeInt32(t.valid) + EncodeInt32(t.busnum) + EncodeInt32(t.devnum) +
    EncodeInt32(t.portnum) + EncodeInt32(t.ifnum) +
    t.devpath + t.product + t.manufacturer + t.serial
  }

  function DecodeDevTab(s: seq<byte>): (t: DevTab)
    requires |s| == DEV_TAB_LEN
    ensures t.WellSized()
  {
    DevTab(DecodeInt32(s[0..4]), DecodeInt32(s[4..8]), DecodeInt32(s[8..12]),
           DecodeInt32(s[12..16]), DecodeInt32(s[16..20]),
           s[DEV_DEVPATH_OFF..DEV_PRODUCT_OFF], s[DEV_PRODUCT_OFF..DEV_MANUFACTURER_OFF],
           s[DEV_MANUFACTURER_OFF..DEV_SERIAL_OFF], s[DEV_SERIAL_OFF..])
  }

  lemma DevTabRoundTrip(t: DevTab)
    requires t.WellSized()
    ensures DecodeDevTab(EncodeDevTab(t)) == t
  {
    var e := EncodeDevTab(t);
    assert e[0..4] == EncodeInt32(t.valid);
    assert e[4..8] == EncodeInt32(t.busnum);
    assert e[8..12] == EncodeInt32(t.devnum);
    assert e[12..16] == EncodeInt32(t.portnum);
    assert e[16..20] == EncodeInt32(t.ifnum);
    assert e[DEV_DEVPATH_OFF..DEV_PRODUCT_OFF] == t.devpath;
    assert e[DEV_PRODUCT_OFF..DEV_MANUFACTURER_OFF] == t.product;
    assert e[DEV_MANUFACTURER_OFF..DEV_SERIAL_OFF] == t.manufacturer;
    assert e[DEV_SERIAL_OFF..] == t.serial;
  }

  lemma DevTabBytesRoundTrip(s: seq<byte>)
    requires |s| == DEV_TAB_LEN
    ensures EncodeDevTab(DecodeDevTab(s)) == s
  {
    EncodeOfDecodeInt32(s[0..4]);
    EncodeOfDecodeInt32(s[4..8]);
    EncodeOfDecodeInt32(s[8..12]);
    EncodeOfDecodeInt32(s[12..16]);
    EncodeOfDecodeInt32(s[16..20]);
    assert s == s[0..4] + s[4..8] + s[8..12] + s[12..16] + s[16..20] +
      s[DEV_DEVPATH_OFF..DEV_PRODUCT_OFF] + s[DEV_PRODUCT_OFF..DEV_MANUFACTURER_OFF] +
      s[DEV_MANUFACTURER_OFF..DEV_SERIAL_OFF] + s[DEV_SERIAL_OFF..];
  }

  function EncodePktTab(t: PktTab): (r: seq<byte>)
    ensures |r| == PKT_TAB_LEN
  {
    EncodeInt32(t.valid) + EncodeInt32(t.pipeType) + EncodeInt32(t.direction) +
    EncodeInt32(t.endpoint) + EncodeInt32(t.address)
  }

  function DecodePktTab(s: seq<byte>): (t: PktTab)
    requires |s| == PKT_TAB_LEN
    ensures t.WellFormed() <==>
      (DecodeInt32(s[0..4]) == TAB_VALID ==>
         && PKT_TAB_TYPE_ISO <= DecodeInt32(s[4..8]) <= PKT_TAB_TYPE_BULK
         && PKT_TAB_DIR_OUT <= DecodeInt32(s[8..12]) <= PKT_TAB_DIR_IN)
  {
    PktTab(DecodeInt32(s[0..4]), DecodeInt32(s[4..8]), DecodeInt32(s[8..12]),
           DecodeInt32(s[12..16]), DecodeInt32(s[16..20]))
  }

  lemma PktTabRoundTrip(t: PktTab)
    ensures DecodePktTab(EncodePktTab(t)) == t
  {
    var e := EncodePktTab(t);
    assert e[0..4] == EncodeInt32(t.valid);
    assert e[4..8] == EncodeInt32(t.pipeType);
    assert e[8..12] == EncodeInt32(t.direction);
    assert e[12..16] == EncodeInt32(t.endpoint);
    assert e[16..20] == EncodeInt32(t.address);
  }

  lemma PktTabBytesRoundTrip(s: seq<byte>)
    requires |s| == PKT_TAB_LEN
    ensures EncodePktTab(DecodePktTab(s)) == s
  {
    EncodeOfDecodeInt32(s[0..4]);
    EncodeOfDecodeInt32(s[4..8]);
    EncodeOfDecodeInt32(s[8..12]);
    EncodeOfDecodeInt32(s[12..16]);
    EncodeOfDecodeInt32(s[16..20]);
    assert s == s[0..4] + s[4..8] + s[8..12] + s[12..16] + s[16..20];
  }

  function EncodeLumTab(t: LumTab): (r: seq<byte>)
    requires t.WellSized()
    ensures |r| == LUM_TAB_LEN
  {
    EncodeInt32(t.valid) + t.name
  }

  function DecodeLumTab(s: seq<byte>): (t: LumTab)
    requires |s| == LUM_TAB_LEN
    ensures t.WellSized()
  {
    LumTab(DecodeInt32(s[0..4]), s[LUM_NAME_OFF..])
  }

  lemma LumTabRoundTrip(t: LumTab)
    requires t.WellSized()
    ensures DecodeLumTab(EncodeLumTab(t)) == t
  {
    var e := EncodeLumTab(t);
    assert e[0..4] == EncodeInt32(t.valid);
    assert e[LUM_NAME_OFF..] == t.name;
  }

  lemma LumTabBytesRoundTrip(s: seq<byte>)
    requires |s| == LUM_TAB_LEN
    ensures EncodeLumTab(DecodeLumTab(s)) == s
  {
    EncodeOfDecodeInt32(s[0..4]);
    assert s == s[0..4] + s[LUM_NAME_OFF..];
  }

  // ---- rules ----

  function EncodeRule(r: Rule): (e: seq<byte>)
    requires r.WellSized()
    ensures |e| == RULE_LEN
  {
    EncodeInt32(r.action) + r.name + EncodeProcTab(r.proc) + EncodeDevTab(r.dev) +
    EncodePktTab(r.pkt) + EncodeLumTab(r.lum) + EncodeUInt64(r.mod)
  }

  function DecodeRule(s: seq<byte>): (r: Rule)
    requires |s| == RULE_LEN
    ensures r.WellSized()
  {
    Rule(DecodeInt32(s[0..RULE_NAME_OFF]), s[RULE_NAME_OFF..RULE_PROC_OFF],
         DecodeProcTab(s[RULE_PROC_OFF..RULE_DEV_OFF]), DecodeDevTab(s[RULE_DEV_OFF..RULE_PKT_OFF]),
         DecodePktTab(s[RULE_PKT_OFF..RULE_LUM_OFF]), DecodeLumTab(s[RULE_LUM_OFF..RULE_MOD_OFF]),
         DecodeUInt64(s[RULE_MOD_OFF..]))
  }

  lemma RuleRoundTrip(r: Rule)
    requires r.WellSized()
    ensures DecodeRule(EncodeRule(r)) == r
  {
    var e := EncodeRule(r);
    assert e[0..RULE_NAME_OFF] == EncodeInt32(r.action);
    assert e[RULE_NAME_OFF..RULE_PROC_OFF] == r.name;
    assert e[RULE_PROC_OFF..RULE_DEV_OFF] == EncodeProcTab(r.proc);
    assert e[RULE_DEV_OFF..RULE_PKT_OFF] == EncodeDevTab(r.dev);
    assert e[RULE_PKT_OFF..RULE_LUM_OFF] == EncodePktTab(r.pkt);
    assert e[RULE_LUM_OFF..RULE_MOD_OFF] == EncodeLumTab(r.lum);
    assert e[RULE_MOD_OFF..] == EncodeUInt64(r.mod);
    ProcTabRoundTrip(r.proc);
    DevTabRoundTrip(r.dev);
    PktTabRoundTrip(r.pkt);
    LumTabRoundTrip(r.lum);
  }

  lemma RuleBytesRoundTrip(s: seq<byte>)
    requires |s| == RULE_LEN
    ensures EncodeRule(DecodeRule(s)) == s
  {
    EncodeOfDecodeInt32(s[0..RULE_NAME_OFF]);
    ProcTabBytesRoundTrip(s[RULE_PROC_OFF..RULE_DEV_OFF]);
    DevTabBytesRoundTrip(s[RULE_DEV_OFF..RULE_PKT_OFF]);
    PktTabBytesRoundTrip(s[RULE_PKT_OFF..RULE_LUM_OFF]);
    LumTabBytesRoundTrip(s[RULE_LUM_OFF..RULE_MOD_OFF]);
    EncodeOfDecodeUInt64(s[RULE_MOD_OFF..]);
    assert s == s[0..RULE_NAME_OFF] + s[RULE_NAME_OFF..RULE_PROC_OFF] +
      s[RULE_PROC_OFF..RULE_DEV_OFF] + s[RULE_DEV_OFF..RULE_PKT_OFF] +
      s[RULE_PKT_OFF..RULE_LUM_OFF] + s[RULE_LUM_OFF..RULE_MOD_OFF] + s[RULE_MOD_OFF..];
  }

  /** The table union of a simple rule; the pgid arm is zero-padded to the comm arm's width. */
  function EncodeSimTab(t: SimTab): (e: seq<byte>)
    requires t.WellSized()
    ensures |e| == SIM_TAB_LEN
    ensures forall i :: SimTabUsedLen(t) <= i < SIM_TAB_LEN ==> e[i] == 0
  {
    match t
    case PgidTab(pgids) => EncodeInt32s(pgids) + Zeros(SIM_TAB_LEN - SIM_PGID_TAB_LEN)
    case CommTab(comms) => FlattenLength(comms); Flatten(comms)
  }

  /** Reads only the arm `kind` selects. */
  function DecodeSimTab(kind: SimKind, s: seq<byte>): (t: SimTab)
    requires |s| == SIM_TAB_LEN
    ensures t.WellSized() && t.Kind() == kind
  {
    match kind
    case PgidKind => PgidTab(DecodeInt32s(s[..SIM_PGID_TAB_LEN]))
    case CommKind => CommTab(Split(s))
  }

  /** Number of leading bytes of the union that the live arm uses. */
  function SimTabUsedLen(t: SimTab): (n: nat)
  {
    match t
    case PgidTab(_) => SIM_PGID_TAB_LEN
    case CommTab(_) => SIM_COMM_TAB_LEN
  }

  lemma SimTabRoundTrip(t: SimTab)
    requires t.WellSized()
    ensures DecodeSimTab(t.Kind(), EncodeSimTab(t)) == t
  {
    match t
    case PgidTab(pgids) =>
      var e := EncodeSimTab(t);
      assert e[..SIM_PGID_TAB_LEN] == EncodeInt32s(pgids);
      Int32sRoundTrip(pgids);
    case CommTab(comms) =>
      SplitFlatten(comms);
  }

  lemma SimTabBytesRoundTrip(kind: SimKind, s: seq<byte>)
    requires |s| == SIM_TAB_LEN
    ensures var t := DecodeSimTab(kind, s);
      EncodeSimTab(t)[..SimTabUsedLen(t)] == s[..SimTabUsedLen(t)]
  {
    match kind
    case PgidKind =>
      Int32sBytesRoundTrip(s[..SIM_PGID_TAB_LEN]);
    case CommKind =>
      FlattenSplit(s);
  }

  function EncodeSimRule(r: SimRule): (e: seq<byte>)
    requires r.WellSized()
    ensures |e| == SIM_RULE_LEN
  {
    EncodeInt32(r.action) + r.name + EncodeInt32(r.tab.Kind().Code()) + EncodeSimTab(r.tab)
  }

  function DecodeSimRule(s: seq<byte>): (r: Result<SimRule>)
    requires |s| == SIM_RULE_LEN
    ensures r.Ok? ==> r.value.WellSized()
    ensures r.Err? <==> ParseSimKind(DecodeInt32(s[SIM_RULE_TYPE_OFF..SIM_RULE_HEAD_LEN])).None?
    ensures r.Err? ==> r.error == UnknownSimKind
  {
    match ParseSimKind(DecodeInt32(s[SIM_RULE_TYPE_OFF..SIM_RULE_HEAD_LEN]))
    case None => Err(UnknownSimKind)
    case Some(kind) => Ok(SimRule(DecodeInt32(s[0..SIM_RULE_NAME_OFF]), s[SIM_RULE_NAME_OFF..SIM_RULE_TYPE_OFF],
                            DecodeSimTab(kind, s[SIM_RULE_HEAD_LEN..])))
  }

  lemma SimRuleRoundTrip(r: SimRule)
    requires r.WellSized()
    ensures DecodeSimRule(EncodeSimRule(r)) == Ok(r)
  {
    var e := EncodeSimRule(r);
    assert e[0..SIM_RULE_NAME_OFF] == EncodeInt32(r.action);
    assert e[SIM_RULE_NAME_OFF..SIM_RULE_TYPE_OFF] == r.name;
    assert e[SIM_RULE_TYPE_OFF..SIM_RULE_HEAD_LEN] == EncodeInt32(r.tab.Kind().Code());
    assert e[SIM_RULE_HEAD_LEN..] == EncodeSimTab(r.tab);
    SimTabRoundTrip(r.tab);
  }

  lemma SimRuleBytesRoundTrip(s: seq<byte>)
    requires |s| == SIM_RULE_LEN && DecodeSimRule(s).Ok?
    ensures var r := DecodeSimRule(s).value;
      var n := SIM_RULE_HEAD_LEN + SimTabUsedLen(r.tab);
      EncodeSimRule(r)[..n] == s[..n]
  {
    var r := DecodeSimRule(s).value;
    var u := SimTabUsedLen(r.tab);
    var n := SIM_RULE_HEAD_LEN + u;
    EncodeOfDecodeInt32(s[0..SIM_RULE_NAME_OFF]);
    EncodeOfDecodeInt32(s[SIM_RULE_TYPE_OFF..SIM_RULE_HEAD_LEN]);
    var head := s[..SIM_RULE_HEAD_LEN];
    assert head == s[0..SIM_RULE_NAME_OFF] + s[SIM_RULE_NAME_OFF..SIM_RULE_TYPE_OFF] +
      s[SIM_RULE_TYPE_OFF..SIM_RULE_HEAD_LEN];
    var t := EncodeSimTab(r.tab);
    assert EncodeSimRule(r) == head + t;
    SimTabBytesRoundTrip(r.tab.Kind(), s[SIM_RULE_HEAD_LEN..]);
    PrefixOfConcat(head, t, u);
    PrefixOfConcat(head, s[SIM_RULE_HEAD_LEN..], u);
    assert s == head + s[SIM_RULE_HEAD_LEN..];
  }

  /** A prefix reaching into the second part of a concatenation. */
  lemma PrefixOfConcat(x: seq<byte>, y: seq<byte>, k: nat)
    requires k <= |y|
    ensures (x + y)[..|x| + k] == x + y[..k]
  {
  }

  // ---- the message ----

  /** Number of leading payload bytes the live arm uses; the rest is padding. */
  function PayloadUsedLen(p: Payload): (n: nat)
  {
    match p
    case RulePayload(_) => RULE_LEN
    case SimRulePayload(r) => SIM_RULE_HEAD_LEN + SimTabUsedLen(r.tab)
  }

  /** Number of leading frame bytes that carry the message. */
  function UsedLen(m: NlMsg): (n: nat)
  {
    HEADER_LEN + PayloadUsedLen(m.payload)
  }

  function EncodePayload(p: Payload): (e: seq<byte>)
    requires p.WellSized()
    ensures |e| == PAYLOAD_LEN
    ensures forall i :: PayloadUsedLen(p) <= i < PAYLOAD_LEN ==> e[i] == 0
  {
    match p
    case RulePayload(r) => EncodeRule(r) + Zeros(PAYLOAD_LEN - RULE_LEN)
    case SimRulePayload(r) => EncodeSimRule(r) + Zeros(PAYLOAD_LEN - SIM_RULE_LEN)
  }

  /** Reads only the arm the payload kind selects. */
  function DecodePayload(kind: int32, s: seq<byte>): (r: Result<Payload>)
    requires |s| == PAYLOAD_LEN
    ensures r.Ok? ==> r.value.WellSized() && r.value.Kind().Code() == kind
    ensures r == Err(UnknownPayloadKind) <==> ParsePayloadType(kind).None?
    ensures kind == TYPE_SIM_RULE ==>
      (r == Err(UnknownSimKind) <==> ParseSimKind(DecodeInt32(s[SIM_RULE_TYPE_OFF..SIM_RULE_HEAD_LEN])).None?)
  {
    match ParsePayloadType(kind)
    case None => Err(UnknownPayloadKind)
    case Some(RuleType) => Ok(RulePayload(DecodeRule(s[..RULE_LEN])))
    case Some(SimRuleType) =>
      assert s[..SIM_RULE_LEN][SIM_RULE_TYPE_OFF..SIM_RULE_HEAD_LEN] ==
        s[SIM_RULE_TYPE_OFF..SIM_RULE_HEAD_LEN];
      match DecodeSimRule(s[..SIM_RULE_LEN])
      case Err(e) => Err(e)
      case Ok(r) => Ok(SimRulePayload(r))
  }

  /**
   * The frame of a message: every message, whichever arm it carries, is
   * exactly NLM_MSG_LEN bytes, and the bytes after the live arm are zero.
   */
  function Encode(m: NlMsg): (f: seq<byte>)
    requires m.WellSized()
    ensures |f| == NLM_MSG_LEN
    ensures forall i :: UsedLen(m) <= i < NLM_MSG_LEN ==> f[i] == 0
  {
    EncodeHeader(m) + EncodePayload(m.payload)
  }

  /** opcode, type, behavior, result: the four integers ahead of the payload. */
  function EncodeHeader(m: NlMsg): (h: seq<byte>)
    ensures |h| == HEADER_LEN
  {
    EncodeInt32(m.opcode.Code()) + EncodeInt32(m.payload.Kind().Code()) +
    EncodeInt32(m.behavior) + EncodeInt32(m.result)
  }

  /**
   * Frame to message. Fails with MalformedFrame on a frame whose length is
   * not NLM_MSG_LEN, with UnknownOpcode on an opcode outside 0..8, with
   * UnknownPayloadKind on a type other than RULE or SIM_RULE, and with
   * UnknownSimKind on a simple rule whose type is neither PGID nor COMM.
   */
  function Decode(f: seq<byte>): (r: Result<NlMsg>)
    ensures r == Err(MalformedFrame) <==> |f| != NLM_MSG_LEN
    ensures r.Ok? ==>
      && |f| == NLM_MSG_LEN && r.value.WellSized()
      && r.value.opcode.Code() == DecodeInt32(f[0..4])
      && r.value.payload.Kind().Code() == DecodeInt32(f[4..8])
      && r.value.behavior == DecodeInt32(f[8..12])
      && r.value.result == DecodeInt32(f[12..16])
  {
    if |f| != NLM_MSG_LEN then Err(MalformedFrame)
    else
      match ParseOpcode(DecodeInt32(f[0..4]))
      case None => Err(UnknownOpcode)
      case Some(op) =>
        match DecodePayload(DecodeInt32(f[4..8]), f[HEADER_LEN..])
        case Err(e) => Err(e)
        case Ok(p) => Ok(NlMsg(op, DecodeInt32(f[8..12]), DecodeInt32(f[12..16]), p))
  }

  lemma PayloadRoundTrip(p: Payload)
    requires p.WellSized()
    ensures DecodePayload(p.Kind().Code(), EncodePayload(p)) == Ok(p)
  {
    match p
    case RulePayload(r) => RulePayloadRoundTrip(r);
    case SimRulePayload(r) => SimRulePayloadRoundTrip(r);
  }

  lemma RulePayloadRoundTrip(r: Rule)
    requires r.WellSized()
    ensures DecodePayload(TYPE_RULE, EncodePayload(RulePayload(r))) == Ok(RulePayload(r))
  {
    var e := EncodePayload(RulePayload(r));
    assert e[..RULE_LEN] == EncodeRule(r);
    RuleRoundTrip(r);
  }

  lemma SimRulePayloadRoundTrip(r: SimRule)
    requires r.WellSized()
    ensures DecodePayload(TYPE_SIM_RULE, EncodePayload(SimRulePayload(r))) == Ok(SimRulePayload(r))
  {
    var e := EncodePayload(SimRulePayload(r));
    assert e[..SIM_RULE_LEN] == EncodeSimRule(r);
    SimRuleRoundTrip(r);
  }

  lemma HeaderRoundTrip(m: NlMsg)
    ensures var h := EncodeHeader(m);
      && DecodeInt32(h[0..4]) == m.opcode.Code()
      && DecodeInt32(h[4..8]) == m.payload.Kind().Code()
      && DecodeInt32(h[8..12]) == m.behavior
      && DecodeInt32(h[12..16]) == m.result
  {
    var h := EncodeHeader(m);
    assert h[0..4] == EncodeInt32(m.opcode.Code());
    assert h[4..8] == EncodeInt32(m.payload.Kind().Code());
    assert h[8..12] == EncodeInt32(m.behavior);
    assert h[12..16] == EncodeInt32(m.result);
  }

  /** The header fields and the payload of a frame built from its two parts. */
  lemma FrameParts(h: seq<byte>, p: seq<byte>)
    requires |h| == HEADER_LEN && |p| == PAYLOAD_LEN
    ensures var f := h + p;
      && f[0..4] == h[0..4] && f[4..8] == h[4..8]
      && f[8..12] == h[8..12] && f[12..16] == h[12..16]
      && f[HEADER_LEN..] == p
  {
  }

  /** Decoding the frame of a message gives back that message, field for field. */
  lemma RoundTrip(m: NlMsg)
    requires m.WellSized()
    ensures Decode(Encode(m)) == Ok(m)
  {
    var h, p := EncodeHeader(m), EncodePayload(m.payload);
    FrameParts(h, p);
    HeaderRoundTrip(m);
    PayloadRoundTrip(m.payload);
    assert Encode(m) == h + p;
  }

  lemma PrefixSlices(s: seq<byte>, t: seq<byte>, n: nat, a: nat, b: nat)
    requires n <= |s| && n <= |t| && s[..n] == t[..n] && a <= b <= n
    ensures s[a..b] == t[a..b]
  {
    assert forall k :: a <= k < b ==> s[k] == s[..n][k] == t[..n][k] == t[k];
  }

  lemma PayloadBytesRoundTrip(kind: int32, s: seq<byte>)
    requires |s| == PAYLOAD_LEN && DecodePayload(kind, s).Ok?
    ensures var p := DecodePayload(kind, s).value;
      EncodePayload(p)[..PayloadUsedLen(p)] == s[..PayloadUsedLen(p)]
  {
    var p := DecodePayload(kind, s).value;
    var e := EncodePayload(p);
    match p
    case RulePayload(r) =>
      RuleBytesRoundTrip(s[..RULE_LEN]);
      assert e[..RULE_LEN] == EncodeRule(r);
    case SimRulePayload(r) =>
      SimPayloadBytesRoundTrip(r, s);
  }

  lemma SimPayloadBytesRoundTrip(r: SimRule, s: seq<byte>)
    requires |s| == PAYLOAD_LEN && DecodeSimRule(s[..SIM_RULE_LEN]) == Ok(r)
    ensures var n := PayloadUsedLen(SimRulePayload(r));
      EncodePayload(SimRulePayload(r))[..n] == s[..n]
  {
    var e := EncodePayload(SimRulePayload(r));
    var n := SIM_RULE_HEAD_LEN + SimTabUsedLen(r.tab);
    SimRuleBytesRoundTrip(s[..SIM_RULE_LEN]);
    assert e[..SIM_RULE_LEN] == EncodeSimRule(r);
    assert e[..n] == EncodeSimRule(r)[..n];
    assert s[..n] == s[..SIM_RULE_LEN][..n];
  }

  lemma HeaderBytesRoundTrip(h: seq<byte>, m: NlMsg)
    requires |h| == HEADER_LEN
    requires m.opcode.Code() == DecodeInt32(h[0..4])
    requires m.payload.Kind().Code() == DecodeInt32(h[4..8])
    requires m.behavior == DecodeInt32(h[8..12]) && m.result == DecodeInt32(h[12..16])
    ensures EncodeHeader(m) == h
  {
    EncodeOfDecodeInt32(h[0..4]);
    EncodeOfDecodeInt32(h[4..8]);
    EncodeOfDecodeInt32(h[8..12]);
    EncodeOfDecodeInt32(h[12..16]);
    assert h == h[0..4] + h[4..8] + h[8..12] + h[12..16];
  }

  /** A prefix of a frame is its header followed by a prefix of its payload. */
  lemma SplitPrefix(f: seq<byte>, n: nat)
    requires HEADER_LEN <= n <= |f|
    ensures f[..n] == f[..HEADER_LEN] + f[HEADER_LEN..][..n - HEADER_LEN]
  {
  }

  /**
   * Re-encoding a decoded frame reproduces every byte the message uses: a
   * frame loses nothing in decoding except the padding after the live arm.
   */
  lemma ReencodeAgrees(f: seq<byte>)
    requires Decode(f).Ok?
    ensures var m := Decode(f).value;
      |f| == NLM_MSG_LEN && Encode(m)[..UsedLen(m)] == f[..UsedLen(m)]
  {
    var m := Decode(f).value;
    var e := Encode(m);
    var n := UsedLen(m);
    var h := f[..HEADER_LEN];
    assert h[0..4] == f[0..4] && h[4..8] == f[4..8];
    assert h[8..12] == f[8..12] && h[12..16] == f[12..16];
    HeaderBytesRoundTrip(h, m);
    assert e[..HEADER_LEN] == EncodeHeader(m);
    assert e[HEADER_LEN..] == EncodePayload(m.payload);
    PayloadBytesRoundTrip(DecodeInt32(f[4..8]), f[HEADER_LEN..]);
    SplitPrefix(e, n);
    SplitPrefix(f, n);
  }

  lemma DecodePayloadReadsUsedBytes(kind: int32, s: seq<byte>, t: seq<byte>)
    requires |s| == |t| == PAYLOAD_LEN && DecodePayload(kind, s).Ok?
    requires var n := PayloadUsedLen(DecodePayload(kind, s).value); s[..n] == t[..n]
    ensures DecodePayload(kind, t) == DecodePayload(kind, s)
  {
    var p := DecodePayload(kind, s).value;
    var n := PayloadUsedLen(p);
    match p
    case RulePayload(_) =>
      PrefixSlices(s, t, n, 0, RULE_LEN);
      assert s[..RULE_LEN] == s[0..RULE_LEN];
      assert t[..RULE_LEN] == t[0..RULE_LEN];
    case SimRulePayload(r) =>
      var a, b := s[..SIM_RULE_LEN], t[..SIM_RULE_LEN];
      assert a[..n] == s[..n] && b[..n] == t[..n];
      PrefixSlices(a, b, n, 0, SIM_RULE_NAME_OFF);
      PrefixSlices(a, b, n, SIM_RULE_NAME_OFF, SIM_RULE_TYPE_OFF);
      PrefixSlices(a, b, n, SIM_RULE_TYPE_OFF, SIM_RULE_HEAD_LEN);
      match r.tab
      case PgidTab(_) =>
        PrefixSlices(a, b, n, SIM_RULE_HEAD_LEN, n);
        assert a[SIM_RULE_HEAD_LEN..][..SIM_PGID_TAB_LEN] == a[SIM_RULE_HEAD_LEN..n];
        assert b[SIM_RULE_HEAD_LEN..][..SIM_PGID_TAB_LEN] == b[SIM_RULE_HEAD_LEN..n];
      case CommTab(_) =>
        PrefixSlices(s, t, n, 0, SIM_RULE_LEN);
        assert a == b;
  }

  /**
   * Decoding never depends on bytes outside the arm the discriminants
   * select: two frames that agree on the bytes a decoded message uses
   * decode to the same message.
   */
  lemma DecodeReadsOnlyUsedBytes(f: seq<byte>, g: seq<byte>)
    requires Decode(f).Ok? && |g| == |f|
    requires var n := UsedLen(Decode(f).value); g[..n] == f[..n]
    ensures Decode(g) == Decode(f)
  {
    var m := Decode(f).value;
    var n := UsedLen(m);
    PrefixSlices(f, g, n, 0, 4);
    PrefixSlices(f, g, n, 4, 8);
    PrefixSlices(f, g, n, 8, 12);
    PrefixSlices(f, g, n, 12, 16);
    var pn := PayloadUsedLen(m.payload);
    PrefixSlices(f, g, n, HEADER_LEN, n);
    assert f[HEADER_LEN..][..pn] == f[HEADER_LEN..n];
    assert g[HEADER_LEN..][..pn] == g[HEADER_LEN..n];
    DecodePayloadReadsUsedBytes(DecodeInt32(f[4..8]), f[HEADER_LEN..], g[HEADER_LEN..]);
  }

  /**
   * The three discriminants are checked in order; each unknown value is
   * reported by its own error, and the payload type selects the arm.
   */
  lemma DecodeRejects(f: seq<byte>)
    requires |f| == NLM_MSG_LEN
    ensures Decode(f) == Err(UnknownOpcode) <==> ParseOpcode(DecodeInt32(f[0..4])).None?
    ensures ParseOpcode(DecodeInt32(f[0..4])).Some? ==>
      (Decode(f) == Err(UnknownPayloadKind) <==> ParsePayloadType(DecodeInt32(f[4..8])).None?)
    ensures (ParseOpcode(DecodeInt32(f[0..4])).Some? && DecodeInt32(f[4..8]) == TYPE_RULE) ==>
      Decode(f).Ok? && Decode(f).value.payload.RulePayload?
    ensures (ParseOpcode(DecodeInt32(f[0..4])).Some? && DecodeInt32(f[4..8]) == TYPE_SIM_RULE) ==>
      if ParseSimKind(DecodeInt32(f[HEADER_LEN + SIM_RULE_TYPE_OFF..HEADER_LEN + SIM_RULE_HEAD_LEN])).None?
      then Decode(f) == Err(UnknownSimKind)
      else Decode(f).Ok? && Decode(f).value.payload.SimRulePayload?
  {
    assert f[HEADER_LEN..][SIM_RULE_TYPE_OFF..SIM_RULE_HEAD_LEN] ==
      f[HEADER_LEN + SIM_RULE_TYPE_OFF..HEADER_LEN + SIM_RULE_HEAD_LEN];
  }

  /**
   * Well-formedness read straight off a frame's bytes: the action that opens
   * either payload arm, the packet table of a full rule, and the result of
   * an ACK, each within the header's constants.
   */
  predicate FrameWellFormed(f: seq<byte>)
    requires |f| == NLM_MSG_LEN
  {
    var p := f[HEADER_LEN..];
    var pkt := p[RULE_PKT_OFF..RULE_LUM_OFF];
    && RULE_ACTION_ALLOW <= DecodeInt32(p[0..4]) <= RULE_ACTION_DROP
    && (DecodeInt32(f[4..8]) == TYPE_RULE && DecodeInt32(pkt[0..4]) == TAB_VALID ==>
          && PKT_TAB_TYPE_ISO <= DecodeInt32(pkt[4..8]) <= PKT_TAB_TYPE_BULK
          && PKT_TAB_DIR_OUT <= DecodeInt32(pkt[8..12]) <= PKT_TAB_DIR_IN)
    && (DecodeInt32(f[0..4]) == OPC_ACK ==> RES_FAILURE <= DecodeInt32(f[12..16]) <= RES_LAST)
  }

  /** A decoded message is well formed exactly when its frame's bytes say so. */
  lemma DecodedWellFormed(f: seq<byte>)
    requires Decode(f).Ok?
    ensures |f| == NLM_MSG_LEN && (Decode(f).value.WellFormed() <==> FrameWellFormed(f))
  {
    var m := Decode(f).value;
    var p := f[HEADER_LEN..];
    WellFormedMeaning(m);
    OpcodesAreDistinct(m.opcode, Ack);
    match m.payload
    case RulePayload(r) =>
      var s := p[..RULE_LEN];
      assert r == DecodeRule(s);
      assert s[0..RULE_NAME_OFF] == p[0..4];
      assert s[RULE_PKT_OFF..RULE_LUM_OFF] == p[RULE_PKT_OFF..RULE_LUM_OFF];
    case SimRulePayload(r) =>
      var s := p[..SIM_RULE_LEN];
      assert DecodeSimRule(s) == Ok(r);
      assert s[0..SIM_RULE_NAME_OFF] == p[0..4];
  }
}
