# usbfilter netlink messages and message queue, in Dafny

A model of `usbtables/nlm.h`, the userspace side of the netlink protocol that
the usbfilter agent uses to install, delete, synchronise and dump USB
access-control rules in the kernel filter, and to stage the kernel's replies.

The header declares three things, and the model follows them module by module:

- **Constants and enumerations** (`protocol.dfy`, module `Protocol`): the
  fixed text widths, the packet type and direction codes, the rule actions,
  the nine opcodes INIT..ACK, the result codes SUCCESS/FAILURE/LAST and the
  two union discriminants. Each enumeration is a datatype whose `Code()` is
  the wire integer; its `Parse…` function is the inverse and rejects every
  other integer.
- **The structures** (`tables.dfy`, module `Tables`): `proc_tab`, `dev_tab`,
  `pkt_tab`, `lum_tab`, `usbfilter_rule`, `usbfilter_sim_rule` (with
  `sim_pgid_tab` / `sim_comm_tab`) and `usbfilter_nlmsg` as datatypes. The two
  C unions become tagged variants (`SimTab`, `Payload`): the `type` field is
  not stored but derived from the live arm (`Kind()`), so exactly one arm is
  ever meaningful. `WellSized()` states the declared fixed widths (16 bytes
  for `comm` and `devpath`, 32 for `product`, `manufacturer`, `serial`, the
  lum name and the rule name; exactly 16 pgid or command-name slots);
  `WellFormed()` adds that the action is ALLOW or DROP, that an active packet
  table has a defined type and direction, and that an ACK carries a defined
  result code. The kernel pointer `mod` is an opaque 64-bit handle that is
  carried and never dereferenced. Signed fields (`int`, `pid_t`) are `int32`,
  `uid_t`/`gid_t` are `uint32` (their Linux widths).
- **The frame** (`int_types.dfy` and `codec.dfy`, modules `IntTypes` and
  `Codec`): every message occupies the single length `NLM_MSG_LEN`
  (`sizeof(nlmsgt)`): opcode, type, behavior and result, then the payload
  union, as wide as its larger arm and zero-padded after the smaller one.
  `Decode` checks the length and the three discriminants (opcode, payload
  type, simple-rule type) and reads only the bytes of the arm they select.
  Proved: decoding an encoded message gives it back; re-encoding a decoded
  frame reproduces every byte the message uses; decoding ignores every byte
  outside the selected arm; a decoded message is well formed exactly when
  the frame's action, packet-table and result bytes lie within the header's
  constants. Field offsets are named constants built from the widths.
- **The queue** (`queue.dfy`, module `Queue`): class `NlmQueue` over a byte
  array of exactly `NLM_QUEUE_SIZE = NLM_MSG_LEN * NLM_QUEUE_MSG_NUM` bytes
  and a `count`. Slot i is bytes `[i * NLM_MSG_LEN, (i + 1) * NLM_MSG_LEN)`.
  `Contents()` is the sequence of queued frames, oldest first, and never
  longer than `NLM_QUEUE_MSG_NUM = 10`. The queue stores raw frames, as
  `nlm_add_msg_queue` copies raw message bytes; `Codec.Decode` turns a
  stored frame back into a message, and the lemma `Codec.RoundTrip` proves
  that this gives back the message that was encoded into the frame.

The header contains declarations only, so the operations' contracts say what
the declarations, constants and comments fix and no more.

## Model

| member | source | states |
|---|---|---|
| `Protocol.ParseOpcode` | usbtables/nlm.h:33-41 | an integer is an opcode exactly when it lies in INIT..ACK (0..8), and the parsed opcode's code is that integer |
| `Protocol.OpcodesAreDistinct` | usbtables/nlm.h:33-41 | the nine opcodes have nine distinct codes, all in 0..8, each parsed back to itself |
| `Protocol.ParseResultCode` | usbtables/nlm.h:42-44 | an integer is a result code exactly when it is FAILURE (-1), SUCCESS (0) or LAST (1) |
| `Protocol.ResultCodesAreDistinct` | usbtables/nlm.h:42-44 | SUCCESS, FAILURE and LAST are pairwise distinct codes, each parsed back to itself |
| `Protocol.ParsePktType` | usbtables/nlm.h:21-24 | a packet type is exactly one of ISO, INT, CTRL, BULK (0..3) |
| `Protocol.ParsePktDir` | usbtables/nlm.h:25-26 | a direction is exactly OUT (0) or IN (1) |
| `Protocol.ParseAction` | usbtables/nlm.h:30-31 | a rule action is exactly ALLOW (0) or DROP (1) |
| `Protocol.ParsePayloadType` | usbtables/nlm.h:45-46 | the message type is exactly RULE (0) or SIM_RULE (1) |
| `Protocol.ParseSimKind` | usbtables/nlm.h:47-48 | the simple-rule type is exactly PGID (0) or COMM (1) |
| `Tables.WellFormedMeaning` | usbtables/nlm.h:21-31 | a message is well formed exactly when it is well sized, its action is ALLOW or DROP, an active packet table has type ISO..BULK and direction OUT or IN, and an ACK carries FAILURE, SUCCESS or LAST |
| `IntTypes.FromLEOfToLE` | usbtables/nlm.h:133-136 | reading back the little-endian bytes of a value gives the value |
| `IntTypes.ToLEOfFromLE` | usbtables/nlm.h:133-136 | every byte string is the encoding of the value it reads as |
| `IntTypes.EncodeInt32` | usbtables/nlm.h:133-136 | a signed 32-bit field takes 4 bytes and decodes back to itself |
| `IntTypes.EncodeOfDecodeInt32` | usbtables/nlm.h:133-136 | every 4-byte string is the encoding of the signed value it decodes to |
| `IntTypes.EncodeUInt32` | usbtables/nlm.h:62-65 | a `uid_t`/`gid_t` field takes 4 bytes and decodes back to itself |
| `IntTypes.EncodeOfDecodeUInt32` | usbtables/nlm.h:62-65 | every 4-byte string is the encoding of the unsigned value it decodes to |
| `IntTypes.EncodeUInt64` | usbtables/nlm.h:117 | the opaque `mod` handle takes 8 bytes and decodes back to itself |
| `IntTypes.EncodeOfDecodeUInt64` | usbtables/nlm.h:117 | every 8-byte string is the encoding of the handle it decodes to |
| `Codec.Int32sRoundTrip` | usbtables/nlm.h:70-72 | the pgid slots decode back from their bytes |
| `Codec.Int32sBytesRoundTrip` | usbtables/nlm.h:70-72 | pgid-slot bytes are reproduced by re-encoding what they decode to |
| `Codec.FlattenLength` | usbtables/nlm.h:75-77 | command-name slots of 16 bytes each occupy 16 bytes per slot |
| `Codec.Split` | usbtables/nlm.h:75-77 | cutting bytes into command-name slots yields slots of exactly 16 bytes covering all the bytes |
| `Codec.SplitFlatten` | usbtables/nlm.h:75-77 | command-name slots come back unchanged from their concatenation |
| `Codec.FlattenSplit` | usbtables/nlm.h:75-77 | concatenating the cut slots gives back the original bytes |
| `Codec.EncodeProcTab` | usbtables/nlm.h:57-67 | a process table's fields, in declaration order, take PROC_TAB_LEN = 48 bytes |
| `Codec.DecodeProcTab` | usbtables/nlm.h:57-67 | a decoded process table has a 16-byte `comm` |
| `Codec.ProcTabRoundTrip` | usbtables/nlm.h:57-67 | a process table decodes back from its bytes, field for field |
| `Codec.ProcTabBytesRoundTrip` | usbtables/nlm.h:57-67 | process-table bytes are reproduced by re-encoding what they decode to |
| `Codec.EncodeDevTab` | usbtables/nlm.h:80-90 | a device table's fields, in declaration order, take DEV_TAB_LEN = 132 bytes |
| `Codec.DecodeDevTab` | usbtables/nlm.h:80-90 | a decoded device table has 16-byte `devpath` and 32-byte `product`, `manufacturer`, `serial` |
| `Codec.DevTabRoundTrip` | usbtables/nlm.h:80-90 | a device table decodes back from its bytes |
| `Codec.DevTabBytesRoundTrip` | usbtables/nlm.h:80-90 | device-table bytes are reproduced by re-encoding what they decode to |
| `Codec.EncodePktTab` | usbtables/nlm.h:95-101 | a packet table's five integers take PKT_TAB_LEN = 20 bytes |
| `Codec.DecodePktTab` | usbtables/nlm.h:95-101 | a decoded packet table is well formed exactly when, if its `valid` bytes read TAB_VALID, its type bytes read ISO..BULK and its direction bytes OUT or IN |
| `Codec.PktTabRoundTrip` | usbtables/nlm.h:95-101 | a packet table decodes back from its bytes |
| `Codec.PktTabBytesRoundTrip` | usbtables/nlm.h:95-101 | packet-table bytes are reproduced by re-encoding what they decode to |
| `Codec.EncodeLumTab` | usbtables/nlm.h:104-107 | a lum table's `valid` flag and 32-byte name take LUM_TAB_LEN = 36 bytes |
| `Codec.DecodeLumTab` | usbtables/nlm.h:104-107 | a decoded lum table has a 32-byte name |
| `Codec.LumTabRoundTrip` | usbtables/nlm.h:104-107 | a lum table decodes back from its bytes |
| `Codec.LumTabBytesRoundTrip` | usbtables/nlm.h:104-107 | lum-table bytes are reproduced by re-encoding what they decode to |
| `Codec.EncodeRule` | usbtables/nlm.h:110-118 | a rule's fields, in declaration order, take RULE_LEN = 280 bytes |
| `Codec.DecodeRule` | usbtables/nlm.h:110-118 | a decoded rule has every declared fixed width |
| `Codec.RuleRoundTrip` | usbtables/nlm.h:110-118 | a full rule, including its opaque `mod` handle, decodes back from its bytes |
| `Codec.RuleBytesRoundTrip` | usbtables/nlm.h:110-118 | rule bytes are reproduced by re-encoding what they decode to |
| `Codec.EncodeSimTab` | usbtables/nlm.h:125-128 | the table union is as wide as its larger arm, and the bytes after the pgid arm are zero |
| `Codec.DecodeSimTab` | usbtables/nlm.h:125-128 | the decoded arm is the one the simple-rule type selects, with exactly 16 slots |
| `Codec.SimTabRoundTrip` | usbtables/nlm.h:125-128 | either arm of the table union decodes back from its bytes |
| `Codec.SimTabBytesRoundTrip` | usbtables/nlm.h:125-128 | the bytes the selected arm uses are reproduced by re-encoding |
| `Codec.EncodeSimRule` | usbtables/nlm.h:121-129 | a simple rule's action, name, type and table union take SIM_RULE_LEN = 296 bytes |
| `Codec.DecodeSimRule` | usbtables/nlm.h:121-129 | a simple rule decodes exactly when its type is PGID or COMM, otherwise fails with UnknownSimKind; a decoded one is well sized |
| `Codec.SimRuleRoundTrip` | usbtables/nlm.h:121-129 | a simple rule decodes back from its bytes |
| `Codec.SimRuleBytesRoundTrip` | usbtables/nlm.h:121-129 | re-encoding a decoded simple rule reproduces every byte its live arm uses |
| `Codec.EncodePayload` | usbtables/nlm.h:137-140 | the payload union has one width whichever arm is live, and is zero after the live arm |
| `Codec.DecodePayload` | usbtables/nlm.h:137-140 | the decoded arm is the one `type` selects; any other `type` fails with UnknownPayloadKind |
| `Codec.Encode` | usbtables/nlm.h:145-148 | every message occupies exactly NLM_MSG_LEN bytes, zero after the bytes it uses |
| `Codec.Decode` | usbtables/nlm.h:132-141 | a frame of the wrong length fails with MalformedFrame; a decoded message is well sized and its opcode, type, behavior and result are the frame's header integers |
| `Codec.DecodeRejects` | usbtables/nlm.h:132-141 | an opcode outside 0..8 fails with UnknownOpcode, a type outside RULE/SIM_RULE with UnknownPayloadKind; type RULE yields the rule arm, type SIM_RULE the simple-rule arm or UnknownSimKind |
| `Codec.EncodeHeader` | usbtables/nlm.h:133-136 | opcode, type, behavior and result take the first HEADER_LEN = 16 bytes of a frame |
| `Codec.HeaderRoundTrip` | usbtables/nlm.h:133-136 | the four header integers decode back from their bytes |
| `Codec.PayloadRoundTrip` | usbtables/nlm.h:137-140 | the payload union decodes back under its own type |
| `Codec.RoundTrip` | usbtables/nlm.h:132-141 | decoding the frame of any well-sized message gives back that message |
| `Codec.ReencodeAgrees` | usbtables/nlm.h:132-141 | re-encoding a decoded frame reproduces every byte the message uses |
| `Codec.DecodeReadsOnlyUsedBytes` | usbtables/nlm.h:137-140 | frames that agree on the bytes of the selected arm decode to the same message: unselected-arm bytes are never read |
| `Codec.DecodedWellFormed` | usbtables/nlm.h:132-141 | a decoded message is well formed exactly when the frame's action, packet-table and ACK-result bytes lie within the header's constants |
| `Queue.NlmQueue.Contents` | usbtables/nlm.h:149-150 | the queue never holds more than NLM_QUEUE_MSG_NUM = 10 frames |
| `Queue.NlmQueue.constructor` | usbtables/nlm.h:150 | the storage is exactly NLM_QUEUE_SIZE bytes and holds no message |
| `Queue.NlmQueue.Init` | usbtables/nlm.h:162-163 | after init the queue is empty over the same storage |
| `Queue.NlmQueue.Add` | usbtables/nlm.h:165-166 | succeeds exactly when fewer than 10 frames are queued, and then appends the frame at the tail; on failure the count stays 10 |
| `Queue.NlmQueue.ClearAll` | usbtables/nlm.h:168-169 | after clearing, from any state, the queue is empty |
| `Queue.NlmQueue.GetMsgNum` | usbtables/nlm.h:171-172 | returns the number of queued frames, between 0 and 10 |
| `Queue.NlmQueue.GetMsg` | usbtables/nlm.h:174-175 | for 0 <= index < count returns the index-th frame in arrival order, which is bytes [index * NLM_MSG_LEN, (index + 1) * NLM_MSG_LEN) of the storage; nothing otherwise |

## Left out

- `nlm_display_msg`, `nlm_display_uchar` and `NLM_UCHAR_NUM_PER_LINE`: printing only.
- The `USBFILTER_MBM_*` micro-benchmark macro: wall-clock arithmetic with no protocol meaning.
- `USBFILTER_NETLINK` and the netlink socket itself: transport I/O outside this header.
- `USBFILTER_CONFIG_DMP_NAME`: a file name used by tooling.
- Rule matching and enforcement: the header only declares the `valid` flags (`Active()` in the model); the matching logic lives in the kernel and is not part of this model.
- Locking around the process-wide queue: concurrency is out of scope; every operation is modelled as one atomic step.
- Exact C byte layout: the frame is a model layout (fields in declaration order, 4-byte little-endian integers, an 8-byte `mod` handle, no struct padding), which gives NLM_MSG_LEN = 312. The real `sizeof(nlmsgt)` depends on the platform's padding, pointer width and endianness; only the fixed field widths and the single frame length are taken from the header.
- Decode errors: the header declares no decoder, so the error cases are the model's own. `Codec.Decode` reports a wrong frame length (MalformedFrame), an unknown opcode (UnknownOpcode) and an unknown message `type` (UnknownPayloadKind); since the simple rule's own `type` field (usbtables/nlm.h:124) is a second discriminant, an unknown value there gets its own error, UnknownSimKind, instead of being folded into UnknownPayloadKind.
- `behavior` is carried as a raw integer: the header defines no values for it.
- Which payload each opcode requires, and whether DEL matches by name: the header does not say.
- Queue.NlmQueue.Add: on a full queue the contract promises only that the call fails and the count stays at 10, not whether the queued frames are kept; the header does not say whether the new message is dropped or overwrites one.
- Queue.NlmQueue.GetMsg: returns a copy of the slot's bytes, whereas the C function returns a pointer into the queue storage; writes through that pointer (aliasing) are not modelled. The C return for an out-of-range index is not declared; the model returns nothing.
- Queue.NlmQueue.Init: the header does not say whether initialisation also clears the storage bytes; the model only resets the count, which already makes every slot unreachable.
