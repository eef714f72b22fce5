/**
 * The process-wide NLM message queue: storage for NLM_QUEUE_MSG_NUM frames of
 * NLM_MSG_LEN bytes each, filled in arrival order (for instance while the
 * kernel streams a dump) and read back by index. Slot i occupies bytes
 * [i * NLM_MSG_LEN, (i + 1) * NLM_MSG_LEN) of the storage.
 */
module Queue {
  import opened IntTypes
  import opened Protocol
  import opened Codec

  const NLM_QUEUE_MSG_NUM: nat := 10
  /** Bytes of backing storage: exactly NLM_QUEUE_MSG_NUM frames. */
  const NLM_QUEUE_SIZE: nat := NLM_MSG_LEN * NLM_QUEUE_MSG_NUM

  /** The raw bytes of one message, as the kernel sends it. */
  type Frame = s: seq<byte> | |s| == NLM_MSG_LEN witness Zeros(NLM_MSG_LEN)

  class NlmQueue {
    var storage: array<byte>
    var count: nat

    ghost predicate Valid()
      reads this
    {
      storage.Length == NLM_QUEUE_SIZE && count <= NLM_QUEUE_MSG_NUM
    }

    /** The frame held in slot i. */
    function Slot(i: nat): (f: Frame)
      requires Valid() && i < NLM_QUEUE_MSG_NUM
      reads this, storage
    {
      storage[i * NLM_MSG_LEN .. (i + 1) * NLM_MSG_LEN]
    }

    /** The queued frames, oldest first. */
    ghost function Contents(): (q: seq<Frame>)
      requires Valid()
      reads this, storage
      ensures |q| == count <= NLM_QUEUE_MSG_NUM
    {
      seq(count, i requires 0 <= i < count && Valid() reads this, storage => Slot(i))
    }

    /** The storage exists before any call, zero-filled and holding no message. */
    constructor ()
      ensures Valid() && fresh(storage) && Contents() == []
    {
      storage := new byte[NLM_QUEUE_SIZE](_ => 0);
      count := 0;
    }

    /** nlm_init_queue: (re)establishes an empty queue over the same storage. */
    method Init()
      requires Valid()
      modifies this
      ensures Valid() && storage == old(storage) && Contents() == []
    {
      count := 0;
    }

    /**
     * nlm_add_msg_queue: appends a frame at the tail. Fails exactly when the
     * queue already holds NLM_QUEUE_MSG_NUM frames; the count never exceeds it.
     */
    method Add(msg: Frame) returns (ok: bool)
      requires Valid()
      modifies this, storage
      ensures Valid() && storage == old(storage)
      ensures ok <==> old(count) < NLM_QUEUE_MSG_NUM
      ensures ok ==> Contents() == old(Contents()) + [msg]
      ensures !ok ==> count == NLM_QUEUE_MSG_NUM
    {
      if count == NLM_QUEUE_MSG_NUM {
        return false;
      }
      WriteSlot(count, msg);
      ghost var before := old(Contents());
      count := count + 1;
      forall i | 0 <= i < count - 1
        ensures Slot(i) == before[i]
      {
        assert (i + 1) * NLM_MSG_LEN <= (count - 1) * NLM_MSG_LEN;
        assert Slot(i) == old(Slot(i));
      }
      assert Contents() == before + [msg];
      ok := true;
    }

    /** Copies a frame into slot i, leaving every byte before the slot alone. */
    method WriteSlot(i: nat, msg: Frame)
      requires Valid() && i < NLM_QUEUE_MSG_NUM
      modifies storage
      ensures Slot(i) == msg
      ensures forall k :: 0 <= k < i * NLM_MSG_LEN ==> storage[k] == old(storage[k])
    {
      var base := i * NLM_MSG_LEN;
      assert base + NLM_MSG_LEN <= storage.Length;
      for j := 0 to NLM_MSG_LEN
        invariant storage[base .. base + j] == msg[..j]
        invariant forall k :: 0 <= k < base ==> storage[k] == old(storage[k])
      {
        storage[base + j] := msg[j];
      }
    }

    /** nlm_clear_all_msg_queue: drops every queued frame, whatever the prior state. */
    method ClearAll()
      requires Valid()
      modifies this
      ensures Valid() && storage == old(storage) && Contents() == []
    {
      count := 0;
    }

    /** nlm_get_msg_num_queue */
    method GetMsgNum() returns (n: int)
      requires Valid()
      ensures n == |Contents()| && 0 <= n <= NLM_QUEUE_MSG_NUM
    {
      n := count;
    }

    /**
     * nlm_get_msg_queue: the frame at position `index` in arrival order, read
     * from slot `index`; nothing when index is negative or not below the count.
     */
    method GetMsg(index: int) returns (r: Option<Frame>)
      requires Valid()
      ensures 0 <= index < |Contents()| ==>
        r == Some(Contents()[index]) &&
        r.value == storage[index * NLM_MSG_LEN .. (index + 1) * NLM_MSG_LEN]
      ensures !(0 <= index < |Contents()|) ==> r == None
    {
      if 0 <= index < count {
        r := Some(Slot(index));
      } else {
        r := None;
      }
    }
  }
}
