/**
 * The `MsgDeliverInbound` message of the swingset chain module: a batch of
 * mailbox messages from one peer, each numbered, with the acknowledgement
 * number of the batch and the account that submits it.  `ValidateBasic`
 * runs the stateless checks every such message must pass before it is
 * handled.
 */
module DeliverInbound {
  import opened Wrappers

  /** An account address: its bytes.  The only property used here is
      whether it is empty. */
  type AccAddress = seq<bv8>

  /** A Go slice, which may be nil; a nil slice has length zero and ranges
      over nothing, like an empty one. */
  datatype GoSlice<T> = Nil | Made(elems: seq<T>)

  function Elems<T>(s: GoSlice<T>): seq<T> {
    match s
    case Nil => []
    case Made(elems) => elems
  }

  datatype MsgDeliverInbound = MsgDeliverInbound(
    peer: string,
    messages: GoSlice<string>,
    nums: GoSlice<int>,
    ack: int,
    submitter: AccAddress)

  /** The mailbox contents a message is made from. */
  datatype Messages = Messages(messages: GoSlice<string>, nums: GoSlice<int>, ack: int)

  /** The module's name, which is also its router key. */
  const MODULE_NAME: string := "swingset"
  const ROUTER_KEY: string := MODULE_NAME

  /** The SDK errors `ValidateBasic` wraps: an invalid address, carrying the
      offending address, or an unknown request with its reason. */
  datatype ValidationError = InvalidAddress(addr: AccAddress) | UnknownRequest(reason: string)

  const PEER_EMPTY: string := "Peer cannot be empty"
  const LENGTH_MISMATCH: string := "Messages and Nums must be the same length"
  const MESSAGE_EMPTY: string := "Messages cannot be empty"
  const NUM_NEGATIVE: string := "Nums cannot be negative"
  const ACK_NEGATIVE: string := "Ack cannot be negative"

  function NewMsgDeliverInbound(peer: string, msgs: Messages, submitter: AccAddress): (r: MsgDeliverInbound)
    ensures r.peer == peer && r.submitter == submitter
    ensures r.messages == msgs.messages && r.nums == msgs.nums && r.ack == msgs.ack
  {
    MsgDeliverInbound(peer, msgs.messages, msgs.nums, msgs.ack, submitter)
  }

  /** The module the message is routed to. */
  function Route(msg: MsgDeliverInbound): (r: string)
    ensures r == MODULE_NAME
  {
    ROUTER_KEY
  }

  /** The message's action name. */
  function Type(msg: MsgDeliverInbound): (r: string)
    ensures r == "deliver"
  {
    "deliver"
  }

  /** The one account that must sign: the submitter. */
  function GetSigners(msg: MsgDeliverInbound): (r: seq<AccAddress>)
    ensures |r| == 1 && r[0] == msg.submitter
  {
    [msg.submitter]
  }

  /* ---------------- validation ---------------- */

  /** The first bad entry from index `i` on: an empty message, or else a
      negative number, at the lowest index that has one. */
  function EntryFault(messages: seq<string>, nums: seq<int>, i: nat): Option<ValidationError>
    requires |messages| == |nums| && i <= |nums|
    decreases |nums| - i
  {
    if i == |nums| then None
    else if |messages[i]| == 0 then Some(UnknownRequest(MESSAGE_EMPTY))
    else if nums[i] < 0 then Some(UnknownRequest(NUM_NEGATIVE))
    else EntryFault(messages, nums, i + 1)
  }

  /** What `ValidateBasic` returns: `None` for nil, otherwise the error of
      the first check that fails, in the order submitter, peer, lengths,
      entries, ack. */
  function Validation(msg: MsgDeliverInbound): Option<ValidationError> {
    var messages, nums := Elems(msg.messages), Elems(msg.nums);
    if |msg.submitter| == 0 then Some(InvalidAddress(msg.submitter))
    else if |msg.peer| == 0 then Some(UnknownRequest(PEER_EMPTY))
    else if |messages| != |nums| then Some(UnknownRequest(LENGTH_MISMATCH))
    else
      match EntryFault(messages, nums, 0)
      case Some(e) => Some(e)
      case None => if msg.ack < 0 then Some(UnknownRequest(ACK_NEGATIVE)) else None
  }

  method ValidateBasic(msg: MsgDeliverInbound) returns (err: Option<ValidationError>)
    ensures err == Validation(msg)
  {
    if |msg.submitter| == 0 {
      return Some(InvalidAddress(msg.submitter));
    }
    if |msg.peer| == 0 {
      return Some(UnknownRequest(PEER_EMPTY));
    }
    var messages, nums := Elems(msg.messages), Elems(msg.nums);
    if |messages| != |nums| {
      return Some(UnknownRequest(LENGTH_MISMATCH));
    }
    var i := 0;
    while i < |nums|
      invariant 0 <= i <= |nums|
      invariant EntryFault(messages, nums, i) == EntryFault(messages, nums, 0)
    {
      if |messages[i]| == 0 {
        return Some(UnknownRequest(MESSAGE_EMPTY));
      }
      if nums[i] < 0 {
        return Some(UnknownRequest(NUM_NEGATIVE));
      }
      i := i + 1;
    }
    if msg.ack < 0 {
      return Some(UnknownRequest(ACK_NEGATIVE));
    }
    return None;
  }

  /** An entry every check accepts. */
  predicate GoodEntry(messages: seq<string>, nums: seq<int>, i: nat)
    requires i < |messages| && i < |nums|
  {
    |messages[i]| > 0 && nums[i] >= 0
  }

  /** The conditions a well-formed message meets, all at once. */
  predicate WellFormed(msg: MsgDeliverInbound) {
    var messages, nums := Elems(msg.messages), Elems(msg.nums);
    |msg.submitter| > 0 && |msg.peer| > 0 && |messages| == |nums| &&
    (forall i :: 0 <= i < |nums| ==> GoodEntry(messages, nums, i)) &&
    msg.ack >= 0
  }

  /** The loop's fault names the lowest bad entry from `i` on, and there is
      none exactly when every entry from `i` on is good. */
  lemma {:induction false} EntryFaultFirst(messages: seq<string>, nums: seq<int>, i: nat)
    requires |messages| == |nums| && i <= |nums|
    ensures EntryFault(messages, nums, i).None? <==> forall k :: i <= k < |nums| ==> GoodEntry(messages, nums, k)
    ensures EntryFault(messages, nums, i).Some? ==>
      exists k :: i <= k < |nums| && !GoodEntry(messages, nums, k) &&
        (forall j :: i <= j < k ==> GoodEntry(messages, nums, j)) &&
        EntryFault(messages, nums, i) ==
          Some(UnknownRequest(if |messages[k]| == 0 then MESSAGE_EMPTY else NUM_NEGATIVE))
    decreases |nums| - i
  {
    if i < |nums| && GoodEntry(messages, nums, i) {
      EntryFaultFirst(messages, nums, i + 1);
      if EntryFault(messages, nums, i + 1).Some? {
        var k :| i + 1 <= k < |nums| && !GoodEntry(messages, nums, k) &&
          (forall j :: i + 1 <= j < k ==> GoodEntry(messages, nums, j)) &&
          EntryFault(messages, nums, i + 1) ==
            Some(UnknownRequest(if |messages[k]| == 0 then MESSAGE_EMPTY else NUM_NEGATIVE));
        assert forall j :: i <= j < k ==> GoodEntry(messages, nums, j);
      }
    }
  }

  /** `ValidateBasic` returns nil exactly for well-formed messages. */
  lemma ValidIff(msg: MsgDeliverInbound)
    ensures Validation(msg).None? <==> WellFormed(msg)
  {
    var messages, nums := Elems(msg.messages), Elems(msg.nums);
    if |messages| == |nums| {
      EntryFaultFirst(messages, nums, 0);
    }
  }

  /** The checks run in a fixed order, and the first that fails decides. */
  lemma CheckOrder(msg: MsgDeliverInbound)
    ensures |msg.submitter| == 0 ==> Validation(msg) == Some(InvalidAddress(msg.submitter))
    ensures |msg.submitter| > 0 && |msg.peer| == 0 ==> Validation(msg) == Some(UnknownRequest(PEER_EMPTY))
    ensures |msg.submitter| > 0 && |msg.peer| > 0 && |Elems(msg.messages)| != |Elems(msg.nums)| ==>
      Validation(msg) == Some(UnknownRequest(LENGTH_MISMATCH))
    ensures (|msg.submitter| > 0 && |msg.peer| > 0 && |Elems(msg.messages)| == |Elems(msg.nums)| &&
             forall i :: 0 <= i < |Elems(msg.nums)| ==> GoodEntry(Elems(msg.messages), Elems(msg.nums), i)) ==>
      Validation(msg) == if msg.ack < 0 then Some(UnknownRequest(ACK_NEGATIVE)) else None
  {
    var messages, nums := Elems(msg.messages), Elems(msg.nums);
    if |messages| == |nums| {
      EntryFaultFirst(messages, nums, 0);
    }
  }

  /** Past the first three checks, the lowest bad entry decides the error:
      an empty message there wins over a negative number there, and later
      entries and the ack are never looked at. */
  lemma FirstBadEntry(msg: MsgDeliverInbound, k: nat)
    requires |msg.submitter| > 0 && |msg.peer| > 0
    requires |Elems(msg.messages)| == |Elems(msg.nums)| && k < |Elems(msg.nums)|
    requires !GoodEntry(Elems(msg.messages), Elems(msg.nums), k)
    requires forall j :: 0 <= j < k ==> GoodEntry(Elems(msg.messages), Elems(msg.nums), j)
    ensures Validation(msg) ==
      Some(UnknownRequest(if |Elems(msg.messages)[k]| == 0 then MESSAGE_EMPTY else NUM_NEGATIVE))
  {
    var messages, nums := Elems(msg.messages), Elems(msg.nums);
    EntryFaultFirst(messages, nums, 0);
    var k' :| 0 <= k' < |nums| && !GoodEntry(messages, nums, k') &&
      (forall j :: 0 <= j < k' ==> GoodEntry(messages, nums, j)) &&
      EntryFault(messages, nums, 0) ==
        Some(UnknownRequest(if |messages[k']| == 0 then MESSAGE_EMPTY else NUM_NEGATIVE));
    assert k' == k;
  }

  /** A message that validates has a non-empty signer. */
  lemma ValidSigner(msg: MsgDeliverInbound)
    requires Validation(msg).None?
    ensures forall s :: s in GetSigners(msg) ==> |s| > 0
  {
  }

  /** A message made from a mailbox batch validates exactly when the peer
      and the submitter are present and the batch itself is well-formed. */
  lemma NewMsgValidates(peer: string, msgs: Messages, submitter: AccAddress)
    ensures Validation(NewMsgDeliverInbound(peer, msgs, submitter)).None? <==>
      |submitter| > 0 && |peer| > 0 && |Elems(msgs.messages)| == |Elems(msgs.nums)| &&
      (forall i :: 0 <= i < |Elems(msgs.nums)| ==> GoodEntry(Elems(msgs.messages), Elems(msgs.nums), i)) &&
      msgs.ack >= 0
  {
    ValidIff(NewMsgDeliverInbound(peer, msgs, submitter));
  }

  /* ---------------- the message as signed ---------------- */

  /** The two messages hold the same contents, nil slices and empty ones
      counting as the same. */
  predicate SameContents(a: MsgDeliverInbound, b: MsgDeliverInbound) {
    a.peer == b.peer && Elems(a.messages) == Elems(b.messages) && Elems(a.nums) == Elems(b.nums) &&
    a.ack == b.ack && a.submitter == b.submitter
  }

  /** The copy `GetSignBytes` encodes: nil slices are replaced by empty
      ones and everything else is kept. */
  method SignedForm(msg: MsgDeliverInbound) returns (m: MsgDeliverInbound)
    ensures m.messages == (if msg.messages.Nil? then Made([]) else msg.messages)
    ensures m.nums == (if msg.nums.Nil? then Made([]) else msg.nums)
    ensures m.peer == msg.peer && m.ack == msg.ack && m.submitter == msg.submitter
    ensures m.messages.Made? && m.nums.Made? && SameContents(msg, m)
  {
    m := msg;
    if m.messages.Nil? {
      m := m.(messages := Made([]));
    }
    if m.nums.Nil? {
      m := m.(nums := Made([]));
    }
  }

  /** Validation cannot tell nil slices from empty ones, so the signed form
      validates exactly as the message does. */
  lemma SameContentsValidate(a: MsgDeliverInbound, b: MsgDeliverInbound)
    requires SameContents(a, b)
    ensures Validation(a) == Validation(b)
  {
  }
}
