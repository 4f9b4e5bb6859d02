/**
 * A marshal instance, as `makeMarshal(convertValToSlot, convertSlotToVal,
 * {marshalName, errorTagging})` returns it: the two bridge functions and
 * the options are fixed when it is made, and the one thing it keeps
 * between calls is the counter that numbers tagged errors.  Everything
 * else (the ibid table, the slot list) lives for one call only.
 */
module Marshaller {
  import opened Wrappers
  import opened Passable
  import opened JsonTree
  import Encoder
  import Decoder
  import Hardened
  import CyclePolicies
  import ErrorIds

  class Marshal {
    const ecfg: Encoder.EncConfig
    const fromSlot: (string, Option<Json>) -> Val
    /** How many errors this marshal has tagged so far. */
    var errorIdNum: nat

    constructor (ecfg: Encoder.EncConfig, fromSlot: (string, Option<Json>) -> Val)
      ensures this.ecfg == ecfg && this.fromSlot == fromSlot && errorIdNum == 0
    {
      this.ecfg := ecfg;
      this.fromSlot := fromSlot;
      errorIdNum := 0;
    }

    /** `serialize`: one encoding call, which moves the error counter on by
        the errors it tags: with tagging on, one per distinct error object
        the call visits, and with tagging off none. */
    method Serialize(h: Heap, v: Val) returns (r: Result<CapData, MarshalError>)
      requires WfHeap(h) && RefsIn(h, v)
      modifies this
      ensures (r, errorIdNum) == Encoder.Serialize(h, ecfg, v, old(errorIdNum))
      ensures var errors := set id | id in ErrorIds.Visited(h, ecfg, v, old(errorIdNum)) && id in h && h[id].ErrorObject?;
        errorIdNum == old(errorIdNum) + if ecfg.errorTagging then |errors| else 0
    {
      ErrorIds.SerializeCounts(h, ecfg, v, errorIdNum);
      var e := Encoder.Serialize(h, ecfg, v, errorIdNum);
      r := e.0;
      errorIdNum := e.1;
    }

    /** `unserialize(data, cyclePolicy)`: decoded objects take identities
        from `base` on, past the objects the bridge can hand back.  With no
        policy given, cycles are forbidden.  The result is hardened:
        everything it reaches is frozen, imported objects included. */
    method Unserialize(data: CapData, policy: Option<Decoder.CyclePolicy>, imports: Heap, base: nat)
      returns (r: Result<(Heap, Val), MarshalError>)
      requires Decoder.BaseClear(Decoder.DecConfig(Decoder.AllowCycles, fromSlot, imports, base))
      ensures r == Decoder.Unserialize(Decoder.DecConfig(PolicyOr(policy), fromSlot, imports, base), data)
      ensures policy.None? ==> r == Decoder.Unserialize(Decoder.DecConfig(Decoder.ForbidCycles, fromSlot, imports, base), data)
      ensures r.Ok? ==> forall x :: x in Decoder.Reach(r.value.0, r.value.1) ==> r.value.0[x].frozen
      ensures r.Ok? ==> forall x :: x in imports ==> x in r.value.0 && r.value.0[x] == imports[x].(frozen := r.value.0[x].frozen)
      ensures r.Ok? ==> forall x :: x in imports && !(x in Decoder.Reach(r.value.0, r.value.1)) ==> r.value.0[x] == imports[x]
      ensures r.Ok? ==> forall x :: x in r.value.0 && base <= x ==> r.value.0[x].frozen
      ensures r == Decoder.Unserialize(Decoder.DecConfig(Decoder.AllowCycles, fromSlot, imports, base), data) ||
        (PolicyOr(policy) == Decoder.ForbidCycles && r.Err? && r.error.IbidCycle?)
    {
      var cfg := Decoder.DecConfig(PolicyOr(policy), fromSlot, imports, base);
      Hardened.UnserializeHard(cfg, data);
      CyclePolicies.UnserializePolicy(cfg, data);
      r := Decoder.Unserialize(cfg, data);
    }
  }

  /** The policy `unserialize` applies: `forbidCycles` unless told otherwise. */
  function PolicyOr(policy: Option<Decoder.CyclePolicy>): Decoder.CyclePolicy {
    match policy
    case None => Decoder.ForbidCycles
    case Some(p) => p
  }
}
