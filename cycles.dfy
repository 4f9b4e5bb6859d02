/**
 * The three cycle policies of `unserialize` decode every body alike, except
 * that `forbidCycles` stops with an `IbidCycle` error at the first ibid that
 * points back at an object still being filled in.  `warnOfCycles` only adds
 * a report, which this model does not keep, so it decodes exactly as
 * `allowCycles` does.
 */
module CyclePolicies {
  import opened Wrappers
  import opened Passable
  import opened JsonTree
  import opened Decoder

  /** `b`, decoded under policy `pb`, matches `a`, decoded under a
      tolerant policy from the same configuration otherwise, or is the
      cycle error forbidding cycles produces. */
  predicate Matches<T(==)>(pb: CyclePolicy, b: Decoded<T>, a: Decoded<T>) {
    b == a || (pb == ForbidCycles && b.Err? && b.error.IbidCycle?)
  }

  lemma {:induction false} ValPolicy(cfg: DecConfig, pb: CyclePolicy, pa: CyclePolicy, slots: seq<string>, j: Json, ds: DecState)
    requires pa != ForbidCycles
    ensures Matches(pb, DecodeVal(cfg.(policy := pb), slots, j, ds), DecodeVal(cfg.(policy := pa), slots, j, ds))
    decreases j, 2, 0
  {
    match j
    case JArray(elems) =>
      var id := NextId(cfg.(policy := pa), ds);
      ElemsPolicy(cfg, pb, pa, slots, j, 0, [], id, Start(cfg.(policy := pa), ds, ArrayObject([], false)));
    case JObject(fields) =>
      if FieldIndex(fields, QCLASS).None? {
        RecordPolicy(cfg, pb, pa, slots, j, ds);
      } else {
        TaggedPolicy(cfg, pb, pa, slots, j, ds);
      }
    case _ =>
  }

  lemma {:induction false} RecordPolicy(cfg: DecConfig, pb: CyclePolicy, pa: CyclePolicy, slots: seq<string>, j: Json, ds: DecState)
    requires pa != ForbidCycles && j.JObject?
    ensures Matches(pb, DecodeRecord(cfg.(policy := pb), slots, j, ds), DecodeRecord(cfg.(policy := pa), slots, j, ds))
    decreases j, 1, 0
  {
    var id := NextId(cfg.(policy := pa), ds);
    FieldsPolicy(cfg, pb, pa, slots, j, 0, {}, [], id, Start(cfg.(policy := pa), ds, PlainObject([], ObjectPrototype, false)));
  }

  lemma {:induction false} ElemsPolicy(cfg: DecConfig, pb: CyclePolicy, pa: CyclePolicy, slots: seq<string>, j: Json, i: nat,
                                       acc: seq<Val>, pid: ObjId, ds: DecState)
    requires pa != ForbidCycles
    requires j.JArray? && i <= |j.elems| && pid in ds.heap && pid < NextId(cfg.(policy := pa), ds)
    ensures Matches(pb, DecodeElems(cfg.(policy := pb), slots, j, i, acc, pid, ds), DecodeElems(cfg.(policy := pa), slots, j, i, acc, pid, ds))
    decreases j, 0, |j.elems| - i
  {
    if i < |j.elems| {
      ValPolicy(cfg, pb, pa, slots, j.elems[i], ds);
      var r := DecodeVal(cfg.(policy := pa), slots, j.elems[i], ds);
      if r.Ok? {
        var acc' := acc + [r.value.0];
        ElemsPolicy(cfg, pb, pa, slots, j, i + 1, acc', pid,
                    r.value.1.(heap := r.value.1.heap[pid := ArrayObject(acc', false)]));
      }
    }
  }

  lemma {:induction false} FieldsPolicy(cfg: DecConfig, pb: CyclePolicy, pa: CyclePolicy, slots: seq<string>, j: Json, i: nat,
                                        seen: set<string>, acc: seq<Prop>, pid: ObjId, ds: DecState)
    requires pa != ForbidCycles
    requires j.JObject? && i <= |j.fields| && pid in ds.heap && pid < NextId(cfg.(policy := pa), ds)
    ensures Matches(pb, DecodeFields(cfg.(policy := pb), slots, j, i, seen, acc, pid, ds),
                    DecodeFields(cfg.(policy := pa), slots, j, i, seen, acc, pid, ds))
    decreases j, 0, |j.fields| - i
  {
    if i < |j.fields| {
      var key := j.fields[i].0;
      if key in seen {
        FieldsPolicy(cfg, pb, pa, slots, j, i + 1, seen, acc, pid, ds);
      } else {
        var k := FieldIndex(j.fields, key).value;
        ValPolicy(cfg, pb, pa, slots, j.fields[k].1, ds);
        var r := DecodeVal(cfg.(policy := pa), slots, j.fields[k].1, ds);
        if r.Ok? {
          var acc' := acc + [Prop(StrKey(key), Data(r.value.0, true))];
          FieldsPolicy(cfg, pb, pa, slots, j, i + 1, seen + {key}, acc', pid,
                       r.value.1.(heap := r.value.1.heap[pid := PlainObject(acc', ObjectPrototype, false)]));
        }
      }
    }
  }

  lemma {:induction false} TaggedPolicy(cfg: DecConfig, pb: CyclePolicy, pa: CyclePolicy, slots: seq<string>, j: Json, ds: DecState)
    requires pa != ForbidCycles && j.JObject? && FieldIndex(j.fields, QCLASS).Some?
    ensures Matches(pb, DecodeTagged(cfg.(policy := pb), slots, j, ds), DecodeTagged(cfg.(policy := pa), slots, j, ds))
    decreases j, 1, 0
  {
    var tag := j.fields[FieldIndex(j.fields, QCLASS).value].1;
    if tag == JString("hilbert") {
      HilbertPolicy(cfg, pb, pa, slots, j, ds);
    }
  }

  lemma {:induction false} HilbertPolicy(cfg: DecConfig, pb: CyclePolicy, pa: CyclePolicy, slots: seq<string>, j: Json, ds: DecState)
    requires pa != ForbidCycles && j.JObject?
    ensures Matches(pb, DecodeHilbert(cfg.(policy := pb), slots, j, ds), DecodeHilbert(cfg.(policy := pa), slots, j, ds))
    decreases j, 0, 0
  {
    var fields := j.fields;
    match FieldIndex(fields, "original")
    case None =>
    case Some(ko) =>
      var id := NextId(cfg.(policy := pa), ds);
      var start := Start(cfg.(policy := pa), ds, PlainObject([], ObjectPrototype, false));
      ValPolicy(cfg, pb, pa, slots, fields[ko].1, start);
      var r := DecodeVal(cfg.(policy := pa), slots, fields[ko].1, start);
      if r.Ok? {
        var qprop := Prop(StrKey(QCLASS), Data(r.value.0, true));
        var ds1 := r.value.1.(heap := r.value.1.heap[id := PlainObject([qprop], ObjectPrototype, false)]);
        match FieldIndex(fields, "rest")
        case None =>
        case Some(kr) =>
          ValPolicy(cfg, pb, pa, slots, fields[kr].1, ds1);
      }
  }

  /** A body that decodes while forbidding cycles decodes to the same
      graph under every policy, and every body decodes alike while
      warning of cycles and while allowing them. */
  lemma UnserializePolicy(cfg: DecConfig, data: CapData)
    requires BaseClear(cfg)
    ensures var f := Unserialize(cfg.(policy := ForbidCycles), data);
      var a := Unserialize(cfg.(policy := AllowCycles), data);
      f == a || (f.Err? && f.error.IbidCycle?)
    ensures Unserialize(cfg.(policy := WarnOfCycles), data) == Unserialize(cfg.(policy := AllowCycles), data)
  {
    var ds := DecState(cfg.imports, [], {});
    ValPolicy(cfg, ForbidCycles, AllowCycles, data.slots, data.body, ds);
    ValPolicy(cfg, WarnOfCycles, AllowCycles, data.slots, data.body, ds);
  }
}
