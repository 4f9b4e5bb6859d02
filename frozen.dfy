/**
 * Everything `unserialize` builds comes back hardened: an object is frozen
 * as soon as the decoder has finished filling it in, and a successful
 * decoding leaves nothing unfinished.
 */
module Hardened {
  import opened Wrappers
  import opened Passable
  import opened JsonTree
  import opened Decoder

  /** Unfinished objects are decoded ones, and every decoded object that is
      not unfinished is frozen. */
  predicate Hard(cfg: DecConfig, ds: DecState) {
    (forall x :: x in ds.unfinished ==> cfg.base <= x < NextId(cfg, ds) && x in ds.heap) &&
    (forall x :: x in ds.heap && cfg.base <= x && x !in ds.unfinished ==> ds.heap[x].frozen)
  }

  /** A decoding step that succeeds from a hardened state leaves a hardened
      state with the same unfinished objects. */
  predicate StaysHard<T>(cfg: DecConfig, ds: DecState, r: Decoded<T>) {
    r.Ok? ==> Hard(cfg, r.value.1) && r.value.1.unfinished == ds.unfinished
  }

  lemma {:induction false} ValHard(cfg: DecConfig, slots: seq<string>, j: Json, ds: DecState)
    requires Hard(cfg, ds)
    ensures StaysHard(cfg, ds, DecodeVal(cfg, slots, j, ds))
    decreases j, 2, 0
  {
    match j
    case JArray(elems) =>
      var s := Start(cfg, ds, ArrayObject([], false));
      ElemsHard(cfg, slots, j, 0, [], NextId(cfg, ds), s);
    case JObject(fields) =>
      if FieldIndex(fields, QCLASS).None? {
        RecordHard(cfg, slots, j, ds);
      } else {
        TaggedHard(cfg, slots, j, ds);
      }
    case _ =>
  }

  lemma {:induction false} RecordHard(cfg: DecConfig, slots: seq<string>, j: Json, ds: DecState)
    requires Hard(cfg, ds) && j.JObject?
    ensures StaysHard(cfg, ds, DecodeRecord(cfg, slots, j, ds))
    decreases j, 1, 0
  {
    var s := Start(cfg, ds, PlainObject([], ObjectPrototype, false));
    FieldsHard(cfg, slots, j, 0, {}, [], NextId(cfg, ds), s);
  }

  lemma {:induction false} ElemsHard(cfg: DecConfig, slots: seq<string>, j: Json, i: nat,
                                     acc: seq<Val>, pid: ObjId, ds: DecState)
    requires Hard(cfg, ds) && pid in ds.unfinished
    requires j.JArray? && i <= |j.elems| && pid in ds.heap && pid < NextId(cfg, ds)
    ensures StaysHard(cfg, ds, DecodeElems(cfg, slots, j, i, acc, pid, ds))
    decreases j, 0, |j.elems| - i
  {
    if i < |j.elems| {
      ValHard(cfg, slots, j.elems[i], ds);
      var r := DecodeVal(cfg, slots, j.elems[i], ds);
      if r.Ok? {
        var acc' := acc + [r.value.0];
        ElemsHard(cfg, slots, j, i + 1, acc', pid, r.value.1.(heap := r.value.1.heap[pid := ArrayObject(acc', false)]));
      }
    }
  }

  lemma {:induction false} FieldsHard(cfg: DecConfig, slots: seq<string>, j: Json, i: nat,
                                      seen: set<string>, acc: seq<Prop>, pid: ObjId, ds: DecState)
    requires Hard(cfg, ds) && pid in ds.unfinished
    requires j.JObject? && i <= |j.fields| && pid in ds.heap && pid < NextId(cfg, ds)
    ensures StaysHard(cfg, ds, DecodeFields(cfg, slots, j, i, seen, acc, pid, ds))
    decreases j, 0, |j.fields| - i
  {
    if i < |j.fields| {
      var key := j.fields[i].0;
      if key in seen {
        FieldsHard(cfg, slots, j, i + 1, seen, acc, pid, ds);
      } else {
        var k := FieldIndex(j.fields, key).value;
        ValHard(cfg, slots, j.fields[k].1, ds);
        var r := DecodeVal(cfg, slots, j.fields[k].1, ds);
        if r.Ok? {
          var acc' := acc + [Prop(StrKey(key), Data(r.value.0, true))];
          FieldsHard(cfg, slots, j, i + 1, seen + {key}, acc', pid,
                     r.value.1.(heap := r.value.1.heap[pid := PlainObject(acc', ObjectPrototype, false)]));
        }
      }
    }
  }

  lemma {:induction false} TaggedHard(cfg: DecConfig, slots: seq<string>, j: Json, ds: DecState)
    requires Hard(cfg, ds) && j.JObject? && FieldIndex(j.fields, QCLASS).Some?
    ensures StaysHard(cfg, ds, DecodeTagged(cfg, slots, j, ds))
    decreases j, 1, 0
  {
    var tag := j.fields[FieldIndex(j.fields, QCLASS).value].1;
    if tag == JString("hilbert") {
      HilbertHard(cfg, slots, j, ds);
    }
  }

  lemma {:induction false} HilbertHard(cfg: DecConfig, slots: seq<string>, j: Json, ds: DecState)
    requires Hard(cfg, ds) && j.JObject?
    ensures StaysHard(cfg, ds, DecodeHilbert(cfg, slots, j, ds))
    decreases j, 0, 0
  {
    var fields := j.fields;
    match FieldIndex(fields, "original")
    case None =>
    case Some(ko) =>
      var id := NextId(cfg, ds);
      var start := Start(cfg, ds, PlainObject([], ObjectPrototype, false));
      ValHard(cfg, slots, fields[ko].1, start);
      var r := DecodeVal(cfg, slots, fields[ko].1, start);
      if r.Ok? {
        var qprop := Prop(StrKey(QCLASS), Data(r.value.0, true));
        var ds1 := r.value.1.(heap := r.value.1.heap[id := PlainObject([qprop], ObjectPrototype, false)]);
        match FieldIndex(fields, "rest")
        case None =>
        case Some(kr) =>
          ValHard(cfg, slots, fields[kr].1, ds1);
      }
  }

  /** Every object `unserialize` allocates is frozen, the root included. */
  lemma UnserializeHard(cfg: DecConfig, data: CapData)
    requires BaseClear(cfg)
    ensures var u := Unserialize(cfg, data);
      u.Ok? ==> forall x :: x in u.value.0 && cfg.base <= x ==> u.value.0[x].frozen
  {
    ValHard(cfg, data.slots, data.body, DecState(cfg.imports, [], {}));
  }
}
