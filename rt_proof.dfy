/**
 * The round-trip theorem, by simultaneous induction over the encoder's
 * traversal: each lemma follows one encoder function and shows that the
 * decoder, run on what that function emitted from a mirrored state, yields
 * the image of the input and a mirrored state again.
 */
module RoundTripProof {
  import opened Wrappers
  import opened Passable
  import opened JsonTree
  import opened Encoder
  import opened Decoder
  import opened RoundTrip
  import Decimal

  /** The configuration and invariants every step assumes. */
  predicate Env(c: Ctx, st: EncState) {
    WfHeap(c.h) && StInv(c.h, st) &&
    (c.dcfg.policy == ForbidCycles ==> Ranked(c.h, c.index, c.rank) && SlotsImported(c.h, c.index, c.ecfg, c.dcfg))
  }

  /** A step of the round trip about to start: `v` encodes from `st`, its
      encoding leaves a state on the way to the final one, and the decoder
      state mirrors `st`. */
  predicate Pre(c: Ctx, v: Val, st: EncState, ds: DecState) {
    Env(c, st) && RefsIn(c.h, v) && Sync(c, st, ds) && Guard(c, st, ds, v) &&
    EncodeVal(c.h, c.ecfg, v, st).result.Ok? && Extends(c, EncodeVal(c.h, c.ecfg, v, st).st)
  }

  /** What each step of the round trip delivers: the encoding of `v` from
      `st` decodes from `ds` to the image of `v`, leaving mirrored states
      and no object half-built. */
  predicate ValRoundTrips(c: Ctx, v: Val, st: EncState, ds: DecState)
    requires Env(c, st) && RefsIn(c.h, v)
  {
    var e := EncodeVal(c.h, c.ecfg, v, st);
    e.result.Ok? &&
    var d := DecodeVal(c.dcfg, c.slots, e.result.value, ds);
    d.Ok? && d.value.0 == ValImage(c, v) && Sync(c, e.st, d.value.1) &&
    d.value.1.unfinished == ds.unfinished
  }

  /** The decoder, run on `j` from `ds`, yields `v` and a state mirroring
      the encoder's `st`, with no object left half-built. */
  predicate DecodesTo(c: Ctx, j: Json, ds: DecState, v: Val, st: EncState) {
    var d := DecodeVal(c.dcfg, c.slots, j, ds);
    d.Ok? && d.value.0 == v && Sync(c, st, d.value.1) && d.value.1.unfinished == ds.unfinished
  }

  lemma Conclude(c: Ctx, v: Val, st: EncState, ds: DecState, j: Json, st': EncState)
    requires Env(c, st) && RefsIn(c.h, v)
    requires EncodeVal(c.h, c.ecfg, v, st) == Encoded(Ok(j), st')
    requires DecodesTo(c, j, ds, ValImage(c, v), st')
    ensures ValRoundTrips(c, v, st, ds)
  {
  }

  /* ---------------- no ibid names an object still being built ---------------- */

  /** Every visited object sent by copy whose decoded counterpart is still
      being built outranks `r`. */
  predicate Above(c: Ctx, st: EncState, ds: DecState, r: int) {
    forall a :: a in st.ibids && a in c.h && !Slotted(c.h, a) && c.dcfg.base + st.ibids[a] in ds.unfinished ==>
      c.rank(a) > r
  }

  /** Under `ForbidCycles`, a reference about to be encoded is outranked by
      every object still being built, so it is none of them. */
  predicate Guard(c: Ctx, st: EncState, ds: DecState, v: Val) {
    c.dcfg.policy == ForbidCycles && v.Ref? ==> Above(c, st, ds, c.rank(v.id))
  }

  predicate Guards(c: Ctx, vs: seq<Val>, st: EncState, ds: DecState) {
    forall k :: 0 <= k < |vs| ==> Guard(c, st, ds, vs[k])
  }

  /** Encoding more leaves the objects being built as they were: those
      visited since take indices past every unfinished identity. */
  lemma GuardsKeep(c: Ctx, vs: seq<Val>, st: EncState, ds: DecState, st': EncState, ds': DecState)
    requires Frame(c, st, ds) && Grows(st, st') && ds'.unfinished == ds.unfinished && Guards(c, vs, st, ds)
    ensures Guards(c, vs, st', ds')
  {
    forall a | a in st'.ibids && a !in st.ibids ensures c.dcfg.base + st'.ibids[a] !in ds.unfinished {
    }
  }

  /** Starting to build the object visited now: the values it holds rank
      below it, and it ranks below every object already being built. */
  lemma GuardsStart(c: Ctx, id: ObjId, vs: seq<Val>, st: EncState, ds: DecState, o: Obj)
    requires Sync(c, st, ds) && id in c.h && !Slotted(c.h, id) && id !in st.ibids
    requires Guard(c, st, ds, Ref(id))
    requires c.dcfg.policy == ForbidCycles ==> forall k :: 0 <= k < |vs| && vs[k].Ref? ==> c.rank(vs[k].id) < c.rank(id)
    ensures Guards(c, vs, Visit(st, id), Start(c.dcfg, ds, o))
  {
    forall a | a in st.ibids ensures c.dcfg.base + st.ibids[a] != NextId(c.dcfg, ds) {
    }
  }

  /** Starting a fresh record, which no visited object stands for. */
  lemma GuardsFresh(c: Ctx, vs: seq<Val>, st: EncState, ds: DecState, o: Obj)
    requires StInv(c.h, st) && Frame(c, st, ds) && Guards(c, vs, st, ds)
    ensures Guards(c, vs, Reserve(c.h, st), Start(c.dcfg, ds, o))
  {
    forall a | a in st.ibids ensures c.dcfg.base + st.ibids[a] != NextId(c.dcfg, ds) {
    }
  }

  /** The values a copyArray or a data record holds rank below it. */
  lemma HeldBelow(c: Ctx, id: ObjId)
    requires Ranked(c.h, c.index, c.rank) && id in c.h && id in c.index && !Slotted(c.h, id)
    ensures c.h[id].ArrayObject? ==>
      forall k :: 0 <= k < |c.h[id].elems| && c.h[id].elems[k].Ref? ==> c.rank(c.h[id].elems[k].id) < c.rank(id)
    ensures c.h[id].PlainObject? && DataFields(c.h, c.h[id].props) ==>
      var vs := PropValues(c.h[id].props);
      forall k :: 0 <= k < |vs| && vs[k].Ref? ==> c.rank(vs[k].id) < c.rank(id)
  {
    assert HoldsBelow(c.h[id], c.rank, c.rank(id));
  }

  /** Once an array visited now is started, none of its elements is an
      object being built. */
  lemma ElemGuards(c: Ctx, id: ObjId, st: EncState, ds: DecState, o: Obj)
    requires Env(c, Visit(st, id)) && Sync(c, st, ds) && id in c.h && id in c.index && c.h[id].ArrayObject? && id !in st.ibids
    requires Guard(c, st, ds, Ref(id))
    ensures Guards(c, c.h[id].elems, Visit(st, id), Start(c.dcfg, ds, o))
  {
    if c.dcfg.policy == ForbidCycles {
      HeldBelow(c, id);
    }
    GuardsStart(c, id, c.h[id].elems, st, ds, o);
  }

  /** Once a record visited now is started, none of its values is an
      object being built. */
  lemma PropGuards(c: Ctx, id: ObjId, st: EncState, ds: DecState, o: Obj)
    requires Env(c, Visit(st, id)) && Sync(c, st, ds) && id in c.h && id in c.index && IsCopyRecord(c.h[id]) && id !in st.ibids
    requires DataFields(c.h, c.h[id].props) && Guard(c, st, ds, Ref(id))
    ensures Guards(c, PropValues(c.h[id].props), Visit(st, id), Start(c.dcfg, ds, o))
  {
    RecordUnslotted(c.h, id);
    if c.dcfg.policy == ForbidCycles {
      HeldBelow(c, id);
    }
    GuardsStart(c, id, PropValues(c.h[id].props), st, ds, o);
  }

  /** The values of a hilbert rest are values of the record. */
  lemma GuardsWithout(c: Ctx, props: seq<Prop>, p: nat, st: EncState, ds: DecState)
    requires p < |props| && forall k :: 0 <= k < |props| ==> props[k].desc.Data?
    requires Guards(c, PropValues(props), st, ds)
    ensures Guards(c, PropValues(Without(props, p)), st, ds)
  {
    var rest := Without(props, p);
    forall k | 0 <= k < |rest| ensures Guard(c, st, ds, PropValues(rest)[k]) {
      var k' := if k < p then k else k + 1;
      assert PropValues(rest)[k] == PropValues(props)[k'];
    }
  }

  /** Once the original of a hilbert record is in, no value of its rest is
      an object being built. */
  lemma RestGuards(c: Ctx, id: ObjId, st: EncState, ds: DecState, p: nat, sto: EncState, ds1: DecState)
    requires Env(c, Visit(st, id)) && Sync(c, st, ds) && id in c.h && IsCopyRecord(c.h[id]) && id !in st.ibids
    requires DataFields(c.h, c.h[id].props) && p < |c.h[id].props| && Guard(c, st, ds, Ref(id))
    requires id in c.index && c.index[id] == st.count
    requires Grows(Visit(st, id), sto) && ds1.unfinished == ds.unfinished + {NextId(c.dcfg, ds)}
    ensures Guards(c, PropValues(Without(c.h[id].props, p)), sto, ds1)
  {
    var ds0 := Start(c.dcfg, ds, PlainObject([], ObjectPrototype, false));
    RecordUnslotted(c.h, id);
    SyncStartVisited(c, st, ds, id, PlainObject([], ObjectPrototype, false));
    PropGuards(c, id, st, ds, PlainObject([], ObjectPrototype, false));
    GuardsKeep(c, PropValues(c.h[id].props), Visit(st, id), ds0, sto, ds1);
    GuardsWithout(c, c.h[id].props, p, sto, ds1);
  }

  /** An ibid the encoder emits names an entry the decoder yields, under
      every policy. */
  lemma IbidPasses(c: Ctx, v: Val, st: EncState, ds: DecState)
    requires Pre(c, v, st, ds) && v.Ref? && v.id in st.ibids
    ensures var n := st.ibids[v.id];
      n < |ds.ibids| && ds.ibids[n] == ValImage(c, v) &&
      !(c.dcfg.policy == ForbidCycles && ds.ibids[n].Ref? && ds.ibids[n].id in ds.unfinished)
  {
    if c.dcfg.policy == ForbidCycles && Slotted(c.h, v.id) {
      assert ds.ibids[st.ibids[v.id]] == RefImage(c, v.id);
    }
  }

  /* ---------------- the encoder, unfolded once ---------------- */

  lemma EncodeOkStyle(h: Heap, cfg: EncConfig, v: Val, st: EncState)
    requires WfHeap(h) && RefsIn(h, v) && StInv(h, st) && EncodeVal(h, cfg, v, st).result.Ok?
    ensures PassStyleOf(h, v).Ok?
  {
  }

  lemma EncodeRefShape(h: Heap, cfg: EncConfig, v: Val, st: EncState)
    requires WfHeap(h) && RefsIn(h, v) && StInv(h, st) && v.Ref? && PassStyleOf(h, v).Ok?
    ensures EncodeVal(h, cfg, v, st) == EncodeRef(h, cfg, v.id, PassStyleOf(h, v).value, st)
  {
  }

  lemma EncodeSlotShape(h: Heap, cfg: EncConfig, v: Val, st: EncState)
    requires WfHeap(h) && RefsIn(h, v) && StInv(h, st) && v.Ref? && v.id !in st.ibids
    requires PassStyleOf(h, v) == Ok(Presence) || PassStyleOf(h, v) == Ok(PromiseStyle)
    ensures EncodeVal(h, cfg, v, st) == SlotRef(cfg, v, SlotIface(h, v.id), Visit(st, v.id))
  {
    EncodeRefShape(h, cfg, v, st);
  }

  lemma EncodeErrorShape(h: Heap, cfg: EncConfig, v: Val, st: EncState)
    requires WfHeap(h) && RefsIn(h, v) && StInv(h, st) && v.Ref? && v.id !in st.ibids
    requires PassStyleOf(h, v) == Ok(CopyError)
    ensures EncodeVal(h, cfg, v, st) == EncodeError(cfg, h[v.id], Visit(st, v.id))
  {
    EncodeRefShape(h, cfg, v, st);
  }

  lemma EncodeArrayShape(h: Heap, cfg: EncConfig, v: Val, st: EncState)
    requires WfHeap(h) && RefsIn(h, v) && StInv(h, st) && v.Ref? && v.id !in st.ibids
    requires PassStyleOf(h, v) == Ok(CopyArray)
    ensures StInv(h, Visit(st, v.id)) && h[v.id].ArrayObject?
    ensures var r := EncodeElems(h, cfg, h[v.id].elems, 0, Visit(st, v.id));
      EncodeVal(h, cfg, v, st) == Encoded(if r.result.Ok? then Ok(JArray(r.result.value)) else Err(r.result.error), r.st)
  {
    EncodeRefShape(h, cfg, v, st);
    VisitInv(h, st, v.id);
  }

  /** One more element: the head's encoding, then the rest's. */
  lemma EncodeElemsStep(h: Heap, cfg: EncConfig, elems: seq<Val>, i: nat, st: EncState, js: seq<Json>)
    requires WfHeap(h) && StInv(h, st) && i < |elems| == |js| && forall k :: 0 <= k < |elems| ==> RefsIn(h, elems[k])
    requires EncodeElems(h, cfg, elems, i, st).result == Ok(js[i..])
    ensures var first := EncodeVal(h, cfg, elems[i], st);
      first.result == Ok(js[i]) &&
      EncodeElems(h, cfg, elems, i + 1, first.st).result == Ok(js[i + 1..]) &&
      EncodeElems(h, cfg, elems, i + 1, first.st).st == EncodeElems(h, cfg, elems, i, st).st
  {
    var first := EncodeVal(h, cfg, elems[i], st);
    var more := EncodeElems(h, cfg, elems, i + 1, first.st);
    assert first.result.Ok? && more.result.Ok?;
    assert [first.result.value] + more.result.value == js[i..];
    assert more.result.value == js[i..][1..] == js[i + 1..];
  }

  lemma EncodeRecordShape(h: Heap, cfg: EncConfig, v: Val, st: EncState)
    requires WfHeap(h) && RefsIn(h, v) && StInv(h, st) && v.Ref? && v.id !in st.ibids
    requires PassStyleOf(h, v) == Ok(CopyRecord) && QclassPos(h[v.id].props).None?
    ensures StInv(h, Visit(st, v.id)) && IsCopyRecord(h[v.id]) && DataFields(h, h[v.id].props)
    ensures var r := EncodeFields(h, cfg, h[v.id].props, Visit(st, v.id));
      EncodeVal(h, cfg, v, st) == Encoded(if r.result.Ok? then Ok(JObject(r.result.value)) else Err(r.result.error), r.st)
  {
    EncodeRefShape(h, cfg, v, st);
    VisitInv(h, st, v.id);
    assert EncodeObject(h, cfg, v.id, CopyRecord, Visit(st, v.id)) == EncodeRecord(h, cfg, v.id, Visit(st, v.id));
  }

  /** A record owning `@qclass` takes the hilbert escape. */
  lemma EncodeHilbertShape(h: Heap, cfg: EncConfig, v: Val, st: EncState)
    requires WfHeap(h) && RefsIn(h, v) && StInv(h, st) && v.Ref? && v.id !in st.ibids
    requires PassStyleOf(h, v) == Ok(CopyRecord) && QclassPos(h[v.id].props).Some?
    ensures StInv(h, Visit(st, v.id)) && IsCopyRecord(h[v.id]) && DataFields(h, h[v.id].props)
    ensures EncodeVal(h, cfg, v, st) == EncodeHilbert(h, cfg, h[v.id].props, QclassPos(h[v.id].props).value, Visit(st, v.id))
  {
    EncodeRefShape(h, cfg, v, st);
    VisitInv(h, st, v.id);
    assert EncodeObject(h, cfg, v.id, CopyRecord, Visit(st, v.id)) == EncodeRecord(h, cfg, v.id, Visit(st, v.id));
  }

  /** What the rest pattern leaves of a record with distinct keys, one of
      them `@qclass`: data properties with distinct keys, none `@qclass`. */
  lemma RestFacts(h: Heap, props: seq<Prop>, p: nat)
    requires DataFields(h, props) && DistinctKeys(props) && p < |props| && props[p].key == StrKey(QCLASS)
    ensures var rest := Without(props, p);
      DataFields(h, rest) && DistinctKeys(rest) && QclassPos(rest).None?
  {
    var rest := Without(props, p);
    forall i, j | 0 <= i < j < |rest| ensures KeyOf(rest[i]) != KeyOf(rest[j]) {
      var i' := if i < p then i else i + 1;
      var j' := if j < p then j else j + 1;
      assert KeyOf(props[i']) != KeyOf(props[j']);
    }
    forall i | 0 <= i < |rest| ensures rest[i].key != StrKey(QCLASS) {
      var i' := if i < p then i else i + 1;
      if i' < p {
        assert KeyOf(props[i']) != KeyOf(props[p]);
      } else {
        assert KeyOf(props[p]) != KeyOf(props[i']);
      }
    }
  }

  /* ---------------- the decoder on single nodes ---------------- */

  /** An ibid node yields the entry it names, unless it is out of range or,
      under `ForbidCycles`, names an object still being built. */
  lemma DecodeIbidNode(cfg: DecConfig, slots: seq<string>, n: nat, ds: DecState)
    ensures DecodeVal(cfg, slots, Tagged("ibid", [("index", JNumber(n as real))]), ds) ==
      if n >= |ds.ibids| then Err(IbidOutOfRange(n))
      else if cfg.policy == ForbidCycles && ds.ibids[n].Ref? && ds.ibids[n].id in ds.unfinished then Err(IbidCycle(n))
      else Ok((ds.ibids[n], ds))
  {
    var fields := [(QCLASS, JString("ibid")), ("index", JNumber(n as real))];
    FieldIndexOfDistinct(fields, 0);
    FieldIndexOfDistinct(fields, 1);
    assert AsNatField(fields, "index") == Some(n);
  }

  /** A slot node yields what the bridge makes of the slot it names, with
      the `iface` it carries, and records that value as an entry. */
  lemma DecodeSlotNode(cfg: DecConfig, slots: seq<string>, iface: Option<string>, n: nat, ds: DecState)
    ensures var ij := if iface.Some? then Some(JString(iface.value)) else None;
      DecodeVal(cfg, slots, Tagged("slot", IfaceField(iface) + [("index", JNumber(n as real))]), ds) ==
      if n >= |slots| then Err(SlotOutOfRange(n))
      else Ok((cfg.fromSlot(slots[n], ij), Register(ds, cfg.fromSlot(slots[n], ij))))
  {
    var fields := [(QCLASS, JString("slot"))] + IfaceField(iface) + [("index", JNumber(n as real))];
    SlotMembers(iface, n);
    TaggedNode(cfg, slots, fields, ds);
  }

  /** The members of a slot node, each named once. */
  lemma SlotMembers(iface: Option<string>, n: nat)
    ensures var fields := [(QCLASS, JString("slot"))] + IfaceField(iface) + [("index", JNumber(n as real))];
      Tagged("slot", IfaceField(iface) + [("index", JNumber(n as real))]) == JObject(fields) &&
      FieldIndex(fields, QCLASS) == Some(0) && fields[0].1 == JString("slot") &&
      AsNatField(fields, "index") == Some(n) &&
      Lookup(fields, "iface") == if iface.Some? then Some(JString(iface.value)) else None
  {
    var fields := [(QCLASS, JString("slot"))] + IfaceField(iface) + [("index", JNumber(n as real))];
    assert DistinctNames(fields);
    FieldIndexOfDistinct(fields, 0);
    FieldIndexOfDistinct(fields, |fields| - 1);
    assert AsNatField(fields, "index") == Some(n);
    if iface.Some? {
      FieldIndexOfDistinct(fields, 1);
    }
  }

  /** A node whose first member is its only `@qclass` is decoded by the
      tagged case. */
  lemma TaggedNode(cfg: DecConfig, slots: seq<string>, fields: seq<(string, Json)>, ds: DecState)
    requires FieldIndex(fields, QCLASS) == Some(0)
    ensures DecodeVal(cfg, slots, JObject(fields), ds) == DecodeTagged(cfg, slots, JObject(fields), ds)
  {
  }

  /** An error node yields a fresh frozen error of the class its name
      selects, with errorId ignored. */
  lemma DecodeErrorNode(cfg: DecConfig, slots: seq<string>, pre: seq<(string, Json)>, message: string,
                        name: string, ds: DecState)
    requires pre == [] || (|pre| == 1 && pre[0].0 == "errorId")
    ensures var n := NextId(cfg, ds);
      DecodeVal(cfg, slots, Tagged("error", pre + [("message", JString(message)), ("name", JString(name))]), ds) ==
      Ok((Ref(n), Register(ds.(heap := ds.heap[n := ErrorObject(ErrorKindNamed(name), message, true)]), Ref(n))))
  {
    var fields := [(QCLASS, JString("error"))] + pre + [("message", JString(message)), ("name", JString(name))];
    ErrorMembers(pre, message, name);
    TaggedNode(cfg, slots, fields, ds);
  }

  /** The members of an error node, each named once. */
  lemma ErrorMembers(pre: seq<(string, Json)>, message: string, name: string)
    requires pre == [] || (|pre| == 1 && pre[0].0 == "errorId")
    ensures var fields := [(QCLASS, JString("error"))] + pre + [("message", JString(message)), ("name", JString(name))];
      Tagged("error", pre + [("message", JString(message)), ("name", JString(name))]) == JObject(fields) &&
      FieldIndex(fields, QCLASS) == Some(0) && fields[0].1 == JString("error") &&
      Lookup(fields, "name") == Some(JString(name)) && Lookup(fields, "message") == Some(JString(message))
  {
    var fields := [(QCLASS, JString("error"))] + pre + [("message", JString(message)), ("name", JString(name))];
    assert DistinctNames(fields);
    FieldIndexOfDistinct(fields, 0);
    FieldIndexOfDistinct(fields, |fields| - 1);
    FieldIndexOfDistinct(fields, |fields| - 2);
  }

  /** One more array element, decoded and stored into the array. */
  lemma DecodeElemsStep(cfg: DecConfig, slots: seq<string>, js: seq<Json>, i: nat, acc: seq<Val>, pid: ObjId, ds: DecState)
    requires i < |js| && pid in ds.heap && pid < NextId(cfg, ds) && DecodeVal(cfg, slots, js[i], ds).Ok?
    ensures var d := DecodeVal(cfg, slots, js[i], ds).value;
      NextId(cfg, ds) <= NextId(cfg, d.1) &&
      DecodeElems(cfg, slots, JArray(js), i, acc, pid, ds) ==
      DecodeElems(cfg, slots, JArray(js), i + 1, acc + [d.0], pid, d.1.(heap := d.1.heap[pid := ArrayObject(acc + [d.0], false)]))
  {
  }

  /** The decoder's handling of an array, unfolded once. */
  lemma DecodeArrayStep(cfg: DecConfig, slots: seq<string>, js: seq<Json>, ds: DecState, d: Decoded<seq<Val>>)
    requires d == DecodeElems(cfg, slots, JArray(js), 0, [], NextId(cfg, ds), Start(cfg, ds, ArrayObject([], false)))
    requires d.Ok?
    ensures DecodeVal(cfg, slots, JArray(js), ds) == Ok((Ref(NextId(cfg, ds)), Finish(d.value.1, NextId(cfg, ds))))
  {
  }

  /** One more record member, when its name is new and is not repeated
      later: decoded and stored into the record. */
  lemma DecodeFieldsStep(cfg: DecConfig, slots: seq<string>, fields: seq<(string, Json)>, i: nat, seen: set<string>,
                         acc: seq<Prop>, pid: ObjId, ds: DecState)
    requires i < |fields| && fields[i].0 !in seen && FieldIndex(fields, fields[i].0) == Some(i)
    requires pid in ds.heap && pid < NextId(cfg, ds) && DecodeVal(cfg, slots, fields[i].1, ds).Ok?
    ensures var d := DecodeVal(cfg, slots, fields[i].1, ds).value;
      var acc' := acc + [Prop(StrKey(fields[i].0), Data(d.0, true))];
      NextId(cfg, ds) <= NextId(cfg, d.1) &&
      DecodeFields(cfg, slots, JObject(fields), i, seen, acc, pid, ds) ==
      DecodeFields(cfg, slots, JObject(fields), i + 1, seen + {fields[i].0}, acc', pid,
                   d.1.(heap := d.1.heap[pid := PlainObject(acc', ObjectPrototype, false)]))
  {
  }

  /** A record without `@qclass`, unfolded once. */
  lemma DecodeRecordStep(cfg: DecConfig, slots: seq<string>, fields: seq<(string, Json)>, ds: DecState, d: Decoded<seq<Prop>>)
    requires FieldIndex(fields, QCLASS).None?
    requires d == DecodeFields(cfg, slots, JObject(fields), 0, {}, [], NextId(cfg, ds), Start(cfg, ds, PlainObject([], ObjectPrototype, false)))
    requires d.Ok?
    ensures DecodeVal(cfg, slots, JObject(fields), ds) == Ok((Ref(NextId(cfg, ds)), Finish(d.value.1, NextId(cfg, ds))))
  {
  }

  /** A hilbert node without `rest`: the record holds only `@qclass`. */
  lemma DecodeHilbertOrig(cfg: DecConfig, slots: seq<string>, oj: Json, ds: DecState, d: Decoded<Val>)
    requires d == DecodeVal(cfg, slots, oj, Start(cfg, ds, PlainObject([], ObjectPrototype, false))) && d.Ok?
    ensures var hid := NextId(cfg, ds);
      var ds1 := d.value.1.(heap := d.value.1.heap[hid := PlainObject([Prop(StrKey(QCLASS), Data(d.value.0, true))], ObjectPrototype, false)]);
      hid in ds1.heap &&
      DecodeVal(cfg, slots, Tagged("hilbert", [("original", oj)]), ds) == Ok((Ref(hid), Finish(ds1, hid)))
  {
    var fields := [(QCLASS, JString("hilbert")), ("original", oj)];
    HilbertMembers(fields);
    assert FieldIndex(fields, "rest").None?;
    HilbertNode(cfg, slots, fields, ds);
  }

  /** The members of a hilbert node, each named once. */
  lemma HilbertMembers(fields: seq<(string, Json)>)
    requires |fields| >= 2 && fields[0] == (QCLASS, JString("hilbert")) && fields[1].0 == "original"
    requires |fields| == 2 || (|fields| == 3 && fields[2].0 == "rest")
    ensures Tagged("hilbert", fields[1..]) == JObject(fields)
    ensures FieldIndex(fields, QCLASS) == Some(0) && FieldIndex(fields, "original") == Some(1)
    ensures |fields| == 3 ==> FieldIndex(fields, "rest") == Some(2)
  {
    assert [(QCLASS, JString("hilbert"))] + fields[1..] == fields;
    assert DistinctNames(fields);
    FieldIndexOfDistinct(fields, 0);
    FieldIndexOfDistinct(fields, 1);
    if |fields| == 3 {
      FieldIndexOfDistinct(fields, 2);
    }
  }

  /** A node tagged `hilbert` is decoded by the hilbert case. */
  lemma HilbertNode(cfg: DecConfig, slots: seq<string>, fields: seq<(string, Json)>, ds: DecState)
    requires FieldIndex(fields, QCLASS) == Some(0) && fields[0].1 == JString("hilbert")
    ensures DecodeVal(cfg, slots, JObject(fields), ds) == DecodeHilbert(cfg, slots, JObject(fields), ds)
  {
    assert DecodeVal(cfg, slots, JObject(fields), ds) == DecodeTagged(cfg, slots, JObject(fields), ds);
  }

  /** A hilbert node with `rest`: the record takes on the own properties
      of the decoded rest record after `@qclass`. */
  lemma DecodeHilbertRest(cfg: DecConfig, slots: seq<string>, oj: Json, rj: Json, ds: DecState, d: Decoded<Val>, dr: Decoded<Val>)
    requires d == DecodeVal(cfg, slots, oj, Start(cfg, ds, PlainObject([], ObjectPrototype, false))) && d.Ok?
    requires var hid := NextId(cfg, ds);
      dr == DecodeVal(cfg, slots, rj, d.value.1.(heap := d.value.1.heap[hid := PlainObject([Prop(StrKey(QCLASS), Data(d.value.0, true))], ObjectPrototype, false)]))
    requires dr.Ok? && dr.value.0.Ref? && dr.value.0.id in dr.value.1.heap && dr.value.1.heap[dr.value.0.id].PlainObject?
    requires !OwnsKey(dr.value.1.heap[dr.value.0.id].props, StrKey(QCLASS))
    ensures var hid := NextId(cfg, ds);
      var ds3 := dr.value.1.(heap := dr.value.1.heap[hid := PlainObject([Prop(StrKey(QCLASS), Data(d.value.0, true))] +
                                                              dr.value.1.heap[dr.value.0.id].props, ObjectPrototype, false)]);
      hid in ds3.heap &&
      DecodeVal(cfg, slots, Tagged("hilbert", [("original", oj), ("rest", rj)]), ds) == Ok((Ref(hid), Finish(ds3, hid)))
  {
    var fields := [(QCLASS, JString("hilbert")), ("original", oj), ("rest", rj)];
    HilbertMembers(fields);
    assert fields[1..] == [("original", oj), ("rest", rj)];
    HilbertNode(cfg, slots, fields, ds);
  }

  /** The names of the first `i` properties. */
  function Names(props: seq<Prop>, i: nat): set<string>
    requires i <= |props| && forall k :: 0 <= k < |props| ==> props[k].key.StrKey?
  {
    if i == 0 then {} else Names(props, i - 1) + {props[i - 1].key.name}
  }

  lemma {:induction false} NamesExclude(props: seq<Prop>, i: nat, j: nat)
    requires i <= j < |props| && DistinctKeys(props) && forall k :: 0 <= k < |props| ==> props[k].key.StrKey?
    ensures props[j].key.name !in Names(props, i)
  {
    if i > 0 {
      NamesExclude(props, i - 1, j);
      assert KeyOf(props[i - 1]) != KeyOf(props[j]);
    }
  }

  /** The encoded fields of a record with distinct keys have distinct names. */
  lemma NamedDistinct(props: seq<Prop>, js: seq<Json>)
    requires |js| == |props| && DistinctKeys(props) && forall k :: 0 <= k < |props| ==> props[k].key.StrKey?
    ensures DistinctNames(Named(props, js))
  {
    var f := Named(props, js);
    forall a, b | 0 <= a < b < |f| ensures f[a].0 != f[b].0 {
      assert KeyOf(props[a]) != KeyOf(props[b]);
    }
  }

  /* ---------------- the induction ---------------- */

  lemma RtVal(c: Ctx, v: Val, st: EncState, ds: DecState)
    requires Pre(c, v, st, ds)
    ensures ValRoundTrips(c, v, st, ds)
    decreases Unvisited(c.h, st), 0, 0
  {
    if v.Ref? {
      if v.id in st.ibids {
        RtIbid(c, v, st, ds);
      } else {
        UnvisitedVisit(c.h, st, v.id, Visit(st, v.id));
        RtObject(c, v, st, ds);
      }
    } else if v.BigInt? {
      RtBigInt(c, v, st, ds);
    } else if v.Null? || v.Bool? || v.Str? || (v.Num? && (v.n.Finite? || v.n.NegZero?)) {
      RtScalar(c, v, st, ds);
    } else {
      RtTaggedScalar(c, v, st, ds);
    }
  }

  /** A value JSON represents directly decodes to itself, except `-0`. */
  lemma RtScalar(c: Ctx, v: Val, st: EncState, ds: DecState)
    requires Pre(c, v, st, ds) && (v.Null? || v.Bool? || v.Str? || (v.Num? && (v.n.Finite? || v.n.NegZero?)))
    ensures ValRoundTrips(c, v, st, ds)
  {
    var e := EncodeVal(c.h, c.ecfg, v, st);
    assert e.st == st;
    assert DecodeVal(c.dcfg, c.slots, e.result.value, ds) == Ok((ValImage(c, v), ds));
  }

  /** A value encoded as a bare `@qclass` tag decodes to itself. */
  lemma RtTaggedScalar(c: Ctx, v: Val, st: EncState, ds: DecState)
    requires Pre(c, v, st, ds) && !v.Ref? && !v.BigInt?
    requires !(v.Null? || v.Bool? || v.Str? || (v.Num? && (v.n.Finite? || v.n.NegZero?)))
    ensures ValRoundTrips(c, v, st, ds)
  {
    var e := EncodeVal(c.h, c.ecfg, v, st);
    assert e.st == st;
    assert DecodeVal(c.dcfg, c.slots, e.result.value, ds) == Ok((ValImage(c, v), ds));
  }

  lemma RtBigInt(c: Ctx, v: Val, st: EncState, ds: DecState)
    requires Pre(c, v, st, ds) && v.BigInt?
    ensures ValRoundTrips(c, v, st, ds)
  {
    var fields := [(QCLASS, JString("bigint")), ("digits", JString(Decimal.IntToDecimal(v.i)))];
    var e := EncodeVal(c.h, c.ecfg, v, st);
    assert e.result.value == JObject(fields) && e.st == st;
    FieldIndexOfDistinct(fields, 0);
    FieldIndexOfDistinct(fields, 1);
    Decimal.BigIntDigitsRoundTrip(v.i);
    assert DecodeVal(c.dcfg, c.slots, e.result.value, ds) == Ok((v, ds));
  }

  /** A revisited object comes back as the entry decoded for its first visit. */
  lemma RtIbid(c: Ctx, v: Val, st: EncState, ds: DecState)
    requires Pre(c, v, st, ds) && v.Ref? && v.id in st.ibids
    ensures ValRoundTrips(c, v, st, ds)
  {
    var n := st.ibids[v.id];
    var j := Tagged("ibid", [("index", JNumber(n as real))]);
    EncodeOkStyle(c.h, c.ecfg, v, st);
    EncodeRefShape(c.h, c.ecfg, v, st);
    assert EncodeVal(c.h, c.ecfg, v, st) == Encoded(Ok(j), st);
    DecodeIbidNode(c.dcfg, c.slots, n, ds);
    IbidPasses(c, v, st, ds);
    Conclude(c, v, st, ds, j, st);
  }

  /** The first visit of an object, by its pass style. */
  lemma RtObject(c: Ctx, v: Val, st: EncState, ds: DecState)
    requires Pre(c, v, st, ds) && v.Ref? && v.id !in st.ibids
    ensures ValRoundTrips(c, v, st, ds)
    decreases Unvisited(c.h, Visit(st, v.id)), 5, 0
  {
    EncodeOkStyle(c.h, c.ecfg, v, st);
    var style := PassStyleOf(c.h, v).value;
    if style == CopyArray {
      RtArray(c, v, st, ds);
    } else if style == CopyRecord {
      if QclassPos(c.h[v.id].props).None? {
        RtRecord(c, v, st, ds);
      } else {
        RtHilbert(c, v, st, ds);
      }
    } else if style == CopyError {
      RtError(c, v, st, ds);
    } else {
      SlottedIsStyle(c.h, v.id);
      RtSlot(c, v, st, ds);
    }
  }

  /** Changing only the slot list or the error counter keeps the mirror,
      as long as the slot list stays on the way to the final one. */
  lemma SyncRetag(c: Ctx, st: EncState, st': EncState, ds: DecState)
    requires Sync(c, st, ds) && st'.ibids == st.ibids && st'.count == st.count && Extends(c, st')
    ensures Sync(c, st', ds)
  {
  }

  /** The encoder's index for the object it visits now is the next one. */
  lemma VisitedIndex(c: Ctx, id: ObjId, st: EncState, st': EncState)
    requires id !in st.ibids && Grows(Visit(st, id), st') && Extends(c, st')
    ensures id in c.index && c.index[id] == st.count
  {
  }

  /** A copyRecord is sent by copy. */
  lemma RecordUnslotted(h: Heap, id: ObjId)
    requires id in h && IsCopyRecord(h[id])
    ensures !Slotted(h, id)
  {
  }

  /** An object sent by copy and visited now is decoded at the decoder's
      next identity. */
  lemma FreshImage(c: Ctx, id: ObjId, st: EncState, ds: DecState)
    requires Frame(c, st, ds) && id in c.h && !Slotted(c.h, id) && id in c.index && c.index[id] == st.count
    ensures RefImage(c, id) == Ref(NextId(c.dcfg, ds))
  {
  }

  /** The object visited now keeps the index it was given, the one the
      decoder's next identity stands for. */
  lemma VisitedAt(c: Ctx, id: ObjId, st: EncState, ds: DecState, st': EncState)
    requires Frame(c, st, ds) && id !in st.ibids && Grows(Visit(st, id), st')
    ensures id in st'.ibids && NextId(c.dcfg, ds) == c.dcfg.base + st'.ibids[id]
  {
  }

  /** The value of a data field refers only to objects in the heap. */
  lemma FieldRefs(h: Heap, props: seq<Prop>, p: nat)
    requires DataFields(h, props) && p < |props|
    ensures props[p].desc.Data? && RefsIn(h, props[p].desc.value)
  {
  }

  /** An encoded error decodes to a fresh frozen error of the same class
      and message. */
  lemma ErrorNodeRoundTrip(ecfg: EncConfig, dcfg: DecConfig, slots: seq<string>, o: Obj, st: EncState, ds: DecState)
    requires o.ErrorObject?
    ensures var n := NextId(dcfg, ds);
      DecodeVal(dcfg, slots, EncodeError(ecfg, o, st).result.value, ds) ==
      Ok((Ref(n), Register(ds.(heap := ds.heap[n := ErrorObject(o.kind, o.message, true)]), Ref(n))))
  {
    var tail := [("message", JString(o.message)), ("name", JString(ErrorName(o.kind)))];
    if ecfg.errorTagging {
      DecodeErrorNode(dcfg, slots, [("errorId", JString(ErrorId(ecfg.marshalName, st.errorIdNum + 1)))],
                      o.message, ErrorName(o.kind), ds);
    } else {
      DecodeErrorNode(dcfg, slots, [], o.message, ErrorName(o.kind), ds);
      assert [] + tail == tail;
    }
  }

  lemma RtError(c: Ctx, v: Val, st: EncState, ds: DecState)
    requires Pre(c, v, st, ds) && v.Ref? && v.id !in st.ibids && PassStyleOf(c.h, v) == Ok(CopyError)
    ensures ValRoundTrips(c, v, st, ds)
  {
    var id := v.id;
    var st1 := Visit(st, id);
    EncodeErrorShape(c.h, c.ecfg, v, st);
    var e := EncodeError(c.ecfg, c.h[id], st1);
    VisitedIndex(c, id, st, e.st);
    ErrorNodeRoundTrip(c.ecfg, c.dcfg, c.slots, c.h[id], st1, ds);
    var n := NextId(c.dcfg, ds);
    var ds' := Register(ds.(heap := ds.heap[n := ErrorObject(c.h[id].kind, c.h[id].message, true)]), Ref(n));
    SyncRegisterError(c, st, ds, id);
    SyncRetag(c, st1, e.st, ds');
    Conclude(c, v, st, ds, e.result.value, e.st);
  }

  /** The `iface` a slot reference for `id` carries. */
  function SlotIface(h: Heap, id: ObjId): Option<string>
    requires id in h
  {
    if PassStyleOf(h, Ref(id)) == Ok(Presence) then GetInterfaceOf(h, Ref(id)) else None
  }

  /** Remotables and promises: the slot pushed now is the one the decoder
      looks up. */
  lemma RtSlot(c: Ctx, v: Val, st: EncState, ds: DecState)
    requires Pre(c, v, st, ds) && v.Ref? && v.id !in st.ibids
    requires PassStyleOf(c.h, v) == Ok(Presence) || PassStyleOf(c.h, v) == Ok(PromiseStyle)
    requires Slotted(c.h, v.id)
    requires IfaceJson(c.h, v.id) == if SlotIface(c.h, v.id).Some? then Some(JString(SlotIface(c.h, v.id).value)) else None
    ensures ValRoundTrips(c, v, st, ds)
  {
    EncodeSlotShape(c.h, c.ecfg, v, st);
    var e := SlotRef(c.ecfg, v, SlotIface(c.h, v.id), Visit(st, v.id));
    VisitedIndex(c, v.id, st, e.st);
    SlotStep(c, v.id, SlotIface(c.h, v.id), st, ds);
    Conclude(c, v, st, ds, e.result.value, e.st);
  }

  lemma SlotStep(c: Ctx, id: ObjId, iface: Option<string>, st: EncState, ds: DecState)
    requires Sync(c, st, ds) && id in c.h && Slotted(c.h, id) && id !in st.ibids
    requires id in c.index && c.index[id] == st.count
    requires IfaceJson(c.h, id) == if iface.Some? then Some(JString(iface.value)) else None
    requires Extends(c, SlotRef(c.ecfg, Ref(id), iface, Visit(st, id)).st)
    ensures var e := SlotRef(c.ecfg, Ref(id), iface, Visit(st, id));
      DecodesTo(c, e.result.value, ds, RefImage(c, id), e.st)
  {
    var e := SlotRef(c.ecfg, Ref(id), iface, Visit(st, id));
    var k := |st.slots|;
    assert c.slots[k] == c.ecfg.toSlot(Ref(id));
    DecodeSlotNode(c.dcfg, c.slots, iface, k, ds);
    SyncRegisterSlot(c, st, ds, id);
    SyncRetag(c, Visit(st, id), e.st, Register(ds, RefImage(c, id)));
  }

  lemma RtArray(c: Ctx, v: Val, st: EncState, ds: DecState)
    requires Pre(c, v, st, ds) && v.Ref? && v.id !in st.ibids && PassStyleOf(c.h, v) == Ok(CopyArray)
    ensures ValRoundTrips(c, v, st, ds)
    decreases Unvisited(c.h, Visit(st, v.id)), 3, 0
  {
    EncodeArrayShape(c.h, c.ecfg, v, st);
    var r := EncodeElems(c.h, c.ecfg, c.h[v.id].elems, 0, Visit(st, v.id));
    VisitedIndex(c, v.id, st, r.st);
    ArrayStep(c, v.id, st, ds);
    Conclude(c, v, st, ds, JArray(r.result.value), r.st);
  }

  /** Only `id` holds the index `id` was given. */
  lemma IndexOwner(h: Heap, st: EncState, id: ObjId)
    requires StInv(h, st) && id in st.ibids
    ensures forall x :: x in st.ibids && st.ibids[x] == st.ibids[id] ==> x == id
  {
    forall x | x in st.ibids && st.ibids[x] == st.ibids[id] ensures x == id {
      assert IndexOf(st.ibids, x) == IndexOf(st.ibids, id);
    }
  }

  /** Finishing the decoded object `x` once it holds the image of the
      object the encoder visited at that index. */
  lemma SyncFinishVisited(c: Ctx, st: EncState, ds: DecState, id: ObjId, x: ObjId)
    requires Sync(c, st, ds) && StInv(c.h, st) && id in st.ibids && !Slotted(c.h, id)
    requires x == c.dcfg.base + st.ibids[id]
    requires x in ds.unfinished && x in ds.heap && ds.heap[x].(frozen := true) == ObjImage(c, c.h[id])
    ensures Sync(c, st, Finish(ds, x))
  {
    IndexOwner(c.h, st, id);
    SyncFinish(c, st, ds, st.ibids[id]);
  }

  /** An array visited now: started, filled in element by element, and
      finished as the image of the original. */
  lemma ArrayStep(c: Ctx, id: ObjId, st: EncState, ds: DecState)
    requires Env(c, Visit(st, id)) && Sync(c, st, ds) && id in c.h && c.h[id].ArrayObject? && id !in st.ibids
    requires Guard(c, st, ds, Ref(id))
    requires id in c.index && c.index[id] == st.count
    requires EncodeElems(c.h, c.ecfg, c.h[id].elems, 0, Visit(st, id)).result.Ok?
    requires Extends(c, EncodeElems(c.h, c.ecfg, c.h[id].elems, 0, Visit(st, id)).st)
    ensures var r := EncodeElems(c.h, c.ecfg, c.h[id].elems, 0, Visit(st, id));
      DecodesTo(c, JArray(r.result.value), ds, RefImage(c, id), r.st)
    decreases Unvisited(c.h, Visit(st, id)), 2, 1
  {
    var r := EncodeElems(c.h, c.ecfg, c.h[id].elems, 0, Visit(st, id));
    var js := r.result.value;
    var pid := NextId(c.dcfg, ds);
    ArrayFill(c, id, st, ds);
    var d := DecodeElems(c.dcfg, c.slots, JArray(js), 0, [], pid, Start(c.dcfg, ds, ArrayObject([], false)));
    DecodeArrayStep(c.dcfg, c.slots, js, ds, d);
    SyncFinishVisited(c, r.st, d.value.1, id, pid);
    NextFree(c, st, ds);
    assert RefImage(c, id) == Ref(pid);
    Close(c, JArray(js), ds, pid, Ref(pid), r.st, d.value.1);
  }

  lemma ArrayFill(c: Ctx, id: ObjId, st: EncState, ds: DecState)
    requires Env(c, Visit(st, id)) && Sync(c, st, ds) && id in c.h && c.h[id].ArrayObject? && id !in st.ibids
    requires Guard(c, st, ds, Ref(id))
    requires id in c.index && c.index[id] == st.count
    requires EncodeElems(c.h, c.ecfg, c.h[id].elems, 0, Visit(st, id)).result.Ok?
    requires Extends(c, EncodeElems(c.h, c.ecfg, c.h[id].elems, 0, Visit(st, id)).st)
    ensures var r := EncodeElems(c.h, c.ecfg, c.h[id].elems, 0, Visit(st, id));
      var pid := NextId(c.dcfg, ds);
      var d := DecodeElems(c.dcfg, c.slots, JArray(r.result.value), 0, [], pid, Start(c.dcfg, ds, ArrayObject([], false)));
      d.Ok? && Sync(c, r.st, d.value.1) && d.value.1.unfinished == ds.unfinished + {pid} &&
      pid in d.value.1.heap && d.value.1.heap[pid] == ArrayObject(ElemsImage(c, c.h[id].elems), false)
    decreases Unvisited(c.h, Visit(st, id)), 2, 0
  {
    var js := EncodeElems(c.h, c.ecfg, c.h[id].elems, 0, Visit(st, id)).result.value;
    ElemsStart(c, id, st, ds);
    RtElems(c, c.h[id].elems, js, 0, Visit(st, id), [], NextId(c.dcfg, ds), Start(c.dcfg, ds, ArrayObject([], false)));
  }

  /** The decoder stands ready before the first element. */
  lemma ElemsStart(c: Ctx, id: ObjId, st: EncState, ds: DecState)
    requires Env(c, Visit(st, id)) && Sync(c, st, ds) && id in c.h && c.h[id].ArrayObject? && id !in st.ibids
    requires Guard(c, st, ds, Ref(id))
    requires id in c.index && c.index[id] == st.count
    requires EncodeElems(c.h, c.ecfg, c.h[id].elems, 0, Visit(st, id)).result.Ok?
    requires Extends(c, EncodeElems(c.h, c.ecfg, c.h[id].elems, 0, Visit(st, id)).st)
    ensures var e := EncodeElems(c.h, c.ecfg, c.h[id].elems, 0, Visit(st, id));
      ElemsReady(c, c.h[id].elems, e.result.value, 0, Visit(st, id), [], NextId(c.dcfg, ds),
                 Start(c.dcfg, ds, ArrayObject([], false)))
  {
    var js := EncodeElems(c.h, c.ecfg, c.h[id].elems, 0, Visit(st, id)).result.value;
    assert js[0..] == js;
    SyncStartVisited(c, st, ds, id, ArrayObject([], false));
    ElemGuards(c, id, st, ds, ArrayObject([], false));
  }

  /** The identity the decoder hands out next is not an unfinished one. */
  lemma NextFree(c: Ctx, st: EncState, ds: DecState)
    requires Frame(c, st, ds)
    ensures NextId(c.dcfg, ds) !in ds.unfinished
  {
  }

  /** Finishing the object the decoder started for this node completes
      the step. */
  lemma Close(c: Ctx, j: Json, ds: DecState, pid: ObjId, img: Val, st: EncState, ds1: DecState)
    requires pid in ds1.heap && DecodeVal(c.dcfg, c.slots, j, ds) == Ok((img, Finish(ds1, pid)))
    requires Sync(c, st, Finish(ds1, pid))
    requires ds1.unfinished == ds.unfinished + {pid} && pid !in ds.unfinished
    ensures DecodesTo(c, j, ds, img, st)
  {
    assert Finish(ds1, pid).unfinished == ds.unfinished;
  }

  /** Where the decoder stands before element `i`: mirrored states, the
      rest of the elements still to encode to the rest of `js`, and the
      array under construction holding the images of the first `i`. */
  predicate ElemsReady(c: Ctx, elems: seq<Val>, js: seq<Json>, i: nat, st: EncState, acc: seq<Val>, pid: ObjId, ds: DecState) {
    Env(c, st) && Sync(c, st, ds) && Guards(c, elems, st, ds) &&
    (forall k :: 0 <= k < |elems| ==> RefsIn(c.h, elems[k])) &&
    i <= |elems| == |js| &&
    EncodeElems(c.h, c.ecfg, elems, i, st).result == Ok(js[i..]) &&
    Extends(c, EncodeElems(c.h, c.ecfg, elems, i, st).st) &&
    pid in ds.unfinished && pid in ds.heap && ds.heap[pid] == ArrayObject(acc, false) &&
    |acc| == i && forall k :: 0 <= k < i ==> acc[k] == ValImage(c, elems[k])
  }

  /** The elements from position `i` on: each decodes to its image and is
      stored into the array under construction. */
  lemma {:induction false} RtElems(c: Ctx, elems: seq<Val>, js: seq<Json>, i: nat, st: EncState, acc: seq<Val>, pid: ObjId, ds: DecState)
    requires ElemsReady(c, elems, js, i, st, acc, pid, ds)
    ensures var e := EncodeElems(c.h, c.ecfg, elems, i, st);
      var d := DecodeElems(c.dcfg, c.slots, JArray(js), i, acc, pid, ds);
      d.Ok? && d.value.0 == ElemsImage(c, elems) && Sync(c, e.st, d.value.1) &&
      d.value.1.unfinished == ds.unfinished && pid in d.value.1.heap &&
      d.value.1.heap[pid] == ArrayObject(ElemsImage(c, elems), false)
    decreases Unvisited(c.h, st), 1, |elems| - i, 2
  {
    if i == |elems| {
      assert acc == ElemsImage(c, elems);
    } else {
      var first := EncodeVal(c.h, c.ecfg, elems[i], st);
      ElemsStep(c, elems, js, i, st, acc, pid, ds);
      var d1 := DecodeVal(c.dcfg, c.slots, js[i], ds).value;
      RtElems(c, elems, js, i + 1, first.st, acc + [d1.0], pid,
              d1.1.(heap := d1.1.heap[pid := ArrayObject(acc + [d1.0], false)]));
    }
  }

  /** One element: it decodes to its image, the decoder then stands ready
      before the next one, and the rest of the array decodes as it would
      have from here. */
  lemma {:induction false} ElemsStep(c: Ctx, elems: seq<Val>, js: seq<Json>, i: nat, st: EncState, acc: seq<Val>, pid: ObjId, ds: DecState)
    requires ElemsReady(c, elems, js, i, st, acc, pid, ds) && i < |elems|
    ensures var first := EncodeVal(c.h, c.ecfg, elems[i], st);
      var d := DecodeVal(c.dcfg, c.slots, js[i], ds);
      d.Ok? && Unvisited(c.h, first.st) <= Unvisited(c.h, st) && d.value.1.unfinished == ds.unfinished &&
      var ds' := d.value.1.(heap := d.value.1.heap[pid := ArrayObject(acc + [d.value.0], false)]);
      ElemsReady(c, elems, js, i + 1, first.st, acc + [d.value.0], pid, ds') &&
      EncodeElems(c.h, c.ecfg, elems, i + 1, first.st).st == EncodeElems(c.h, c.ecfg, elems, i, st).st &&
      DecodeElems(c.dcfg, c.slots, JArray(js), i, acc, pid, ds) ==
      DecodeElems(c.dcfg, c.slots, JArray(js), i + 1, acc + [d.value.0], pid, ds')
    decreases Unvisited(c.h, st), 1, |elems| - i, 1
  {
    ElemsAdvance(c, elems, js, i, st, acc, pid, ds);
    DecodeElemsStep(c.dcfg, c.slots, js, i, acc, pid, ds);
  }

  /** The states after one element: the decoder stands ready before the
      next one. */
  lemma {:induction false} ElemsAdvance(c: Ctx, elems: seq<Val>, js: seq<Json>, i: nat, st: EncState, acc: seq<Val>, pid: ObjId, ds: DecState)
    requires ElemsReady(c, elems, js, i, st, acc, pid, ds) && i < |elems|
    ensures var first := EncodeVal(c.h, c.ecfg, elems[i], st);
      var d := DecodeVal(c.dcfg, c.slots, js[i], ds);
      d.Ok? && Unvisited(c.h, first.st) <= Unvisited(c.h, st) && d.value.1.unfinished == ds.unfinished &&
      var ds' := d.value.1.(heap := d.value.1.heap[pid := ArrayObject(acc + [d.value.0], false)]);
      ElemsReady(c, elems, js, i + 1, first.st, acc + [d.value.0], pid, ds') &&
      EncodeElems(c.h, c.ecfg, elems, i + 1, first.st).st == EncodeElems(c.h, c.ecfg, elems, i, st).st
    decreases Unvisited(c.h, st), 1, |elems| - i, 0
  {
    ElemsEnc(c, elems, js, i, st);
    assert Guard(c, st, ds, elems[i]);
    ElemHead(c, elems[i], js[i], st, acc, pid, ds);
    var first := EncodeVal(c.h, c.ecfg, elems[i], st);
    var d := DecodeVal(c.dcfg, c.slots, js[i], ds).value;
    var ds' := d.1.(heap := d.1.heap[pid := ArrayObject(acc + [d.0], false)]);
    assert Guards(c, elems, first.st, ds') by {
      GuardsKeep(c, elems, st, ds, first.st, ds');
    }
    assert pid in ds'.unfinished && ds'.heap[pid] == ArrayObject(acc + [d.0], false);
    ImagesSnoc(c, elems, acc, d.0);
  }

  /** The images of the first `|acc|` elements, followed by the image of
      the next one, are the images of one element more. */
  lemma ImagesSnoc(c: Ctx, elems: seq<Val>, acc: seq<Val>, x: Val)
    requires |acc| < |elems| && x == ValImage(c, elems[|acc|])
    requires forall k :: 0 <= k < |acc| ==> acc[k] == ValImage(c, elems[k])
    ensures forall k :: 0 <= k < |acc| + 1 ==> (acc + [x])[k] == ValImage(c, elems[k])
  {
  }

  /** The encoder's side of one more element. */
  lemma ElemsEnc(c: Ctx, elems: seq<Val>, js: seq<Json>, i: nat, st: EncState)
    requires Env(c, st) && forall k :: 0 <= k < |elems| ==> RefsIn(c.h, elems[k])
    requires i < |elems| == |js|
    requires EncodeElems(c.h, c.ecfg, elems, i, st).result == Ok(js[i..])
    requires Extends(c, EncodeElems(c.h, c.ecfg, elems, i, st).st)
    ensures var first := EncodeVal(c.h, c.ecfg, elems[i], st);
      var more := EncodeElems(c.h, c.ecfg, elems, i + 1, first.st);
      first.result == Ok(js[i]) && Env(c, first.st) && Extends(c, first.st) &&
      Unvisited(c.h, first.st) <= Unvisited(c.h, st) &&
      more.result == Ok(js[i + 1..]) && more.st == EncodeElems(c.h, c.ecfg, elems, i, st).st &&
      Extends(c, more.st)
  {
    EncodeElemsStep(c.h, c.ecfg, elems, i, st, js);
    var first := EncodeVal(c.h, c.ecfg, elems[i], st);
    UnvisitedMonotone(c.h, st, first.st);
    ExtendsBack(c, first.st, EncodeElems(c.h, c.ecfg, elems, i + 1, first.st).st);
  }

  /** An element decodes to its image, and writing the grown array keeps
      the mirror. */
  lemma ElemHead(c: Ctx, v: Val, j: Json, st: EncState, acc: seq<Val>, pid: ObjId, ds: DecState)
    requires Pre(c, v, st, ds) && pid in ds.unfinished && pid in ds.heap
    requires EncodeVal(c.h, c.ecfg, v, st).result == Ok(j)
    ensures var e := EncodeVal(c.h, c.ecfg, v, st);
      var d := DecodeVal(c.dcfg, c.slots, j, ds);
      d.Ok? && d.value.0 == ValImage(c, v) && d.value.1.unfinished == ds.unfinished &&
      pid in d.value.1.heap &&
      Sync(c, e.st, d.value.1.(heap := d.value.1.heap[pid := ArrayObject(acc + [d.value.0], false)]))
    decreases Unvisited(c.h, st), 0, 1
  {
    RtVal(c, v, st, ds);
    var e := EncodeVal(c.h, c.ecfg, v, st);
    var d := DecodeVal(c.dcfg, c.slots, j, ds).value;
    SyncWrite(c, e.st, d.1, pid, ArrayObject(acc + [d.0], false));
  }

  lemma RtRecord(c: Ctx, v: Val, st: EncState, ds: DecState)
    requires Pre(c, v, st, ds) && v.Ref? && v.id !in st.ibids && PassStyleOf(c.h, v) == Ok(CopyRecord)
    requires QclassPos(c.h[v.id].props).None?
    ensures ValRoundTrips(c, v, st, ds)
    decreases Unvisited(c.h, Visit(st, v.id)), 3, 0
  {
    EncodeRecordShape(c.h, c.ecfg, v, st);
    var r := EncodeFields(c.h, c.ecfg, c.h[v.id].props, Visit(st, v.id));
    VisitedIndex(c, v.id, st, r.st);
    RecordStep(c, v.id, st, ds);
    Conclude(c, v, st, ds, JObject(r.result.value), r.st);
  }

  /** A record visited now: started, filled in member by member, and
      finished as the image of the original. */
  lemma RecordStep(c: Ctx, id: ObjId, st: EncState, ds: DecState)
    requires Env(c, Visit(st, id)) && Sync(c, st, ds) && id in c.h && IsCopyRecord(c.h[id]) && id !in st.ibids
    requires Guard(c, st, ds, Ref(id))
    requires DataFields(c.h, c.h[id].props) && QclassPos(c.h[id].props).None?
    requires id in c.index && c.index[id] == st.count
    requires EncodeFields(c.h, c.ecfg, c.h[id].props, Visit(st, id)).result.Ok?
    requires Extends(c, EncodeFields(c.h, c.ecfg, c.h[id].props, Visit(st, id)).st)
    ensures var r := EncodeFields(c.h, c.ecfg, c.h[id].props, Visit(st, id));
      DecodesTo(c, JObject(r.result.value), ds, RefImage(c, id), r.st)
    decreases Unvisited(c.h, Visit(st, id)), 2, 1
  {
    var props := c.h[id].props;
    var r := EncodeFields(c.h, c.ecfg, props, Visit(st, id));
    var fields := r.result.value;
    var pid := NextId(c.dcfg, ds);
    RecordFill(c, id, st, ds);
    var d := DecodeFields(c.dcfg, c.slots, JObject(fields), 0, {}, [], pid, Start(c.dcfg, ds, PlainObject([], ObjectPrototype, false)));
    NoQclassMember(props, fields);
    DecodeRecordStep(c.dcfg, c.slots, fields, ds, d);
    SyncFinishRecord(c, r.st, d.value.1, id, pid);
    NextFree(c, st, ds);
    assert RefImage(c, id) == Ref(pid);
    Close(c, JObject(fields), ds, pid, Ref(pid), r.st, d.value.1);
  }

  /** Finishing a record under construction that holds the images of the
      original's properties keeps the mirror. */
  lemma SyncFinishRecord(c: Ctx, st: EncState, ds: DecState, id: ObjId, x: ObjId)
    requires Sync(c, st, ds) && StInv(c.h, st) && id in st.ibids && id in c.h && IsCopyRecord(c.h[id])
    requires QclassPos(c.h[id].props).None? && x == c.dcfg.base + st.ibids[id]
    requires x in ds.unfinished && x in ds.heap && ds.heap[x] == PlainObject(PropsImage(c, c.h[id].props), ObjectPrototype, false)
    ensures Sync(c, st, Finish(ds, x))
  {
    RecordUnslotted(c.h, id);
    RecordImage(c, c.h[id]);
    SyncFinishVisited(c, st, ds, id, x);
  }

  lemma RecordImage(c: Ctx, o: Obj)
    requires o.PlainObject? && QclassPos(o.props).None?
    ensures ObjImage(c, o) == PlainObject(PropsImage(c, o.props), ObjectPrototype, true)
  {
  }

  /** A record without `@qclass` encodes to members none of which is
      named `@qclass`. */
  lemma NoQclassMember(props: seq<Prop>, fields: seq<(string, Json)>)
    requires QclassPos(props).None? && |fields| == |props|
    requires forall k :: 0 <= k < |props| ==> props[k].key.StrKey? && fields[k].0 == props[k].key.name
    ensures FieldIndex(fields, QCLASS).None?
  {
  }

  lemma RecordFill(c: Ctx, id: ObjId, st: EncState, ds: DecState)
    requires Env(c, Visit(st, id)) && Sync(c, st, ds) && id in c.h && IsCopyRecord(c.h[id]) && id !in st.ibids
    requires Guard(c, st, ds, Ref(id))
    requires DataFields(c.h, c.h[id].props)
    requires id in c.index && c.index[id] == st.count
    requires EncodeFields(c.h, c.ecfg, c.h[id].props, Visit(st, id)).result.Ok?
    requires Extends(c, EncodeFields(c.h, c.ecfg, c.h[id].props, Visit(st, id)).st)
    ensures var r := EncodeFields(c.h, c.ecfg, c.h[id].props, Visit(st, id));
      var pid := NextId(c.dcfg, ds);
      var d := DecodeFields(c.dcfg, c.slots, JObject(r.result.value), 0, {}, [], pid,
                            Start(c.dcfg, ds, PlainObject([], ObjectPrototype, false)));
      d.Ok? && Sync(c, r.st, d.value.1) && d.value.1.unfinished == ds.unfinished + {pid} &&
      pid in d.value.1.heap && d.value.1.heap[pid] == PlainObject(PropsImage(c, c.h[id].props), ObjectPrototype, false)
    decreases Unvisited(c.h, Visit(st, id)), 2, 0
  {
    var st1 := Visit(st, id);
    var props := c.h[id].props;
    var js := EncodeElems(c.h, c.ecfg, PropValues(props), 0, st1).result.value;
    EncodeFieldsOpen(c.h, c.ecfg, props, st1);
    FieldsStart(c, id, st, ds);
    RtFields(c, props, js, 0, st1, {}, [], NextId(c.dcfg, ds), Start(c.dcfg, ds, PlainObject([], ObjectPrototype, false)));
  }

  /** The encoder's members are the encoded property values under their
      names, and the decoder stands ready before the first one. */
  lemma FieldsStart(c: Ctx, id: ObjId, st: EncState, ds: DecState)
    requires Env(c, Visit(st, id)) && Sync(c, st, ds) && id in c.h && IsCopyRecord(c.h[id]) && id !in st.ibids
    requires Guard(c, st, ds, Ref(id))
    requires DataFields(c.h, c.h[id].props)
    requires id in c.index && c.index[id] == st.count
    requires EncodeElems(c.h, c.ecfg, PropValues(c.h[id].props), 0, Visit(st, id)).result.Ok?
    requires Extends(c, EncodeElems(c.h, c.ecfg, PropValues(c.h[id].props), 0, Visit(st, id)).st)
    ensures var e := EncodeElems(c.h, c.ecfg, PropValues(c.h[id].props), 0, Visit(st, id));
      FieldsReady(c, c.h[id].props, e.result.value, 0, Visit(st, id), {}, [], NextId(c.dcfg, ds),
                  Start(c.dcfg, ds, PlainObject([], ObjectPrototype, false)))
  {
    var e := EncodeElems(c.h, c.ecfg, PropValues(c.h[id].props), 0, Visit(st, id));
    assert e.result.value[0..] == e.result.value;
    RecordUnslotted(c.h, id);
    SyncStartVisited(c, st, ds, id, PlainObject([], ObjectPrototype, false));
    PropGuards(c, id, st, ds, PlainObject([], ObjectPrototype, false));
  }

  /** The members are the encoded property values under their names. */
  lemma EncodeFieldsOpen(h: Heap, cfg: EncConfig, props: seq<Prop>, st: EncState)
    requires WfHeap(h) && StInv(h, st) && DataFields(h, props)
    requires EncodeFields(h, cfg, props, st).result.Ok?
    ensures var e := EncodeElems(h, cfg, PropValues(props), 0, st);
      var r := EncodeFields(h, cfg, props, st);
      e.result.Ok? && r.result == Ok(Named(props, e.result.value)) && r.st == e.st
  {
  }

  /** Where the decoder stands before member `i`: mirrored states, the
      rest of the values still to encode to the rest of `js`, the names
      seen so far, and the record under construction holding the images of
      the first `i` properties. */
  predicate FieldsReady(c: Ctx, props: seq<Prop>, js: seq<Json>, i: nat, st: EncState, seen: set<string>,
                        acc: seq<Prop>, pid: ObjId, ds: DecState) {
    Env(c, st) && Sync(c, st, ds) && DataFields(c.h, props) && Guards(c, PropValues(props), st, ds) &&
    DistinctKeys(props) && i <= |props| == |js| &&
    EncodeElems(c.h, c.ecfg, PropValues(props), i, st).result == Ok(js[i..]) &&
    Extends(c, EncodeElems(c.h, c.ecfg, PropValues(props), i, st).st) &&
    FieldsAcc(c, props, i, seen, acc, pid, ds)
  }

  /** The decoder's side of `FieldsReady`: the names seen and the record
      built so far. */
  predicate FieldsAcc(c: Ctx, props: seq<Prop>, i: nat, seen: set<string>, acc: seq<Prop>, pid: ObjId, ds: DecState)
    requires i <= |props| && forall k :: 0 <= k < |props| ==> props[k].key.StrKey?
  {
    seen == Names(props, i) &&
    pid in ds.unfinished && pid in ds.heap && ds.heap[pid] == PlainObject(acc, ObjectPrototype, false) &&
    |acc| == i && forall k :: 0 <= k < i ==> acc[k] == PropImage(c, props[k])
  }

  lemma {:induction false} RtFields(c: Ctx, props: seq<Prop>, js: seq<Json>, i: nat, st: EncState, seen: set<string>,
                 acc: seq<Prop>, pid: ObjId, ds: DecState)
    requires FieldsReady(c, props, js, i, st, seen, acc, pid, ds)
    ensures var e := EncodeElems(c.h, c.ecfg, PropValues(props), i, st);
      var d := DecodeFields(c.dcfg, c.slots, JObject(Named(props, js)), i, seen, acc, pid, ds);
      d.Ok? && d.value.0 == PropsImage(c, props) && Sync(c, e.st, d.value.1) &&
      d.value.1.unfinished == ds.unfinished && pid in d.value.1.heap &&
      d.value.1.heap[pid] == PlainObject(PropsImage(c, props), ObjectPrototype, false)
    decreases Unvisited(c.h, st), 1, |props| - i, 1
  {
    if i == |props| {
      assert acc == PropsImage(c, props);
    } else {
      var first := EncodeVal(c.h, c.ecfg, PropValues(props)[i], st);
      var name := props[i].key.name;
      FieldsStep(c, props, js, i, st, seen, acc, pid, ds);
      var d1 := DecodeVal(c.dcfg, c.slots, js[i], ds).value;
      var acc' := acc + [Prop(StrKey(name), Data(d1.0, true))];
      RtFields(c, props, js, i + 1, first.st, seen + {name}, acc', pid,
               d1.1.(heap := d1.1.heap[pid := PlainObject(acc', ObjectPrototype, false)]));
    }
  }

  /** One member: it decodes to its image, and the decoder then stands
      ready before the next one. */
  lemma {:induction false} FieldsStep(c: Ctx, props: seq<Prop>, js: seq<Json>, i: nat, st: EncState, seen: set<string>,
                   acc: seq<Prop>, pid: ObjId, ds: DecState)
    requires FieldsReady(c, props, js, i, st, seen, acc, pid, ds) && i < |props|
    ensures var first := EncodeVal(c.h, c.ecfg, PropValues(props)[i], st);
      var name := props[i].key.name;
      var d := DecodeVal(c.dcfg, c.slots, js[i], ds);
      d.Ok? && Unvisited(c.h, first.st) <= Unvisited(c.h, st) && d.value.1.unfinished == ds.unfinished &&
      var acc' := acc + [Prop(StrKey(name), Data(d.value.0, true))];
      var ds' := d.value.1.(heap := d.value.1.heap[pid := PlainObject(acc', ObjectPrototype, false)]);
      FieldsReady(c, props, js, i + 1, first.st, seen + {name}, acc', pid, ds') &&
      EncodeElems(c.h, c.ecfg, PropValues(props), i + 1, first.st).st == EncodeElems(c.h, c.ecfg, PropValues(props), i, st).st &&
      DecodeFields(c.dcfg, c.slots, JObject(Named(props, js)), i, seen, acc, pid, ds) ==
      DecodeFields(c.dcfg, c.slots, JObject(Named(props, js)), i + 1, seen + {name}, acc', pid, ds')
    decreases Unvisited(c.h, st), 1, |props| - i, 0
  {
    var fields := Named(props, js);
    var vals := PropValues(props);
    ElemsEnc(c, vals, js, i, st);
    var name := props[i].key.name;
    FieldFacts(c, props, js, i);
    assert Guard(c, st, ds, vals[i]);
    FieldHead(c, vals[i], js[i], name, st, acc, pid, ds);
    DecodeFieldsStep(c.dcfg, c.slots, fields, i, seen, acc, pid, ds);
    var first := EncodeVal(c.h, c.ecfg, vals[i], st);
    var d := DecodeVal(c.dcfg, c.slots, js[i], ds).value;
    var acc' := acc + [Prop(StrKey(name), Data(d.0, true))];
    GuardsKeep(c, vals, st, ds, first.st, d.1);
    ReadyNext(c, props, js, i, st, first.st, seen, acc, pid, ds, name, d.0, d.1);
  }

  /** Once member `i` is in, the decoder stands ready before member
      `i + 1`. */
  lemma ReadyNext(c: Ctx, props: seq<Prop>, js: seq<Json>, i: nat, st: EncState, st1: EncState, seen: set<string>,
                  acc: seq<Prop>, pid: ObjId, ds: DecState, name: string, v: Val, dd: DecState)
    requires DataFields(c.h, props) && DistinctKeys(props) && i < |props| == |js|
    requires FieldsAcc(c, props, i, seen, acc, pid, ds)
    requires name == props[i].key.name && PropImage(c, props[i]) == Prop(StrKey(name), Data(v, true))
    requires Env(c, st1) && EncodeElems(c.h, c.ecfg, PropValues(props), i + 1, st1).result == Ok(js[i + 1..])
    requires Extends(c, EncodeElems(c.h, c.ecfg, PropValues(props), i + 1, st1).st)
    requires dd.unfinished == ds.unfinished && pid in dd.heap && Guards(c, PropValues(props), st1, dd)
    requires Sync(c, st1, dd.(heap := dd.heap[pid := PlainObject(acc + [Prop(StrKey(name), Data(v, true))], ObjectPrototype, false)]))
    ensures FieldsReady(c, props, js, i + 1, st1, seen + {name}, acc + [Prop(StrKey(name), Data(v, true))], pid,
                        dd.(heap := dd.heap[pid := PlainObject(acc + [Prop(StrKey(name), Data(v, true))], ObjectPrototype, false)]))
  {
    AccGrows(c, props, acc, i, name, v);
    assert Names(props, i + 1) == seen + {name};
  }

  /** The record under construction, one image longer. */
  lemma AccGrows(c: Ctx, props: seq<Prop>, acc: seq<Prop>, i: nat, name: string, v: Val)
    requires |acc| == i < |props| && forall k :: 0 <= k < i ==> acc[k] == PropImage(c, props[k])
    requires PropImage(c, props[i]) == Prop(StrKey(name), Data(v, true))
    ensures var acc' := acc + [Prop(StrKey(name), Data(v, true))];
      forall k :: 0 <= k < i + 1 ==> acc'[k] == PropImage(c, props[k])
  {
  }

  /** What member `i` of an encoded record looks like to the decoder. */
  lemma FieldFacts(c: Ctx, props: seq<Prop>, js: seq<Json>, i: nat)
    requires DataFields(c.h, props) && DistinctKeys(props) && i < |props| == |js|
    ensures var fields := Named(props, js); var name := props[i].key.name;
      fields[i] == (name, js[i]) && name !in Names(props, i) && FieldIndex(fields, name) == Some(i) &&
      PropValues(props)[i] == props[i].desc.value && RefsIn(c.h, props[i].desc.value) &&
      PropImage(c, props[i]) == Prop(StrKey(name), Data(ValImage(c, props[i].desc.value), true))
  {
    NamesExclude(props, i, i);
    NamedDistinct(props, js);
    FieldIndexOfDistinct(Named(props, js), i);
  }

  /** A member decodes to its image, and writing the grown record keeps
      the mirror. */
  lemma FieldHead(c: Ctx, v: Val, j: Json, name: string, st: EncState, acc: seq<Prop>, pid: ObjId, ds: DecState)
    requires Pre(c, v, st, ds) && pid in ds.unfinished && pid in ds.heap
    requires EncodeVal(c.h, c.ecfg, v, st).result == Ok(j)
    ensures var e := EncodeVal(c.h, c.ecfg, v, st);
      var d := DecodeVal(c.dcfg, c.slots, j, ds);
      d.Ok? && d.value.0 == ValImage(c, v) && d.value.1.unfinished == ds.unfinished &&
      pid in d.value.1.heap &&
      Sync(c, e.st, d.value.1.(heap := d.value.1.heap[pid := PlainObject(acc + [Prop(StrKey(name), Data(d.value.0, true))], ObjectPrototype, false)]))
    decreases Unvisited(c.h, st), 0, 1
  {
    RtVal(c, v, st, ds);
    var e := EncodeVal(c.h, c.ecfg, v, st);
    var d := DecodeVal(c.dcfg, c.slots, j, ds).value;
    SyncWrite(c, e.st, d.1, pid, PlainObject(acc + [Prop(StrKey(name), Data(d.0, true))], ObjectPrototype, false));
  }

  /* ---------------- records owning `@qclass` ---------------- */

  lemma RtHilbert(c: Ctx, v: Val, st: EncState, ds: DecState)
    requires Pre(c, v, st, ds) && v.Ref? && v.id !in st.ibids && PassStyleOf(c.h, v) == Ok(CopyRecord)
    requires QclassPos(c.h[v.id].props).Some?
    ensures ValRoundTrips(c, v, st, ds)
    decreases Unvisited(c.h, Visit(st, v.id)), 4, 0
  {
    EncodeHilbertShape(c.h, c.ecfg, v, st);
    var props := c.h[v.id].props;
    var p := QclassPos(props).value;
    var r := EncodeHilbert(c.h, c.ecfg, props, p, Visit(st, v.id));
    VisitedIndex(c, v.id, st, r.st);
    if |Without(props, p)| == 0 {
      HilbertBareStep(c, v.id, st, ds, p);
    } else {
      HilbertRestStep(c, v.id, st, ds, p);
    }
    Conclude(c, v, st, ds, r.result.value, r.st);
  }

  /** The escape for a record whose only property is `@qclass`. */
  lemma HilbertBareStep(c: Ctx, id: ObjId, st: EncState, ds: DecState, p: nat)
    requires Env(c, Visit(st, id)) && Sync(c, st, ds) && id in c.h && IsCopyRecord(c.h[id]) && id !in st.ibids
    requires Guard(c, st, ds, Ref(id))
    requires DataFields(c.h, c.h[id].props) && QclassPos(c.h[id].props) == Some(p) && |Without(c.h[id].props, p)| == 0
    requires id in c.index && c.index[id] == st.count
    requires EncodeHilbert(c.h, c.ecfg, c.h[id].props, p, Visit(st, id)).result.Ok?
    requires Extends(c, EncodeHilbert(c.h, c.ecfg, c.h[id].props, p, Visit(st, id)).st)
    ensures var r := EncodeHilbert(c.h, c.ecfg, c.h[id].props, p, Visit(st, id));
      DecodesTo(c, r.result.value, ds, RefImage(c, id), r.st)
    decreases Unvisited(c.h, Visit(st, id)), 3, 0
  {
    EncodeHilbertBare(c.h, c.ecfg, c.h[id].props, p, Visit(st, id));
    HilbertOriginal(c, id, st, ds, p);
    HilbertBare(c, id, st, ds, p);
  }

  /** The escape for a record owning `@qclass` and more. */
  lemma HilbertRestStep(c: Ctx, id: ObjId, st: EncState, ds: DecState, p: nat)
    requires Env(c, Visit(st, id)) && Sync(c, st, ds) && id in c.h && IsCopyRecord(c.h[id]) && id !in st.ibids
    requires Guard(c, st, ds, Ref(id))
    requires DataFields(c.h, c.h[id].props) && QclassPos(c.h[id].props) == Some(p) && |Without(c.h[id].props, p)| > 0
    requires id in c.index && c.index[id] == st.count
    requires EncodeHilbert(c.h, c.ecfg, c.h[id].props, p, Visit(st, id)).result.Ok?
    requires Extends(c, EncodeHilbert(c.h, c.ecfg, c.h[id].props, p, Visit(st, id)).st)
    ensures var r := EncodeHilbert(c.h, c.ecfg, c.h[id].props, p, Visit(st, id));
      DecodesTo(c, r.result.value, ds, RefImage(c, id), r.st)
    decreases Unvisited(c.h, Visit(st, id)), 3, 0
  {
    var props := c.h[id].props;
    EncodeHilbertRest(c.h, c.ecfg, props, p, Visit(st, id));
    var o := EncodeVal(c.h, c.ecfg, props[p].desc.value, Visit(st, id));
    var f := EncodeFields(c.h, c.ecfg, Without(props, p), Reserve(c.h, o.st));
    UnvisitedMonotone(c.h, Visit(st, id), o.st);
    ExtendsBack(c, o.st, f.st);
    HilbertOriginal(c, id, st, ds, p);
    HilbertWithRest(c, id, st, ds, p);
  }

  /** The encoder on a record whose only property is `@qclass`. */
  lemma EncodeHilbertBare(h: Heap, cfg: EncConfig, props: seq<Prop>, p: nat, st: EncState)
    requires WfHeap(h) && StInv(h, st) && DataFields(h, props) && p < |props| && |Without(props, p)| == 0
    requires EncodeHilbert(h, cfg, props, p, st).result.Ok?
    ensures var o := EncodeVal(h, cfg, props[p].desc.value, st);
      o.result.Ok? && EncodeHilbert(h, cfg, props, p, st) == Encoded(Ok(Tagged("hilbert", [("original", o.result.value)])), o.st)
  {
  }

  /** The encoder on a record owning `@qclass` and more: the original,
      then the rest as a fresh record at the next index. */
  lemma EncodeHilbertRest(h: Heap, cfg: EncConfig, props: seq<Prop>, p: nat, st: EncState)
    requires WfHeap(h) && StInv(h, st) && DataFields(h, props) && p < |props| && |Without(props, p)| > 0
    requires EncodeHilbert(h, cfg, props, p, st).result.Ok?
    ensures DataFields(h, Without(props, p))
    ensures var o := EncodeVal(h, cfg, props[p].desc.value, st);
      var f := EncodeFields(h, cfg, Without(props, p), Reserve(h, o.st));
      var r := EncodeHilbert(h, cfg, props, p, st);
      o.result.Ok? && f.result.Ok? && f.st == r.st && Grows(o.st, f.st) &&
      r.result == Ok(Tagged("hilbert", [("original", o.result.value), ("rest", JObject(f.result.value))]))
  {
    var o := EncodeVal(h, cfg, props[p].desc.value, st);
    var st2 := Reserve(h, o.st);
    GrowsTrans(o.st, st2, EncodeFields(h, cfg, Without(props, p), st2).st);
  }

  /** The hilbert record is started at the object's index, and its
      original decodes to the image of the `@qclass` value. */
  lemma HilbertOriginal(c: Ctx, id: ObjId, st: EncState, ds: DecState, p: nat)
    requires Env(c, Visit(st, id)) && Sync(c, st, ds) && id in c.h && IsCopyRecord(c.h[id]) && id !in st.ibids
    requires Guard(c, st, ds, Ref(id))
    requires DataFields(c.h, c.h[id].props) && p < |c.h[id].props|
    requires id in c.index && c.index[id] == st.count
    requires EncodeVal(c.h, c.ecfg, c.h[id].props[p].desc.value, Visit(st, id)).result.Ok?
    requires Extends(c, EncodeVal(c.h, c.ecfg, c.h[id].props[p].desc.value, Visit(st, id)).st)
    ensures OrigDecoded(c, id, st, ds, p)
    decreases Unvisited(c.h, Visit(st, id)), 2, 0
  {
    var v := c.h[id].props[p].desc.value;
    var o := EncodeVal(c.h, c.ecfg, v, Visit(st, id));
    var ds0 := Start(c.dcfg, ds, PlainObject([], ObjectPrototype, false));
    OrigStart(c, id, st, ds, p);
    FieldHead(c, v, o.result.value, QCLASS, Visit(st, id), [], NextId(c.dcfg, ds), ds0);
    var d := DecodeVal(c.dcfg, c.slots, o.result.value, ds0);
    FirstField(c, o.st, d.value.1, NextId(c.dcfg, ds), Prop(StrKey(QCLASS), Data(d.value.0, true)));
  }

  lemma FirstField(c: Ctx, st: EncState, ds: DecState, pid: ObjId, q: Prop)
    requires Sync(c, st, ds.(heap := ds.heap[pid := PlainObject([] + [q], ObjectPrototype, false)]))
    ensures Sync(c, st, ds.(heap := ds.heap[pid := PlainObject([q], ObjectPrototype, false)]))
  {
    assert [] + [q] == [q];
  }

  /** The hilbert record is started where the encoder visits the record,
      and the original is about to be encoded and decoded. */
  lemma OrigStart(c: Ctx, id: ObjId, st: EncState, ds: DecState, p: nat)
    requires Env(c, Visit(st, id)) && Sync(c, st, ds) && id in c.h && IsCopyRecord(c.h[id]) && id !in st.ibids
    requires Guard(c, st, ds, Ref(id))
    requires DataFields(c.h, c.h[id].props) && p < |c.h[id].props|
    requires id in c.index && c.index[id] == st.count
    requires EncodeVal(c.h, c.ecfg, c.h[id].props[p].desc.value, Visit(st, id)).result.Ok?
    requires Extends(c, EncodeVal(c.h, c.ecfg, c.h[id].props[p].desc.value, Visit(st, id)).st)
    ensures var ds0 := Start(c.dcfg, ds, PlainObject([], ObjectPrototype, false));
      Pre(c, c.h[id].props[p].desc.value, Visit(st, id), ds0) &&
      NextId(c.dcfg, ds) in ds0.unfinished && NextId(c.dcfg, ds) in ds0.heap
  {
    FieldRefs(c.h, c.h[id].props, p);
    assert PropValues(c.h[id].props)[p] == c.h[id].props[p].desc.value;
    RecordUnslotted(c.h, id);
    SyncStartVisited(c, st, ds, id, PlainObject([], ObjectPrototype, false));
    PropGuards(c, id, st, ds, PlainObject([], ObjectPrototype, false));
  }

  /** Where the decoder stands once the original is in: the hilbert record
      holds `@qclass` alone and is still unfinished. */
  predicate OrigDecoded(c: Ctx, id: ObjId, st: EncState, ds: DecState, p: nat)
    requires Env(c, Visit(st, id)) && id in c.h && c.h[id].PlainObject? && id !in st.ibids
    requires DataFields(c.h, c.h[id].props) && p < |c.h[id].props|
  {
    var o := EncodeVal(c.h, c.ecfg, c.h[id].props[p].desc.value, Visit(st, id));
    var hid := NextId(c.dcfg, ds);
    o.result.Ok? &&
    var d := DecodeVal(c.dcfg, c.slots, o.result.value, Start(c.dcfg, ds, PlainObject([], ObjectPrototype, false)));
    d.Ok? && d.value.0 == ValImage(c, c.h[id].props[p].desc.value) &&
    d.value.1.unfinished == ds.unfinished + {hid} && hid in d.value.1.heap &&
    Sync(c, o.st, d.value.1.(heap := d.value.1.heap[hid := PlainObject([Prop(StrKey(QCLASS), Data(d.value.0, true))], ObjectPrototype, false)]))
  }

  /** A record whose only property is `@qclass`, finished. */
  lemma HilbertBare(c: Ctx, id: ObjId, st: EncState, ds: DecState, p: nat)
    requires Env(c, Visit(st, id)) && Sync(c, st, ds) && id in c.h && IsCopyRecord(c.h[id]) && id !in st.ibids
    requires DataFields(c.h, c.h[id].props) && QclassPos(c.h[id].props) == Some(p) && |Without(c.h[id].props, p)| == 0
    requires id in c.index && c.index[id] == st.count
    requires OrigDecoded(c, id, st, ds, p)
    requires Grows(Visit(st, id), EncodeVal(c.h, c.ecfg, c.h[id].props[p].desc.value, Visit(st, id)).st)
    ensures var o := EncodeVal(c.h, c.ecfg, c.h[id].props[p].desc.value, Visit(st, id));
      DecodesTo(c, Tagged("hilbert", [("original", o.result.value)]), ds, RefImage(c, id), o.st)
  {
    var props := c.h[id].props;
    var o := EncodeVal(c.h, c.ecfg, props[p].desc.value, Visit(st, id));
    var hid := NextId(c.dcfg, ds);
    var d := DecodeVal(c.dcfg, c.slots, o.result.value, Start(c.dcfg, ds, PlainObject([], ObjectPrototype, false)));
    var qprop := Prop(StrKey(QCLASS), Data(d.value.0, true));
    var ds1 := d.value.1.(heap := d.value.1.heap[hid := PlainObject([qprop], ObjectPrototype, false)]);
    DecodeHilbertOrig(c.dcfg, c.slots, o.result.value, ds, d);
    BareImage(c, c.h[id], p, d.value.0);
    RecordUnslotted(c.h, id);
    FreshImage(c, id, st, ds);
    VisitedAt(c, id, st, ds, o.st);
    SyncFinishVisited(c, o.st, ds1, id, hid);
    NextFree(c, st, ds);
    Close(c, Tagged("hilbert", [("original", o.result.value)]), ds, hid, Ref(hid), o.st, ds1);
  }

  /** The decoded counterpart of a record owning `@qclass` at `p`. */
  lemma HilbertImage(c: Ctx, o: Obj, p: nat, q: Val)
    requires IsCopyRecord(o) && QclassPos(o.props) == Some(p)
    requires q == ValImage(c, o.props[p].desc.value)
    ensures ObjImage(c, o) ==
      PlainObject([Prop(StrKey(QCLASS), Data(q, true))] + PropsImage(c, Without(o.props, p)), ObjectPrototype, true)
  {
  }

  /** The decoded counterpart of a record whose only property is
      `@qclass`. */
  lemma BareImage(c: Ctx, o: Obj, p: nat, q: Val)
    requires IsCopyRecord(o) && QclassPos(o.props) == Some(p) && |Without(o.props, p)| == 0
    requires q == ValImage(c, o.props[p].desc.value)
    ensures ObjImage(c, o) == PlainObject([Prop(StrKey(QCLASS), Data(q, true))], ObjectPrototype, true)
  {
    HilbertImage(c, o, p, q);
    assert [Prop(StrKey(QCLASS), Data(q, true))] + PropsImage(c, Without(o.props, p)) == [Prop(StrKey(QCLASS), Data(q, true))];
  }

  /** A record owning `@qclass` and more: the rest record is decoded, then
      the hilbert record takes on its properties and is finished. */
  lemma HilbertWithRest(c: Ctx, id: ObjId, st: EncState, ds: DecState, p: nat)
    requires Env(c, Visit(st, id)) && Sync(c, st, ds) && id in c.h && IsCopyRecord(c.h[id]) && id !in st.ibids
    requires Guard(c, st, ds, Ref(id))
    requires DataFields(c.h, c.h[id].props) && QclassPos(c.h[id].props) == Some(p) && |Without(c.h[id].props, p)| > 0
    requires id in c.index && c.index[id] == st.count
    requires OrigDecoded(c, id, st, ds, p)
    requires var o := EncodeVal(c.h, c.ecfg, c.h[id].props[p].desc.value, Visit(st, id));
      var f := EncodeFields(c.h, c.ecfg, Without(c.h[id].props, p), Reserve(c.h, o.st));
      Unvisited(c.h, o.st) <= Unvisited(c.h, Visit(st, id)) && f.result.Ok? && Extends(c, f.st) &&
      Grows(Visit(st, id), o.st)
    ensures var o := EncodeVal(c.h, c.ecfg, c.h[id].props[p].desc.value, Visit(st, id));
      var f := EncodeFields(c.h, c.ecfg, Without(c.h[id].props, p), Reserve(c.h, o.st));
      DecodesTo(c, Tagged("hilbert", [("original", o.result.value), ("rest", JObject(f.result.value))]), ds, RefImage(c, id), f.st)
    decreases Unvisited(c.h, Visit(st, id)), 2, 2
  {
    var props := c.h[id].props;
    var rest := Without(props, p);
    assert ClosedObj(c.h, c.h[id]);
    RestFacts(c.h, props, p);
    var o := EncodeVal(c.h, c.ecfg, props[p].desc.value, Visit(st, id));
    var f := EncodeFields(c.h, c.ecfg, rest, Reserve(c.h, o.st));
    var hid := NextId(c.dcfg, ds);
    var d := DecodeVal(c.dcfg, c.slots, o.result.value, Start(c.dcfg, ds, PlainObject([], ObjectPrototype, false)));
    var ds1 := d.value.1.(heap := d.value.1.heap[hid := PlainObject([Prop(StrKey(QCLASS), Data(d.value.0, true))], ObjectPrototype, false)]);
    RestGuards(c, id, st, ds, p, o.st, ds1);
    HilbertRest(c, rest, o.st, ds1);
    var rj := JObject(f.result.value);
    HilbertJoin(c, id, st, o.st, f.st, ds, p, o.result.value, rj, d, DecodeVal(c.dcfg, c.slots, rj, ds1));
  }

  /** The decoder side of a record owning `@qclass` and more: once the
      original and the rest are decoded, the hilbert record takes on the
      rest's properties and is finished as the image of the record. */
  lemma HilbertJoin(c: Ctx, id: ObjId, st: EncState, sto: EncState, stf: EncState, ds: DecState, p: nat,
                    oj: Json, rj: Json, d: Decoded<Val>, dr: Decoded<Val>)
    requires Env(c, Visit(st, id)) && Sync(c, st, ds) && id in c.h && IsCopyRecord(c.h[id]) && id !in st.ibids
    requires QclassPos(c.h[id].props) == Some(p) && QclassPos(Without(c.h[id].props, p)).None?
    requires id in c.index && c.index[id] == st.count
    requires Grows(Visit(st, id), sto) && StInv(c.h, sto) && Grows(Reserve(c.h, sto), stf) && StInv(c.h, stf)
    requires d == DecodeVal(c.dcfg, c.slots, oj, Start(c.dcfg, ds, PlainObject([], ObjectPrototype, false))) && d.Ok?
    requires d.value.0 == ValImage(c, c.h[id].props[p].desc.value)
    requires d.value.1.unfinished == ds.unfinished + {NextId(c.dcfg, ds)} && NextId(c.dcfg, ds) in d.value.1.heap
    requires var hid := NextId(c.dcfg, ds);
      var ds1 := d.value.1.(heap := d.value.1.heap[hid := PlainObject([Prop(StrKey(QCLASS), Data(d.value.0, true))], ObjectPrototype, false)]);
      var rid := NextId(c.dcfg, ds1);
      dr == DecodeVal(c.dcfg, c.slots, rj, ds1) &&
      dr.Ok? && dr.value.0 == Ref(rid) && Sync(c, stf, dr.value.1) && dr.value.1.unfinished == ds1.unfinished &&
      rid in dr.value.1.heap && dr.value.1.heap[rid] == PlainObject(PropsImage(c, Without(c.h[id].props, p)), ObjectPrototype, true)
    ensures DecodesTo(c, Tagged("hilbert", [("original", oj), ("rest", rj)]), ds, RefImage(c, id), stf)
  {
    var rest := Without(c.h[id].props, p);
    var hid := NextId(c.dcfg, ds);
    var qprop := Prop(StrKey(QCLASS), Data(d.value.0, true));
    var img := PlainObject([qprop] + PropsImage(c, rest), ObjectPrototype, false);
    NoOwnQclass(c, rest);
    DecodeHilbertRest(c.dcfg, c.slots, oj, rj, ds, d, dr);
    HilbertImage(c, c.h[id], p, d.value.0);
    RecordUnslotted(c.h, id);
    FreshImage(c, id, st, ds);
    HilbertClose(c, id, st, sto, stf, ds, dr.value.1, img);
    Close(c, Tagged("hilbert", [("original", oj), ("rest", rj)]), ds, hid, Ref(hid), stf,
          dr.value.1.(heap := dr.value.1.heap[hid := img]));
  }

  /** Writing the completed hilbert record and finishing it keeps the
      mirror. */
  lemma HilbertClose(c: Ctx, id: ObjId, st: EncState, sto: EncState, stf: EncState, ds: DecState, ds2: DecState, o: Obj)
    requires Env(c, Visit(st, id)) && Sync(c, st, ds) && id in c.h && id !in st.ibids && !Slotted(c.h, id)
    requires Grows(Visit(st, id), sto) && StInv(c.h, sto) && Grows(Reserve(c.h, sto), stf) && StInv(c.h, stf)
    requires Sync(c, stf, ds2) && NextId(c.dcfg, ds) in ds2.unfinished && NextId(c.dcfg, ds) in ds2.heap
    requires o.(frozen := true) == ObjImage(c, c.h[id]) && |ds.ibids| == st.count
    ensures var hid := NextId(c.dcfg, ds);
      var ds3 := ds2.(heap := ds2.heap[hid := o]);
      hid in ds3.heap && Sync(c, stf, Finish(ds3, hid)) && hid !in ds.unfinished
  {
    var hid := NextId(c.dcfg, ds);
    SyncWrite(c, stf, ds2, hid, o);
    GrowsTrans(Visit(st, id), sto, Reserve(c.h, sto));
    GrowsTrans(Visit(st, id), Reserve(c.h, sto), stf);
    SyncFinishVisited(c, stf, ds2.(heap := ds2.heap[hid := o]), id, hid);
    NextFree(c, st, ds);
  }

  /** The images of properties none of which is `@qclass` own no
      `@qclass`. */
  lemma NoOwnQclass(c: Ctx, props: seq<Prop>)
    requires QclassPos(props).None?
    ensures !OwnsKey(PropsImage(c, props), StrKey(QCLASS))
  {
    var img := PropsImage(c, props);
    forall i | 0 <= i < |img| ensures img[i].key != StrKey(QCLASS) {
      assert img[i].key == props[i].key;
    }
  }

  /** The rest of a hilbert record: a fresh record at the next index,
      decoded to a frozen record holding the images of its properties. */
  lemma HilbertRest(c: Ctx, rest: seq<Prop>, st: EncState, ds: DecState)
    requires Env(c, st) && Sync(c, st, ds) && DataFields(c.h, rest) && DistinctKeys(rest)
    requires Guards(c, PropValues(rest), st, ds) && QclassPos(rest).None?
    requires EncodeFields(c.h, c.ecfg, rest, Reserve(c.h, st)).result.Ok?
    requires Extends(c, EncodeFields(c.h, c.ecfg, rest, Reserve(c.h, st)).st)
    ensures var f := EncodeFields(c.h, c.ecfg, rest, Reserve(c.h, st));
      var rid := NextId(c.dcfg, ds);
      var d := DecodeVal(c.dcfg, c.slots, JObject(f.result.value), ds);
      d.Ok? && d.value.0 == Ref(rid) && Sync(c, f.st, d.value.1) && d.value.1.unfinished == ds.unfinished &&
      rid in d.value.1.heap && d.value.1.heap[rid] == PlainObject(PropsImage(c, rest), ObjectPrototype, true)
    decreases Unvisited(c.h, st), 2, 1
  {
    var st2 := Reserve(c.h, st);
    var f := EncodeFields(c.h, c.ecfg, rest, st2);
    var fields := f.result.value;
    var rid := NextId(c.dcfg, ds);
    RestFill(c, rest, st, ds);
    var d := DecodeFields(c.dcfg, c.slots, JObject(fields), 0, {}, [], rid, Start(c.dcfg, ds, PlainObject([], ObjectPrototype, false)));
    NoQclassMember(rest, fields);
    DecodeRecordStep(c.dcfg, c.slots, fields, ds, d);
    RestClose(c, st, f.st, ds, d.value.1);
  }

  /** Finishing the rest record, started at the next identity, keeps the
      mirror. */
  lemma RestClose(c: Ctx, st: EncState, stf: EncState, ds: DecState, dd: DecState)
    requires Sync(c, st, ds) && StInv(c.h, st) && Grows(Reserve(c.h, st), stf) && Sync(c, stf, dd)
    requires NextId(c.dcfg, ds) in dd.unfinished && NextId(c.dcfg, ds) in dd.heap
    ensures Sync(c, stf, Finish(dd, NextId(c.dcfg, ds))) && NextId(c.dcfg, ds) !in ds.unfinished
  {
    NextFree(c, st, ds);
    SyncFinishFresh(c, st, stf, dd);
  }

  lemma RestFill(c: Ctx, rest: seq<Prop>, st: EncState, ds: DecState)
    requires Env(c, st) && Sync(c, st, ds) && DataFields(c.h, rest) && DistinctKeys(rest)
    requires Guards(c, PropValues(rest), st, ds)
    requires EncodeFields(c.h, c.ecfg, rest, Reserve(c.h, st)).result.Ok?
    requires Extends(c, EncodeFields(c.h, c.ecfg, rest, Reserve(c.h, st)).st)
    ensures var f := EncodeFields(c.h, c.ecfg, rest, Reserve(c.h, st));
      var rid := NextId(c.dcfg, ds);
      var d := DecodeFields(c.dcfg, c.slots, JObject(f.result.value), 0, {}, [], rid,
                            Start(c.dcfg, ds, PlainObject([], ObjectPrototype, false)));
      d.Ok? && Sync(c, f.st, d.value.1) && d.value.1.unfinished == ds.unfinished + {rid} &&
      rid in d.value.1.heap && d.value.1.heap[rid] == PlainObject(PropsImage(c, rest), ObjectPrototype, false)
    decreases Unvisited(c.h, st), 2, 0
  {
    var st2 := Reserve(c.h, st);
    var js := EncodeElems(c.h, c.ecfg, PropValues(rest), 0, st2).result.value;
    EncodeFieldsOpen(c.h, c.ecfg, rest, st2);
    FreshFieldsStart(c, rest, st, ds);
    RtFields(c, rest, js, 0, st2, {}, [], NextId(c.dcfg, ds), Start(c.dcfg, ds, PlainObject([], ObjectPrototype, false)));
  }

  lemma FreshFieldsStart(c: Ctx, rest: seq<Prop>, st: EncState, ds: DecState)
    requires Env(c, st) && Sync(c, st, ds) && DataFields(c.h, rest) && DistinctKeys(rest)
    requires Guards(c, PropValues(rest), st, ds)
    requires EncodeElems(c.h, c.ecfg, PropValues(rest), 0, Reserve(c.h, st)).result.Ok?
    requires Extends(c, EncodeElems(c.h, c.ecfg, PropValues(rest), 0, Reserve(c.h, st)).st)
    ensures var e := EncodeElems(c.h, c.ecfg, PropValues(rest), 0, Reserve(c.h, st));
      FieldsReady(c, rest, e.result.value, 0, Reserve(c.h, st), {}, [], NextId(c.dcfg, ds),
                  Start(c.dcfg, ds, PlainObject([], ObjectPrototype, false)))
  {
    var js := EncodeElems(c.h, c.ecfg, PropValues(rest), 0, Reserve(c.h, st)).result.value;
    assert js[0..] == js;
    SyncStartFresh(c, st, ds, PlainObject([], ObjectPrototype, false));
    GuardsFresh(c, PropValues(rest), st, ds, PlainObject([], ObjectPrototype, false));
  }

  /** Finishing the fresh object at index `st.count`, which no visited
      object owns, keeps the mirror. */
  lemma SyncFinishFresh(c: Ctx, st: EncState, st': EncState, ds: DecState)
    requires Sync(c, st', ds) && StInv(c.h, st) && Grows(Reserve(c.h, st), st')
    requires c.dcfg.base + st.count in ds.unfinished && c.dcfg.base + st.count in ds.heap
    ensures Sync(c, st', Finish(ds, c.dcfg.base + st.count))
  {
    forall id | id in st'.ibids ensures st'.ibids[id] != st.count {
      if id in st.ibids {
        assert st.ibids[id] < st.count;
      }
    }
    SyncFinish(c, st', ds, st.count);
  }

  /* ---------------- one serialize/unserialize call ---------------- */

  /** The renaming of one `serialize` call: the encoder's final ibid table
      and slot list. */
  function CallCtx(h: Heap, ecfg: EncConfig, dcfg: DecConfig, v: Val, n: nat, rank: ObjId -> nat): (c: Ctx)
    requires WfHeap(h) && RefsIn(h, v)
    ensures c.h == h && c.ecfg == ecfg && c.dcfg == dcfg && c.rank == rank && c.index.Keys <= h.Keys
  {
    var e := EncodeVal(h, ecfg, v, EncState(map[], 0, [], n));
    Ctx(h, e.st.ibids, e.st.slots, ecfg, dcfg, rank)
  }

  /** The empty states of a fresh call mirror each other. */
  lemma SyncEmpty(c: Ctx, n: nat)
    requires BaseClear(c.dcfg)
    ensures Sync(c, EncState(map[], 0, [], n), DecState(c.dcfg.imports, [], {}))
  {
  }

  /** The round trip of `serialize` into `unserialize`: whatever passable
      graph serializes, unserialize succeeds on the resulting body and
      slots and rebuilds the image of the graph.  Under `ForbidCycles`, the
      default, this takes a call whose visited objects have no cycle
      through objects sent by copy (witnessed by `rank`) and a bridge that
      hands back presences for the slots of the call.
      The root comes back as the image of the root; the object visited
      `i`-th and sent by copy comes back frozen, at identity `base + i`, as
      its image; an imported object changes at most by being frozen. */
  lemma SerializeRoundTrip(h: Heap, ecfg: EncConfig, dcfg: DecConfig, v: Val, n: nat, rank: ObjId -> nat)
    requires WfHeap(h) && RefsIn(h, v) && Serialize(h, ecfg, v, n).0.Ok?
    requires dcfg.policy == ForbidCycles ==>
      var visited := CallCtx(h, ecfg, dcfg, v, n, rank).index;
      Ranked(h, visited, rank) && SlotsImported(h, visited, ecfg, dcfg)
    requires BaseClear(dcfg)
    ensures var c := CallCtx(h, ecfg, dcfg, v, n, rank);
      var u := Unserialize(dcfg, Serialize(h, ecfg, v, n).0.value);
      u.Ok? && u.value.1 == ValImage(c, v) &&
      (forall id :: id in c.index && !Slotted(c.h, id) ==>
         dcfg.base + c.index[id] in u.value.0 && u.value.0[dcfg.base + c.index[id]] == ObjImage(c, h[id])) &&
      (forall x :: x in dcfg.imports ==> x in u.value.0 && u.value.0[x] == dcfg.imports[x].(frozen := u.value.0[x].frozen))
  {
    var c := CallCtx(h, ecfg, dcfg, v, n, rank);
    RoundTripCall(c, v, n);
    var u := Unserialize(dcfg, Serialize(h, ecfg, v, n).0.value);
    assert Restored(c, v, u);
  }

  /** What unserializing hands back for `v`: its image, every object sent
      by copy in place, and the imports changed at most by being frozen. */
  predicate Restored(c: Ctx, v: Val, u: Result<(Heap, Val), MarshalError>) {
    u.Ok? && u.value.1 == ValImage(c, v) &&
    (forall id :: id in c.index && id in c.h && !Slotted(c.h, id) ==>
       c.dcfg.base + c.index[id] in u.value.0 && u.value.0[c.dcfg.base + c.index[id]] == ObjImage(c, c.h[id])) &&
    (forall x :: x in c.dcfg.imports ==> x in u.value.0 && u.value.0[x] == c.dcfg.imports[x].(frozen := u.value.0[x].frozen))
  }

  /** The theorem, over the renaming of the call. */
  lemma RoundTripCall(c: Ctx, v: Val, n: nat)
    requires WfHeap(c.h) && RefsIn(c.h, v) && c == CallCtx(c.h, c.ecfg, c.dcfg, v, n, c.rank)
    requires Serialize(c.h, c.ecfg, v, n).0.Ok?
    requires c.dcfg.policy == ForbidCycles ==> Ranked(c.h, c.index, c.rank) && SlotsImported(c.h, c.index, c.ecfg, c.dcfg)
    requires BaseClear(c.dcfg)
    ensures Restored(c, v, Unserialize(c.dcfg, Serialize(c.h, c.ecfg, v, n).0.value))
  {
    var st := EncState(map[], 0, [], n);
    SyncEmpty(c, n);
    RtVal(c, v, st, DecState(c.dcfg.imports, [], {}));
    Unserialized(c, v, n);
  }

  /** The decoder's side of one call, once the step lemma has run. */
  lemma Unserialized(c: Ctx, v: Val, n: nat)
    requires Env(c, EncState(map[], 0, [], n)) && RefsIn(c.h, v)
    requires c == CallCtx(c.h, c.ecfg, c.dcfg, v, n, c.rank)
    requires ValRoundTrips(c, v, EncState(map[], 0, [], n), DecState(c.dcfg.imports, [], {}))
    ensures Serialize(c.h, c.ecfg, v, n).0.Ok? &&
      Restored(c, v, Unserialize(c.dcfg, Serialize(c.h, c.ecfg, v, n).0.value))
  {
    var e := EncodeVal(c.h, c.ecfg, v, EncState(map[], 0, [], n));
    var d := DecodeVal(c.dcfg, c.slots, e.result.value, DecState(c.dcfg.imports, [], {}));
    AllFinished(c, e.st, d.value.1);
  }

  /** Once nothing is unfinished, every object sent by copy is in place. */
  lemma AllFinished(c: Ctx, st: EncState, ds: DecState)
    requires Sync(c, st, ds) && ds.unfinished == {} && c.index == st.ibids
    ensures forall id :: id in c.index && !Slotted(c.h, id) ==>
      c.dcfg.base + c.index[id] in ds.heap && ds.heap[c.dcfg.base + c.index[id]] == ObjImage(c, c.h[id])
    ensures forall x :: x in c.dcfg.imports ==> x in ds.heap && ds.heap[x] == c.dcfg.imports[x]
  {
  }
}
