/**
 * The marshal's behaviour on the values its tests pin down: the scalar
 * entries of the round-trip table, `-0`, unsupported symbols, non-frozen
 * objects, a self-referential array under each cycle policy, the hilbert
 * escape, malformed `@qclass` nodes, and error decoding.
 */
module MarshalExamples {
  import opened Wrappers
  import opened Passable
  import opened JsonTree
  import opened Encoder
  import opened Decoder
  import opened RoundTripProof
  import Decimal
  import Marshaller

  /* ---------------- values the classifier rejects ---------------- */

  /** Serializing a value whose pass style is an error reports that error
      and leaves the error counter alone. */
  lemma SerializeRejects(h: Heap, cfg: EncConfig, v: Val, n: nat)
    requires WfHeap(h) && RefsIn(h, v) && PassStyleOf(h, v).Err?
    ensures Serialize(h, cfg, v, n) == (Err(PassStyleOf(h, v).error), n)
  {
  }

  /** Only `Symbol.asyncIterator` passes: registered symbols, fresh
      symbols and other well-known symbols are unsupported. */
  lemma UnsupportedSymbols(h: Heap, cfg: EncConfig, n: nat, k: nat)
    requires WfHeap(h)
    ensures Serialize(h, cfg, Symbol(Registered("sym1")), n).0 == Err(UnsupportedSymbol(Registered("sym1")))
    ensures Serialize(h, cfg, Symbol(Unique(k)), n).0 == Err(UnsupportedSymbol(Unique(k)))
    ensures Serialize(h, cfg, Symbol(WellKnown("iterator")), n).0 == Err(UnsupportedSymbol(WellKnown("iterator")))
  {
    SerializeRejects(h, cfg, Symbol(Registered("sym1")), n);
    SerializeRejects(h, cfg, Symbol(Unique(k)), n);
    SerializeRejects(h, cfg, Symbol(WellKnown("iterator")), n);
  }

  /** An object that is not frozen cannot be passed. */
  lemma NonFrozenRejected(h: Heap, cfg: EncConfig, id: ObjId, n: nat)
    requires WfHeap(h) && id in h && !h[id].frozen
    ensures Serialize(h, cfg, Ref(id), n) == (Err(NonFrozen), n)
  {
    SerializeRejects(h, cfg, Ref(id), n);
  }

  /** `-0` is sent as `0`: both give body `0` and no slots. */
  lemma NegativeZero(h: Heap, cfg: EncConfig, n: nat)
    requires WfHeap(h)
    ensures Serialize(h, cfg, Num(NegZero), n) == Serialize(h, cfg, Num(Finite(0.0)), n)
    ensures Serialize(h, cfg, Num(NegZero), n) == (Ok(CapData(JNumber(0.0), [])), n)
  {
  }

  /* ---------------- scalar entries of the round-trip table ---------------- */

  /** A scalar entry of the round-trip table: `v` serializes to body `j`
      with no slots, leaving the error counter alone, and `j` with no
      slots unserializes to `v`, allocating nothing. */
  predicate ScalarPair(h: Heap, cfg: EncConfig, dcfg: DecConfig, n: nat, v: Val, j: Json)
    requires BaseClear(dcfg)
    requires WfHeap(h) && RefsIn(h, v)
  {
    Serialize(h, cfg, v, n) == (Ok(CapData(j, [])), n) &&
    Unserialize(dcfg, CapData(j, [])) == Ok((dcfg.imports, v))
  }

  /** Simple JSON data encodes as itself. */
  lemma JsonScalars(h: Heap, cfg: EncConfig, dcfg: DecConfig, n: nat)
    requires BaseClear(dcfg)
    requires WfHeap(h)
    ensures ScalarPair(h, cfg, dcfg, n, Bool(true), JBool(true))
    ensures ScalarPair(h, cfg, dcfg, n, Num(Finite(1.0)), JNumber(1.0))
    ensures ScalarPair(h, cfg, dcfg, n, Str("abc"), JString("abc"))
    ensures ScalarPair(h, cfg, dcfg, n, Null, JNull)
  {
  }

  lemma UndefinedPair(h: Heap, cfg: EncConfig, dcfg: DecConfig, n: nat)
    requires BaseClear(dcfg)
    requires WfHeap(h)
    ensures ScalarPair(h, cfg, dcfg, n, Undefined, Tagged("undefined", []))
  {
  }

  lemma NaNPair(h: Heap, cfg: EncConfig, dcfg: DecConfig, n: nat)
    requires BaseClear(dcfg)
    requires WfHeap(h)
    ensures ScalarPair(h, cfg, dcfg, n, Num(NaN), Tagged("NaN", []))
  {
  }

  lemma InfinityPair(h: Heap, cfg: EncConfig, dcfg: DecConfig, n: nat)
    requires BaseClear(dcfg)
    requires WfHeap(h)
    ensures ScalarPair(h, cfg, dcfg, n, Num(Infinity), Tagged("Infinity", []))
  {
  }

  lemma NegInfinityPair(h: Heap, cfg: EncConfig, dcfg: DecConfig, n: nat)
    requires BaseClear(dcfg)
    requires WfHeap(h)
    ensures ScalarPair(h, cfg, dcfg, n, Num(NegInfinity), Tagged("-Infinity", []))
  {
  }

  /** The one supported symbol. */
  lemma AsyncIteratorPair(h: Heap, cfg: EncConfig, dcfg: DecConfig, n: nat)
    requires BaseClear(dcfg)
    requires WfHeap(h)
    ensures ScalarPair(h, cfg, dcfg, n, Symbol(ASYNC_ITERATOR), Tagged("@@asyncIterator", []))
  {
  }

  lemma SmallBigIntPair(h: Heap, cfg: EncConfig, dcfg: DecConfig, n: nat)
    requires BaseClear(dcfg)
    requires WfHeap(h)
    ensures ScalarPair(h, cfg, dcfg, n, BigInt(4), Tagged("bigint", [("digits", JString("4"))]))
  {
    assert Decimal.IntToDecimal(4) == "4";
    DecodeBigint(dcfg, 4);
  }

  /** A bigint no double can hold keeps all its digits. */
  lemma LargeBigIntPair(h: Heap, cfg: EncConfig, dcfg: DecConfig, n: nat)
    requires BaseClear(dcfg)
    requires WfHeap(h)
    ensures ScalarPair(h, cfg, dcfg, n, BigInt(9007199254740993),
                       Tagged("bigint", [("digits", JString("9007199254740993"))]))
  {
    LargeDigits();
    DecodeBigint(dcfg, 9007199254740993);
  }

  lemma LargeDigits()
    ensures Decimal.IntToDecimal(9007199254740993) == "9007199254740993"
  {
    assert Decimal.NatToDecimal(9) == "9";
    assert Decimal.NatToDecimal(90) == "90";
    assert Decimal.NatToDecimal(900) == "900";
    assert Decimal.NatToDecimal(9007) == "9007";
    assert Decimal.NatToDecimal(90071) == "90071";
    assert Decimal.NatToDecimal(900719) == "900719";
    assert Decimal.NatToDecimal(9007199) == "9007199";
    assert Decimal.NatToDecimal(90071992) == "90071992";
    assert Decimal.NatToDecimal(900719925) == "900719925";
    assert Decimal.NatToDecimal(9007199254) == "9007199254";
    assert Decimal.NatToDecimal(90071992547) == "90071992547";
    assert Decimal.NatToDecimal(900719925474) == "900719925474";
    assert Decimal.NatToDecimal(9007199254740) == "9007199254740";
    assert Decimal.NatToDecimal(90071992547409) == "90071992547409";
    assert Decimal.NatToDecimal(900719925474099) == "900719925474099";
    assert Decimal.NatToDecimal(9007199254740993) == "9007199254740993";
  }

  /** A bigint node decodes through the digits its encoder wrote. */
  lemma DecodeBigint(dcfg: DecConfig, i: int)
    requires BaseClear(dcfg)
    ensures Unserialize(dcfg, CapData(Tagged("bigint", [("digits", JString(Decimal.IntToDecimal(i)))]), [])) ==
      Ok((dcfg.imports, BigInt(i)))
  {
    var fields := [(QCLASS, JString("bigint")), ("digits", JString(Decimal.IntToDecimal(i)))];
    assert Tagged("bigint", [("digits", JString(Decimal.IntToDecimal(i)))]) == JObject(fields);
    FieldIndexOfDistinct(fields, 0);
    FieldIndexOfDistinct(fields, 1);
    Decimal.BigIntDigitsRoundTrip(i);
    var ds := DecState(dcfg.imports, [], {});
    assert DecodeVal(dcfg, [], JObject(fields), ds) == Ok((BigInt(i), ds));
  }

  /* ---------------- a self-referential array ---------------- */

  function Ibid(n: nat): Json {
    Tagged("ibid", [("index", JNumber(n as real))])
  }

  /** `["a", <the array itself>, "c"]` on the wire. */
  function CycleBody(): Json {
    JArray([JString("a"), Ibid(0), JString("c")])
  }

  /** The inner occurrence of the array is a back-reference to index 0. */
  lemma SerializeCycle(h: Heap, cfg: EncConfig, id: ObjId, n: nat)
    requires WfHeap(h) && id in h && h[id] == ArrayObject([Str("a"), Ref(id), Str("c")], true)
    ensures Serialize(h, cfg, Ref(id), n) == (Ok(CapData(CycleBody(), [])), n)
  {
    assert [JString("a")] + ([Ibid(0)] + ([JString("c")] + [])) == [JString("a"), Ibid(0), JString("c")];
    var elems := h[id].elems;
    var st0 := EncState(map[], 0, [], n);
    var st1 := Visit(st0, id);
    assert PassStyleOf(h, Ref(id)) == Ok(CopyArray);
    EncodeArrayShape(h, cfg, Ref(id), st0);
    ElemCons(h, cfg, elems, 0, st1);
    IbidRef(h, cfg, id, st1);
    ElemCons(h, cfg, elems, 1, st1);
    ElemCons(h, cfg, elems, 2, st1);
    assert EncodeElems(h, cfg, elems, 3, st1) == Encoded(Ok([]), st1);
  }

  /** An object seen before in this call encodes as an ibid. */
  lemma IbidRef(h: Heap, cfg: EncConfig, id: ObjId, st: EncState)
    requires WfHeap(h) && id in h && StInv(h, st) && id in st.ibids && PassStyleOf(h, Ref(id)).Ok?
    ensures EncodeVal(h, cfg, Ref(id), st) == Encoded(Ok(Ibid(st.ibids[id])), st)
  {
  }

  /** One array element, then the rest from the state it leaves. */
  lemma ElemCons(h: Heap, cfg: EncConfig, elems: seq<Val>, i: nat, st: EncState)
    requires WfHeap(h) && StInv(h, st) && i < |elems| && forall k :: 0 <= k < |elems| ==> RefsIn(h, elems[k])
    ensures var first := EncodeVal(h, cfg, elems[i], st);
      first.result.Ok? ==>
      var m := EncodeElems(h, cfg, elems, i + 1, first.st);
      EncodeElems(h, cfg, elems, i, st) ==
      Encoded(if m.result.Ok? then Ok([first.result.value] + m.result.value) else m.result, m.st)
  {
  }

  /** A decoded object that is filled in again keeps only its last
      contents; the examples below compare whole heaps with it. */
  lemma Refill(m: Heap, id: ObjId, a: Obj, b: Obj)
    ensures m[id := a][id := b] == m[id := b]
  {
  }

  /** Forbidding cycles, the back-reference to the array still being
      filled in is an error. */
  lemma ForbidCycle(cfg: DecConfig)
    requires BaseClear(cfg)
    requires cfg.policy == ForbidCycles
    ensures Unserialize(cfg, CapData(CycleBody(), [])) == Err(IbidCycle(0))
  {
    var js := CycleBody().elems;
    var ds0 := DecState(cfg.imports, [], {});
    var id := NextId(cfg, ds0);
    var s := Start(cfg, ds0, ArrayObject([], false));
    DecodeElemsStep(cfg, [], js, 0, [], id, s);
    assert [] + [Str("a")] == [Str("a")];
    var s1 := s.(heap := s.heap[id := ArrayObject([Str("a")], false)]);
    DecodeIbidNode(cfg, [], 0, s1);
    ElemFails(cfg, [], js, 1, [Str("a")], id, s1);
    ArrayFails(cfg, [], js, ds0);
  }

  /** An element that fails to decode fails the array from there on. */
  lemma ElemFails(cfg: DecConfig, slots: seq<string>, js: seq<Json>, i: nat, acc: seq<Val>, pid: ObjId, ds: DecState)
    requires i < |js| && pid in ds.heap && pid < NextId(cfg, ds) && DecodeVal(cfg, slots, js[i], ds).Err?
    ensures DecodeElems(cfg, slots, JArray(js), i, acc, pid, ds) == Err(DecodeVal(cfg, slots, js[i], ds).error)
  {
  }

  lemma ArrayFails(cfg: DecConfig, slots: seq<string>, js: seq<Json>, ds: DecState)
    requires DecodeElems(cfg, slots, JArray(js), 0, [], NextId(cfg, ds), Start(cfg, ds, ArrayObject([], false))).Err?
    ensures DecodeVal(cfg, slots, JArray(js), ds) ==
      Err(DecodeElems(cfg, slots, JArray(js), 0, [], NextId(cfg, ds), Start(cfg, ds, ArrayObject([], false))).error)
  {
  }

  /** Warning of or allowing cycles, the array comes back containing
      itself. */
  lemma AllowCycle(cfg: DecConfig)
    requires BaseClear(cfg)
    requires cfg.policy != ForbidCycles
    ensures var u := Unserialize(cfg, CapData(CycleBody(), []));
      u.Ok? && u.value.1 == Ref(cfg.base) &&
      u.value.0 == cfg.imports[cfg.base := ArrayObject([Str("a"), Ref(cfg.base), Str("c")], true)]
  {
    var j := CycleBody();
    var o := ArrayObject([Str("a"), Ref(cfg.base), Str("c")], true);
    assert DecodedOne(cfg, j, o) by {
      var ds0 := DecState(cfg.imports, [], {});
      var s := Start(cfg, ds0, ArrayObject([], false));
      var a3 := [Str("a"), Ref(cfg.base), Str("c")];
      CycleElems(cfg, cfg.base, s);
      var d := DecodeElems(cfg, [], CycleBody(), 0, [], cfg.base, s);
      DecodeArrayStep(cfg, [], CycleBody().elems, ds0, d);
      Refill(cfg.imports, cfg.base, ArrayObject([], false), ArrayObject(a3, false));
      Refill(cfg.imports, cfg.base, ArrayObject(a3, false), ArrayObject(a3, true));
    }
    UnserializeOne(cfg, j, o);
  }

  lemma CycleElems(cfg: DecConfig, id: ObjId, ds: DecState)
    requires cfg.policy != ForbidCycles && id in ds.heap && id < NextId(cfg, ds) && ds.ibids == [Ref(id)]
    ensures DecodeElems(cfg, [], CycleBody(), 0, [], id, ds) ==
      Ok(([Str("a"), Ref(id), Str("c")], ds.(heap := ds.heap[id := ArrayObject([Str("a"), Ref(id), Str("c")], false)])))
  {
    var a1 := [Str("a")];
    DecodeElemsStep(cfg, [], CycleBody().elems, 0, [], id, ds);
    assert [] + [Str("a")] == a1;
    CycleTail(cfg, id, ds);
  }

  /** The second and third elements: the back-reference, then `'c'`. */
  lemma CycleTail(cfg: DecConfig, id: ObjId, ds: DecState)
    requires cfg.policy != ForbidCycles && id in ds.heap && id < NextId(cfg, ds) && ds.ibids == [Ref(id)]
    ensures DecodeElems(cfg, [], CycleBody(), 1, [Str("a")], id, ds.(heap := ds.heap[id := ArrayObject([Str("a")], false)])) ==
      Ok(([Str("a"), Ref(id), Str("c")], ds.(heap := ds.heap[id := ArrayObject([Str("a"), Ref(id), Str("c")], false)])))
  {
    var js := CycleBody().elems;
    var a1, a2, a3 := [Str("a")], [Str("a"), Ref(id)], [Str("a"), Ref(id), Str("c")];
    var s1 := ds.(heap := ds.heap[id := ArrayObject(a1, false)]);
    var s2 := ds.(heap := ds.heap[id := ArrayObject(a2, false)]);
    var s3 := ds.(heap := ds.heap[id := ArrayObject(a3, false)]);
    DecodeIbidNode(cfg, [], 0, s1);
    DecodeElemsStep(cfg, [], js, 1, a1, id, s1);
    assert a1 + [Ref(id)] == a2;
    Refill(ds.heap, id, ArrayObject(a1, false), ArrayObject(a2, false));
    DecodeElemsStep(cfg, [], js, 2, a2, id, s2);
    assert a2 + [Str("c")] == a3;
    Refill(ds.heap, id, ArrayObject(a2, false), ArrayObject(a3, false));
    assert DecodeElems(cfg, [], CycleBody(), 3, a3, id, s3) == Ok((a3, s3));
  }

  /* ---------------- the hilbert escape ---------------- */

  /** The `@qclass` property of a record, holding `v`. */
  function QProp(v: Val): Prop {
    Prop(StrKey(QCLASS), Data(v, true))
  }

  /** `{"@qclass": 8}` is escaped as a hilbert node with no rest. */
  lemma SerializeQclassEight(h: Heap, cfg: EncConfig, id: ObjId, n: nat)
    requires WfHeap(h) && id in h && h[id] == PlainObject([QProp(Num(Finite(8.0)))], ObjectPrototype, true)
    ensures Serialize(h, cfg, Ref(id), n) == (Ok(CapData(Tagged("hilbert", [("original", JNumber(8.0))]), [])), n)
  {
    var st0 := EncState(map[], 0, [], n);
    assert IsCopyRecord(h[id]);
    assert QclassPos(h[id].props) == Some(0);
    EncodeHilbertShape(h, cfg, Ref(id), st0);
    assert Without(h[id].props, 0) == [];
  }

  /** ... and decodes back to a frozen record holding 8 under `@qclass`. */
  lemma UnserializeQclassEight(cfg: DecConfig)
    requires BaseClear(cfg)
    ensures Unserialize(cfg, CapData(Tagged("hilbert", [("original", JNumber(8.0))]), [])) ==
      Ok((cfg.imports[cfg.base := PlainObject([QProp(Num(Finite(8.0)))], ObjectPrototype, true)], Ref(cfg.base)))
  {
    var j := Tagged("hilbert", [("original", JNumber(8.0))]);
    var o := PlainObject([QProp(Num(Finite(8.0)))], ObjectPrototype, true);
    assert DecodedOne(cfg, j, o) by {
      var ds0 := DecState(cfg.imports, [], {});
      var s := Start(cfg, ds0, PlainObject([], ObjectPrototype, false));
      var d := DecodeVal(cfg, [], JNumber(8.0), s);
      assert d == Ok((Num(Finite(8.0)), s));
      DecodeHilbertOrig(cfg, [], JNumber(8.0), ds0, d);
      var o0 := PlainObject([QProp(Num(Finite(8.0)))], ObjectPrototype, false);
      Refill(cfg.imports, cfg.base, PlainObject([], ObjectPrototype, false), o0);
      Refill(cfg.imports, cfg.base, o0, o);
    }
    UnserializeOne(cfg, j, o);
  }

  /** A record whose `@qclass` property is the record itself: the original
      is a back-reference to index 0. */
  lemma SerializeSelfQclass(h: Heap, cfg: EncConfig, id: ObjId, n: nat)
    requires WfHeap(h) && id in h && h[id] == PlainObject([QProp(Ref(id))], ObjectPrototype, true)
    ensures Serialize(h, cfg, Ref(id), n) == (Ok(CapData(Tagged("hilbert", [("original", Ibid(0))]), [])), n)
  {
    var st0 := EncState(map[], 0, [], n);
    assert IsCopyRecord(h[id]);
    assert QclassPos(h[id].props) == Some(0);
    EncodeHilbertShape(h, cfg, Ref(id), st0);
    IbidRef(h, cfg, id, Visit(st0, id));
    assert Without(h[id].props, 0) == [];
  }

  /** The decoding half of `UnserializeSelfQclass`. */
  lemma SelfQclassDecoded(cfg: DecConfig)
    requires BaseClear(cfg)
    requires cfg.policy != ForbidCycles
    ensures DecodedOne(cfg, Tagged("hilbert", [("original", Ibid(0))]), PlainObject([QProp(Ref(cfg.base))], ObjectPrototype, true))
  {
    var ds0 := DecState(cfg.imports, [], {});
    var s := Start(cfg, ds0, PlainObject([], ObjectPrototype, false));
    DecodeIbidNode(cfg, [], 0, s);
    var d := DecodeVal(cfg, [], Ibid(0), s);
    DecodeHilbertOrig(cfg, [], Ibid(0), ds0, d);
    var o0 := PlainObject([QProp(Ref(cfg.base))], ObjectPrototype, false);
    Refill(cfg.imports, cfg.base, PlainObject([], ObjectPrototype, false), o0);
    Refill(cfg.imports, cfg.base, o0, PlainObject(o0.props, ObjectPrototype, true));
  }

  /** Allowing cycles, that node decodes to a record that is its own
      `@qclass`. */
  lemma UnserializeSelfQclass(cfg: DecConfig)
    requires BaseClear(cfg)
    requires cfg.policy != ForbidCycles
    ensures Unserialize(cfg, CapData(Tagged("hilbert", [("original", Ibid(0))]), [])) ==
      Ok((cfg.imports[cfg.base := PlainObject([QProp(Ref(cfg.base))], ObjectPrototype, true)], Ref(cfg.base)))
  {
    var j := Tagged("hilbert", [("original", Ibid(0))]);
    var o := PlainObject([QProp(Ref(cfg.base))], ObjectPrototype, true);
    SelfQclassDecoded(cfg);
    UnserializeOne(cfg, j, o);
  }

  /** A rest that turns out to own `@qclass` is refused: here the rest is
      a back-reference to the hilbert record itself. */
  lemma RestDefiningQclass(cfg: DecConfig)
    requires BaseClear(cfg)
    requires cfg.policy != ForbidCycles
    ensures Unserialize(cfg, CapData(Tagged("hilbert", [("original", JNumber(8.0)), ("rest", Ibid(0))]), [])) ==
      Err(RestDefinesQclass)
  {
    var ds0 := DecState(cfg.imports, [], {});
    var s := Start(cfg, ds0, PlainObject([], ObjectPrototype, false));
    var d := DecodeVal(cfg, [], JNumber(8.0), s);
    assert d == Ok((Num(Finite(8.0)), s));
    var ds1 := s.(heap := s.heap[cfg.base := PlainObject([QProp(Num(Finite(8.0)))], ObjectPrototype, false)]);
    DecodeIbidNode(cfg, [], 0, ds1);
    assert ds1.heap[cfg.base].props[0].key == StrKey(QCLASS);
    HilbertRestOwnsQclass(cfg, [], JNumber(8.0), Ibid(0), ds0, d, DecodeVal(cfg, [], Ibid(0), ds1));
  }

  /** A hilbert node whose rest decodes to a record owning `@qclass`. */
  lemma HilbertRestOwnsQclass(cfg: DecConfig, slots: seq<string>, oj: Json, rj: Json, ds: DecState, d: Decoded<Val>, dr: Decoded<Val>)
    requires d == DecodeVal(cfg, slots, oj, Start(cfg, ds, PlainObject([], ObjectPrototype, false))) && d.Ok?
    requires var hid := NextId(cfg, ds);
      dr == DecodeVal(cfg, slots, rj, d.value.1.(heap := d.value.1.heap[hid := PlainObject([QProp(d.value.0)], ObjectPrototype, false)]))
    requires dr.Ok? && dr.value.0.Ref? && dr.value.0.id in dr.value.1.heap && dr.value.1.heap[dr.value.0.id].PlainObject?
    requires OwnsKey(dr.value.1.heap[dr.value.0.id].props, StrKey(QCLASS))
    ensures DecodeVal(cfg, slots, Tagged("hilbert", [("original", oj), ("rest", rj)]), ds) == Err(RestDefinesQclass)
  {
    var fields := [(QCLASS, JString("hilbert")), ("original", oj), ("rest", rj)];
    HilbertMembers(fields);
    assert fields[1..] == [("original", oj), ("rest", rj)];
    HilbertNode(cfg, slots, fields, ds);
  }

  /** `{"@qclass": 0}`: a tag that is not a string. */
  lemma NumericQclass(cfg: DecConfig)
    requires BaseClear(cfg)
    ensures Unserialize(cfg, CapData(JObject([(QCLASS, JNumber(0.0))]), [])) == Err(InvalidQclass)
  {
    var fields := [(QCLASS, JNumber(0.0))];
    FieldIndexOfDistinct(fields, 0);
    TaggedNode(cfg, [], fields, DecState(cfg.imports, [], {}));
  }

  /* ---------------- errors ---------------- */

  /** Decoding an error node rebuilds a frozen error of the named class,
      plain `Error` for a name it does not know. */
  lemma UnserializeError(cfg: DecConfig, message: string, name: string)
    requires BaseClear(cfg)
    ensures Unserialize(cfg, CapData(Tagged("error", [("message", JString(message)), ("name", JString(name))]), [])) ==
      Ok((cfg.imports[cfg.base := ErrorObject(ErrorKindNamed(name), message, true)], Ref(cfg.base)))
  {
    var j := Tagged("error", [("message", JString(message)), ("name", JString(name))]);
    var o := ErrorObject(ErrorKindNamed(name), message, true);
    assert DecodedOne(cfg, j, o) by {
      var tail := [("message", JString(message)), ("name", JString(name))];
      var ds0 := DecState(cfg.imports, [], {});
      var id := NextId(cfg, ds0);
      DecodeErrorNode(cfg, [], [], message, name, ds0);
      UnserializeOk(cfg, Tagged("error", [] + tail), Ref(id), Register(ds0.(heap := ds0.heap[id := o]), Ref(id)));
      assert [] + tail == tail;
      assert id == cfg.base;
    }
    UnserializeOne(cfg, j, o);
  }

  /** A body without slots whose decoding succeeds, hardened. */
  lemma UnserializeOk(cfg: DecConfig, j: Json, v: Val, ds: DecState)
    requires BaseClear(cfg)
    requires DecodeVal(cfg, [], j, DecState(cfg.imports, [], {})) == Ok((v, ds))
    ensures Unserialize(cfg, CapData(j, [])) == Ok((Harden(ds.heap, v), v))
  {
  }

  /** Decoding `j` allocates one object, `o`, and returns it. */
  predicate DecodedOne(cfg: DecConfig, j: Json, o: Obj) {
    var d := DecodeVal(cfg, [], j, DecState(cfg.imports, [], {}));
    d.Ok? && d.value.0 == Ref(cfg.base) && d.value.1.heap == cfg.imports[cfg.base := o]
  }

  /** Such a body unserializes to that object, which hardening leaves as
      it is when it is frozen and refers to nothing but itself. */
  lemma UnserializeOne(cfg: DecConfig, j: Json, o: Obj)
    requires BaseClear(cfg) && DecodedOne(cfg, j, o)
    requires o.frozen && forall c :: c in Children(o) ==> c == cfg.base
    ensures Unserialize(cfg, CapData(j, [])) == Ok((cfg.imports[cfg.base := o], Ref(cfg.base)))
  {
    HardenOne(cfg.imports[cfg.base := o], cfg.base);
  }

  /** A frozen object referring to nothing but itself hardens to itself. */
  lemma HardenOne(h: Heap, id: ObjId)
    requires id in h && h[id].frozen && forall c :: c in Children(h[id]) && c in h ==> c == id
    ensures Harden(h, Ref(id)) == h
  {
    HardenIdle(h, Ref(id), {id});
  }

  lemma ErrorClasses()
    ensures ErrorKindNamed("ReferenceError") == ReferenceError
    ensures ErrorKindNamed("TypeError") == TypeError
    ensures ErrorKindNamed("Unknown") == PlainError
  {
  }

  /** With error tagging on, the n-th error serialized carries the id
      `error:<marshal name>#<n>`, and the counter moves on by one. */
  lemma SerializeTaggedError(h: Heap, cfg: EncConfig, id: ObjId, kind: ErrorKind, message: string, n: nat)
    requires WfHeap(h) && id in h && h[id] == ErrorObject(kind, message, true) && cfg.errorTagging
    ensures Serialize(h, cfg, Ref(id), n) ==
      (Ok(CapData(Tagged("error", [("errorId", JString(ErrorId(cfg.marshalName, n + 1))),
                                   ("message", JString(message)), ("name", JString(ErrorName(kind)))]), [])), n + 1)
  {
    EncodeErrorShape(h, cfg, Ref(id), EncState(map[], 0, [], n));
    var tail := [("message", JString(message)), ("name", JString(ErrorName(kind)))];
    assert [("errorId", JString(ErrorId(cfg.marshalName, n + 1)))] + tail ==
      [("errorId", JString(ErrorId(cfg.marshalName, n + 1))), tail[0], tail[1]];
  }

  /** With tagging off an error is its message and name only, and that
      decodes back to an error of the same class. */
  lemma UntaggedErrorPair(h: Heap, cfg: EncConfig, dcfg: DecConfig, id: ObjId, kind: ErrorKind, message: string, n: nat)
    requires BaseClear(dcfg)
    requires WfHeap(h) && id in h && h[id] == ErrorObject(kind, message, true) && !cfg.errorTagging
    ensures var body := Tagged("error", [("message", JString(message)), ("name", JString(ErrorName(kind)))]);
      Serialize(h, cfg, Ref(id), n) == (Ok(CapData(body, [])), n) &&
      Unserialize(dcfg, CapData(body, [])) ==
        Ok((dcfg.imports[dcfg.base := ErrorObject(kind, message, true)], Ref(dcfg.base)))
  {
    EncodeErrorShape(h, cfg, Ref(id), EncState(map[], 0, [], n));
    UnserializeError(dcfg, message, ErrorName(kind));
    assert ErrorKindNamed(ErrorName(kind)) == kind;
  }

  lemma DefaultErrorIds()
    ensures ErrorId("anon-marshal", 1) == "error:anon-marshal#1"
    ensures ErrorId("anon-marshal", 2) == "error:anon-marshal#2"
  {
    assert Decimal.NatToDecimal(1) == "1";
    assert Decimal.NatToDecimal(2) == "2";
  }

  /* ---------------- arrays ---------------- */

  lemma ArrayPair(h: Heap, cfg: EncConfig, dcfg: DecConfig, id: ObjId, n: nat)
    requires BaseClear(dcfg)
    requires WfHeap(h) && id in h && h[id] == ArrayObject([Num(Finite(1.0)), Num(Finite(2.0))], true)
    ensures Serialize(h, cfg, Ref(id), n) == (Ok(CapData(JArray([JNumber(1.0), JNumber(2.0)]), [])), n)
    ensures Unserialize(dcfg, CapData(JArray([JNumber(1.0), JNumber(2.0)]), [])) ==
      Ok((dcfg.imports[dcfg.base := ArrayObject([Num(Finite(1.0)), Num(Finite(2.0))], true)], Ref(dcfg.base)))
  {
    var elems := h[id].elems;
    var st0 := EncState(map[], 0, [], n);
    var st1 := Visit(st0, id);
    EncodeArrayShape(h, cfg, Ref(id), st0);
    ElemCons(h, cfg, elems, 0, st1);
    ElemCons(h, cfg, elems, 1, st1);
    assert EncodeElems(h, cfg, elems, 2, st1) == Encoded(Ok([]), st1);
    assert [JNumber(1.0)] + ([JNumber(2.0)] + []) == [JNumber(1.0), JNumber(2.0)];
    DecodePairArray(dcfg);
  }

  /** The decoding half of `DecodePairArray`. */
  lemma PairArrayDecoded(cfg: DecConfig)
    requires BaseClear(cfg)
    ensures DecodedOne(cfg, JArray([JNumber(1.0), JNumber(2.0)]), ArrayObject([Num(Finite(1.0)), Num(Finite(2.0))], true))
  {
    var js := [JNumber(1.0), JNumber(2.0)];
    var ds0 := DecState(cfg.imports, [], {});
    var s := Start(cfg, ds0, ArrayObject([], false));
    var a1, a2 := [Num(Finite(1.0))], [Num(Finite(1.0)), Num(Finite(2.0))];
    var s1 := s.(heap := s.heap[cfg.base := ArrayObject(a1, false)]);
    var s2 := s.(heap := s.heap[cfg.base := ArrayObject(a2, false)]);
    DecodeElemsStep(cfg, [], js, 0, [], cfg.base, s);
    assert [] + [Num(Finite(1.0))] == a1;
    DecodeElemsStep(cfg, [], js, 1, a1, cfg.base, s1);
    assert a1 + [Num(Finite(2.0))] == a2;
    Refill(s.heap, cfg.base, ArrayObject(a1, false), ArrayObject(a2, false));
    assert DecodeElems(cfg, [], JArray(js), 2, a2, cfg.base, s2) == Ok((a2, s2));
    DecodeArrayStep(cfg, [], js, ds0, Ok((a2, s2)));
    Refill(cfg.imports, cfg.base, ArrayObject([], false), ArrayObject(a2, false));
    Refill(cfg.imports, cfg.base, ArrayObject(a2, false), ArrayObject(a2, true));
  }

  /** `[1, 2]` decodes to a frozen array of the two numbers. */
  lemma DecodePairArray(cfg: DecConfig)
    requires BaseClear(cfg)
    ensures Unserialize(cfg, CapData(JArray([JNumber(1.0), JNumber(2.0)]), [])) ==
      Ok((cfg.imports[cfg.base := ArrayObject([Num(Finite(1.0)), Num(Finite(2.0))], true)], Ref(cfg.base)))
  {
    var j := JArray([JNumber(1.0), JNumber(2.0)]);
    var o := ArrayObject([Num(Finite(1.0)), Num(Finite(2.0))], true);
    PairArrayDecoded(cfg);
    UnserializeOne(cfg, j, o);
  }

  /* ---------------- remotables ---------------- */

  /** `Far("Thing", {name() {...}, birthYear(now) {...}})` has interface
      `Alleged: Thing` and serializes to a slot carrying that interface. */
  lemma FarThing(h: Heap, cfg: EncConfig, id: ObjId, f1: nat, f2: nat, n: nat)
    requires WfHeap(h) && id in h
    requires h[id] == PlainObject([Prop(StrKey("name"), Data(Function(f1), true)),
                                   Prop(StrKey("birthYear"), Data(Function(f2), true))], ObjectPrototype, false)
    ensures var r := Far(h, "Thing", Ref(id));
      r.Ok? && WfHeap(r.value) &&
      GetInterfaceOf(r.value, Ref(id)) == Some("Alleged: Thing") &&
      Serialize(r.value, cfg, Ref(id), n) ==
        (Ok(CapData(Tagged("slot", [("iface", JString("Alleged: Thing")), ("index", JNumber(0.0))]), [cfg.toSlot(Ref(id))])), n)
  {
    var r := Far(h, "Thing", Ref(id));
    assert r.Ok?;
    var h' := r.value;
    FarKeepsWf(h, "Thing", id);
    assert ALLEGED_PREFIX + "Thing" == "Alleged: Thing";
    assert SlotIface(h', id) == Some("Alleged: Thing");
    EncodeSlotShape(h', cfg, Ref(id), EncState(map[], 0, [], n));
    assert [] + [cfg.toSlot(Ref(id))] == [cfg.toSlot(Ref(id))];
    assert IfaceField(Some("Alleged: Thing")) + [("index", JNumber(0.0))] ==
      [("iface", JString("Alleged: Thing")), ("index", JNumber(0.0))];
  }

  /** `Far("MyHandle", {foo: 123})`: a non-method makes the target
      unusable. */
  lemma FarNonMethod(h: Heap, id: ObjId)
    requires WfHeap(h) && id in h && h[id] == PlainObject([Prop(StrKey("foo"), Data(Num(Finite(123.0)), true))], ObjectPrototype, false)
    ensures Far(h, "MyHandle", Ref(id)) == Err(NonMethod(StrKey("foo")))
  {
    assert RemotableFault(h[id].props) == Some(NonMethod(StrKey("foo")));
  }

  /** `Remotable({bar: 29})`: an interface that is not a string. */
  lemma RemotableObjectIface(h: Heap, iface: ObjId, target: Val)
    requires RefsIn(h, target)
    ensures Remotable(h, Ref(iface), target) == Err(IfaceNotString)
  {
  }

  /** Only objects get a remote identity. */
  lemma FarFunction(h: Heap, f: nat)
    ensures Far(h, "MyHandle", Function(f)) == Err(NotAnObject)
  {
  }

  lemma NoInterfaceForData(h: Heap, f: nat)
    ensures GetInterfaceOf(h, Str("foo")).None? && GetInterfaceOf(h, Null).None?
    ensures GetInterfaceOf(h, Function(f)).None? && GetInterfaceOf(h, Num(Finite(123.0))).None?
  {
  }

  /** The own properties of a candidate remotable proto in own-key order:
      `toString`, then the pass-style marker, then `Symbol.toStringTag`. */
  function ProtoProps(marker: Sym, mark: Val, toStr: Val, tag: string): seq<Prop> {
    [Prop(StrKey("toString"), Data(toStr, true)),
     Prop(SymKey(marker), Data(mark, true)),
     Prop(SymKey(WellKnown("toStringTag")), Data(Str(tag), true))]
  }

  /** A candidate proto passed as a value itself is rejected for its first
      own property that is not a method, and has no interface. */
  lemma ProtoAsValue(h: Heap, id: ObjId, marker: Sym, mark: Val, toStr: Val, tag: string)
    requires id in h && h[id] == PlainObject(ProtoProps(marker, mark, toStr, tag), ObjectPrototype, true)
    requires RefsIn(h, toStr) && mark.Str?
    ensures PassStyleOf(h, Ref(id)) == Err(NonMethod(if toStr.Function? then SymKey(marker) else StrKey("toString")))
    ensures GetInterfaceOf(h, Ref(id)).None?
  {
    var props := ProtoProps(marker, mark, toStr, tag);
    assert !RecordShaped(h[id]) by {
      assert !props[1].key.StrKey?;
    }
    if toStr.Function? {
      assert GoodMethod(props[0]) && !GoodMethod(props[1]);
      assert RemotableFault(props[1..]) == Some(MethodFault(props[1]));
    }
  }

  /** `sub(proto)`: an empty frozen object inheriting from the proto. */
  lemma SubProto(h: Heap, id: ObjId, d: ProtoDesc)
    requires id in h && h[id] == PlainObject([], RemotableProto(d), true)
    ensures PassStyleOf(h, Ref(id)) == if ProtoFault(d).None? then Ok(Presence) else Err(ProtoFault(d).value)
    ensures GetInterfaceOf(h, Ref(id)) == if ProtoFault(d).None? then d.iface else None
  {
  }

  const GOOD_IFACE: string := "Alleged: Good remotable proto"

  /** The good proto and the four bad ones, as the checks see them. */
  lemma ProtoValidation()
    ensures ProtoFault(ProtoDesc(0, Some(REMOTE_STYLE), true, Some(GOOD_IFACE))).None?
    ensures ProtoFault(ProtoDesc(1, None, true, Some(GOOD_IFACE))) == Some(UnexpectedProtoProps)
    ensures ProtoFault(ProtoDesc(0, Some("string"), true, Some(GOOD_IFACE))) == Some(ExpectedPresence(Some("string")))
    ensures ProtoFault(ProtoDesc(0, Some(REMOTE_STYLE), false, Some(GOOD_IFACE))) == Some(ToStringNotFunction)
    ensures ProtoFault(ProtoDesc(0, Some(REMOTE_STYLE), true, Some("Bad remotable proto"))) ==
      Some(IfaceUnimplemented("Bad remotable proto"))
  {
    assert ALLEGED_PREFIX <= GOOD_IFACE;
    assert !(ALLEGED_PREFIX <= "Bad remotable proto") by {
      assert "Bad remotable proto"[0] != ALLEGED_PREFIX[0];
    }
  }

  /* ---------------- one marshal, two errors ---------------- */

  /** One marshal with error tagging on numbers the errors it serializes
      `#1`, `#2`, ... across calls. */
  method SuccessiveErrorIds(h: Heap, toSlot: Val -> string, fromSlot: (string, Option<Json>) -> Val, e1: ObjId, e2: ObjId)
    returns (r1: Result<CapData, MarshalError>, r2: Result<CapData, MarshalError>)
    requires WfHeap(h) && e1 in h && e2 in h
    requires h[e1] == ErrorObject(PlainError, "", true) && h[e2] == ErrorObject(ReferenceError, "msg", true)
    ensures r1 == Ok(CapData(Tagged("error", [("errorId", JString("error:anon-marshal#1")),
                                              ("message", JString("")), ("name", JString("Error"))]), []))
    ensures r2 == Ok(CapData(Tagged("error", [("errorId", JString("error:anon-marshal#2")),
                                              ("message", JString("msg")), ("name", JString("ReferenceError"))]), []))
  {
    var m := new Marshaller.Marshal(EncConfig(true, "anon-marshal", toSlot), fromSlot);
    SerializeTaggedError(h, m.ecfg, e1, PlainError, "", 0);
    r1 := m.Serialize(h, Ref(e1));
    SerializeTaggedError(h, m.ecfg, e2, ReferenceError, "msg", 1);
    r2 := m.Serialize(h, Ref(e2));
    DefaultErrorIds();
  }
}
