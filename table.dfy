/**
 * The record entries of the marshal's round-trip table, and the general
 * shapes behind them.  A record without `@qclass` goes over the wire as a
 * JSON object of its properties in order, each holding its value's
 * encoding; a record owning `@qclass` is escaped as a hilbert node whose
 * `original` holds the `@qclass` value and whose `rest`, present exactly
 * when the record owns other properties, holds those as a record.  The
 * instances below follow the table entry by entry.
 */
module RoundTripTable {
  import opened Wrappers
  import opened Passable
  import opened JsonTree
  import opened Encoder
  import opened Decoder
  import opened RoundTripProof
  import opened MarshalExamples

  /* ---------------- general shapes ---------------- */

  /** Elements whose encodings chain through the states `sts`, each
      starting where the previous one stopped, encode to the sequence of
      those encodings. */
  lemma {:induction false} ElemsChain(h: Heap, cfg: EncConfig, elems: seq<Val>, i: nat, sts: seq<EncState>, js: seq<Json>)
    requires WfHeap(h) && i <= |elems| && |sts| == |elems| + 1 && |js| == |elems|
    requires forall k :: 0 <= k < |elems| ==> RefsIn(h, elems[k])
    requires forall k :: i <= k <= |elems| ==> StInv(h, sts[k])
    requires forall k :: i <= k < |elems| ==> EncodeVal(h, cfg, elems[k], sts[k]) == Encoded(Ok(js[k]), sts[k + 1])
    ensures EncodeElems(h, cfg, elems, i, sts[i]) == Encoded(Ok(js[i..]), sts[|elems|])
    decreases |elems| - i
  {
    if i < |elems| {
      ElemsChain(h, cfg, elems, i + 1, sts, js);
      assert js[i..] == [js[i]] + js[i + 1..];
    }
  }

  /** The same for the values of a record's properties: the fields come
      out under the properties' names, in order. */
  lemma FieldsChain(h: Heap, cfg: EncConfig, props: seq<Prop>, sts: seq<EncState>, js: seq<Json>)
    requires WfHeap(h) && DataFields(h, props) && |sts| == |props| + 1 && |js| == |props|
    requires forall k :: 0 <= k <= |props| ==> StInv(h, sts[k])
    requires forall k :: 0 <= k < |props| ==> EncodeVal(h, cfg, props[k].desc.value, sts[k]) == Encoded(Ok(js[k]), sts[k + 1])
    ensures EncodeFields(h, cfg, props, sts[0]) == Encoded(Ok(Named(props, js)), sts[|props|])
  {
    ElemsChain(h, cfg, PropValues(props), 0, sts, js);
    assert js[0..] == js;
  }

  /** A record without `@qclass`, met for the first time, is sent as the
      JSON object of its properties, each under its own name with its
      value's encoding; its values are encoded after the record itself is
      given the next index. */
  lemma RecordEncoding(h: Heap, cfg: EncConfig, id: ObjId, st: EncState, sts: seq<EncState>, js: seq<Json>)
    requires WfHeap(h) && StInv(h, st) && id in h && id !in st.ibids
    requires IsCopyRecord(h[id]) && QclassPos(h[id].props).None?
    requires |sts| == |h[id].props| + 1 && |js| == |h[id].props| && sts[0] == Visit(st, id)
    requires forall k :: 0 <= k <= |h[id].props| ==> StInv(h, sts[k])
    requires forall k :: 0 <= k < |h[id].props| ==>
      EncodeVal(h, cfg, h[id].props[k].desc.value, sts[k]) == Encoded(Ok(js[k]), sts[k + 1])
    ensures EncodeVal(h, cfg, Ref(id), st) == Encoded(Ok(JObject(Named(h[id].props, js))), sts[|js|])
  {
    EncodeRecordShape(h, cfg, Ref(id), st);
    FieldsChain(h, cfg, h[id].props, sts, js);
  }

  /** A record owning `@qclass`, met for the first time, is sent as a
      hilbert node: `original` holds the encoding of the `@qclass` value,
      and `rest` is there exactly when the record owns other properties,
      holding them, in order, as a record that takes the next index. */
  lemma HilbertEncoding(h: Heap, cfg: EncConfig, id: ObjId, p: nat, st: EncState, oj: Json, st1: EncState,
                        sts: seq<EncState>, js: seq<Json>)
    requires WfHeap(h) && StInv(h, st) && id in h && id !in st.ibids
    requires IsCopyRecord(h[id]) && QclassPos(h[id].props) == Some(p)
    requires StInv(h, Visit(st, id)) && StInv(h, st1)
    requires EncodeVal(h, cfg, h[id].props[p].desc.value, Visit(st, id)) == Encoded(Ok(oj), st1)
    requires var rest := Without(h[id].props, p);
      |sts| == |rest| + 1 && |js| == |rest| && sts[0] == Reserve(h, st1) &&
      (forall k :: 1 <= k <= |rest| ==> StInv(h, sts[k])) &&
      forall k :: 0 <= k < |rest| ==> EncodeVal(h, cfg, rest[k].desc.value, sts[k]) == Encoded(Ok(js[k]), sts[k + 1])
    ensures var rest := Without(h[id].props, p);
      EncodeVal(h, cfg, Ref(id), st) ==
        if rest == [] then Encoded(Ok(Tagged("hilbert", [("original", oj)])), st1)
        else Encoded(Ok(Tagged("hilbert", [("original", oj), ("rest", JObject(Named(rest, js)))])), sts[|js|])
  {
    EncodeHilbertShape(h, cfg, Ref(id), st);
    HilbertUnfold(h, cfg, h[id].props, p, Visit(st, id), oj, st1);
    HilbertRest(h, cfg, h[id].props, p, sts, js);
  }

  /** The rest of a hilbert record, chained. */
  lemma HilbertRest(h: Heap, cfg: EncConfig, props: seq<Prop>, p: nat, sts: seq<EncState>, js: seq<Json>)
    requires WfHeap(h) && DataFields(h, props) && DistinctKeys(props) && p < |props| && props[p].key == StrKey(QCLASS)
    requires var rest := Without(props, p);
      |sts| == |rest| + 1 && |js| == |rest| &&
      (forall k :: 0 <= k <= |rest| ==> StInv(h, sts[k])) &&
      forall k :: 0 <= k < |rest| ==> EncodeVal(h, cfg, rest[k].desc.value, sts[k]) == Encoded(Ok(js[k]), sts[k + 1])
    ensures DataFields(h, Without(props, p))
    ensures EncodeFields(h, cfg, Without(props, p), sts[0]) == Encoded(Ok(Named(Without(props, p), js)), sts[|js|])
  {
    RestFacts(h, props, p);
    FieldsChain(h, cfg, Without(props, p), sts, js);
  }

  /** The hilbert escape once its original is encoded. */
  lemma HilbertUnfold(h: Heap, cfg: EncConfig, props: seq<Prop>, p: nat, st: EncState, oj: Json, st1: EncState)
    requires WfHeap(h) && StInv(h, st) && DataFields(h, props) && p < |props| && StInv(h, st1)
    requires EncodeVal(h, cfg, props[p].desc.value, st) == Encoded(Ok(oj), st1)
    ensures Without(props, p) == [] ==> EncodeHilbert(h, cfg, props, p, st) == Encoded(Ok(Tagged("hilbert", [("original", oj)])), st1)
    ensures Without(props, p) != [] ==>
      DataFields(h, Without(props, p)) &&
      var r := EncodeFields(h, cfg, Without(props, p), Reserve(h, st1));
      r.result.Ok? ==> EncodeHilbert(h, cfg, props, p, st) == Encoded(Ok(Tagged("hilbert", [("original", oj), ("rest", JObject(r.result.value))])), r.st)
  {
  }

  /* ---------------- one and two properties ---------------- */

  /** A string-keyed, enumerable data property. */
  function Field(name: string, v: Val): Prop {
    Prop(StrKey(name), Data(v, true))
  }

  /** A frozen record with the given properties. */
  function Frozen(props: seq<Prop>): Obj {
    PlainObject(props, ObjectPrototype, true)
  }

  /** A record of one property. */
  lemma RecordOne(h: Heap, cfg: EncConfig, id: ObjId, name: string, v: Val, st: EncState, j: Json, st1: EncState)
    requires WfHeap(h) && StInv(h, st) && id in h && id !in st.ibids
    requires h[id] == Frozen([Field(name, v)]) && name != QCLASS && !v.Function? && RefsIn(h, v)
    requires StInv(h, Visit(st, id)) && EncodeVal(h, cfg, v, Visit(st, id)) == Encoded(Ok(j), st1)
    ensures EncodeVal(h, cfg, Ref(id), st) == Encoded(Ok(JObject([(name, j)])), st1)
  {
    assert IsCopyRecord(h[id]);
    RecordEncoding(h, cfg, id, st, [Visit(st, id), st1], [j]);
    assert Named(h[id].props, [j]) == [(name, j)];
  }

  /** A record owning only `@qclass`: a hilbert node without rest. */
  lemma HilbertAlone(h: Heap, cfg: EncConfig, id: ObjId, v: Val, st: EncState, oj: Json, st1: EncState)
    requires WfHeap(h) && StInv(h, st) && id in h && id !in st.ibids
    requires h[id] == Frozen([QProp(v)]) && !v.Function? && RefsIn(h, v)
    requires StInv(h, Visit(st, id)) && EncodeVal(h, cfg, v, Visit(st, id)) == Encoded(Ok(oj), st1)
    ensures EncodeVal(h, cfg, Ref(id), st) == Encoded(Ok(Tagged("hilbert", [("original", oj)])), st1)
  {
    assert IsCopyRecord(h[id]);
    assert QclassPos(h[id].props) == Some(0);
    assert Without(h[id].props, 0) == [];
    HilbertEncoding(h, cfg, id, 0, st, oj, st1, [Reserve(h, st1)], []);
  }

  /** A record owning `@qclass` and one more property: the rest holds
      that property. */
  lemma HilbertField(h: Heap, cfg: EncConfig, id: ObjId, v: Val, name: string, w: Val, st: EncState,
                     oj: Json, st1: EncState, wj: Json, st2: EncState)
    requires WfHeap(h) && StInv(h, st) && id in h && id !in st.ibids
    requires h[id] == Frozen([QProp(v), Field(name, w)]) && name != QCLASS
    requires !v.Function? && !w.Function? && RefsIn(h, v) && RefsIn(h, w)
    requires StInv(h, Visit(st, id)) && EncodeVal(h, cfg, v, Visit(st, id)) == Encoded(Ok(oj), st1)
    requires EncodeVal(h, cfg, w, Reserve(h, st1)) == Encoded(Ok(wj), st2)
    ensures EncodeVal(h, cfg, Ref(id), st) ==
      Encoded(Ok(Tagged("hilbert", [("original", oj), ("rest", JObject([(name, wj)]))])), st2)
  {
    HilbertFieldShape(h, id, v, name, w, wj);
    HilbertEncoding(h, cfg, id, 0, st, oj, st1, [Reserve(h, st1), st2], [wj]);
  }

  lemma HilbertFieldShape(h: Heap, id: ObjId, v: Val, name: string, w: Val, wj: Json)
    requires id in h && h[id] == Frozen([QProp(v), Field(name, w)]) && name != QCLASS
    requires !v.Function? && !w.Function?
    ensures IsCopyRecord(h[id]) && QclassPos(h[id].props) == Some(0)
    ensures Without(h[id].props, 0) == [Field(name, w)] && Named(Without(h[id].props, 0), [wj]) == [(name, wj)]
  {
    assert IsCopyRecord(h[id]);
  }

  /* ---------------- the table's record entries ---------------- */

  function One(): Val { Num(Finite(1.0)) }

  /** A root that encodes without slots and without drawing error numbers
      serializes to its encoding. */
  lemma SerializeOf(h: Heap, cfg: EncConfig, id: ObjId, n: nat, j: Json, st: EncState)
    requires WfHeap(h) && id in h
    requires EncodeVal(h, cfg, Ref(id), EncState(map[], 0, [], n)) == Encoded(Ok(j), st)
    requires st.slots == [] && st.errorIdNum == n
    ensures Serialize(h, cfg, Ref(id), n) == (Ok(CapData(j, [])), n)
  {
  }

  /** `harden({ foo: 1 })` is sent as `{"foo":1}`. */
  lemma SerializeFooOne(h: Heap, cfg: EncConfig, id: ObjId, n: nat)
    requires WfHeap(h) && id in h && h[id] == Frozen([Field("foo", One())])
    ensures Serialize(h, cfg, Ref(id), n) == (Ok(CapData(JObject([("foo", JNumber(1.0))]), [])), n)
  {
    var st0 := EncState(map[], 0, [], n);
    var s1 := Visit(st0, id);
    VisitInv(h, st0, id);
    RecordOne(h, cfg, id, "foo", One(), st0, JNumber(1.0), s1);
  }

  /** `harden({ a: 1, b: 2 })`: the properties keep their order. */
  lemma SerializeTwoFields(h: Heap, cfg: EncConfig, id: ObjId, n: nat)
    requires WfHeap(h) && id in h && h[id] == Frozen([Field("a", One()), Field("b", Num(Finite(2.0)))])
    ensures Serialize(h, cfg, Ref(id), n) == (Ok(CapData(JObject([("a", JNumber(1.0)), ("b", JNumber(2.0))]), [])), n)
  {
    var st0 := EncState(map[], 0, [], n);
    var s1 := Visit(st0, id);
    VisitInv(h, st0, id);
    RecordEncoding(h, cfg, id, st0, [s1, s1, s1], [JNumber(1.0), JNumber(2.0)]);
    assert Named(h[id].props, [JNumber(1.0), JNumber(2.0)]) == [("a", JNumber(1.0)), ("b", JNumber(2.0))];
  }

  /** `harden({ a: 1, b: { c: 3 } })`: a nested record is sent in place. */
  lemma SerializeNested(h: Heap, cfg: EncConfig, id: ObjId, inner: ObjId, n: nat)
    requires WfHeap(h) && id in h && inner in h && id != inner
    requires h[id] == Frozen([Field("a", One()), Field("b", Ref(inner))])
    requires h[inner] == Frozen([Field("c", Num(Finite(3.0)))])
    ensures Serialize(h, cfg, Ref(id), n) ==
      (Ok(CapData(JObject([("a", JNumber(1.0)), ("b", JObject([("c", JNumber(3.0))]))]), [])), n)
  {
    var st0 := EncState(map[], 0, [], n);
    var cj := JObject([("c", JNumber(3.0))]);
    OuterRecord(h, cfg, id, inner, st0);
    SerializeOf(h, cfg, id, n, JObject([("a", JNumber(1.0)), ("b", cj)]), Visit(Visit(st0, id), inner));
  }

  /** The entry above, visited from `st`. */
  lemma OuterRecord(h: Heap, cfg: EncConfig, id: ObjId, inner: ObjId, st: EncState)
    requires WfHeap(h) && id in h && inner in h && id != inner
    requires StInv(h, st) && id !in st.ibids && inner !in st.ibids
    requires h[id] == Frozen([Field("a", One()), Field("b", Ref(inner))])
    requires h[inner] == Frozen([Field("c", Num(Finite(3.0)))])
    ensures EncodeVal(h, cfg, Ref(id), st) ==
      Encoded(Ok(JObject([("a", JNumber(1.0)), ("b", JObject([("c", JNumber(3.0))]))])), Visit(Visit(st, id), inner))
  {
    var s1 := Visit(st, id);
    VisitInv(h, st, id);
    var cj := JObject([("c", JNumber(3.0))]);
    InnerRecord(h, cfg, inner, s1);
    RecordEncoding(h, cfg, id, st, [s1, s1, Visit(s1, inner)], [JNumber(1.0), cj]);
    assert Named(h[id].props, [JNumber(1.0), cj]) == [("a", JNumber(1.0)), ("b", cj)];
  }

  /** The inner record of the entry above, `{ c: 3 }`, visited from `st`. */
  lemma InnerRecord(h: Heap, cfg: EncConfig, inner: ObjId, st: EncState)
    requires WfHeap(h) && inner in h && StInv(h, st) && inner !in st.ibids
    requires h[inner] == Frozen([Field("c", Num(Finite(3.0)))])
    ensures StInv(h, Visit(st, inner))
    ensures EncodeVal(h, cfg, Ref(inner), st) == Encoded(Ok(JObject([("c", JNumber(3.0))])), Visit(st, inner))
  {
    VisitInv(h, st, inner);
    RecordOne(h, cfg, inner, "c", Num(Finite(3.0)), st, JNumber(3.0), Visit(st, inner));
  }

  /** `harden([undefined])`: the element is tagged. */
  lemma SerializeUndefinedElement(h: Heap, cfg: EncConfig, id: ObjId, n: nat)
    requires WfHeap(h) && id in h && h[id] == ArrayObject([Undefined], true)
    ensures Serialize(h, cfg, Ref(id), n) == (Ok(CapData(JArray([Tagged("undefined", [])]), [])), n)
  {
    var st0 := EncState(map[], 0, [], n);
    var s1 := Visit(st0, id);
    EncodeArrayShape(h, cfg, Ref(id), st0);
    ElemsChain(h, cfg, [Undefined], 0, [s1, s1], [Tagged("undefined", [])]);
  }

  /** `harden({ foo: undefined })`: a property holding `undefined` is kept
      and tagged. */
  lemma SerializeUndefinedField(h: Heap, cfg: EncConfig, id: ObjId, n: nat)
    requires WfHeap(h) && id in h && h[id] == Frozen([Field("foo", Undefined)])
    ensures Serialize(h, cfg, Ref(id), n) == (Ok(CapData(JObject([("foo", Tagged("undefined", []))]), [])), n)
  {
    var st0 := EncState(map[], 0, [], n);
    var s1 := Visit(st0, id);
    VisitInv(h, st0, id);
    RecordOne(h, cfg, id, "foo", Undefined, st0, Tagged("undefined", []), s1);
  }

  /** `harden({ '@qclass': '@qclass' })`: a string `@qclass` is escaped
      too. */
  lemma SerializeQclassString(h: Heap, cfg: EncConfig, id: ObjId, n: nat)
    requires WfHeap(h) && id in h && h[id] == Frozen([QProp(Str(QCLASS))])
    ensures Serialize(h, cfg, Ref(id), n) == (Ok(CapData(Tagged("hilbert", [("original", JString(QCLASS))]), [])), n)
  {
    var st0 := EncState(map[], 0, [], n);
    var s1 := Visit(st0, id);
    VisitInv(h, st0, id);
    HilbertAlone(h, cfg, id, Str(QCLASS), st0, JString(QCLASS), s1);
  }

  /** `harden({ '@qclass': { '@qclass': 8 } })`: the escape nests. */
  lemma SerializeQclassNested(h: Heap, cfg: EncConfig, id: ObjId, inner: ObjId, n: nat)
    requires WfHeap(h) && id in h && inner in h && id != inner
    requires h[id] == Frozen([QProp(Ref(inner))])
    requires h[inner] == Frozen([QProp(Num(Finite(8.0)))])
    ensures Serialize(h, cfg, Ref(id), n) ==
      (Ok(CapData(Tagged("hilbert", [("original", Tagged("hilbert", [("original", JNumber(8.0))]))]), [])), n)
  {
    var st0 := EncState(map[], 0, [], n);
    var s1 := Visit(st0, id);
    VisitInv(h, st0, id);
    var s2 := Visit(s1, inner);
    VisitInv(h, s1, inner);
    HilbertAlone(h, cfg, inner, Num(Finite(8.0)), s1, JNumber(8.0), s2);
    HilbertAlone(h, cfg, id, Ref(inner), st0, Tagged("hilbert", [("original", JNumber(8.0))]), s2);
  }

  /** The hilbert escape with a rest on both levels:
      `{ '@qclass': { '@qclass': 8, foo: 'foo1' }, bar: { '@qclass': undefined } }`. */
  lemma SerializeHilbertRests(h: Heap, cfg: EncConfig, id: ObjId, orig: ObjId, bar: ObjId, n: nat)
    requires WfHeap(h) && id in h && orig in h && bar in h && id != orig && id != bar && orig != bar
    requires h[id] == Frozen([QProp(Ref(orig)), Field("bar", Ref(bar))])
    requires h[orig] == Frozen([QProp(Num(Finite(8.0))), Field("foo", Str("foo1"))])
    requires h[bar] == Frozen([QProp(Undefined)])
    ensures Serialize(h, cfg, Ref(id), n) ==
      (Ok(CapData(Tagged("hilbert", [
         ("original", Tagged("hilbert", [("original", JNumber(8.0)), ("rest", JObject([("foo", JString("foo1"))]))])),
         ("rest", JObject([("bar", Tagged("hilbert", [("original", Tagged("undefined", []))]))]))]), [])), n)
  {
    var st0 := EncState(map[], 0, [], n);
    HilbertRests(h, cfg, id, orig, bar, st0);
    var r := EncodeVal(h, cfg, Ref(id), st0);
    SerializeOf(h, cfg, id, n, r.result.value, r.st);
  }

  /** The entry above, visited from `st`. */
  lemma HilbertRests(h: Heap, cfg: EncConfig, id: ObjId, orig: ObjId, bar: ObjId, st: EncState)
    requires WfHeap(h) && id in h && orig in h && bar in h && id != orig && id != bar && orig != bar
    requires StInv(h, st) && id !in st.ibids && orig !in st.ibids && bar !in st.ibids
    requires h[id] == Frozen([QProp(Ref(orig)), Field("bar", Ref(bar))])
    requires h[orig] == Frozen([QProp(Num(Finite(8.0))), Field("foo", Str("foo1"))])
    requires h[bar] == Frozen([QProp(Undefined)])
    ensures var r := EncodeVal(h, cfg, Ref(id), st);
      r.result == Ok(Tagged("hilbert", [
         ("original", Tagged("hilbert", [("original", JNumber(8.0)), ("rest", JObject([("foo", JString("foo1"))]))])),
         ("rest", JObject([("bar", Tagged("hilbert", [("original", Tagged("undefined", []))]))]))])) &&
      r.st.slots == st.slots && r.st.errorIdNum == st.errorIdNum
  {
    var s1 := Visit(st, id);
    VisitInv(h, st, id);
    OriginalWithRest(h, cfg, orig, s1);
    var r2 := Reserve(h, Visit(s1, orig));
    var r3 := Reserve(h, r2);
    QclassUndefined(h, cfg, bar, r3);
    var ojInner := Tagged("hilbert", [("original", JNumber(8.0)), ("rest", JObject([("foo", JString("foo1"))]))]);
    var barJ := Tagged("hilbert", [("original", Tagged("undefined", []))]);
    HilbertField(h, cfg, id, Ref(orig), "bar", Ref(bar), st, ojInner, r2, barJ, Visit(r3, bar));
  }

  /** The original of the entry above, `{ '@qclass': 8, foo: 'foo1' }`,
      visited from `st`. */
  lemma OriginalWithRest(h: Heap, cfg: EncConfig, orig: ObjId, st: EncState)
    requires WfHeap(h) && orig in h && StInv(h, st) && orig !in st.ibids
    requires h[orig] == Frozen([QProp(Num(Finite(8.0))), Field("foo", Str("foo1"))])
    ensures StInv(h, Visit(st, orig))
    ensures EncodeVal(h, cfg, Ref(orig), st) ==
      Encoded(Ok(Tagged("hilbert", [("original", JNumber(8.0)), ("rest", JObject([("foo", JString("foo1"))]))])),
              Reserve(h, Visit(st, orig)))
  {
    var s1 := Visit(st, orig);
    VisitInv(h, st, orig);
    var r1 := Reserve(h, s1);
    HilbertField(h, cfg, orig, Num(Finite(8.0)), "foo", Str("foo1"), st, JNumber(8.0), s1, JString("foo1"), r1);
  }

  /** The `bar` record of the entry above, `{ '@qclass': undefined }`,
      visited from `st`. */
  lemma QclassUndefined(h: Heap, cfg: EncConfig, bar: ObjId, st: EncState)
    requires WfHeap(h) && bar in h && StInv(h, st) && bar !in st.ibids
    requires h[bar] == Frozen([QProp(Undefined)])
    ensures StInv(h, Visit(st, bar))
    ensures EncodeVal(h, cfg, Ref(bar), st) ==
      Encoded(Ok(Tagged("hilbert", [("original", Tagged("undefined", []))])), Visit(st, bar))
  {
    VisitInv(h, st, bar);
    HilbertAlone(h, cfg, bar, Undefined, st, Tagged("undefined", []), Visit(st, bar));
  }

  /** `cycle2 = { '@qclass': 8, foo: cycle2 }`: inside the rest the
      record is a back-reference to index 0. */
  lemma SerializeHilbertCycle(h: Heap, cfg: EncConfig, id: ObjId, n: nat)
    requires WfHeap(h) && id in h && h[id] == Frozen([QProp(Num(Finite(8.0))), Field("foo", Ref(id))])
    ensures Serialize(h, cfg, Ref(id), n) ==
      (Ok(CapData(Tagged("hilbert", [("original", JNumber(8.0)), ("rest", JObject([("foo", Ibid(0))]))]), [])), n)
  {
    var st0 := EncState(map[], 0, [], n);
    HilbertCycle(h, cfg, id, st0);
    SerializeOf(h, cfg, id, n, Tagged("hilbert", [("original", JNumber(8.0)), ("rest", JObject([("foo", Ibid(0))]))]),
                Reserve(h, Visit(st0, id)));
  }

  /** The entry above, visited from `st`: the back-reference names the
      index the record was given. */
  lemma HilbertCycle(h: Heap, cfg: EncConfig, id: ObjId, st: EncState)
    requires WfHeap(h) && id in h && h[id] == Frozen([QProp(Num(Finite(8.0))), Field("foo", Ref(id))])
    requires StInv(h, st) && id !in st.ibids
    ensures StInv(h, Visit(st, id))
    ensures EncodeVal(h, cfg, Ref(id), st) ==
      Encoded(Ok(Tagged("hilbert", [("original", JNumber(8.0)), ("rest", JObject([("foo", Ibid(st.count))]))])),
              Reserve(h, Visit(st, id)))
  {
    var s1 := Visit(st, id);
    VisitInv(h, st, id);
    var r1 := Reserve(h, s1);
    IbidRef(h, cfg, id, r1);
    HilbertField(h, cfg, id, Num(Finite(8.0)), "foo", Ref(id), st, JNumber(8.0), s1, Ibid(st.count), r1);
  }

  /* ---------------- back-references on the way in ---------------- */

  /** The rest `{"foo": <ibid 0>}` of cycle2, decoded while the record
      `t` that holds index 0 is still being filled in: a fresh record whose
      `foo` is `t` itself. */
  lemma DecodeFooBack(cfg: DecConfig, t: ObjId, ds: DecState)
    requires cfg.policy != ForbidCycles && ds.ibids == [Ref(t)] && t in ds.heap
    ensures var r := DecodeVal(cfg, [], JObject([("foo", Ibid(0))]), ds);
      r.Ok? && r.value.0 == Ref(NextId(cfg, ds)) && NextId(cfg, ds) in r.value.1.heap &&
      r.value.1.heap[NextId(cfg, ds)] == Frozen([Field("foo", Ref(t))])
  {
    var fields := [("foo", Ibid(0))];
    var n := NextId(cfg, ds);
    var s := Start(cfg, ds, PlainObject([], ObjectPrototype, false));
    FieldIndexOfDistinct(fields, 0);
    DecodeIbidNode(cfg, [], 0, s);
    DecodeFieldsStep(cfg, [], fields, 0, {}, [], n, s);
    var acc := [] + [Field("foo", Ref(t))];
    var s1 := s.(heap := s.heap[n := PlainObject(acc, ObjectPrototype, false)]);
    assert DecodeFields(cfg, [], JObject(fields), 1, {"foo"}, acc, n, s1) == Ok((acc, s1));
    assert FieldIndex(fields, QCLASS).None?;
    DecodeRecordStep(cfg, [], fields, ds, Ok((acc, s1)));
    assert acc == [Field("foo", Ref(t))];
  }

  /** A JSON number decodes to itself and leaves the state alone. */
  lemma DecodeNumber(cfg: DecConfig, x: real, ds: DecState)
    ensures DecodeVal(cfg, [], JNumber(x), ds) == Ok((Num(Finite(x)), ds))
  {
  }

  /** A hilbert node whose rest decodes to a plain object without its
      own "@qclass": the node is that object's properties behind the
      original, frozen. */
  lemma HilbertRecordRest(cfg: DecConfig, oj: Json, rj: Json, ds: DecState, d: Decoded<Val>, dr: Decoded<Val>)
    requires d == DecodeVal(cfg, [], oj, Start(cfg, ds, PlainObject([], ObjectPrototype, false))) && d.Ok?
    requires var hid := NextId(cfg, ds);
      dr == DecodeVal(cfg, [], rj, d.value.1.(heap := d.value.1.heap[hid := PlainObject([Prop(StrKey(QCLASS), Data(d.value.0, true))], ObjectPrototype, false)]))
    requires dr.Ok? && dr.value.0.Ref? && dr.value.0.id in dr.value.1.heap && dr.value.1.heap[dr.value.0.id].PlainObject?
    requires !OwnsKey(dr.value.1.heap[dr.value.0.id].props, StrKey(QCLASS))
    ensures var hid := NextId(cfg, ds);
      var r := DecodeVal(cfg, [], Tagged("hilbert", [("original", oj), ("rest", rj)]), ds);
      r.Ok? && r.value.0 == Ref(hid) && hid in r.value.1.heap &&
      r.value.1.heap[hid] == PlainObject([Prop(StrKey(QCLASS), Data(d.value.0, true))] + dr.value.1.heap[dr.value.0.id].props, ObjectPrototype, true)
  {
    DecodeHilbertRest(cfg, [], oj, rj, ds, d, dr);
  }

  /** A hilbert node with the rest `{"foo": <ibid 0>}`, decoded first in
      the call: the record holds the decoded `original` under `@qclass`,
      then itself under `foo`. */
  lemma HilbertFooBack(cfg: DecConfig, oj: Json, rj: Json, v: Val, ds: DecState)
    requires cfg.policy != ForbidCycles && ds.ibids == []
    requires var s := Start(cfg, ds, PlainObject([], ObjectPrototype, false)); DecodeVal(cfg, [], oj, s) == Ok((v, s))
    requires var s := Start(cfg, ds, PlainObject([], ObjectPrototype, false));
      var dr := DecodeVal(cfg, [], rj, s.(heap := s.heap[cfg.base := PlainObject([Prop(StrKey(QCLASS), Data(v, true))], ObjectPrototype, false)]));
      dr.Ok? && dr.value.0.Ref? && dr.value.0.id in dr.value.1.heap &&
      dr.value.1.heap[dr.value.0.id] == Frozen([Field("foo", Ref(cfg.base))])
    ensures var r := DecodeVal(cfg, [], Tagged("hilbert", [("original", oj), ("rest", rj)]), ds);
      r.Ok? && r.value.0 == Ref(cfg.base) && cfg.base in r.value.1.heap &&
      r.value.1.heap[cfg.base] == Frozen([QProp(v), Field("foo", Ref(cfg.base))])
  {
    var s := Start(cfg, ds, PlainObject([], ObjectPrototype, false));
    var d := DecodeVal(cfg, [], oj, s);
    assert d == Ok((v, s)) && NextId(cfg, ds) == cfg.base;
    var ds1 := d.value.1.(heap := d.value.1.heap[NextId(cfg, ds) := PlainObject([Prop(StrKey(QCLASS), Data(d.value.0, true))], ObjectPrototype, false)]);
    var dr := DecodeVal(cfg, [], rj, ds1);
    var rest := [Field("foo", Ref(cfg.base))];
    assert !OwnsKey(rest, StrKey(QCLASS));
    HilbertRecordRest(cfg, oj, rj, ds, d, dr);
    assert [QProp(v)] + rest == [QProp(v), Field("foo", Ref(cfg.base))];
  }

  /** Allowing cycles, the body of cycle2 decodes to a record whose `foo`
      is the record itself, after `@qclass` holding 8. */
  lemma UnserializeHilbertCycle(cfg: DecConfig)
    requires BaseClear(cfg)
    requires cfg.policy != ForbidCycles
    ensures var u := Unserialize(cfg, CapData(Tagged("hilbert", [("original", JNumber(8.0)), ("rest", JObject([("foo", Ibid(0))]))]), []));
      u.Ok? && u.value.1 == Ref(cfg.base) && cfg.base in u.value.0 &&
      u.value.0[cfg.base] == Frozen([QProp(Num(Finite(8.0))), Field("foo", Ref(cfg.base))])
  {
    var ds0 := DecState(cfg.imports, [], {});
    var s := Start(cfg, ds0, PlainObject([], ObjectPrototype, false));
    DecodeNumber(cfg, 8.0, s);
    var ds1 := s.(heap := s.heap[cfg.base := PlainObject([Prop(StrKey(QCLASS), Data(Num(Finite(8.0)), true))], ObjectPrototype, false)]);
    DecodeFooBack(cfg, cfg.base, ds1);
    HilbertFooBack(cfg, JNumber(8.0), JObject([("foo", Ibid(0))]), Num(Finite(8.0)), ds0);
    var j := Tagged("hilbert", [("original", JNumber(8.0)), ("rest", JObject([("foo", Ibid(0))]))]);
    var r := DecodeVal(cfg, [], j, ds0);
    UnserializeOk(cfg, j, r.value.0, r.value.1);
  }

  /** A hilbert node whose `rest` is an ibid naming a plain record `t`
      decoded earlier (and, allowing cycles, possibly still being filled
      in): the new record holds the decoded `original` under `@qclass`,
      then a copy of the properties `t` owns at that moment, and is
      frozen; nothing else in the heap changes. */
  lemma HilbertIbidRest(cfg: DecConfig, oj: Json, n: nat, ds: DecState, d: Decoded<Val>)
    requires cfg.policy != ForbidCycles
    requires d == DecodeVal(cfg, [], oj, Start(cfg, ds, PlainObject([], ObjectPrototype, false))) && d.Ok?
    requires n < |d.value.1.ibids| && d.value.1.ibids[n].Ref?
    requires var t := d.value.1.ibids[n].id;
      t in d.value.1.heap && t != NextId(cfg, ds) && d.value.1.heap[t].PlainObject? &&
      !OwnsKey(d.value.1.heap[t].props, StrKey(QCLASS))
    ensures var hid := NextId(cfg, ds);
      var t := d.value.1.ibids[n].id;
      var r := DecodeVal(cfg, [], Tagged("hilbert", [("original", oj), ("rest", Ibid(n))]), ds);
      r.Ok? && r.value.0 == Ref(hid) && r.value.1.ibids == d.value.1.ibids &&
      r.value.1.heap == d.value.1.heap[hid := PlainObject([Prop(StrKey(QCLASS), Data(d.value.0, true))] + d.value.1.heap[t].props, ObjectPrototype, true)]
  {
    var hid: ObjId := NextId(cfg, ds);
    var t := d.value.1.ibids[n].id;
    var ds1 := d.value.1.(heap := d.value.1.heap[hid := PlainObject([Prop(StrKey(QCLASS), Data(d.value.0, true))], ObjectPrototype, false)]);
    var dr := DecodeVal(cfg, [], Ibid(n), ds1);
    assert dr == Ok((Ref(t), ds1)) by {
      DecodeIbidNode(cfg, [], n, ds1);
    }
    var q := [Prop(StrKey(QCLASS), Data(d.value.0, true))] + d.value.1.heap[t].props;
    var ds3 := ds1.(heap := ds1.heap[hid := PlainObject(q, ObjectPrototype, false)]);
    var r := DecodeVal(cfg, [], Tagged("hilbert", [("original", oj), ("rest", Ibid(n))]), ds);
    assert r == Ok((Ref(hid), Finish(ds3, hid))) by {
      DecodeHilbertRest(cfg, [], oj, Ibid(n), ds, d, dr);
    }
    FinishOver(d.value.1, hid, PlainObject([Prop(StrKey(QCLASS), Data(d.value.0, true))], ObjectPrototype, false), PlainObject(q, ObjectPrototype, false));
  }

  /** Two writes to one object, then freezing it. */
  lemma FinishOver(ds: DecState, id: ObjId, o1: Obj, o2: Obj)
    ensures var ds3 := ds.(heap := ds.heap[id := o1]).(heap := ds.heap[id := o1][id := o2]);
      id in ds3.heap && Finish(ds3, id).heap == ds.heap[id := o2.(frozen := true)]
  {
  }

  /** The `foo` member of the first "impossible" body, decoded once the
      enclosing record holds its one property `bar`. */
  lemma ImpossibleFoo(cfg: DecConfig, ds: DecState, oj: Json, v: Val, bar: Prop)
    requires cfg.policy != ForbidCycles && ds.ibids == [Ref(cfg.base)] && cfg.base in ds.heap
    requires ds.heap[cfg.base] == PlainObject([bar], ObjectPrototype, false) && bar.key != StrKey(QCLASS)
    requires var s := Start(cfg, ds, PlainObject([], ObjectPrototype, false)); DecodeVal(cfg, [], oj, s) == Ok((v, s))
    ensures var r := DecodeVal(cfg, [], Tagged("hilbert", [("original", oj), ("rest", Ibid(0))]), ds);
      r.Ok? && r.value.0 == Ref(cfg.base + 1) && cfg.base + 1 in r.value.1.heap &&
      r.value.1.heap[cfg.base + 1] == Frozen([Prop(StrKey(QCLASS), Data(v, true)), bar])
  {
    var s := Start(cfg, ds, PlainObject([], ObjectPrototype, false));
    var d := DecodeVal(cfg, [], oj, s);
    assert !OwnsKey([bar], StrKey(QCLASS));
    HilbertIbidRest(cfg, oj, 0, ds, d);
  }

  /** The members of the first "impossible" body, over the JSON `oj` of
      the `original` (8 there): `foo` is a hilbert node whose rest is
      ibid 0, the enclosing record. */
  function Impossible1Fields(oj: Json): seq<(string, Json)> {
    [("bar", JNumber(9.0)), ("foo", Tagged("hilbert", [("original", oj), ("rest", Ibid(0))]))]
  }

  /** Its first member, `bar`, goes into the record being filled in. */
  lemma Impossible1Bar(cfg: DecConfig, oj: Json, s: DecState)
    requires cfg.base in s.heap && cfg.base < NextId(cfg, s)
    ensures var s1 := s.(heap := s.heap[cfg.base := PlainObject([Field("bar", Num(Finite(9.0)))], ObjectPrototype, false)]);
      DecodeFields(cfg, [], JObject(Impossible1Fields(oj)), 0, {}, [], cfg.base, s) ==
      DecodeFields(cfg, [], JObject(Impossible1Fields(oj)), 1, {"bar"}, [Field("bar", Num(Finite(9.0)))], cfg.base, s1)
  {
    var fields := Impossible1Fields(oj);
    FieldIndexOfDistinct(fields, 0);
    DecodeNumber(cfg, 9.0, s);
    DecodeFieldsStep(cfg, [], fields, 0, {}, [], cfg.base, s);
    assert [] + [Field("bar", Num(Finite(9.0)))] == [Field("bar", Num(Finite(9.0)))];
  }

  /** Its second member, `foo`, decoded once the record holds `bar`. */
  lemma Impossible1Foo(cfg: DecConfig, oj: Json, v: Val, s1: DecState)
    requires cfg.policy != ForbidCycles && s1.ibids == [Ref(cfg.base)] && cfg.base in s1.heap
    requires s1.heap[cfg.base] == PlainObject([Field("bar", Num(Finite(9.0)))], ObjectPrototype, false)
    requires var s := Start(cfg, s1, PlainObject([], ObjectPrototype, false)); DecodeVal(cfg, [], oj, s) == Ok((v, s))
    ensures var r := DecodeFields(cfg, [], JObject(Impossible1Fields(oj)), 1, {"bar"}, [Field("bar", Num(Finite(9.0)))], cfg.base, s1);
      r.Ok? && r.value.0 == [Field("bar", Num(Finite(9.0))), Field("foo", Ref(cfg.base + 1))] &&
      cfg.base in r.value.1.heap && cfg.base + 1 in r.value.1.heap &&
      r.value.1.heap[cfg.base + 1] == Frozen([QProp(v), Field("bar", Num(Finite(9.0)))])
  {
    var fields := Impossible1Fields(oj);
    var n: ObjId := cfg.base;
    var acc1 := [Field("bar", Num(Finite(9.0)))];
    ImpossibleFoo(cfg, s1, oj, v, Field("bar", Num(Finite(9.0))));
    var s2 := DecodeVal(cfg, [], fields[1].1, s1).value.1;
    var acc2 := acc1 + [Field("foo", Ref(n + 1))];
    var s3 := s2.(heap := s2.heap[n := PlainObject(acc2, ObjectPrototype, false)]);
    FieldIndexOfDistinct(fields, 1);
    DecodeFieldsStep(cfg, [], fields, 1, {"bar"}, acc1, n, s1);
    assert DecodeFields(cfg, [], JObject(fields), 2, {"bar", "foo"}, acc2, n, s3) == Ok((acc2, s3));
  }

  /** Allowing cycles, the first "impossible" body, whose hilbert rest is
      ibid 0, the enclosing record: by then that record holds `bar`, so
      `foo` gets `@qclass` 8 and a copy of `bar`. */
  lemma UnserializeImpossible1(cfg: DecConfig)
    requires BaseClear(cfg)
    requires cfg.policy != ForbidCycles
    ensures var u := Unserialize(cfg, CapData(JObject([("bar", JNumber(9.0)),
                                                       ("foo", Tagged("hilbert", [("original", JNumber(8.0)), ("rest", Ibid(0))]))]), []));
      u.Ok? && u.value.1 == Ref(cfg.base) && cfg.base in u.value.0 && cfg.base + 1 in u.value.0 &&
      u.value.0[cfg.base] == Frozen([Field("bar", Num(Finite(9.0))), Field("foo", Ref(cfg.base + 1))]) &&
      u.value.0[cfg.base + 1] == Frozen([QProp(Num(Finite(8.0))), Field("bar", Num(Finite(9.0)))])
  {
    var fields := Impossible1Fields(JNumber(8.0));
    var ds0 := DecState(cfg.imports, [], {});
    var n: ObjId := cfg.base;
    var s := Start(cfg, ds0, PlainObject([], ObjectPrototype, false));
    var s1 := s.(heap := s.heap[n := PlainObject([Field("bar", Num(Finite(9.0)))], ObjectPrototype, false)]);
    Impossible1Bar(cfg, JNumber(8.0), s);
    DecodeNumber(cfg, 8.0, Start(cfg, s1, PlainObject([], ObjectPrototype, false)));
    Impossible1Foo(cfg, JNumber(8.0), Num(Finite(8.0)), s1);
    var d := DecodeFields(cfg, [], JObject(fields), 0, {}, [], n, s);
    assert FieldIndex(fields, QCLASS).None?;
    DecodeRecordStep(cfg, [], fields, ds0, d);
    UnserializeOk(cfg, JObject(fields), Ref(n), Finish(d.value.1, n));
  }

  /** A hilbert node whose `rest` is an ibid naming an object that is not
      a plain record (an array, say) is refused. */
  lemma HilbertIbidNotRecord(cfg: DecConfig, oj: Json, n: nat, ds: DecState, d: Decoded<Val>)
    requires cfg.policy != ForbidCycles
    requires d == DecodeVal(cfg, [], oj, Start(cfg, ds, PlainObject([], ObjectPrototype, false))) && d.Ok?
    requires n < |d.value.1.ibids| && d.value.1.ibids[n].Ref?
    requires var t := d.value.1.ibids[n].id;
      t in d.value.1.heap && t != NextId(cfg, ds) && !d.value.1.heap[t].PlainObject?
    ensures DecodeVal(cfg, [], Tagged("hilbert", [("original", oj), ("rest", Ibid(n))]), ds) == Err(RestNotRecord)
  {
    var hid := NextId(cfg, ds);
    var ds1 := d.value.1.(heap := d.value.1.heap[hid := PlainObject([Prop(StrKey(QCLASS), Data(d.value.0, true))], ObjectPrototype, false)]);
    DecodeIbidNode(cfg, [], n, ds1);
    var fields := [(QCLASS, JString("hilbert")), ("original", oj), ("rest", Ibid(n))];
    HilbertMembers(fields);
    assert fields[1..] == [("original", oj), ("rest", Ibid(n))];
    HilbertNode(cfg, [], fields, ds);
  }

  /** The elements of the second "impossible" body, over the JSON `oj` of
      the `original` (8 there): a string, then a hilbert node whose rest is
      ibid 0, the enclosing array. */
  function Impossible2Elems(oj: Json): seq<Json> {
    [JString("x"), Tagged("hilbert", [("original", oj), ("rest", Ibid(0))])]
  }

  /** The string element decodes and nothing else moves. */
  lemma Impossible2Head(cfg: DecConfig, oj: Json, s: DecState)
    requires s.ibids == [Ref(cfg.base)] && cfg.base in s.heap
    ensures var s1 := s.(heap := s.heap[cfg.base := ArrayObject([Str("x")], false)]);
      DecodeElems(cfg, [], JArray(Impossible2Elems(oj)), 0, [], cfg.base, s)
        == DecodeElems(cfg, [], JArray(Impossible2Elems(oj)), 1, [Str("x")], cfg.base, s1)
  {
    var js := Impossible2Elems(oj);
    assert DecodeVal(cfg, [], js[0], s) == Ok((Str("x"), s));
    DecodeElemsStep(cfg, [], js, 0, [], cfg.base, s);
    assert [] + [Str("x")] == [Str("x")];
  }

  /** Decoding those elements into the array stops at the hilbert node. */
  lemma Impossible2Stops(cfg: DecConfig, oj: Json, v: Val, s: DecState)
    requires cfg.policy != ForbidCycles && s.ibids == [Ref(cfg.base)] && cfg.base in s.heap
    requires var s1 := s.(heap := s.heap[cfg.base := ArrayObject([Str("x")], false)]);
      var s2 := Start(cfg, s1, PlainObject([], ObjectPrototype, false));
      DecodeVal(cfg, [], oj, s2) == Ok((v, s2))
    ensures DecodeElems(cfg, [], JArray(Impossible2Elems(oj)), 0, [], cfg.base, s) == Err(RestNotRecord)
  {
    var js := Impossible2Elems(oj);
    var s1 := s.(heap := s.heap[cfg.base := ArrayObject([Str("x")], false)]);
    var s2 := Start(cfg, s1, PlainObject([], ObjectPrototype, false));
    Impossible2Head(cfg, oj, s);
    assert DecodeVal(cfg, [], js[1], s1) == Err(RestNotRecord) by {
      HilbertIbidNotRecord(cfg, oj, 0, s1, DecodeVal(cfg, [], oj, s2));
    }
    ElemFails(cfg, [], js, 1, [Str("x")], cfg.base, s1);
  }

  /** Allowing cycles, the second "impossible" body, whose hilbert rest is
      ibid 0, the enclosing array, is refused: the rest is not a record. */
  lemma UnserializeImpossible2(cfg: DecConfig)
    requires BaseClear(cfg)
    requires cfg.policy != ForbidCycles
    ensures Unserialize(cfg, CapData(JArray([JString("x"), Tagged("hilbert", [("original", JNumber(8.0)), ("rest", Ibid(0))])]), [])) ==
      Err(RestNotRecord)
  {
    var js := Impossible2Elems(JNumber(8.0));
    var ds0 := DecState(cfg.imports, [], {});
    var s := Start(cfg, ds0, ArrayObject([], false));
    var s1 := s.(heap := s.heap[cfg.base := ArrayObject([Str("x")], false)]);
    DecodeNumber(cfg, 8.0, Start(cfg, s1, PlainObject([], ObjectPrototype, false)));
    Impossible2Stops(cfg, JNumber(8.0), Num(Finite(8.0)), s);
    ArrayFails(cfg, [], js, ds0);
  }
}
