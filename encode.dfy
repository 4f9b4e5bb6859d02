/**
 * `serialize`: walks a value graph and produces the JSON body and the slot
 * list.  The per-call state is the ibid table (object identity to
 * traversal index), the number of indices handed out, the slots pushed so
 * far, and the marshal instance's error counter, threaded explicitly.
 */
module Encoder {
  import opened Wrappers
  import opened Passable
  import opened JsonTree
  import Decimal

  /** How a marshal instance was made: whether errors are tagged, the name
      used in error ids, and the bridge's `convertValToSlot`. */
  datatype EncConfig = EncConfig(errorTagging: bool, marshalName: string, toSlot: Val -> string)

  datatype EncState = EncState(ibids: map<ObjId, nat>, count: nat, slots: seq<string>, errorIdNum: nat)

  /** An encoding step's outcome together with the state it leaves behind:
      the error counter advances even when a later part of the value fails. */
  datatype Encoded<T> = Encoded(result: Result<T, MarshalError>, st: EncState)

  /** Every visited object is in the heap and has its own index, one
      already handed out. */
  predicate StInv(h: Heap, st: EncState) {
    st.ibids.Keys <= h.Keys &&
    (forall id :: id in st.ibids ==> st.ibids[id] < st.count) &&
    (forall a, b {:trigger IndexOf(st.ibids, a), IndexOf(st.ibids, b)} ::
       a in st.ibids && b in st.ibids && a != b ==> IndexOf(st.ibids, a) != IndexOf(st.ibids, b))
  }

  /** The index of a visited object. */
  function IndexOf(ibids: map<ObjId, nat>, id: ObjId): nat
    requires id in ibids
  {
    ibids[id]
  }

  /** The state only ever grows: the ibid table is extended, never changed,
      and objects visited later take later indices. */
  predicate Grows(st: EncState, st': EncState) {
    (forall id :: id in st.ibids ==> id in st'.ibids && st'.ibids[id] == st.ibids[id]) &&
    (forall id :: id in st'.ibids && id !in st.ibids ==> st'.ibids[id] >= st.count) &&
    st.count <= st'.count && st.slots <= st'.slots && st.errorIdNum <= st'.errorIdNum
  }

  lemma GrowsTrans(a: EncState, b: EncState, c: EncState)
    requires Grows(a, b) && Grows(b, c)
    ensures Grows(a, c)
  {
  }

  /** Records a first visit: the object takes the next index. */
  function Visit(st: EncState, id: ObjId): EncState {
    st.(ibids := st.ibids[id := st.count], count := st.count + 1)
  }

  /** Hands out the next index without visiting anything: the index of
      the fresh record holding a hilbert rest. */
  function Reserve(h: Heap, st: EncState): (r: EncState)
    requires StInv(h, st)
    ensures r.ibids == st.ibids && r.count == st.count + 1 && r.slots == st.slots && r.errorIdNum == st.errorIdNum
    ensures StInv(h, r) && Grows(st, r)
  {
    st.(count := st.count + 1)
  }

  lemma VisitInv(h: Heap, st: EncState, id: ObjId)
    requires StInv(h, st) && id in h && id !in st.ibids
    ensures StInv(h, Visit(st, id)) && Grows(st, Visit(st, id))
  {
    var ibids := Visit(st, id).ibids;
    forall a, b | a in ibids && b in ibids && a != b
      ensures IndexOf(ibids, a) != IndexOf(ibids, b)
    {
      if a != id && b != id {
        assert IndexOf(st.ibids, a) != IndexOf(st.ibids, b);
      }
    }
  }

  /** The number of heap objects not yet visited: the encoder's measure. */
  function Unvisited(h: Heap, st: EncState): nat {
    |h.Keys - st.ibids.Keys|
  }

  lemma SubsetCard<T>(a: set<T>, b: set<T>)
    requires a <= b
    ensures |a| <= |b|
  {
    if a != {} {
      var x :| x in a;
      SubsetCard(a - {x}, b - {x});
    }
  }

  lemma UnvisitedMonotone(h: Heap, st: EncState, st': EncState)
    requires Grows(st, st')
    ensures Unvisited(h, st') <= Unvisited(h, st)
  {
    SubsetCard(h.Keys - st'.ibids.Keys, h.Keys - st.ibids.Keys);
  }

  lemma UnvisitedVisit(h: Heap, st: EncState, id: ObjId, st': EncState)
    requires id in h && id !in st.ibids && st'.ibids.Keys == st.ibids.Keys + {id}
    ensures Unvisited(h, st') < Unvisited(h, st)
  {
    assert h.Keys - st'.ibids.Keys == (h.Keys - st.ibids.Keys) - {id};
  }

  /** `{"@qclass": tag, ...rest}` */
  function Tagged(tag: string, rest: seq<(string, Json)>): Json {
    JObject([(QCLASS, JString(tag))] + rest)
  }

  function ErrorId(marshalName: string, n: nat): string {
    "error:" + marshalName + "#" + Decimal.NatToDecimal(n)
  }

  function IfaceField(iface: Option<string>): seq<(string, Json)> {
    if iface.Some? then [("iface", JString(iface.value))] else []
  }

  /** A slot reference: pushes the bridge's slot for `v` and refers to it
      by its position in the slot list. */
  function SlotRef(cfg: EncConfig, v: Val, iface: Option<string>, st: EncState): (r: Encoded<Json>)
    ensures r.result.Ok? && Grows(st, r.st)
    ensures r.st == st.(slots := st.slots + [cfg.toSlot(v)])
    ensures r.result.value ==
      Tagged("slot", IfaceField(iface) + [("index", JNumber(|st.slots| as real))])
  {
    Encoded(Ok(Tagged("slot", IfaceField(iface) + [("index", JNumber(|st.slots| as real))])),
            st.(slots := st.slots + [cfg.toSlot(v)]))
  }

  /** Fields of a copyRecord: string-keyed data properties. */
  predicate DataFields(h: Heap, props: seq<Prop>) {
    forall i :: 0 <= i < |props| ==>
      props[i].key.StrKey? && props[i].desc.Data? && RefsIn(h, props[i].desc.value)
  }

  /** Where a record owns the `@qclass` key, if it does. */
  function QclassPos(props: seq<Prop>): (r: Option<nat>)
    ensures r.Some? ==> r.value < |props| && props[r.value].key == StrKey(QCLASS)
    ensures r.None? ==> forall i :: 0 <= i < |props| ==> props[i].key != StrKey(QCLASS)
  {
    if |props| == 0 then None
    else if props[0].key == StrKey(QCLASS) then Some(0)
    else
      var r := QclassPos(props[1..]);
      assert forall i :: 1 <= i < |props| ==> props[i] == props[1..][i - 1];
      if r.Some? then Some(r.value + 1) else None
  }

  /** A record without the property at position `p`: what the object
      rest pattern `{ [QCLASS]: q, ...rest }` leaves. */
  function Without(props: seq<Prop>, p: nat): (r: seq<Prop>)
    requires p < |props|
    ensures |r| == |props| - 1
    ensures forall i :: 0 <= i < p ==> r[i] == props[i]
    ensures forall i :: p <= i < |r| ==> r[i] == props[i + 1]
  {
    props[..p] + props[p + 1..]
  }

  /** Numbers: `-0` is sent as `0`; the non-finite ones are tagged. */
  function EncodeNumber(n: Number): Json {
    match n
    case Finite(x) => JNumber(x)
    case NegZero => JNumber(0.0)
    case NaN => Tagged("NaN", [])
    case Infinity => Tagged("Infinity", [])
    case NegInfinity => Tagged("-Infinity", [])
  }

  function EncodeVal(h: Heap, cfg: EncConfig, v: Val, st: EncState): (r: Encoded<Json>)
    requires WfHeap(h) && RefsIn(h, v) && StInv(h, st)
    ensures StInv(h, r.st) && Grows(st, r.st)
    ensures !v.Ref? ==> r.st == st
    decreases Unvisited(h, st), 0, 1
  {
    match PassStyleOf(h, v)
    case Err(e) => Encoded(Err(e), st)
    case Ok(style) =>
      match v
      case Undefined => Encoded(Ok(Tagged("undefined", [])), st)
      case Null => Encoded(Ok(JNull), st)
      case Bool(b) => Encoded(Ok(JBool(b)), st)
      case Str(s) => Encoded(Ok(JString(s)), st)
      case Num(n) => Encoded(Ok(EncodeNumber(n)), st)
      case BigInt(i) => Encoded(Ok(Tagged("bigint", [("digits", JString(Decimal.IntToDecimal(i)))])), st)
      case Symbol(_) => Encoded(Ok(Tagged("@@asyncIterator", [])), st)
      case Function(_) => assert false; Encoded(Err(BareFunction), st)
      case Ref(id) => EncodeRef(h, cfg, id, style, st)
  }

  /** An object: an ibid when it was seen before in this call, and
      otherwise its next index and an encoding by pass style. */
  function EncodeRef(h: Heap, cfg: EncConfig, id: ObjId, style: PassStyle, st: EncState): (r: Encoded<Json>)
    requires WfHeap(h) && id in h && StInv(h, st) && PassStyleOf(h, Ref(id)) == Ok(style)
    ensures StInv(h, r.st) && Grows(st, r.st)
    decreases Unvisited(h, st), 0, 0
  {
    if id in st.ibids then
      Encoded(Ok(Tagged("ibid", [("index", JNumber(st.ibids[id] as real))])), st)
    else
      var st1 := Visit(st, id);
      VisitInv(h, st, id);
      UnvisitedVisit(h, st, id, st1);
      var r := EncodeObject(h, cfg, id, style, st1);
      GrowsTrans(st, st1, r.st);
      r
  }

  /** Encodes a freshly visited object according to its pass style. */
  function EncodeObject(h: Heap, cfg: EncConfig, id: ObjId, style: PassStyle, st: EncState): (r: Encoded<Json>)
    requires WfHeap(h) && id in h && StInv(h, st) && PassStyleOf(h, Ref(id)) == Ok(style)
    ensures StInv(h, r.st) && Grows(st, r.st)
    decreases Unvisited(h, st), 2, 0
  {
    match style
    case CopyArray =>
      var r := EncodeElems(h, cfg, h[id].elems, 0, st);
      Encoded(if r.result.Ok? then Ok(JArray(r.result.value)) else Err(r.result.error), r.st)
    case CopyRecord => EncodeRecord(h, cfg, id, st)
    case CopyError => EncodeError(cfg, h[id], st)
    case Presence => SlotRef(cfg, Ref(id), GetInterfaceOf(h, Ref(id)), st)
    case PromiseStyle => SlotRef(cfg, Ref(id), None, st)
    case _ => assert false; Encoded(Err(NonFrozen), st)
  }

  /** An error: its message and name, and with tagging on an `errorId`
      drawn from the marshal's counter. */
  function EncodeError(cfg: EncConfig, o: Obj, st: EncState): (r: Encoded<Json>)
    requires o.ErrorObject?
    ensures r.result.Ok? && Grows(st, r.st)
    ensures r.st == st.(errorIdNum := if cfg.errorTagging then st.errorIdNum + 1 else st.errorIdNum)
  {
    var tail := [("message", JString(o.message)), ("name", JString(ErrorName(o.kind)))];
    if cfg.errorTagging then
      var n := st.errorIdNum + 1;
      Encoded(Ok(Tagged("error", [("errorId", JString(ErrorId(cfg.marshalName, n)))] + tail)),
              st.(errorIdNum := n))
    else
      Encoded(Ok(Tagged("error", tail)), st)
  }

  /** A copyRecord: its fields in order, or the hilbert escape when it
      owns a `@qclass` key. */
  function EncodeRecord(h: Heap, cfg: EncConfig, id: ObjId, st: EncState): (r: Encoded<Json>)
    requires WfHeap(h) && id in h && StInv(h, st) && IsCopyRecord(h[id])
    ensures StInv(h, r.st) && Grows(st, r.st)
    decreases Unvisited(h, st), 1, 0
  {
    var props := h[id].props;
    assert DataFields(h, props);
    match QclassPos(props)
    case None =>
      var r := EncodeFields(h, cfg, props, st);
      Encoded(if r.result.Ok? then Ok(JObject(r.result.value)) else Err(r.result.error), r.st)
    case Some(p) => EncodeHilbert(h, cfg, props, p, st)
  }

  /** The hilbert escape for a record owning `@qclass` at position `p`:
      the original value of that key, and the remaining fields as a fresh
      record, if there are any. */
  function EncodeHilbert(h: Heap, cfg: EncConfig, props: seq<Prop>, p: nat, st: EncState): (r: Encoded<Json>)
    requires WfHeap(h) && StInv(h, st) && DataFields(h, props) && p < |props|
    ensures StInv(h, r.st) && Grows(st, r.st)
    decreases Unvisited(h, st), 0, |props| + 3
  {
    var orig := EncodeVal(h, cfg, props[p].desc.value, st);
    if orig.result.Err? then Encoded(Err(orig.result.error), orig.st)
    else
      var rest := Without(props, p);
      if |rest| == 0 then
        Encoded(Ok(Tagged("hilbert", [("original", orig.result.value)])), orig.st)
      else
        // the rest is a fresh record and is visited like any other
        var st2 := Reserve(h, orig.st);
        UnvisitedMonotone(h, st, st2);
        var r := EncodeFields(h, cfg, rest, st2);
        Encoded(
          if r.result.Ok? then
            Ok(Tagged("hilbert", [("original", orig.result.value), ("rest", JObject(r.result.value))]))
          else Err(r.result.error),
          r.st)
  }

  /** `val.map(encode)`, from position `i` on. */
  function EncodeElems(h: Heap, cfg: EncConfig, elems: seq<Val>, i: nat, st: EncState): (r: Encoded<seq<Json>>)
    requires WfHeap(h) && StInv(h, st) && i <= |elems| && forall k :: 0 <= k < |elems| ==> RefsIn(h, elems[k])
    ensures StInv(h, r.st) && Grows(st, r.st)
    ensures r.result.Ok? ==> |r.result.value| == |elems| - i
    decreases Unvisited(h, st), 0, |elems| - i + 1
  {
    if i == |elems| then Encoded(Ok([]), st)
    else
      var first := EncodeVal(h, cfg, elems[i], st);
      if first.result.Err? then Encoded(Err(first.result.error), first.st)
      else
        UnvisitedMonotone(h, st, first.st);
        var more := EncodeElems(h, cfg, elems, i + 1, first.st);
        GrowsTrans(st, first.st, more.st);
        Encoded(if more.result.Ok? then Ok([first.result.value] + more.result.value) else more.result, more.st)
  }

  /** A record's fields, each encoded under its own name, in order. */
  function EncodeFields(h: Heap, cfg: EncConfig, props: seq<Prop>, st: EncState): (r: Encoded<seq<(string, Json)>>)
    requires WfHeap(h) && StInv(h, st) && DataFields(h, props)
    ensures StInv(h, r.st) && Grows(st, r.st)
    ensures r.result.Ok? ==>
      |r.result.value| == |props| && forall k :: 0 <= k < |props| ==> r.result.value[k].0 == props[k].key.name
    decreases Unvisited(h, st), 0, |props| + 2
  {
    var vals := PropValues(props);
    var r := EncodeElems(h, cfg, vals, 0, st);
    if r.result.Ok? then Encoded(Ok(Named(props, r.result.value)), r.st) else Encoded(Err(r.result.error), r.st)
  }

  /** The values of a record's data properties, in order. */
  function PropValues(props: seq<Prop>): (r: seq<Val>)
    requires forall k :: 0 <= k < |props| ==> props[k].desc.Data?
    ensures |r| == |props| && forall k :: 0 <= k < |props| ==> r[k] == props[k].desc.value
  {
    seq(|props|, k requires 0 <= k < |props| => props[k].desc.value)
  }

  /** Pairs each string key with the encoding of its value. */
  function Named(props: seq<Prop>, js: seq<Json>): (r: seq<(string, Json)>)
    requires |js| == |props| && forall k :: 0 <= k < |props| ==> props[k].key.StrKey?
    ensures |r| == |props| && forall k :: 0 <= k < |props| ==> r[k] == (props[k].key.name, js[k])
  {
    seq(|props|, k requires 0 <= k < |props| => (props[k].key.name, js[k]))
  }

  /** One `serialize` call: a fresh ibid table and slot list, and the
      marshal's error counter carried in and out. */
  function Serialize(h: Heap, cfg: EncConfig, v: Val, errorIdNum: nat): (r: (Result<CapData, MarshalError>, nat))
    requires WfHeap(h) && RefsIn(h, v)
    ensures r.1 >= errorIdNum
  {
    var e := EncodeVal(h, cfg, v, EncState(map[], 0, [], errorIdNum));
    (if e.result.Ok? then Ok(CapData(e.result.value, e.st.slots)) else Err(e.result.error), e.st.errorIdNum)
  }
}
