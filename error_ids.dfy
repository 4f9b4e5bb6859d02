/**
 * The error counter a marshal instance keeps between calls.  With error
 * tagging on, every error object a `serialize` call visits draws the next
 * number from the counter, once, however often the value graph refers to
 * it (a second reference is an ibid); with tagging off the counter never
 * moves.  The lemmas below follow the encoder's traversal and show that
 * the counter moves by exactly the number of error objects the call
 * visits.
 */
module ErrorIds {
  import opened Wrappers
  import opened Passable
  import opened Encoder

  /** The error objects visited so far: those holding an ibid index. */
  function ErrorsSeen(h: Heap, st: EncState): set<ObjId> {
    set id | id in st.ibids && id in h && h[id].ErrorObject?
  }

  /** How many numbers those errors draw from the counter. */
  function Tags(h: Heap, cfg: EncConfig, st: EncState): nat {
    if cfg.errorTagging then |ErrorsSeen(h, st)| else 0
  }

  /** From `st` to `st'`, the counter moved on by the errors visited in
      between, and only by those. */
  predicate Counts(h: Heap, cfg: EncConfig, st: EncState, st': EncState) {
    st'.errorIdNum + Tags(h, cfg, st) == st.errorIdNum + Tags(h, cfg, st')
  }

  /** Whether visiting `id` tags an error. */
  function TagOf(h: Heap, cfg: EncConfig, id: ObjId): nat
    requires id in h
  {
    if cfg.errorTagging && h[id].ErrorObject? then 1 else 0
  }

  lemma VisitTags(h: Heap, cfg: EncConfig, st: EncState, id: ObjId)
    requires id in h && id !in st.ibids
    ensures Tags(h, cfg, Visit(st, id)) == Tags(h, cfg, st) + TagOf(h, cfg, id)
  {
    var before, after := ErrorsSeen(h, st), ErrorsSeen(h, Visit(st, id));
    if h[id].ErrorObject? {
      assert after == before + {id};
    } else {
      assert after == before;
    }
  }

  lemma {:induction false} ValCounts(h: Heap, cfg: EncConfig, v: Val, st: EncState)
    requires WfHeap(h) && RefsIn(h, v) && StInv(h, st)
    ensures Counts(h, cfg, st, EncodeVal(h, cfg, v, st).st)
    decreases Unvisited(h, st), 0, 1
  {
    match PassStyleOf(h, v)
    case Err(_) =>
    case Ok(style) =>
      if v.Ref? {
        RefCounts(h, cfg, v.id, style, st);
      }
  }

  lemma {:induction false} RefCounts(h: Heap, cfg: EncConfig, id: ObjId, style: PassStyle, st: EncState)
    requires WfHeap(h) && id in h && StInv(h, st) && PassStyleOf(h, Ref(id)) == Ok(style)
    ensures Counts(h, cfg, st, EncodeRef(h, cfg, id, style, st).st)
    decreases Unvisited(h, st), 0, 0
  {
    if id !in st.ibids {
      var st1 := Visit(st, id);
      VisitInv(h, st, id);
      UnvisitedVisit(h, st, id, st1);
      VisitTags(h, cfg, st, id);
      ObjectCounts(h, cfg, id, style, st1);
    }
  }

  /** A freshly visited object draws one number if it is an error and
      tagging is on; what it contains draws the rest. */
  lemma {:induction false} ObjectCounts(h: Heap, cfg: EncConfig, id: ObjId, style: PassStyle, st: EncState)
    requires WfHeap(h) && id in h && StInv(h, st) && PassStyleOf(h, Ref(id)) == Ok(style)
    ensures var r := EncodeObject(h, cfg, id, style, st).st;
      r.errorIdNum + Tags(h, cfg, st) == st.errorIdNum + Tags(h, cfg, r) + TagOf(h, cfg, id)
    decreases Unvisited(h, st), 2, 0
  {
    match style
    case CopyArray =>
      ElemsCounts(h, cfg, h[id].elems, 0, st);
    case CopyRecord =>
      RecordCounts(h, cfg, id, st);
    case CopyError =>
    case Presence =>
    case PromiseStyle =>
    case _ =>
  }

  lemma {:induction false} RecordCounts(h: Heap, cfg: EncConfig, id: ObjId, st: EncState)
    requires WfHeap(h) && id in h && StInv(h, st) && IsCopyRecord(h[id])
    ensures Counts(h, cfg, st, EncodeRecord(h, cfg, id, st).st)
    decreases Unvisited(h, st), 1, 0
  {
    var props := h[id].props;
    assert DataFields(h, props);
    match QclassPos(props)
    case None => FieldsCounts(h, cfg, props, st);
    case Some(p) => HilbertCounts(h, cfg, props, p, st);
  }

  lemma {:induction false} HilbertCounts(h: Heap, cfg: EncConfig, props: seq<Prop>, p: nat, st: EncState)
    requires WfHeap(h) && StInv(h, st) && DataFields(h, props) && p < |props|
    ensures Counts(h, cfg, st, EncodeHilbert(h, cfg, props, p, st).st)
    decreases Unvisited(h, st), 0, |props| + 3
  {
    var orig := EncodeVal(h, cfg, props[p].desc.value, st);
    ValCounts(h, cfg, props[p].desc.value, st);
    if orig.result.Ok? && |Without(props, p)| != 0 {
      RestCounts(h, cfg, props, p, st);
    } else {
      assert EncodeHilbert(h, cfg, props, p, st).st == orig.st;
    }
  }

  /** The rest of a hilbert record takes an index but is no error; its
      properties draw what they draw. */
  lemma {:induction false} RestCounts(h: Heap, cfg: EncConfig, props: seq<Prop>, p: nat, st: EncState)
    requires WfHeap(h) && StInv(h, st) && DataFields(h, props) && p < |props|
    requires var orig := EncodeVal(h, cfg, props[p].desc.value, st);
      orig.result.Ok? && |Without(props, p)| != 0 && Counts(h, cfg, st, orig.st)
    ensures Counts(h, cfg, st, EncodeHilbert(h, cfg, props, p, st).st)
    decreases Unvisited(h, st), 0, |props| + 2
  {
    var orig := EncodeVal(h, cfg, props[p].desc.value, st);
    var st2 := Reserve(h, orig.st);
    UnvisitedMonotone(h, st, st2);
    assert ErrorsSeen(h, st2) == ErrorsSeen(h, orig.st);
    WithoutData(h, props, p);
    FieldsCounts(h, cfg, Without(props, p), st2);
    HilbertRestState(h, cfg, props, p, st);
  }

  /** Dropping one property keeps the others data fields. */
  lemma WithoutData(h: Heap, props: seq<Prop>, p: nat)
    requires DataFields(h, props) && p < |props|
    ensures DataFields(h, Without(props, p))
  {
    var r := Without(props, p);
    forall i | 0 <= i < |r|
      ensures r[i].key.StrKey? && r[i].desc.Data? && RefsIn(h, r[i].desc.value)
    {
      assert r[i] == props[if i < p then i else i + 1];
    }
  }

  /** Where the encoder stands after a hilbert record with a rest. */
  lemma HilbertRestState(h: Heap, cfg: EncConfig, props: seq<Prop>, p: nat, st: EncState)
    requires WfHeap(h) && StInv(h, st) && DataFields(h, props) && p < |props|
    requires var orig := EncodeVal(h, cfg, props[p].desc.value, st);
      orig.result.Ok? && |Without(props, p)| != 0
    ensures var orig := EncodeVal(h, cfg, props[p].desc.value, st);
      EncodeHilbert(h, cfg, props, p, st).st == EncodeFields(h, cfg, Without(props, p), Reserve(h, orig.st)).st
  {
  }

  lemma {:induction false} ElemsCounts(h: Heap, cfg: EncConfig, elems: seq<Val>, i: nat, st: EncState)
    requires WfHeap(h) && StInv(h, st) && i <= |elems| && forall k :: 0 <= k < |elems| ==> RefsIn(h, elems[k])
    ensures Counts(h, cfg, st, EncodeElems(h, cfg, elems, i, st).st)
    decreases Unvisited(h, st), 0, |elems| - i + 1
  {
    if i < |elems| {
      var first := EncodeVal(h, cfg, elems[i], st);
      ValCounts(h, cfg, elems[i], st);
      if first.result.Ok? {
        UnvisitedMonotone(h, st, first.st);
        ElemsCounts(h, cfg, elems, i + 1, first.st);
      }
    }
  }

  lemma {:induction false} FieldsCounts(h: Heap, cfg: EncConfig, props: seq<Prop>, st: EncState)
    requires WfHeap(h) && StInv(h, st) && DataFields(h, props)
    ensures Counts(h, cfg, st, EncodeFields(h, cfg, props, st).st)
    decreases Unvisited(h, st), 0, |props| + 2
  {
    ElemsCounts(h, cfg, PropValues(props), 0, st);
  }

  /** The objects one `serialize` call visits, each given an ibid index. */
  function Visited(h: Heap, cfg: EncConfig, v: Val, n: nat): set<ObjId>
    requires WfHeap(h) && RefsIn(h, v)
  {
    EncodeVal(h, cfg, v, EncState(map[], 0, [], n)).st.ibids.Keys
  }

  /** With tagging on, a `serialize` call moves the counter on by the
      number of distinct error objects it visits, whether or not it
      succeeds; with tagging off it leaves the counter alone. */
  lemma SerializeCounts(h: Heap, cfg: EncConfig, v: Val, n: nat)
    requires WfHeap(h) && RefsIn(h, v)
    ensures var errors := set id | id in Visited(h, cfg, v, n) && id in h && h[id].ErrorObject?;
      Serialize(h, cfg, v, n).1 == n + (if cfg.errorTagging then |errors| else 0)
  {
    var st0 := EncState(map[], 0, [], n);
    ValCounts(h, cfg, v, st0);
    assert ErrorsSeen(h, st0) == {};
    var st := EncodeVal(h, cfg, v, st0).st;
    assert ErrorsSeen(h, st) == set id | id in Visited(h, cfg, v, n) && id in h && h[id].ErrorObject?;
  }
}
