/**
 * Decoding an encoding gives back the original graph, up to the renaming
 * the round trip necessarily performs:
 *  - the object visited at traversal index `i` comes back as the decoded
 *    object with identity `base + i`;
 *  - remotables and promises come back as whatever the decoder's bridge
 *    makes of the slot the encoder's bridge produced;
 *  - `-0` comes back as `0`;
 *  - a record owning `@qclass` comes back with `@qclass` as its first key;
 *  - everything comes back frozen.
 * Sharing and cycles are preserved, since every visited object has exactly
 * one decoded counterpart.
 */
module RoundTrip {
  import opened Wrappers
  import opened Passable
  import opened JsonTree
  import opened Encoder
  import opened Decoder
  import Decimal

  /** The renaming: the original heap, the encoder's final ibid table and
      slot list, and both configurations (their bridges, and where the
      decoder allocates); `rank` is a ranking of the heap, which the proof
      needs only when the decoder forbids cycles. */
  datatype Ctx = Ctx(h: Heap, index: map<ObjId, nat>, slots: seq<string>, ecfg: EncConfig, dcfg: DecConfig,
                     rank: ObjId -> nat)

  /** Every value a visited object sent by copy holds refers to an object
      of lower rank: what the call visits has no cycle through objects
      sent by copy.  Finitely many objects have such a ranking exactly
      when they have no such cycle. */
  predicate Ranked(h: Heap, visited: map<ObjId, nat>, rank: ObjId -> nat) {
    forall id :: id in h && id in visited && !Slotted(h, id) ==> HoldsBelow(h[id], rank, rank(id))
  }

  predicate HoldsBelow(o: Obj, rank: ObjId -> nat, r: nat) {
    match o
    case ArrayObject(elems, _) =>
      forall k :: 0 <= k < |elems| && elems[k].Ref? ==> rank(elems[k].id) < r
    case PlainObject(props, _, _) =>
      forall k :: 0 <= k < |props| && props[k].desc.Data? && props[k].desc.value.Ref? ==>
        rank(props[k].desc.value.id) < r
    case _ => true
  }

  /** The decoder's bridge makes of every slot the encoder's bridge
      produced for a visited object a value that is not one of the decoded
      objects: a presence, never an object `unserialize` is building. */
  predicate SlotsImported(h: Heap, visited: map<ObjId, nat>, ecfg: EncConfig, dcfg: DecConfig) {
    forall id :: id in h && id in visited && Slotted(h, id) ==>
      var b := dcfg.fromSlot(ecfg.toSlot(Ref(id)), IfaceJson(h, id));
      b.Ref? ==> b.id < dcfg.base
  }

  /** Objects sent by reference rather than by copy: among passable
      objects, exactly the promises and the remotables (`SlottedIsStyle`). */
  predicate Slotted(h: Heap, id: ObjId)
    requires id in h
  {
    h[id].PromiseObject? || (h[id].PlainObject? && !RecordShaped(h[id]))
  }

  /** The `iface` member a slot reference carries, as the decoder sees it:
      the alleged interface of a remotable behind a remotable proto. */
  function IfaceJson(h: Heap, id: ObjId): Option<Json>
    requires id in h
  {
    var o := h[id];
    if o.PlainObject? && o.proto.RemotableProto? && o.proto.desc.iface.Some? then
      Some(JString(o.proto.desc.iface.value))
    else None
  }

  lemma SlottedIsStyle(h: Heap, id: ObjId)
    requires id in h && PassStyleOf(h, Ref(id)).Ok?
    ensures Slotted(h, id) <==>
      PassStyleOf(h, Ref(id)) == Ok(Presence) || PassStyleOf(h, Ref(id)) == Ok(PromiseStyle)
    ensures PassStyleOf(h, Ref(id)) == Ok(Presence) && GetInterfaceOf(h, Ref(id)).Some? ==>
      IfaceJson(h, id) == Some(JString(GetInterfaceOf(h, Ref(id)).value))
    ensures PassStyleOf(h, Ref(id)) == Ok(Presence) && GetInterfaceOf(h, Ref(id)).None? ==>
      IfaceJson(h, id) == None
  {
  }

  function RefImage(c: Ctx, id: ObjId): Val
    requires id in c.h && id in c.index
  {
    if Slotted(c.h, id) then c.dcfg.fromSlot(c.ecfg.toSlot(Ref(id)), IfaceJson(c.h, id))
    else Ref(c.dcfg.base + c.index[id])
  }

  function ValImage(c: Ctx, v: Val): Val {
    match v
    case Num(NegZero) => Num(Finite(0.0))
    case Ref(id) => if id in c.h && id in c.index then RefImage(c, id) else v
    case _ => v
  }

  function PropImage(c: Ctx, p: Prop): Prop {
    if p.desc.Data? then Prop(p.key, Data(ValImage(c, p.desc.value), true)) else p
  }

  function PropsImage(c: Ctx, props: seq<Prop>): (r: seq<Prop>)
    ensures |r| == |props| && forall i :: 0 <= i < |props| ==> r[i] == PropImage(c, props[i])
  {
    seq(|props|, i requires 0 <= i < |props| => PropImage(c, props[i]))
  }

  function ElemsImage(c: Ctx, elems: seq<Val>): (r: seq<Val>)
    ensures |r| == |elems| && forall i :: 0 <= i < |elems| ==> r[i] == ValImage(c, elems[i])
  {
    seq(|elems|, i requires 0 <= i < |elems| => ValImage(c, elems[i]))
  }

  /** The decoded counterpart of an object sent by copy. */
  function ObjImage(c: Ctx, o: Obj): Obj {
    match o
    case ArrayObject(elems, _) => ArrayObject(ElemsImage(c, elems), true)
    case ErrorObject(k, m, _) => ErrorObject(k, m, true)
    case PlainObject(props, _, _) =>
      (match QclassPos(props)
       case None => PlainObject(PropsImage(c, props), ObjectPrototype, true)
       case Some(p) =>
         PlainObject([PropImage(c, props[p])] + PropsImage(c, Without(props, p)), ObjectPrototype, true))
    case PromiseObject(_) => o
  }

  /** The encoder's state `st` is on the way to the final one. */
  predicate Extends(c: Ctx, st: EncState) {
    (forall id :: id in st.ibids ==> id in c.index && c.index[id] == st.ibids[id]) && st.slots <= c.slots
  }

  lemma ExtendsBack(c: Ctx, st: EncState, st': EncState)
    requires Grows(st, st') && Extends(c, st')
    ensures Extends(c, st)
  {
  }

  /** Every finished object sent by copy has its image in the decoded heap. */
  predicate HeapMatch(c: Ctx, st: EncState, ds: DecState)
    requires st.ibids.Keys <= c.h.Keys
  {
    forall id :: id in st.ibids && !Slotted(c.h, id) && c.dcfg.base + st.ibids[id] !in ds.unfinished ==>
      c.dcfg.base + st.ibids[id] in ds.heap && ds.heap[c.dcfg.base + st.ibids[id]] == ObjImage(c, c.h[id])
  }

  /** The decoder's state mirrors the encoder's: the same number of ibid
      entries, unfinished objects are decoded ones, the imported heap is
      untouched, each visited object's entry is its image, and each
      finished object sent by copy is in place. */
  predicate Sync(c: Ctx, st: EncState, ds: DecState) {
    Frame(c, st, ds) && EntriesMatch(c, st, ds) && HeapMatch(c, st, ds)
  }

  predicate Frame(c: Ctx, st: EncState, ds: DecState) {
    Extends(c, st) && st.ibids.Keys <= c.h.Keys &&
    |ds.ibids| == st.count &&
    (forall x :: x in ds.unfinished ==> c.dcfg.base <= x < c.dcfg.base + |ds.ibids|) &&
    (forall x :: x in c.dcfg.imports ==> x < c.dcfg.base && x in ds.heap && ds.heap[x] == c.dcfg.imports[x])
  }

  predicate EntriesMatch(c: Ctx, st: EncState, ds: DecState)
    requires Frame(c, st, ds)
  {
    forall id :: id in st.ibids ==> st.ibids[id] < st.count && ds.ibids[st.ibids[id]] == RefImage(c, id)
  }

  /* ---------------- single decoder steps keep the mirror ---------------- */

  lemma SyncWrite(c: Ctx, st: EncState, ds: DecState, x: ObjId, o: Obj)
    requires Sync(c, st, ds) && x in ds.unfinished
    ensures Sync(c, st, ds.(heap := ds.heap[x := o]))
  {
    var ds' := ds.(heap := ds.heap[x := o]);
    forall id | id in st.ibids && !Slotted(c.h, id) && c.dcfg.base + st.ibids[id] !in ds'.unfinished
      ensures c.dcfg.base + st.ibids[id] in ds'.heap && ds'.heap[c.dcfg.base + st.ibids[id]] == ObjImage(c, c.h[id])
    {
    }
  }

  /** Starting the object the encoder just visited. */
  lemma SyncStartVisited(c: Ctx, st: EncState, ds: DecState, id: ObjId, o: Obj)
    requires Sync(c, st, ds) && id in c.h && id !in st.ibids && !Slotted(c.h, id)
    requires id in c.index && c.index[id] == st.count
    ensures Sync(c, st.(ibids := st.ibids[id := st.count], count := st.count + 1), Start(c.dcfg, ds, o))
  {
    var st' := st.(ibids := st.ibids[id := st.count], count := st.count + 1);
    var ds' := Start(c.dcfg, ds, o);
    assert Frame(c, st', ds');
    EntriesStartVisited(c, st, ds, id, o);
    HeapStartVisited(c, st, ds, id, o);
  }

  lemma EntriesStartVisited(c: Ctx, st: EncState, ds: DecState, id: ObjId, o: Obj)
    requires Sync(c, st, ds) && id in c.h && id !in st.ibids && !Slotted(c.h, id)
    requires id in c.index && c.index[id] == st.count
    requires Frame(c, st.(ibids := st.ibids[id := st.count], count := st.count + 1), Start(c.dcfg, ds, o))
    ensures EntriesMatch(c, st.(ibids := st.ibids[id := st.count], count := st.count + 1), Start(c.dcfg, ds, o))
  {
    var st' := st.(ibids := st.ibids[id := st.count], count := st.count + 1);
    var ds' := Start(c.dcfg, ds, o);
    forall i | i in st'.ibids
      ensures st'.ibids[i] < st'.count && ds'.ibids[st'.ibids[i]] == RefImage(c, i)
    {
      if i != id {
        assert ds'.ibids[st'.ibids[i]] == ds.ibids[st.ibids[i]];
      }
    }
  }

  lemma HeapStartVisited(c: Ctx, st: EncState, ds: DecState, id: ObjId, o: Obj)
    requires Sync(c, st, ds) && id !in st.ibids && id in c.h
    ensures st.ibids[id := st.count].Keys <= c.h.Keys
    ensures HeapMatch(c, st.(ibids := st.ibids[id := st.count], count := st.count + 1), Start(c.dcfg, ds, o))
  {
    var st' := st.(ibids := st.ibids[id := st.count], count := st.count + 1);
    var ds' := Start(c.dcfg, ds, o);
    var n := NextId(c.dcfg, ds);
    forall i | i in st'.ibids && !Slotted(c.h, i) && c.dcfg.base + st'.ibids[i] !in ds'.unfinished
      ensures c.dcfg.base + st'.ibids[i] in ds'.heap && ds'.heap[c.dcfg.base + st'.ibids[i]] == ObjImage(c, c.h[i])
    {
      assert i != id;
      assert c.dcfg.base + st.ibids[i] != n;
    }
  }

  /** Starting the fresh record that holds a hilbert rest. */
  lemma SyncStartFresh(c: Ctx, st: EncState, ds: DecState, o: Obj)
    requires Sync(c, st, ds)
    ensures Sync(c, st.(count := st.count + 1), Start(c.dcfg, ds, o))
  {
    var st' := st.(count := st.count + 1);
    var ds' := Start(c.dcfg, ds, o);
    forall i | i in st'.ibids
      ensures ds'.ibids[st'.ibids[i]] == RefImage(c, i)
    {
      assert ds'.ibids[st'.ibids[i]] == ds.ibids[st.ibids[i]];
    }
    forall i | i in st'.ibids && !Slotted(c.h, i) && c.dcfg.base + st'.ibids[i] !in ds'.unfinished
      ensures c.dcfg.base + st'.ibids[i] in ds'.heap && ds'.heap[c.dcfg.base + st'.ibids[i]] == ObjImage(c, c.h[i])
    {
    }
  }

  /** Finishing the object at index `k`, once it holds what the object
      visited at `k` (if any) should come back as. */
  lemma SyncFinish(c: Ctx, st: EncState, ds: DecState, k: nat)
    requires Sync(c, st, ds) && c.dcfg.base + k in ds.unfinished && c.dcfg.base + k in ds.heap
    requires forall id :: id in st.ibids && st.ibids[id] == k && !Slotted(c.h, id) ==>
      ds.heap[c.dcfg.base + k].(frozen := true) == ObjImage(c, c.h[id])
    ensures Sync(c, st, Finish(ds, c.dcfg.base + k))
  {
    var ds' := Finish(ds, c.dcfg.base + k);
    forall id | id in st.ibids && !Slotted(c.h, id) && c.dcfg.base + st.ibids[id] !in ds'.unfinished
      ensures c.dcfg.base + st.ibids[id] in ds'.heap && ds'.heap[c.dcfg.base + st.ibids[id]] == ObjImage(c, c.h[id])
    {
    }
  }

  /** Registering the image of a value visited at the next index. */
  lemma SyncRegister(c: Ctx, st: EncState, ds: DecState, id: ObjId, ds': DecState)
    requires Sync(c, st, ds) && id in c.h && id !in st.ibids
    requires id in c.index && c.index[id] == st.count
    requires ds'.ibids == ds.ibids + [RefImage(c, id)] && ds'.unfinished == ds.unfinished
    requires forall x :: x in ds.heap && x != c.dcfg.base + st.count ==> x in ds'.heap && ds'.heap[x] == ds.heap[x]
    requires !Slotted(c.h, id) ==>
      c.dcfg.base + st.count in ds'.heap && ds'.heap[c.dcfg.base + st.count] == ObjImage(c, c.h[id])
    ensures Sync(c, st.(ibids := st.ibids[id := st.count], count := st.count + 1), ds')
  {
    var st' := st.(ibids := st.ibids[id := st.count], count := st.count + 1);
    assert Frame(c, st', ds');
    EntriesRegister(c, st, ds, id, ds');
    HeapRegister(c, st, ds, id, ds');
  }

  /** Registering the decoded error for the error visited now. */
  lemma SyncRegisterError(c: Ctx, st: EncState, ds: DecState, id: ObjId)
    requires Sync(c, st, ds) && id in c.h && c.h[id].ErrorObject? && id !in st.ibids
    requires id in c.index && c.index[id] == st.count
    ensures var n := NextId(c.dcfg, ds);
      Sync(c, Visit(st, id), Register(ds.(heap := ds.heap[n := ErrorObject(c.h[id].kind, c.h[id].message, true)]), Ref(n)))
  {
    var n := NextId(c.dcfg, ds);
    var o := ErrorObject(c.h[id].kind, c.h[id].message, true);
    assert n == c.dcfg.base + st.count;
    assert !Slotted(c.h, id) && RefImage(c, id) == Ref(n) && ObjImage(c, c.h[id]) == o;
    SyncRegister(c, st, ds, id, Register(ds.(heap := ds.heap[n := o]), Ref(n)));
  }

  /** Registering the bridge's value for the remotable or promise visited now. */
  lemma SyncRegisterSlot(c: Ctx, st: EncState, ds: DecState, id: ObjId)
    requires Sync(c, st, ds) && id in c.h && Slotted(c.h, id) && id !in st.ibids
    requires id in c.index && c.index[id] == st.count
    ensures Sync(c, Visit(st, id), Register(ds, RefImage(c, id)))
  {
    SyncRegister(c, st, ds, id, Register(ds, RefImage(c, id)));
  }

  lemma EntriesRegister(c: Ctx, st: EncState, ds: DecState, id: ObjId, ds': DecState)
    requires Sync(c, st, ds) && id in c.h && id !in st.ibids
    requires id in c.index && c.index[id] == st.count
    requires ds'.ibids == ds.ibids + [RefImage(c, id)]
    requires Frame(c, st.(ibids := st.ibids[id := st.count], count := st.count + 1), ds')
    ensures EntriesMatch(c, st.(ibids := st.ibids[id := st.count], count := st.count + 1), ds')
  {
    var st' := st.(ibids := st.ibids[id := st.count], count := st.count + 1);
    forall i | i in st'.ibids
      ensures st'.ibids[i] < st'.count && ds'.ibids[st'.ibids[i]] == RefImage(c, i)
    {
      if i != id {
        assert ds'.ibids[st'.ibids[i]] == ds.ibids[st.ibids[i]];
      }
    }
  }

  lemma HeapRegister(c: Ctx, st: EncState, ds: DecState, id: ObjId, ds': DecState)
    requires Sync(c, st, ds) && id in c.h && id !in st.ibids
    requires ds'.unfinished == ds.unfinished
    requires forall x :: x in ds.heap && x != c.dcfg.base + st.count ==> x in ds'.heap && ds'.heap[x] == ds.heap[x]
    requires !Slotted(c.h, id) ==>
      c.dcfg.base + st.count in ds'.heap && ds'.heap[c.dcfg.base + st.count] == ObjImage(c, c.h[id])
    ensures st.ibids[id := st.count].Keys <= c.h.Keys
    ensures HeapMatch(c, st.(ibids := st.ibids[id := st.count], count := st.count + 1), ds')
  {
    var st' := st.(ibids := st.ibids[id := st.count], count := st.count + 1);
    forall i | i in st'.ibids && !Slotted(c.h, i) && c.dcfg.base + st'.ibids[i] !in ds'.unfinished
      ensures c.dcfg.base + st'.ibids[i] in ds'.heap && ds'.heap[c.dcfg.base + st'.ibids[i]] == ObjImage(c, c.h[i])
    {
      if i != id {
        assert c.dcfg.base + st.ibids[i] != c.dcfg.base + st.count;
      }
    }
  }
}
