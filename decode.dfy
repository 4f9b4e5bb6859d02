/**
 * `unserialize`: rebuilds a value graph from a body and its slots.  Every
 * object the body describes is allocated in the heap and recorded in the
 * ibid table in the order it is started; objects still being filled in are
 * "unfinished", and an ibid pointing at one is a cycle, which the cycle
 * policy forbids, reports or allows.
 */
module Decoder {
  import opened Wrappers
  import opened Passable
  import opened JsonTree
  import Decimal

  datatype CyclePolicy = ForbidCycles | WarnOfCycles | AllowCycles

  /** The decoder's surroundings: the cycle policy, the bridge's
      `convertSlotToVal`, the heap of objects the bridge can hand back, and
      the first identity free for decoded objects. */
  datatype DecConfig = DecConfig(
    policy: CyclePolicy,
    fromSlot: (string, Option<Json>) -> Val,
    imports: Heap,
    base: nat)

  datatype DecState = DecState(heap: Heap, ibids: seq<Val>, unfinished: set<ObjId>)

  type Decoded<T> = Result<(T, DecState), MarshalError>

  /** The identity the next decoded object receives. */
  function NextId(cfg: DecConfig, ds: DecState): ObjId {
    cfg.base + |ds.ibids|
  }

  /** Allocates an object that is still to be filled in. */
  function Start(cfg: DecConfig, ds: DecState, o: Obj): (ds': DecState)
    ensures ds'.ibids == ds.ibids + [Ref(NextId(cfg, ds))]
    ensures ds'.heap == ds.heap[NextId(cfg, ds) := o]
    ensures ds'.unfinished == ds.unfinished + {NextId(cfg, ds)}
  {
    var id := NextId(cfg, ds);
    DecState(ds.heap[id := o], ds.ibids + [Ref(id)], ds.unfinished + {id})
  }

  /** Records a value that is complete as soon as it exists. */
  function Register(ds: DecState, v: Val): (ds': DecState)
    ensures ds'.ibids == ds.ibids + [v] && ds'.heap == ds.heap && ds'.unfinished == ds.unfinished
  {
    ds.(ibids := ds.ibids + [v])
  }

  /** Freezes a finished object and takes it off the unfinished set. */
  function Finish(ds: DecState, id: ObjId): (ds': DecState)
    requires id in ds.heap
    ensures ds'.heap == ds.heap[id := ds.heap[id].(frozen := true)]
    ensures ds'.unfinished == ds.unfinished - {id} && ds'.ibids == ds.ibids
  {
    ds.(heap := ds.heap[id := ds.heap[id].(frozen := true)], unfinished := ds.unfinished - {id})
  }

  /** What a decoding step may do to the state: extend the ibid table,
      allocate, and write only objects it allocated itself (and `pid`, the
      container being filled in, if any). */
  predicate Keeps(cfg: DecConfig, ds: DecState, ds': DecState, pid: Option<ObjId>) {
    ds.ibids <= ds'.ibids && ds.heap.Keys <= ds'.heap.Keys &&
    forall x :: x in ds.heap && x < NextId(cfg, ds) && Some(x) != pid ==> ds'.heap[x] == ds.heap[x]
  }

  predicate OwnsKey(props: seq<Prop>, k: PropKey) {
    exists i :: 0 <= i < |props| && props[i].key == k
  }

  function DecodeVal(cfg: DecConfig, slots: seq<string>, j: Json, ds: DecState): (r: Decoded<Val>)
    ensures r.Ok? ==> Keeps(cfg, ds, r.value.1, None)
    decreases j, 2, 0
  {
    match j
    case JNull => Ok((Null, ds))
    case JBool(b) => Ok((Bool(b), ds))
    case JNumber(x) => Ok((Num(Finite(x)), ds))
    case JString(s) => Ok((Str(s), ds))
    case JArray(elems) =>
      var id := NextId(cfg, ds);
      var r :- DecodeElems(cfg, slots, j, 0, [], id, Start(cfg, ds, ArrayObject([], false)));
      Ok((Ref(id), Finish(r.1, id)))
    case JObject(fields) =>
      if FieldIndex(fields, QCLASS).None? then DecodeRecord(cfg, slots, j, ds)
      else DecodeTagged(cfg, slots, j, ds)
  }

  /** A record without `@qclass`: a fresh object filled in member order. */
  function DecodeRecord(cfg: DecConfig, slots: seq<string>, j: Json, ds: DecState): (r: Decoded<Val>)
    requires j.JObject?
    ensures r.Ok? ==> Keeps(cfg, ds, r.value.1, None)
    ensures r.Ok? ==> r.value.0 == Ref(NextId(cfg, ds))
    decreases j, 1, 0
  {
    var id := NextId(cfg, ds);
    var r :- DecodeFields(cfg, slots, j, 0, {}, [], id, Start(cfg, ds, PlainObject([], ObjectPrototype, false)));
    Ok((Ref(id), Finish(r.1, id)))
  }

  /** The array elements from position `i` on, each stored into the array
      `pid` as soon as it is decoded. */
  function DecodeElems(cfg: DecConfig, slots: seq<string>, j: Json, i: nat, acc: seq<Val>, pid: ObjId, ds: DecState)
    : (r: Decoded<seq<Val>>)
    requires j.JArray? && i <= |j.elems| && pid in ds.heap && pid < NextId(cfg, ds)
    ensures r.Ok? ==> Keeps(cfg, ds, r.value.1, Some(pid))
    ensures r.Ok? && |acc| == i ==> |r.value.0| == |j.elems|
    decreases j, 0, |j.elems| - i
  {
    if i == |j.elems| then
      Ok((acc, ds))
    else
      var r :- DecodeVal(cfg, slots, j.elems[i], ds);
      var acc' := acc + [r.0];
      DecodeElems(cfg, slots, j, i + 1, acc', pid, r.1.(heap := r.1.heap[pid := ArrayObject(acc', false)]))
  }

  /** The record members from position `i` on.  A name seen before is
      skipped, and a name's value is its last occurrence, as `JSON.parse`
      leaves them. */
  function DecodeFields(cfg: DecConfig, slots: seq<string>, j: Json, i: nat, seen: set<string>,
                        acc: seq<Prop>, pid: ObjId, ds: DecState): (r: Decoded<seq<Prop>>)
    requires j.JObject? && i <= |j.fields| && pid in ds.heap && pid < NextId(cfg, ds)
    ensures r.Ok? ==> Keeps(cfg, ds, r.value.1, Some(pid))
    decreases j, 0, |j.fields| - i
  {
    if i == |j.fields| then
      Ok((acc, ds))
    else
      var key := j.fields[i].0;
      if key in seen then DecodeFields(cfg, slots, j, i + 1, seen, acc, pid, ds)
      else
        var k := FieldIndex(j.fields, key).value;
        var r :- DecodeVal(cfg, slots, j.fields[k].1, ds);
        var acc' := acc + [Prop(StrKey(key), Data(r.0, true))];
        DecodeFields(cfg, slots, j, i + 1, seen + {key}, acc', pid,
                     r.1.(heap := r.1.heap[pid := PlainObject(acc', ObjectPrototype, false)]))
  }

  /** A node carrying `@qclass`. */
  function DecodeTagged(cfg: DecConfig, slots: seq<string>, j: Json, ds: DecState): (r: Decoded<Val>)
    requires j.JObject? && FieldIndex(j.fields, QCLASS).Some?
    ensures r.Ok? ==> Keeps(cfg, ds, r.value.1, None)
    decreases j, 1, 0
  {
    var fields := j.fields;
    var tag := fields[FieldIndex(fields, QCLASS).value].1;
    if !tag.JString? then Err(InvalidQclass)
    else if tag.s == "undefined" then Ok((Undefined, ds))
    else if tag.s == "NaN" then Ok((Num(NaN), ds))
    else if tag.s == "Infinity" then Ok((Num(Infinity), ds))
    else if tag.s == "-Infinity" then Ok((Num(NegInfinity), ds))
    else if tag.s == "bigint" then
      match Lookup(fields, "digits")
      case Some(JString(digits)) =>
        (match Decimal.ParseBigInt(digits)
         case Some(i) => Ok((BigInt(i), ds))
         case None => Err(InvalidBigintDigits))
      case _ => Err(InvalidBigintDigits)
    else if tag.s == "@@asyncIterator" then Ok((Symbol(ASYNC_ITERATOR), ds))
    else if tag.s == "ibid" then
      match AsNatField(fields, "index")
      case None => Err(InvalidIndex)
      case Some(n) =>
        if n >= |ds.ibids| then Err(IbidOutOfRange(n))
        else
          var v := ds.ibids[n];
          if cfg.policy == ForbidCycles && v.Ref? && v.id in ds.unfinished then Err(IbidCycle(n))
          else Ok((v, ds))
    else if tag.s == "error" then
      match (Lookup(fields, "name"), Lookup(fields, "message"))
      case (Some(JString(name)), Some(JString(message))) =>
        var id := NextId(cfg, ds);
        Ok((Ref(id), Register(ds.(heap := ds.heap[id := ErrorObject(ErrorKindNamed(name), message, true)]), Ref(id))))
      case _ => Err(InvalidErrorEncoding)
    else if tag.s == "slot" then
      match AsNatField(fields, "index")
      case None => Err(InvalidIndex)
      case Some(n) =>
        if n >= |slots| then Err(SlotOutOfRange(n))
        else
          var v := cfg.fromSlot(slots[n], Lookup(fields, "iface"));
          Ok((v, Register(ds, v)))
    else if tag.s == "hilbert" then DecodeHilbert(cfg, slots, j, ds)
    else Err(UnrecognizedQclass(tag.s))
  }

  function AsNatField(fields: seq<(string, Json)>, key: string): Option<nat> {
    match Lookup(fields, key)
    case None => None
    case Some(v) => AsNat(v)
  }

  /** The hilbert escape: a record whose `@qclass` property holds the
      decoded `original`, and which then takes on the own properties of the
      decoded `rest`, if any. */
  function DecodeHilbert(cfg: DecConfig, slots: seq<string>, j: Json, ds: DecState): (r: Decoded<Val>)
    requires j.JObject?
    ensures r.Ok? ==> Keeps(cfg, ds, r.value.1, None)
    decreases j, 0, 0
  {
    var fields := j.fields;
    match FieldIndex(fields, "original")
    case None => Err(InvalidHilbert)
    case Some(ko) =>
      var id := NextId(cfg, ds);
      var r :- DecodeVal(cfg, slots, fields[ko].1, Start(cfg, ds, PlainObject([], ObjectPrototype, false)));
      var qprop := Prop(StrKey(QCLASS), Data(r.0, true));
      var ds1 := r.1.(heap := r.1.heap[id := PlainObject([qprop], ObjectPrototype, false)]);
      match FieldIndex(fields, "rest")
      case None => Ok((Ref(id), Finish(ds1, id)))
      case Some(kr) =>
        var rr :- DecodeVal(cfg, slots, fields[kr].1, ds1);
        var rest := rr.0;
        var ds2 := rr.1;
        if !(rest.Ref? && rest.id in ds2.heap && ds2.heap[rest.id].PlainObject?) then Err(RestNotRecord)
        else
          var restProps := ds2.heap[rest.id].props;
          if OwnsKey(restProps, StrKey(QCLASS)) then Err(RestDefinesQclass)
          else
            var ds3 := ds2.(heap := ds2.heap[id := PlainObject([qprop] + restProps, ObjectPrototype, false)]);
            Ok((Ref(id), Finish(ds3, id)))
  }

  /** Identities handed to decoded objects clash with no imported object. */
  predicate BaseClear(cfg: DecConfig) {
    forall x :: x in cfg.imports ==> x < cfg.base
  }

  /* ---------------- hardening the result ---------------- */

  /** The values an object's own data properties or elements hold. */
  function HeldValues(o: Obj): (r: seq<Val>)
    ensures o.ArrayObject? ==> r == o.elems
    ensures o.PlainObject? ==> forall k :: 0 <= k < |o.props| && o.props[k].desc.Data? ==> o.props[k].desc.value in r
    ensures o.PlainObject? ==> forall w :: w in r ==> exists p :: p in o.props && p.desc.Data? && p.desc.value == w
    ensures o.ErrorObject? || o.PromiseObject? ==> r == []
  {
    match o
    case ArrayObject(elems, _) => elems
    case PlainObject(props, _, _) => DataValues(props)
    case _ => []
  }

  function DataValues(props: seq<Prop>): (r: seq<Val>)
    ensures forall k :: 0 <= k < |props| && props[k].desc.Data? ==> props[k].desc.value in r
    ensures forall w :: w in r ==> exists p :: p in props && p.desc.Data? && p.desc.value == w
  {
    if props == [] then []
    else (if props[0].desc.Data? then [props[0].desc.value] else []) + DataValues(props[1..])
  }

  /** The objects an object refers to directly. */
  function Children(o: Obj): (r: seq<ObjId>)
    ensures forall w :: w in HeldValues(o) && w.Ref? ==> w.id in r
    ensures forall x :: x in r ==> Ref(x) in HeldValues(o)
  {
    Refs(HeldValues(o))
  }

  function Refs(vs: seq<Val>): (r: seq<ObjId>)
    ensures forall w :: w in vs && w.Ref? ==> w.id in r
    ensures forall x :: x in r ==> Ref(x) in vs
  {
    if vs == [] then []
    else (if vs[0].Ref? then [vs[0].id] else []) + Refs(vs[1..])
  }

  /** No object of `s` in `h` refers to an object of `h` outside `s` or
      `pending`. */
  predicate Closed(h: Heap, s: set<ObjId>, pending: seq<ObjId>) {
    forall y, c :: y in s && y in h && c in Children(h[y]) && c in h ==> c in s || c in pending
  }

  /** The objects of `h` reachable from `todo`, beyond those in `seen`. */
  function ReachFrom(h: Heap, todo: seq<ObjId>, seen: set<ObjId>): (r: set<ObjId>)
    ensures seen <= r && r <= seen + h.Keys
    ensures forall t :: t in todo && t in h ==> t in r
    decreases h.Keys - seen, |todo|
  {
    if todo == [] then seen
    else
      var x := todo[0];
      if x in seen || x !in h then ReachFrom(h, todo[1..], seen)
      else ReachFrom(h, Children(h[x]) + todo[1..], seen + {x})
  }

  /** The objects a value reaches: itself, if it is an object, and every
      object reachable from those through data properties and elements. */
  function Reach(h: Heap, v: Val): (r: set<ObjId>)
    ensures r <= h.Keys
    ensures v.Ref? && v.id in h ==> v.id in r
  {
    if v.Ref? then ReachFrom(h, [v.id], {}) else {}
  }

  lemma {:induction false} ReachFromClosed(h: Heap, todo: seq<ObjId>, seen: set<ObjId>)
    requires Closed(h, seen, todo)
    ensures Closed(h, ReachFrom(h, todo, seen), [])
    decreases h.Keys - seen, |todo|
  {
    if todo != [] {
      var x := todo[0];
      assert todo == [x] + todo[1..];
      if x in seen || x !in h {
        ClosedSkip(h, seen, x, todo[1..]);
        ReachFromClosed(h, todo[1..], seen);
      } else {
        ClosedAdd(h, seen, x, todo[1..]);
        ReachFromClosed(h, Children(h[x]) + todo[1..], seen + {x});
      }
    }
  }

  lemma ClosedSkip(h: Heap, seen: set<ObjId>, x: ObjId, rest: seq<ObjId>)
    requires Closed(h, seen, [x] + rest) && (x in seen || x !in h)
    ensures Closed(h, seen, rest)
  {
    forall y, c | y in seen && y in h && c in Children(h[y]) && c in h
      ensures c in seen || c in rest
    {
      assert c in seen || c in [x] + rest;
    }
  }

  lemma ClosedAdd(h: Heap, seen: set<ObjId>, x: ObjId, rest: seq<ObjId>)
    requires Closed(h, seen, [x] + rest) && x in h
    ensures Closed(h, seen + {x}, Children(h[x]) + rest)
  {
    forall y, c | y in seen + {x} && y in h && c in Children(h[y]) && c in h
      ensures c in seen + {x} || c in Children(h[x]) + rest
    {
      if y != x {
        assert c in seen || c in [x] + rest;
      }
    }
  }

  lemma {:induction false} ReachFromLeast(h: Heap, todo: seq<ObjId>, seen: set<ObjId>, s: set<ObjId>)
    requires seen <= s && Closed(h, s, []) && forall t :: t in todo && t in h ==> t in s
    ensures ReachFrom(h, todo, seen) <= s
    decreases h.Keys - seen, |todo|
  {
    if todo != [] {
      var x := todo[0];
      if x in seen || x !in h {
        ReachFromLeast(h, todo[1..], seen, s);
      } else {
        ReachFromLeast(h, Children(h[x]) + todo[1..], seen + {x}, s);
      }
    }
  }

  /** What a value reaches is closed under reference, and it is the least
      such set holding the value. */
  lemma ReachClosed(h: Heap, v: Val, s: set<ObjId>)
    ensures Closed(h, Reach(h, v), [])
    ensures (v.Ref? && v.id in h ==> v.id in s) && Closed(h, s, []) ==> Reach(h, v) <= s
  {
    if v.Ref? {
      ReachFromClosed(h, [v.id], {});
      if v.id in h ==> v.id in s {
        if Closed(h, s, []) {
          ReachFromLeast(h, [v.id], {}, s);
        }
      }
    }
  }

  /** Reachability does not look at the frozen flags. */
  lemma {:induction false} ReachFromFrozen(h: Heap, h': Heap, todo: seq<ObjId>, seen: set<ObjId>)
    requires h.Keys == h'.Keys && forall x :: x in h ==> h'[x] == h[x].(frozen := h'[x].frozen)
    ensures ReachFrom(h, todo, seen) == ReachFrom(h', todo, seen)
    decreases h.Keys - seen, |todo|
  {
    if todo != [] {
      var x := todo[0];
      if x in seen || x !in h {
        ReachFromFrozen(h, h', todo[1..], seen);
      } else {
        assert Children(h'[x]) == Children(h[x]);
        ReachFromFrozen(h, h', Children(h[x]) + todo[1..], seen + {x});
      }
    }
  }

  /** `harden`: every object the value reaches is frozen; nothing else
      changes, and the value still reaches the same objects. */
  function Harden(h: Heap, v: Val): (r: Heap)
    ensures r.Keys == h.Keys
    ensures forall x :: x in h ==> r[x] == h[x].(frozen := r[x].frozen)
    ensures forall x :: x in Reach(h, v) ==> r[x].frozen
    ensures forall x :: x in h && (h[x].frozen || x !in Reach(h, v)) ==> r[x] == h[x]
    ensures Reach(r, v) == Reach(h, v)
    ensures !v.Ref? ==> r == h
  {
    var r := map x | x in h :: if x in Reach(h, v) then h[x].(frozen := true) else h[x];
    if v.Ref? then ReachFromFrozen(h, r, [v.id], {}); r else r
  }

  /** Hardening a value whose reachable objects are all frozen already
      changes nothing. */
  lemma HardenIdle(h: Heap, v: Val, s: set<ObjId>)
    requires v.Ref? && v.id in h ==> v.id in s
    requires Closed(h, s, []) && forall x :: x in s && x in h ==> h[x].frozen
    ensures Harden(h, v) == h
  {
    ReachClosed(h, v, s);
  }

  /** One `unserialize` call: a fresh ibid table over the imported heap,
      then the result hardened.  Decoded objects are new objects, so their
      identities, which start at `base`, lie past every object the bridge
      can hand back.  Everything the result reaches comes back frozen,
      imported objects included; an imported object the result does not
      reach is left as it was, and one it reaches only gains the frozen
      flag. */
  function Unserialize(cfg: DecConfig, data: CapData): (r: Result<(Heap, Val), MarshalError>)
    requires BaseClear(cfg)
    ensures r.Ok? ==> forall x :: x in Reach(r.value.0, r.value.1) ==> r.value.0[x].frozen
    ensures r.Ok? ==> forall x :: x in cfg.imports ==>
      x in r.value.0 && r.value.0[x] == cfg.imports[x].(frozen := r.value.0[x].frozen)
    ensures r.Ok? ==> forall x :: x in cfg.imports && (cfg.imports[x].frozen || x !in Reach(r.value.0, r.value.1)) ==>
      r.value.0[x] == cfg.imports[x]
  {
    var d :- DecodeVal(cfg, data.slots, data.body, DecState(cfg.imports, [], {}));
    Ok((Harden(d.1.heap, d.0), d.0))
  }
}
