/**
 * What `ser(build(...opts))` gives for the option lists of the marshal's
 * "records" test: the bridge turns every remotable into slot `'slot'`,
 * plain data serializes as a record, and everything else is refused with
 * the classifier's reason.
 */
module RecordExamples {
  import opened Wrappers
  import opened Passable
  import opened JsonTree
  import opened Encoder
  import opened RoundTripProof
  import opened RecordBuilder

  /** `ser(build(...opts))`, the built object being `id`. */
  function SerBuild(h: Heap, cfg: EncConfig, id: ObjId, opts: seq<Opt>, n: nat): Result<CapData, BuildError>
    requires WfHeap(h) && id !in h
  {
    match BuildSpec(h, id, opts)
    case Err(e) => Err(e)
    case Ok(h2) =>
      BuildSpecFacts(h, id, opts);
      match Serialize(h2, cfg, Ref(id), n).0
      case Ok(d) => Ok(d)
      case Err(e) => Err(Rejected(e))
  }

  /** The one-slot result of serializing a remotable, with or without an
      interface. */
  function SlotData(cfg: EncConfig, id: ObjId, iface: Option<string>): CapData {
    CapData(Tagged("slot", IfaceField(iface) + [("index", JNumber(0.0))]), [cfg.toSlot(Ref(id))])
  }

  /** The descriptor option `opt` stores with closure `f`. */
  function Entry(opt: Opt, f: nat): Prop
    requires OptKey(opt).Some?
  {
    Prop(OptKey(opt).value, OptDesc(opt, f))
  }

  /* ---------------- serializing what build returns ---------------- */

  /** A refused object is refused by `serialize` too; a remotable becomes
      one slot carrying its interface, if it has one. */
  lemma SerStyle(h2: Heap, cfg: EncConfig, id: ObjId, n: nat)
    requires WfHeap(h2) && id in h2
    ensures PassStyleOf(h2, Ref(id)).Err? ==> Serialize(h2, cfg, Ref(id), n).0 == Err(PassStyleOf(h2, Ref(id)).error)
    ensures PassStyleOf(h2, Ref(id)) == Ok(Presence) ==>
      Serialize(h2, cfg, Ref(id), n) == (Ok(SlotData(cfg, id, GetInterfaceOf(h2, Ref(id)))), n)
  {
    if PassStyleOf(h2, Ref(id)) == Ok(Presence) {
      var st := EncState(map[], 0, [], n);
      EncodeSlotShape(h2, cfg, Ref(id), st);
      assert [] + [cfg.toSlot(Ref(id))] == [cfg.toSlot(Ref(id))];
    }
  }

  /** `build(a)` and `build(a, b)` for two options writing different keys,
      with no mark. */
  lemma BuildOne(h: Heap, id: ObjId, a: Opt)
    requires OptKey(a).Some?
    ensures BuildSpec(h, id, [a]) == Finish(h, id, [Entry(a, 0)], false)
  {
    var opts := [a];
    PutFirst(Entry(a, 0));
    assert PropsUpTo(opts, 1) == [Entry(a, 0)];
    assert !FarAt(opts, 1);
    assert FirstUnknown(opts) == None by { assert opts[1..] == []; }
  }

  lemma PutFirst(p: Prop)
    ensures Put([], p) == [p]
  {
    assert [] + [p] == [p];
  }

  lemma PutSecond(p: Prop, q: Prop)
    requires p.key != q.key
    ensures Put([p], q) == [p, q]
  {
    assert KeyPos([p], q.key) == None;
    assert [p] + [q] == [p, q];
  }

  lemma BuildTwo(h: Heap, id: ObjId, a: Opt, b: Opt)
    requires OptKey(a).Some? && OptKey(b).Some? && OptKey(a) != OptKey(b)
    ensures BuildSpec(h, id, [a, b]) == Finish(h, id, [Entry(a, 0), Entry(b, 1)], false)
  {
    var opts := [a, b];
    PutFirst(Entry(a, 0));
    PutSecond(Entry(a, 0), Entry(b, 1));
    assert PropsUpTo(opts, 1) == [Entry(a, 0)];
    assert PropsUpTo(opts, 2) == [Entry(a, 0), Entry(b, 1)];
    assert FarAt(opts, 2) == FarAt(opts, 1) == FarAt(opts, 0) == false;
    assert FirstUnknown(opts) == None by {
      assert opts[1..] == [b];
      assert opts[1..][1..] == [];
    }
  }

  /** `build('far', ...)` with one or two options writing different keys. */
  lemma BuildFarOne(h: Heap, id: ObjId, a: Opt)
    requires OptKey(a).Some?
    ensures BuildSpec(h, id, [FarMark, a]) == Finish(h, id, [Entry(a, 1)], true)
  {
    var opts := [FarMark, a];
    PutFirst(Entry(a, 1));
    assert PropsUpTo(opts, 1) == [];
    assert PropsUpTo(opts, 2) == [Entry(a, 1)];
    assert FarAt(opts, 2) == FarAt(opts, 1) == true;
    assert FirstUnknown(opts) == None by {
      assert opts[1..] == [a];
      assert opts[1..][1..] == [];
    }
  }

  lemma BuildFarTwo(h: Heap, id: ObjId, a: Opt, b: Opt)
    requires OptKey(a).Some? && OptKey(b).Some? && OptKey(a) != OptKey(b)
    ensures BuildSpec(h, id, [FarMark, a, b]) == Finish(h, id, [Entry(a, 1), Entry(b, 2)], true)
  {
    var opts := [FarMark, a, b];
    PutFirst(Entry(a, 1));
    PutSecond(Entry(a, 1), Entry(b, 2));
    assert PropsUpTo(opts, 1) == [];
    assert PropsUpTo(opts, 2) == [Entry(a, 1)];
    assert PropsUpTo(opts, 3) == [Entry(a, 1), Entry(b, 2)];
    assert FarAt(opts, 3) == FarAt(opts, 2) == FarAt(opts, 1) == true;
    assert FirstUnknown(opts) == None by {
      assert opts[1..] == [a, b];
      assert opts[1..][1..] == [b];
      assert opts[1..][1..][1..] == [];
    }
  }

  /** Own-key order of one or two properties. */
  lemma SelectOne(p: Prop, strings: bool)
    ensures Select([p], strings) == if p.key.StrKey? == strings then [p] else []
  {
    assert [p][1..] == [];
  }

  lemma OrderOne(p: Prop)
    ensures OwnKeyOrder([p]) == [p]
  {
    SelectOne(p, true);
    SelectOne(p, false);
  }

  lemma OrderTwo(p: Prop, q: Prop)
    ensures OwnKeyOrder([p, q]) == if p.key.StrKey? || !q.key.StrKey? then [p, q] else [q, p]
  {
    var s := [p, q];
    assert s[1..] == [q];
    SelectOne(q, true);
    SelectOne(q, false);
    assert Select(s, true) == (if p.key.StrKey? then [p] else []) + Select([q], true);
    assert Select(s, false) == (if p.key.StrKey? then [] else [p]) + Select([q], false);
  }

  /** The heap `build` returns when it hardens `props`. */
  function Hardened(h: Heap, id: ObjId, props: seq<Prop>): Heap {
    h[id := PlainObject(props, ObjectPrototype, false)][id := PlainObject(props, ObjectPrototype, true)]
  }

  /** The first failing field or method of one or two properties. */
  lemma FaultsOne(p: Prop)
    ensures RecordFault([p]) == if GoodField(p) then None else Some(FieldFault(p))
    ensures RemotableFault([p]) == if GoodMethod(p) then None else Some(MethodFault(p))
  {
    assert [p][1..] == [];
  }

  lemma FaultsTwo(p: Prop, q: Prop)
    ensures RecordFault([p, q]) ==
      if !GoodField(p) then Some(FieldFault(p)) else if !GoodField(q) then Some(FieldFault(q)) else None
    ensures RemotableFault([p, q]) ==
      if !GoodMethod(p) then Some(MethodFault(p)) else if !GoodMethod(q) then Some(MethodFault(q)) else None
  {
    assert [p, q][1..] == [q];
    FaultsOne(q);
  }

  /** `ser(build(...opts))` when `build` hardens `own`: what the classifier
      makes of the hardened object decides. */
  lemma SerHardened(h: Heap, cfg: EncConfig, id: ObjId, opts: seq<Opt>, own: seq<Prop>, n: nat)
    requires WfHeap(h) && id !in h && BuildSpec(h, id, opts) == Ok(Hardened(h, id, own))
    ensures var h2 := Hardened(h, id, own);
      WfHeap(h2) &&
      (PassStyleOf(h2, Ref(id)).Err? ==> SerBuild(h, cfg, id, opts, n) == Err(Rejected(PassStyleOf(h2, Ref(id)).error))) &&
      (PassStyleOf(h2, Ref(id)) == Ok(Presence) ==> SerBuild(h, cfg, id, opts, n) == Ok(SlotData(cfg, id, GetInterfaceOf(h2, Ref(id)))))
  {
    BuildSpecFacts(h, id, opts);
    SerStyle(Hardened(h, id, own), cfg, id, n);
  }

  /** How the classifier sees an object `build` hardened. */
  lemma HardenedStyle(h2: Heap, id: ObjId, own: seq<Prop>)
    requires id in h2 && h2[id] == PlainObject(own, ObjectPrototype, true)
    ensures RecordShaped(h2[id]) ==>
      PassStyleOf(h2, Ref(id)) == match RecordFault(own) case Some(e) => Err(e) case None => Ok(CopyRecord)
    ensures !RecordShaped(h2[id]) ==>
      PassStyleOf(h2, Ref(id)) == match RemotableFault(own) case Some(e) => Err(e) case None => Ok(Presence)
  {
  }

  /** Without a remotable proto there is no interface. */
  lemma NoIface(h2: Heap, id: ObjId, own: seq<Prop>)
    requires id in h2 && h2[id] == PlainObject(own, ObjectPrototype, true)
    ensures GetInterfaceOf(h2, Ref(id)).None?
  {
  }

  /** A closure's descriptor is a method a remotable may own. */
  lemma FuncEntry(f: Opt, k: nat)
    requires FuncOpt(f)
    ensures OptKey(f).Some? && GoodMethod(Entry(f, k))
  {
  }

  /* ---------------- the records test ---------------- */

  /** `ser(build())`: an empty hardened object is still a remotable, with
      no interface. */
  lemma RecordsEmpty(h: Heap, cfg: EncConfig, id: ObjId, n: nat)
    requires WfHeap(h) && id !in h
    ensures SerBuild(h, cfg, id, [], n) == Ok(SlotData(cfg, id, None))
  {
    assert OwnKeyOrder([]) == [];
    HardenedStyle(Hardened(h, id, []), id, []);
    NoIface(Hardened(h, id, []), id, []);
    SerHardened(h, cfg, id, [], [], n);
  }

  /** `ser(build(f))` for each option storing a closure: a remotable with
      no interface. */
  lemma RecordsFunc(h: Heap, cfg: EncConfig, id: ObjId, f: Opt, n: nat)
    requires WfHeap(h) && id !in h && FuncOpt(f)
    ensures SerBuild(h, cfg, id, [f], n) == Ok(SlotData(cfg, id, None))
  {
    FuncEntry(f, 0);
    var e := Entry(f, 0);
    BuildOne(h, id, f);
    OrderOne(e);
    FaultsOne(e);
    HardenedStyle(Hardened(h, id, [e]), id, [e]);
    NoIface(Hardened(h, id, [e]), id, [e]);
    SerHardened(h, cfg, id, [f], [e], n);
  }

  /** `ser(build('far', ...))`: `Far` accepts a dictionary of methods and
      the result is a slot alleging interface `Alleged: iface`; otherwise
      `build` throws what `Far` reports. */
  lemma SerFar(h: Heap, cfg: EncConfig, id: ObjId, opts: seq<Opt>, props: seq<Prop>, n: nat)
    requires WfHeap(h) && id !in h && BuildSpec(h, id, opts) == Finish(h, id, props, true)
    ensures var own := OwnKeyOrder(props);
      (RemotableFault(own).None? ==> SerBuild(h, cfg, id, opts, n) == Ok(SlotData(cfg, id, Some(ALLEGED_PREFIX + "iface")))) &&
      (RemotableFault(own).Some? ==> SerBuild(h, cfg, id, opts, n) == Err(Rejected(RemotableFault(own).value)))
  {
    var own := OwnKeyOrder(props);
    var h1 := h[id := PlainObject(own, ObjectPrototype, false)];
    FarPlain(h1, "iface", id, own);
    BuildSpecFacts(h, id, opts);
    if RemotableFault(own).None? {
      SerStyle(Far(h1, "iface", Ref(id)).value, cfg, id, n);
    }
  }

  /** `ser(build('far'))` */
  lemma RecordsFar(h: Heap, cfg: EncConfig, id: ObjId, n: nat)
    requires WfHeap(h) && id !in h
    ensures SerBuild(h, cfg, id, [FarMark], n) == Ok(SlotData(cfg, id, Some(ALLEGED_PREFIX + "iface")))
  {
    assert BuildSpec(h, id, [FarMark]) == Finish(h, id, [], true) by {
      assert [FarMark][1..] == [];
    }
    assert OwnKeyOrder([]) == [];
    SerFar(h, cfg, id, [FarMark], [], n);
  }

  /** `ser(build('far', f))` for each option storing a closure. */
  lemma RecordsFarFunc(h: Heap, cfg: EncConfig, id: ObjId, f: Opt, n: nat)
    requires WfHeap(h) && id !in h && FuncOpt(f)
    ensures SerBuild(h, cfg, id, [FarMark, f], n) == Ok(SlotData(cfg, id, Some(ALLEGED_PREFIX + "iface")))
  {
    FuncEntry(f, 1);
    var e := Entry(f, 1);
    BuildFarOne(h, id, f);
    OrderOne(e);
    FaultsOne(e);
    SerFar(h, cfg, id, [FarMark, f], [e], n);
  }

  /** `ser(build('far', 'enumStringData', 'enumStringFunc'))`: `Far`
      refuses the data property `key1`. */
  lemma RecordsFarDataFunc(h: Heap, cfg: EncConfig, id: ObjId, n: nat)
    requires WfHeap(h) && id !in h
    ensures SerBuild(h, cfg, id, [FarMark, EnumStringData, EnumStringFunc], n) == Err(Rejected(NonMethod(StrKey("key1"))))
  {
    var d, f := Entry(EnumStringData, 1), Entry(EnumStringFunc, 2);
    assert d == Prop(StrKey("key1"), Data(Str("data"), true));
    BuildFarTwo(h, id, EnumStringData, EnumStringFunc);
    OrderTwo(d, f);
    FaultsTwo(d, f);
    assert !GoodMethod(d) && MethodFault(d) == NonMethod(StrKey("key1"));
    SerFar(h, cfg, id, [FarMark, EnumStringData, EnumStringFunc], [d, f], n);
  }

  /** One or two string-keyed properties that are not methods make a
      record candidate. */
  lemma ShapedOne(p: Prop)
    requires p.key.StrKey? && !IsMethod(p)
    ensures RecordShaped(PlainObject([p], ObjectPrototype, true))
  {
  }

  lemma ShapedTwo(p: Prop, q: Prop)
    requires p.key.StrKey? && !IsMethod(p) && q.key.StrKey? && !IsMethod(q)
    ensures RecordShaped(PlainObject([p, q], ObjectPrototype, true))
  {
  }

  /** The options that store an accessor under a string key. */
  predicate StringAccessorOpt(opt: Opt) {
    opt in {EnumStringGetData, EnumStringGetFunc, EnumStringSet}
  }

  lemma AccessorEntry(g: Opt, k: nat)
    requires StringAccessorOpt(g)
    ensures OptKey(g).Some? && OptKey(g).value.StrKey? && OptKey(g).value != StrKey("key1")
    ensures OptKey(g) != OptKey(EnumStringData) && OptKey(g) != OptKey(EnumStringFunc)
    ensures Entry(g, k) == Prop(OptKey(g).value, Accessor(true))
  {
  }

  /** `ser(build(g))` and `ser(build(g, 'enumStringData'))` for a string
      accessor `g`: a record candidate refused for its accessor. */
  lemma RecordsGetter(h: Heap, cfg: EncConfig, id: ObjId, g: Opt, n: nat)
    requires WfHeap(h) && id !in h && StringAccessorOpt(g)
    ensures SerBuild(h, cfg, id, [g], n) == Err(Rejected(RecordAccessor(OptKey(g).value)))
  {
    AccessorEntry(g, 0);
    var e := Entry(g, 0);
    BuildOne(h, id, g);
    OrderOne(e);
    FaultsOne(e);
    var h2 := Hardened(h, id, [e]);
    assert h2[id] == PlainObject([e], ObjectPrototype, true);
    ShapedOne(e);
    assert RecordFault([e]) == Some(RecordAccessor(OptKey(g).value));
    HardenedStyle(h2, id, [e]);
    SerHardened(h, cfg, id, [g], [e], n);
  }

  lemma RecordsGetterData(h: Heap, cfg: EncConfig, id: ObjId, g: Opt, n: nat)
    requires WfHeap(h) && id !in h && StringAccessorOpt(g)
    ensures SerBuild(h, cfg, id, [g, EnumStringData], n) == Err(Rejected(RecordAccessor(OptKey(g).value)))
  {
    AccessorEntry(g, 0);
    var e, d := Entry(g, 0), Entry(EnumStringData, 1);
    assert d == Prop(StrKey("key1"), Data(Str("data"), true));
    BuildTwo(h, id, g, EnumStringData);
    OrderTwo(e, d);
    FaultsTwo(e, d);
    var h2 := Hardened(h, id, [e, d]);
    assert h2[id] == PlainObject([e, d], ObjectPrototype, true);
    ShapedTwo(e, d);
    assert RecordFault([e, d]) == Some(RecordAccessor(OptKey(g).value));
    HardenedStyle(h2, id, [e, d]);
    SerHardened(h, cfg, id, [g, EnumStringData], [e, d], n);
  }

  /** `ser(build(g, 'enumStringFunc'))`: with a method beside it the object
      is a remotable candidate, refused for its getter. */
  lemma RecordsGetterFunc(h: Heap, cfg: EncConfig, id: ObjId, g: Opt, n: nat)
    requires WfHeap(h) && id !in h && StringAccessorOpt(g)
    ensures SerBuild(h, cfg, id, [g, EnumStringFunc], n) == Err(Rejected(RemotableGetter(OptKey(g).value)))
  {
    AccessorEntry(g, 0);
    var e, f := Entry(g, 0), Entry(EnumStringFunc, 1);
    assert f == Prop(StrKey("enumStringFunc"), Data(Function(1), true));
    BuildTwo(h, id, g, EnumStringFunc);
    OrderTwo(e, f);
    FaultsTwo(e, f);
    var h2 := Hardened(h, id, [e, f]);
    assert h2[id] == PlainObject([e, f], ObjectPrototype, true);
    assert !RecordShaped(h2[id]) by { assert IsMethod([e, f][1]); }
    assert RemotableFault([e, f]) == Some(RemotableGetter(OptKey(g).value));
    HardenedStyle(h2, id, [e, f]);
    SerHardened(h, cfg, id, [g, EnumStringFunc], [e, f], n);
  }

  /** `ser(build('nonenumSymbolGetFunc'))`: a symbol key rules out a
      record, and the remotable check refuses the getter. */
  lemma RecordsSymbolGetter(h: Heap, cfg: EncConfig, id: ObjId, n: nat)
    requires WfHeap(h) && id !in h
    ensures SerBuild(h, cfg, id, [NonenumSymbolGetFunc], n) ==
      Err(Rejected(RemotableGetter(SymKey(Registered("symNonenumGetFunc")))))
  {
    var g := Entry(NonenumSymbolGetFunc, 0);
    assert g == Prop(SymKey(Registered("symNonenumGetFunc")), Accessor(false));
    BuildOne(h, id, NonenumSymbolGetFunc);
    OrderOne(g);
    FaultsOne(g);
    var h2 := Hardened(h, id, [g]);
    assert h2[id] == PlainObject([g], ObjectPrototype, true);
    assert !RecordShaped(h2[id]) by { assert ![g][0].key.StrKey?; }
    HardenedStyle(h2, id, [g]);
    SerHardened(h, cfg, id, [NonenumSymbolGetFunc], [g], n);
  }

  /** `ser(build('nonenumSymbolGetFunc', 'enumStringData'))`: string keys
      come first, so the data property `key1` is refused before the
      getter. */
  lemma RecordsSymbolGetterData(h: Heap, cfg: EncConfig, id: ObjId, n: nat)
    requires WfHeap(h) && id !in h
    ensures SerBuild(h, cfg, id, [NonenumSymbolGetFunc, EnumStringData], n) ==
      Err(Rejected(NonMethod(StrKey("key1"))))
  {
    var g, d := Entry(NonenumSymbolGetFunc, 0), Entry(EnumStringData, 1);
    assert g == Prop(SymKey(Registered("symNonenumGetFunc")), Accessor(false));
    assert d == Prop(StrKey("key1"), Data(Str("data"), true));
    BuildTwo(h, id, NonenumSymbolGetFunc, EnumStringData);
    OrderTwo(g, d);
    FaultsTwo(d, g);
    var h2 := Hardened(h, id, [d, g]);
    assert h2[id] == PlainObject([d, g], ObjectPrototype, true);
    assert !RecordShaped(h2[id]) by { assert ![d, g][1].key.StrKey?; }
    HardenedStyle(h2, id, [d, g]);
    SerHardened(h, cfg, id, [NonenumSymbolGetFunc, EnumStringData], [d, g], n);
  }

  /** `ser(build('nonenumSymbolGetFunc', 'enumStringFunc'))`: the method
      passes and the getter is refused. */
  lemma RecordsSymbolGetterFunc(h: Heap, cfg: EncConfig, id: ObjId, n: nat)
    requires WfHeap(h) && id !in h
    ensures SerBuild(h, cfg, id, [NonenumSymbolGetFunc, EnumStringFunc], n) ==
      Err(Rejected(RemotableGetter(SymKey(Registered("symNonenumGetFunc")))))
  {
    var g, f := Entry(NonenumSymbolGetFunc, 0), Entry(EnumStringFunc, 1);
    assert g == Prop(SymKey(Registered("symNonenumGetFunc")), Accessor(false));
    assert f == Prop(StrKey("enumStringFunc"), Data(Function(1), true));
    BuildTwo(h, id, NonenumSymbolGetFunc, EnumStringFunc);
    OrderTwo(g, f);
    FaultsTwo(f, g);
    var h2 := Hardened(h, id, [f, g]);
    assert h2[id] == PlainObject([f, g], ObjectPrototype, true);
    assert !RecordShaped(h2[id]) by { assert IsMethod([f, g][0]); }
    HardenedStyle(h2, id, [f, g]);
    SerHardened(h, cfg, id, [NonenumSymbolGetFunc, EnumStringFunc], [f, g], n);
  }

  /** The options that store plain data under a symbol key. */
  predicate SymbolDataOpt(opt: Opt) {
    opt in {EnumSymbolData, NonenumSymbolData}
  }

  lemma SymbolDataEntry(s: Opt, k: nat)
    requires SymbolDataOpt(s)
    ensures OptKey(s).Some? && OptKey(s).value.SymKey?
    ensures OptKey(s) != OptKey(EnumStringData) && OptKey(s) != OptKey(EnumStringFunc)
    ensures var e := Entry(s, k); e.desc.Data? && !IsMethod(e) && !GoodMethod(e)
  {
  }

  /** `ser(build(s))` for a symbol-keyed data option `s`: no record, and
      not a method either. */
  lemma RecordsSymbolData(h: Heap, cfg: EncConfig, id: ObjId, s: Opt, n: nat)
    requires WfHeap(h) && id !in h && SymbolDataOpt(s)
    ensures SerBuild(h, cfg, id, [s], n) == Err(Rejected(NonMethod(OptKey(s).value)))
  {
    SymbolDataEntry(s, 0);
    var e := Entry(s, 0);
    BuildOne(h, id, s);
    OrderOne(e);
    FaultsOne(e);
    var h2 := Hardened(h, id, [e]);
    assert h2[id] == PlainObject([e], ObjectPrototype, true);
    assert !RecordShaped(h2[id]) by { assert ![e][0].key.StrKey?; }
    HardenedStyle(h2, id, [e]);
    SerHardened(h, cfg, id, [s], [e], n);
  }

  /** `ser(build(s, 'enumStringData'))`: `key1` comes first and is refused. */
  lemma RecordsSymbolDataData(h: Heap, cfg: EncConfig, id: ObjId, s: Opt, n: nat)
    requires WfHeap(h) && id !in h && SymbolDataOpt(s)
    ensures SerBuild(h, cfg, id, [s, EnumStringData], n) == Err(Rejected(NonMethod(StrKey("key1"))))
  {
    SymbolDataEntry(s, 0);
    var e, d := Entry(s, 0), Entry(EnumStringData, 1);
    assert d == Prop(StrKey("key1"), Data(Str("data"), true));
    BuildTwo(h, id, s, EnumStringData);
    OrderTwo(e, d);
    FaultsTwo(d, e);
    var h2 := Hardened(h, id, [d, e]);
    assert h2[id] == PlainObject([d, e], ObjectPrototype, true);
    assert !RecordShaped(h2[id]) by { assert ![d, e][1].key.StrKey?; }
    HardenedStyle(h2, id, [d, e]);
    SerHardened(h, cfg, id, [s, EnumStringData], [d, e], n);
  }

  /** `ser(build(s, 'enumStringFunc'))`: the method passes and the symbol
      data is refused. */
  lemma RecordsSymbolDataFunc(h: Heap, cfg: EncConfig, id: ObjId, s: Opt, n: nat)
    requires WfHeap(h) && id !in h && SymbolDataOpt(s)
    ensures SerBuild(h, cfg, id, [s, EnumStringFunc], n) == Err(Rejected(NonMethod(OptKey(s).value)))
  {
    SymbolDataEntry(s, 0);
    var e, f := Entry(s, 0), Entry(EnumStringFunc, 1);
    assert f == Prop(StrKey("enumStringFunc"), Data(Function(1), true));
    BuildTwo(h, id, s, EnumStringFunc);
    OrderTwo(e, f);
    FaultsTwo(f, e);
    var h2 := Hardened(h, id, [f, e]);
    assert h2[id] == PlainObject([f, e], ObjectPrototype, true);
    assert !RecordShaped(h2[id]) by { assert IsMethod([f, e][0]); }
    HardenedStyle(h2, id, [f, e]);
    SerHardened(h, cfg, id, [s, EnumStringFunc], [f, e], n);
  }

  /** `ser(build('nonenumStringData'))`: a record candidate refused for a
      non-enumerable field. */
  lemma RecordsNonEnumerable(h: Heap, cfg: EncConfig, id: ObjId, n: nat)
    requires WfHeap(h) && id !in h
    ensures SerBuild(h, cfg, id, [NonenumStringData], n) ==
      Err(Rejected(RecordNotEnumerable(StrKey("nonEnumStringData"))))
  {
    var e := Entry(NonenumStringData, 0);
    assert e == Prop(StrKey("nonEnumStringData"), Data(Num(Finite(3.0)), false));
    BuildOne(h, id, NonenumStringData);
    OrderOne(e);
    FaultsOne(e);
    var h2 := Hardened(h, id, [e]);
    assert h2[id] == PlainObject([e], ObjectPrototype, true);
    ShapedOne(e);
    HardenedStyle(h2, id, [e]);
    SerHardened(h, cfg, id, [NonenumStringData], [e], n);
  }

  /** `ser(build('nonenumStringData', 'enumStringData'))`: the same field
      is refused first. */
  lemma RecordsNonEnumerableData(h: Heap, cfg: EncConfig, id: ObjId, n: nat)
    requires WfHeap(h) && id !in h
    ensures SerBuild(h, cfg, id, [NonenumStringData, EnumStringData], n) ==
      Err(Rejected(RecordNotEnumerable(StrKey("nonEnumStringData"))))
  {
    var e, d := Entry(NonenumStringData, 0), Entry(EnumStringData, 1);
    assert e == Prop(StrKey("nonEnumStringData"), Data(Num(Finite(3.0)), false));
    assert d == Prop(StrKey("key1"), Data(Str("data"), true));
    BuildTwo(h, id, NonenumStringData, EnumStringData);
    OrderTwo(e, d);
    FaultsTwo(e, d);
    var h2 := Hardened(h, id, [e, d]);
    assert h2[id] == PlainObject([e, d], ObjectPrototype, true);
    ShapedTwo(e, d);
    HardenedStyle(h2, id, [e, d]);
    SerHardened(h, cfg, id, [NonenumStringData, EnumStringData], [e, d], n);
  }

  /** `ser(build('nonenumStringData', 'enumStringFunc'))`: beside a method
      the field is refused as a non-method. */
  lemma RecordsNonEnumerableFunc(h: Heap, cfg: EncConfig, id: ObjId, n: nat)
    requires WfHeap(h) && id !in h
    ensures SerBuild(h, cfg, id, [NonenumStringData, EnumStringFunc], n) ==
      Err(Rejected(NonMethod(StrKey("nonEnumStringData"))))
  {
    var e, f := Entry(NonenumStringData, 0), Entry(EnumStringFunc, 1);
    assert e == Prop(StrKey("nonEnumStringData"), Data(Num(Finite(3.0)), false));
    assert f == Prop(StrKey("enumStringFunc"), Data(Function(1), true));
    BuildTwo(h, id, NonenumStringData, EnumStringFunc);
    OrderTwo(e, f);
    FaultsTwo(e, f);
    var h2 := Hardened(h, id, [e, f]);
    assert h2[id] == PlainObject([e, f], ObjectPrototype, true);
    assert !RecordShaped(h2[id]) by { assert IsMethod([e, f][1]); }
    HardenedStyle(h2, id, [e, f]);
    SerHardened(h, cfg, id, [NonenumStringData, EnumStringFunc], [e, f], n);
  }

  /** The one property `enumStringData` stores. */
  function Key1(): Prop {
    Prop(StrKey("key1"), Data(Str("data"), true))
  }

  /** A hardened object holding just `key1: 'data'` serializes as that
      record, with no slots. */
  lemma SerializeKey1(h2: Heap, cfg: EncConfig, id: ObjId, n: nat)
    requires WfHeap(h2) && id in h2 && h2[id] == PlainObject([Key1()], ObjectPrototype, true)
    ensures Serialize(h2, cfg, Ref(id), n) == (Ok(CapData(JObject([("key1", JString("data"))]), [])), n)
  {
    var props := [Key1()];
    ShapedOne(Key1());
    FaultsOne(Key1());
    HardenedStyle(h2, id, props);
    assert QclassPos(props) == None by { assert props[1..] == []; }
    var st0 := EncState(map[], 0, [], n);
    EncodeRecordShape(h2, cfg, Ref(id), st0);
    var st1 := Visit(st0, id);
    Key1Fields(h2, cfg, st1);
  }

  /** ... whose one field is `key1` with the string encoded in place. */
  lemma Key1Fields(h: Heap, cfg: EncConfig, st: EncState)
    requires WfHeap(h) && StInv(h, st)
    ensures DataFields(h, [Key1()])
    ensures EncodeFields(h, cfg, [Key1()], st) == Encoded(Ok([("key1", JString("data"))]), st)
  {
    assert PropValues([Key1()]) == [Str("data")];
    DataElems(h, cfg, st);
    assert Named([Key1()], [JString("data")]) == [("key1", JString("data"))];
  }

  /** The string `'data'` encodes as itself and touches no state. */
  lemma DataElems(h: Heap, cfg: EncConfig, st: EncState)
    requires WfHeap(h) && StInv(h, st)
    ensures EncodeElems(h, cfg, [Str("data")], 0, st) == Encoded(Ok([JString("data")]), st)
  {
    var first := EncodeVal(h, cfg, Str("data"), st);
    assert first == Encoded(Ok(JString("data")), st);
    assert EncodeElems(h, cfg, [Str("data")], 1, st) == Encoded(Ok([]), st);
    assert [JString("data")] + [] == [JString("data")];
  }

  /** `ser(build('enumStringData'))`: plain data makes a record. */
  lemma RecordsData(h: Heap, cfg: EncConfig, id: ObjId, n: nat)
    requires WfHeap(h) && id !in h
    ensures SerBuild(h, cfg, id, [EnumStringData], n) == Ok(CapData(JObject([("key1", JString("data"))]), []))
  {
    assert Entry(EnumStringData, 0) == Key1();
    BuildOne(h, id, EnumStringData);
    OrderOne(Key1());
    BuildSpecFacts(h, id, [EnumStringData]);
    var h2 := Hardened(h, id, [Key1()]);
    assert h2[id] == PlainObject([Key1()], ObjectPrototype, true);
    SerializeKey1(h2, cfg, id, n);
  }
}
