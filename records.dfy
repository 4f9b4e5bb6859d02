/**
 * The `build(...opts)` helper of the marshal's "records" test and what
 * `serialize` makes of the objects it builds.  `build` fills a property
 * dictionary option by option, creates an object from it, and then either
 * turns it into a remotable with `Far("iface", o)` or hardens it.
 */
module RecordBuilder {
  import opened Wrappers
  import opened Passable
  import opened JsonTree
  import opened Encoder

  /** The options `build` understands, and any other string. */
  datatype Opt =
    | EnumStringData | EnumStringFunc | EnumStringGetData | EnumStringGetFunc | EnumStringSet
    | EnumSymbolData | EnumSymbolFunc
    | NonenumStringData | NonenumStringFunc | NonenumSymbolData | NonenumSymbolFunc | NonenumSymbolGetFunc
    | DataMark | FarMark
    | Other(name: string)

  datatype BuildError = UnknownOption(name: string) | Rejected(error: MarshalError)

  /** The key an option writes into the dictionary, if it writes one. */
  function OptKey(opt: Opt): (r: Option<PropKey>)
    ensures r.None? <==> opt.Other? || opt == DataMark || opt == FarMark
  {
    match opt
    case EnumStringData => Some(StrKey("key1"))
    case EnumStringFunc => Some(StrKey("enumStringFunc"))
    case EnumStringGetData => Some(StrKey("enumStringGetData"))
    case EnumStringGetFunc => Some(StrKey("enumStringGetFunc"))
    case EnumStringSet => Some(StrKey("enumStringSet"))
    case EnumSymbolData => Some(SymKey(Registered("symEnumData")))
    case EnumSymbolFunc => Some(SymKey(Registered("symEnumFunc")))
    case NonenumStringData => Some(StrKey("nonEnumStringData"))
    case NonenumStringFunc => Some(StrKey("nonEnumStringFunc"))
    case NonenumSymbolData => Some(SymKey(Registered("symNonenumData")))
    case NonenumSymbolFunc => Some(SymKey(Registered("symNonenumFunc")))
    case NonenumSymbolGetFunc => Some(SymKey(Registered("symNonenumGetFunc")))
    case _ => None
  }

  /** The descriptor an option stores under its key; `f` names the fresh
      closure the option creates. */
  function OptDesc(opt: Opt, f: nat): (r: PropDesc)
    ensures r.Data? ==> !r.value.Ref?
  {
    match opt
    case EnumStringData => Data(Str("data"), true)
    case EnumSymbolData => Data(Num(Finite(2.0)), true)
    case NonenumStringData => Data(Num(Finite(3.0)), false)
    case NonenumSymbolData => Data(Num(Finite(4.0)), false)
    case EnumStringFunc => Data(Function(f), true)
    case EnumSymbolFunc => Data(Function(f), true)
    case NonenumStringFunc => Data(Function(f), false)
    case NonenumSymbolFunc => Data(Function(f), false)
    case NonenumSymbolGetFunc => Accessor(false)
    case _ => Accessor(true)
  }

  /** The keys a property list defines. */
  function Keys(props: seq<Prop>): set<PropKey> {
    set i | 0 <= i < |props| :: KeyOf(props[i])
  }

  /** Where a key first occurs in a property list, if it does. */
  function KeyPos(props: seq<Prop>, k: PropKey): (r: Option<nat>)
    ensures r.Some? ==> r.value < |props| && props[r.value].key == k
    ensures r.Some? ==> forall j :: 0 <= j < r.value ==> props[j].key != k
    ensures r.None? ==> forall i :: 0 <= i < |props| ==> props[i].key != k
  {
    if |props| == 0 then None
    else if props[0].key == k then Some(0)
    else
      var r := KeyPos(props[1..], k);
      assert forall i :: 1 <= i < |props| ==> props[i] == props[1..][i - 1];
      if r.Some? then Some(r.value + 1) else None
  }

  /** `props[key] = desc` on a dictionary: a key already there keeps its
      place and takes the new descriptor, a new key goes last. */
  function Put(props: seq<Prop>, p: Prop): seq<Prop> {
    match KeyPos(props, p.key)
    case None => props + [p]
    case Some(i) => props[i := p]
  }

  /** `Put` defines exactly one more key, keeps keys distinct, and leaves
      every other entry where it was. */
  lemma PutKeys(props: seq<Prop>, p: Prop)
    ensures Keys(Put(props, p)) == Keys(props) + {p.key}
    ensures DistinctKeys(props) ==> DistinctKeys(Put(props, p))
    ensures p.key in Keys(props) ==> |Put(props, p)| == |props|
    ensures p.key !in Keys(props) ==> Put(props, p) == props + [p]
    ensures forall i :: 0 <= i < |props| && props[i].key != p.key ==> Put(props, p)[i] == props[i]
    ensures exists i :: 0 <= i < |Put(props, p)| && Put(props, p)[i] == p
    ensures forall q :: q in Put(props, p) ==> q == p || q in props
  {
    var r := Put(props, p);
    match KeyPos(props, p.key)
    case None =>
      assert p.key !in Keys(props);
      assert KeyOf(r[|props|]) == p.key;
      forall k | k in Keys(r) ensures k in Keys(props) + {p.key} {
        var i :| 0 <= i < |r| && KeyOf(r[i]) == k;
        if i < |props| { assert KeyOf(props[i]) == k; }
      }
      forall k | k in Keys(props) ensures k in Keys(r) {
        var i :| 0 <= i < |props| && KeyOf(props[i]) == k;
        assert KeyOf(r[i]) == k;
      }
      if DistinctKeys(props) {
        forall i, j | 0 <= i < j < |r| ensures KeyOf(r[i]) != KeyOf(r[j]) {
          if j < |props| { assert KeyOf(props[i]) != KeyOf(props[j]); }
        }
      }
      assert r[|props|] == p;
    case Some(n) =>
      assert p.key in Keys(props) by { assert KeyOf(props[n]) == p.key; }
      forall k | k in Keys(r) ensures k in Keys(props) {
        var i :| 0 <= i < |r| && KeyOf(r[i]) == k;
        assert KeyOf(props[i]) == k;
      }
      forall k | k in Keys(props) ensures k in Keys(r) {
        var i :| 0 <= i < |props| && KeyOf(props[i]) == k;
        assert KeyOf(r[i]) == k;
      }
      if DistinctKeys(props) {
        forall i, j | 0 <= i < j < |r| ensures KeyOf(r[i]) != KeyOf(r[j]) {
          assert KeyOf(props[i]) != KeyOf(props[j]);
        }
      }
      assert r[n] == p;
      forall q | q in r ensures q == p || q in props {
        var i :| 0 <= i < |r| && r[i] == q;
        if i != n { assert r[i] == props[i]; }
      }
  }

  /* ---------------- own-key order ---------------- */

  /** The entries whose key is a string (`strings`) or a symbol (`!strings`),
      in their order. */
  function Select(props: seq<Prop>, strings: bool): (r: seq<Prop>)
    ensures forall i :: 0 <= i < |r| ==> r[i].key.StrKey? == strings
  {
    if |props| == 0 then []
    else (if props[0].key.StrKey? == strings then [props[0]] else []) + Select(props[1..], strings)
  }

  /** The own keys of `Object.create(proto, props)`: string keys in
      insertion order, then symbol keys in insertion order. */
  function OwnKeyOrder(props: seq<Prop>): seq<Prop> {
    Select(props, true) + Select(props, false)
  }

  lemma {:induction false} SelectKeys(props: seq<Prop>, strings: bool)
    ensures Keys(Select(props, strings)) <= Keys(props)
    decreases |props|
  {
    if |props| > 0 {
      var t := props[1..];
      SelectKeys(t, strings);
      var head := if props[0].key.StrKey? == strings then [props[0]] else [];
      var r := Select(props, strings);
      assert r == head + Select(t, strings);
      forall k | k in Keys(r) ensures k in Keys(props) {
        var i :| 0 <= i < |r| && KeyOf(r[i]) == k;
        if i < |head| {
          assert KeyOf(props[0]) == k;
        } else {
          assert k in Keys(Select(t, strings)) by { assert KeyOf(Select(t, strings)[i - |head|]) == k; }
          var m :| 0 <= m < |t| && KeyOf(t[m]) == k;
          assert KeyOf(props[m + 1]) == k;
        }
      }
    }
  }

  lemma {:induction false} SelectDistinct(props: seq<Prop>, strings: bool)
    requires DistinctKeys(props)
    ensures DistinctKeys(Select(props, strings))
    decreases |props|
  {
    if |props| > 0 {
      var t := props[1..];
      DistinctTail(props);
      SelectDistinct(t, strings);
      var st := Select(t, strings);
      if props[0].key.StrKey? == strings {
        assert Select(props, strings) == [props[0]] + st;
        SelectKeys(t, strings);
        forall j | 0 <= j < |st| ensures KeyOf(props[0]) != KeyOf(st[j]) {
          assert KeyOf(st[j]) in Keys(st);
          var m :| 0 <= m < |t| && KeyOf(t[m]) == KeyOf(st[j]);
          assert KeyOf(props[0]) != KeyOf(props[m + 1]);
        }
        DistinctCons(props[0], st);
      } else {
        assert Select(props, strings) == [] + st;
      }
    }
  }

  lemma {:induction false} SelectPerm(props: seq<Prop>)
    ensures multiset(Select(props, true)) + multiset(Select(props, false)) == multiset(props)
    decreases |props|
  {
    if |props| > 0 {
      var t := props[1..];
      SelectPerm(t);
      assert props == [props[0]] + t;
      if props[0].key.StrKey? {
        assert Select(props, true) == [props[0]] + Select(t, true);
        assert Select(props, false) == [] + Select(t, false);
      } else {
        assert Select(props, true) == [] + Select(t, true);
        assert Select(props, false) == [props[0]] + Select(t, false);
      }
    }
  }

  lemma DistinctTail(props: seq<Prop>)
    requires |props| > 0 && DistinctKeys(props)
    ensures DistinctKeys(props[1..])
  {
    var t := props[1..];
    forall i, j | 0 <= i < j < |t| ensures KeyOf(t[i]) != KeyOf(t[j]) {
      assert KeyOf(props[i + 1]) != KeyOf(props[j + 1]);
    }
  }

  lemma DistinctCons(p: Prop, props: seq<Prop>)
    requires DistinctKeys(props) && forall j :: 0 <= j < |props| ==> KeyOf(p) != KeyOf(props[j])
    ensures DistinctKeys([p] + props)
  {
    var r := [p] + props;
    forall i, j | 0 <= i < j < |r| ensures KeyOf(r[i]) != KeyOf(r[j]) {
      if i == 0 {
        assert r[j] == props[j - 1];
      } else {
        assert r[i] == props[i - 1] && r[j] == props[j - 1];
      }
    }
  }

  lemma {:induction false} SelectConcat(a: seq<Prop>, b: seq<Prop>, strings: bool)
    ensures Select(a + b, strings) == Select(a, strings) + Select(b, strings)
    decreases |a|
  {
    if |a| > 0 {
      assert (a + b)[1..] == a[1..] + b;
      SelectConcat(a[1..], b, strings);
    } else {
      assert a + b == b;
    }
  }

  /** Selecting a kind from entries all of one kind keeps all of them or
      none. */
  lemma {:induction false} SelectSelect(props: seq<Prop>, strings: bool, kind: bool)
    ensures Select(Select(props, strings), kind) == if kind == strings then Select(props, strings) else []
    decreases |props|
  {
    if |props| > 0 {
      var t := props[1..];
      SelectSelect(t, strings, kind);
      var head := if props[0].key.StrKey? == strings then [props[0]] else [];
      SelectConcat(head, Select(t, strings), kind);
    }
  }

  /** The entry at `i` of a dictionary sits in the selection of its kind
      right after the entries of that kind before it. */
  lemma SelectAt(props: seq<Prop>, i: nat)
    requires i < |props|
    ensures var s := props[i].key.StrKey?;
      |Select(props[..i], s)| < |Select(props, s)| && Select(props, s)[|Select(props[..i], s)|] == props[i]
  {
    var s := props[i].key.StrKey?;
    assert props == props[..i] + ([props[i]] + props[i + 1..]);
    SelectConcat(props[..i], [props[i]] + props[i + 1..], s);
    SelectConcat([props[i]], props[i + 1..], s);
  }

  /** A later prefix holds at least one more entry of the kind of `i`. */
  lemma SelectGrows(props: seq<Prop>, i: nat, j: nat)
    requires i < j <= |props|
    ensures |Select(props[..i], props[i].key.StrKey?)| < |Select(props[..j], props[i].key.StrKey?)|
  {
    var s := props[i].key.StrKey?;
    assert props[..j] == props[..i] + ([props[i]] + props[i + 1..j]);
    SelectConcat(props[..i], [props[i]] + props[i + 1..j], s);
    SelectConcat([props[i]], props[i + 1..j], s);
  }

  /** Where own-key order puts the entry at `i` of the dictionary: among
      the string keys, or after all of them among the symbol keys, behind
      the entries of its kind that came before it. */
  function OwnPos(props: seq<Prop>, i: nat): nat
    requires i < |props|
  {
    (if props[i].key.StrKey? then 0 else |Select(props, true)|) + |Select(props[..i], props[i].key.StrKey?)|
  }

  /** Own-key order is a reordering of the dictionary that puts every
      string key before every symbol key, keeps the insertion order among
      the string keys and among the symbol keys, and keeps keys distinct. */
  lemma OwnKeyOrderFacts(props: seq<Prop>)
    ensures multiset(OwnKeyOrder(props)) == multiset(props)
    ensures var r := OwnKeyOrder(props);
      forall i, j :: 0 <= i < j < |r| && r[j].key.StrKey? ==> r[i].key.StrKey?
    ensures Select(OwnKeyOrder(props), true) == Select(props, true)
    ensures Select(OwnKeyOrder(props), false) == Select(props, false)
    ensures forall i :: 0 <= i < |props| ==> OwnPos(props, i) < |OwnKeyOrder(props)| && OwnKeyOrder(props)[OwnPos(props, i)] == props[i]
    ensures forall i, j :: 0 <= i < j < |props| && props[i].key.StrKey? == props[j].key.StrKey? ==> OwnPos(props, i) < OwnPos(props, j)
    ensures DistinctKeys(props) ==> DistinctKeys(OwnKeyOrder(props))
  {
    var a, b := Select(props, true), Select(props, false);
    SelectConcat(a, b, true);
    SelectConcat(a, b, false);
    SelectSelect(props, true, true);
    SelectSelect(props, true, false);
    SelectSelect(props, false, true);
    SelectSelect(props, false, false);
    forall i | 0 <= i < |props|
      ensures OwnPos(props, i) < |OwnKeyOrder(props)| && OwnKeyOrder(props)[OwnPos(props, i)] == props[i]
    {
      SelectAt(props, i);
    }
    forall i, j | 0 <= i < j < |props| && props[i].key.StrKey? == props[j].key.StrKey?
      ensures OwnPos(props, i) < OwnPos(props, j)
    {
      SelectGrows(props, i, j);
    }
    SelectPerm(props);
    StringsFirst(Select(props, true), Select(props, false));
    if DistinctKeys(props) {
      SelectDistinct(props, true);
      SelectDistinct(props, false);
      DistinctJoin(Select(props, true), Select(props, false));
    }
  }

  lemma StringsFirst(a: seq<Prop>, b: seq<Prop>)
    requires forall i :: 0 <= i < |a| ==> a[i].key.StrKey?
    requires forall i :: 0 <= i < |b| ==> !b[i].key.StrKey?
    ensures var r := a + b;
      forall i, j :: 0 <= i < j < |r| && r[j].key.StrKey? ==> r[i].key.StrKey?
  {
    var r := a + b;
    forall i, j | 0 <= i < j < |r| ensures r[j].key.StrKey? ==> r[i].key.StrKey? {
      if i < |a| { assert r[i] == a[i]; } else { assert r[j] == b[j - |a|]; }
    }
  }

  lemma DistinctJoin(a: seq<Prop>, b: seq<Prop>)
    requires DistinctKeys(a) && DistinctKeys(b)
    requires forall i :: 0 <= i < |a| ==> a[i].key.StrKey?
    requires forall i :: 0 <= i < |b| ==> !b[i].key.StrKey?
    ensures DistinctKeys(a + b)
  {
    var r := a + b;
    forall i, j | 0 <= i < j < |r| ensures KeyOf(r[i]) != KeyOf(r[j]) {
      if j < |a| { assert r[i] == a[i] && r[j] == a[j]; }
      else if i >= |a| { assert r[i] == b[i - |a|] && r[j] == b[j - |a|]; }
      else { assert r[i] == a[i] && r[j] == b[j - |a|]; }
    }
  }

  /* ---------------- build ---------------- */

  /** The dictionary after the first `i` options, the closure of option
      `k` being function `k`. */
  function PropsUpTo(opts: seq<Opt>, i: nat): seq<Prop>
    requires i <= |opts|
  {
    if i == 0 then []
    else
      var ps := PropsUpTo(opts, i - 1);
      match OptKey(opts[i - 1])
      case None => ps
      case Some(k) => Put(ps, Prop(k, OptDesc(opts[i - 1], i - 1)))
  }

  /** Whether the mark is `far` after the first `i` options: the last mark
      option decides, and there is none at first. */
  predicate FarAt(opts: seq<Opt>, i: nat)
    requires i <= |opts|
  {
    if i == 0 then false
    else if opts[i - 1] == FarMark then true
    else if opts[i - 1] == DataMark then false
    else FarAt(opts, i - 1)
  }

  /** The keys the first `i` options write. */
  function OptKeys(opts: seq<Opt>, i: nat): set<PropKey>
    requires i <= |opts|
  {
    set k | 0 <= k < i && OptKey(opts[k]).Some? :: OptKey(opts[k]).value
  }

  /** The first option `build` does not know. */
  function FirstUnknown(opts: seq<Opt>): (r: Option<string>)
    ensures r.None? <==> forall k :: 0 <= k < |opts| ==> !opts[k].Other?
    ensures r.Some? ==> exists k :: (0 <= k < |opts| && opts[k] == Other(r.value) &&
                                     forall j :: 0 <= j < k ==> !opts[j].Other?)
  {
    if |opts| == 0 then None
    else if opts[0].Other? then Some(opts[0].name)
    else
      var r := FirstUnknown(opts[1..]);
      assert forall k :: 1 <= k < |opts| ==> opts[k] == opts[1..][k - 1];
      if r.Some? then
        var k :| 0 <= k < |opts[1..]| && opts[1..][k] == Other(r.value) &&
          (forall j :: 0 <= j < k ==> !opts[1..][j].Other?);
        assert opts[k + 1] == Other(r.value);
        r
      else r
  }

  lemma {:induction false} FirstUnknownAt(opts: seq<Opt>, i: nat)
    requires i < |opts| && opts[i].Other? && forall k :: 0 <= k < i ==> !opts[k].Other?
    ensures FirstUnknown(opts) == Some(opts[i].name)
  {
    if i > 0 {
      FirstUnknownAt(opts[1..], i - 1);
    }
  }

  /** What `build(...opts)` returns: the heap holding the new object `id`
      (a remotable for `far`, a hardened object otherwise), or why it
      throws. */
  function BuildSpec(h: Heap, id: ObjId, opts: seq<Opt>): Result<Heap, BuildError> {
    match FirstUnknown(opts)
    case Some(name) => Err(UnknownOption(name))
    case None => Finish(h, id, PropsUpTo(opts, |opts|), FarAt(opts, |opts|))
  }

  /** `create(objectPrototype, props)`, then `Far('iface', o)` or `harden(o)`. */
  function Finish(h: Heap, id: ObjId, props: seq<Prop>, far: bool): Result<Heap, BuildError> {
    var h1 := h[id := PlainObject(OwnKeyOrder(props), ObjectPrototype, false)];
    if far then
      match Far(h1, "iface", Ref(id))
      case Ok(h2) => Ok(h2)
      case Err(e) => Err(Rejected(e))
    else Ok(h1[id := PlainObject(OwnKeyOrder(props), ObjectPrototype, true)])
  }

  /** `build(...opts)`, option by option; the new object is `id`. */
  method Build(h: Heap, id: ObjId, opts: seq<Opt>) returns (r: Result<Heap, BuildError>)
    ensures r == BuildSpec(h, id, opts)
  {
    var props: seq<Prop> := [];
    var far := false;
    var i := 0;
    while i < |opts|
      invariant i <= |opts|
      invariant props == PropsUpTo(opts, i) && far == FarAt(opts, i)
      invariant forall k :: 0 <= k < i ==> !opts[k].Other?
    {
      var opt := opts[i];
      match OptKey(opt) {
        case Some(k) =>
          props := Put(props, Prop(k, OptDesc(opt, i)));
        case None =>
          if opt == DataMark {
            far := false;
          } else if opt == FarMark {
            far := true;
          } else {
            FirstUnknownAt(opts, i);
            return Err(UnknownOption(opt.name));
          }
      }
      i := i + 1;
    }
    r := Finish(h, id, props, far);
  }

  /* ---------------- what build makes ---------------- */

  /** The dictionary holds one descriptor per key the options write. */
  lemma {:induction false} PropsUpToKeys(opts: seq<Opt>, i: nat)
    requires i <= |opts|
    ensures Keys(PropsUpTo(opts, i)) == OptKeys(opts, i)
    ensures DistinctKeys(PropsUpTo(opts, i))
  {
    if i > 0 {
      PropsUpToKeys(opts, i - 1);
      var ps := PropsUpTo(opts, i - 1);
      match OptKey(opts[i - 1])
      case None =>
        assert OptKeys(opts, i) == OptKeys(opts, i - 1);
      case Some(k) =>
        PutKeys(ps, Prop(k, OptDesc(opts[i - 1], i - 1)));
        assert OptKeys(opts, i) == OptKeys(opts, i - 1) + {k};
    }
  }

  lemma KeysOfPerm(a: seq<Prop>, b: seq<Prop>)
    requires multiset(a) == multiset(b)
    ensures Keys(a) == Keys(b)
  {
    forall k | k in Keys(a) ensures k in Keys(b) {
      var i :| 0 <= i < |a| && KeyOf(a[i]) == k;
      assert a[i] in multiset(b);
      var j :| 0 <= j < |b| && b[j] == a[i];
      assert KeyOf(b[j]) == k;
    }
    forall k | k in Keys(b) ensures k in Keys(a) {
      var i :| 0 <= i < |b| && KeyOf(b[i]) == k;
      assert b[i] in multiset(a);
      var j :| 0 <= j < |a| && a[j] == b[i];
      assert KeyOf(a[j]) == k;
    }
  }

  /** `own` lists the options' descriptors in own-key order: a reordering
      of the dictionary with one entry per key written, every string key
      before every symbol key, and the string keys, like the symbol keys,
      in the order the options first wrote them. */
  predicate OwnFacts(opts: seq<Opt>, own: seq<Prop>) {
    multiset(own) == multiset(PropsUpTo(opts, |opts|)) && Keys(own) == OptKeys(opts, |opts|) &&
    DistinctKeys(own) && (forall i, j :: 0 <= i < j < |own| && own[j].key.StrKey? ==> own[i].key.StrKey?) &&
    Select(own, true) == Select(PropsUpTo(opts, |opts|), true) &&
    Select(own, false) == Select(PropsUpTo(opts, |opts|), false)
  }

  lemma OwnOrder(opts: seq<Opt>)
    ensures OwnFacts(opts, OwnKeyOrder(PropsUpTo(opts, |opts|)))
  {
    var ps := PropsUpTo(opts, |opts|);
    PropsUpToKeys(opts, |opts|);
    OwnKeyOrderFacts(ps);
    KeysOfPerm(OwnKeyOrder(ps), ps);
  }

  /** `h2` is `h` plus the frozen object `id` built from `opts`: its own
      properties are the options' descriptors in own-key order, and its
      proto is the remotable one `Far('iface', ...)` installs exactly when
      the last mark is `far`. */
  predicate Built(h: Heap, id: ObjId, opts: seq<Opt>, h2: Heap) {
    h2.Keys == h.Keys + {id} && (forall x :: x in h && x != id ==> h2[x] == h[x]) &&
    h2[id].PlainObject? && h2[id].frozen && OwnFacts(opts, h2[id].props) &&
    h2[id].proto == (if FarAt(opts, |opts|) then RemotableProto(RemotableProtoFor(ALLEGED_PREFIX + "iface")) else ObjectPrototype)
  }

  /** No option but a mark writes a key other than a closure's, or every
      option is a mark or stores a closure. */
  predicate OnlyMethods(opts: seq<Opt>) {
    forall k :: 0 <= k < |opts| && OptKey(opts[k]).Some? ==> FuncOpt(opts[k])
  }

  /** `build` throws on the first unknown option, and otherwise exactly
      when it calls `Far` on a dictionary holding something other than a
      method; what it returns is `Built` and keeps the heap well formed. */
  lemma BuildSpecFacts(h: Heap, id: ObjId, opts: seq<Opt>)
    requires WfHeap(h) && id !in h
    ensures var r := BuildSpec(h, id, opts);
      r.Ok? <==> (FirstUnknown(opts).None? && (FarAt(opts, |opts|) ==> OnlyMethods(opts)))
    ensures var r := BuildSpec(h, id, opts);
      FirstUnknown(opts).Some? ==> r == Err(UnknownOption(FirstUnknown(opts).value))
    ensures var r := BuildSpec(h, id, opts);
      r.Ok? ==> WfHeap(r.value) && Built(h, id, opts, r.value)
  {
    if FirstUnknown(opts).None? {
      if FarAt(opts, |opts|) {
        FinishFar(h, id, opts);
      } else {
        FinishHarden(h, id, opts);
      }
    }
  }

  lemma FinishFar(h: Heap, id: ObjId, opts: seq<Opt>)
    requires WfHeap(h) && id !in h && FarAt(opts, |opts|)
    ensures var r := Finish(h, id, PropsUpTo(opts, |opts|), true);
      (r.Ok? <==> OnlyMethods(opts)) && (r.Ok? ==> WfHeap(r.value) && Built(h, id, opts, r.value))
  {
    var own := OwnKeyOrder(PropsUpTo(opts, |opts|));
    OwnOrder(opts);
    Created(h, id, opts, own);
    MethodsOfOptions(opts, own);
    FarBranch(h, id, opts, own);
  }

  lemma FinishHarden(h: Heap, id: ObjId, opts: seq<Opt>)
    requires WfHeap(h) && id !in h && !FarAt(opts, |opts|)
    ensures var r := Finish(h, id, PropsUpTo(opts, |opts|), false);
      r.Ok? && WfHeap(r.value) && Built(h, id, opts, r.value)
  {
    var own := OwnKeyOrder(PropsUpTo(opts, |opts|));
    OwnOrder(opts);
    Created(h, id, opts, own);
    HardenBranch(h, id, opts, own);
  }

  lemma FarBranch(h: Heap, id: ObjId, opts: seq<Opt>, own: seq<Prop>)
    requires id !in h && FarAt(opts, |opts|) && OwnFacts(opts, own)
    requires WfHeap(h[id := PlainObject(own, ObjectPrototype, false)])
    ensures var f := Far(h[id := PlainObject(own, ObjectPrototype, false)], "iface", Ref(id));
      (f.Ok? <==> forall i :: 0 <= i < |own| ==> GoodMethod(own[i])) &&
      (f.Ok? ==> WfHeap(f.value) && Built(h, id, opts, f.value))
  {
    var h1 := h[id := PlainObject(own, ObjectPrototype, false)];
    var proto := RemotableProto(RemotableProtoFor(ALLEGED_PREFIX + "iface"));
    FarPlain(h1, "iface", id, own);
    if RemotableFault(own).None? {
      Refreeze(h, id, own, proto);
      BuiltOf(h, id, opts, own, proto);
    }
  }

  lemma HardenBranch(h: Heap, id: ObjId, opts: seq<Opt>, own: seq<Prop>)
    requires id !in h && !FarAt(opts, |opts|) && OwnFacts(opts, own)
    requires WfHeap(h[id := PlainObject(own, ObjectPrototype, false)])
    ensures var h2 := h[id := PlainObject(own, ObjectPrototype, false)][id := PlainObject(own, ObjectPrototype, true)];
      WfHeap(h2) && Built(h, id, opts, h2)
  {
    Refreeze(h, id, own, ObjectPrototype);
    BuiltOf(h, id, opts, own, ObjectPrototype);
  }

  /** Freezing a plain object, or giving it another proto, leaves the heap
      well formed. */
  lemma Refreeze(h: Heap, id: ObjId, own: seq<Prop>, proto: Proto)
    requires WfHeap(h[id := PlainObject(own, ObjectPrototype, false)])
    ensures var h2 := h[id := PlainObject(own, ObjectPrototype, false)][id := PlainObject(own, proto, true)];
      h2 == h[id := PlainObject(own, proto, true)] && WfHeap(h2)
  {
    var h1 := h[id := PlainObject(own, ObjectPrototype, false)];
    var h2 := h1[id := PlainObject(own, proto, true)];
    forall x | x in h2 ensures ClosedObj(h2, h2[x]) {
      assert ClosedObj(h1, h1[x]);
    }
    assert h2 == h[id := PlainObject(own, proto, true)];
  }

  lemma BuiltOf(h: Heap, id: ObjId, opts: seq<Opt>, own: seq<Prop>, proto: Proto)
    requires id !in h && OwnFacts(opts, own)
    requires proto == (if FarAt(opts, |opts|) then RemotableProto(RemotableProtoFor(ALLEGED_PREFIX + "iface")) else ObjectPrototype)
    ensures Built(h, id, opts, h[id := PlainObject(own, proto, true)])
  {
  }

  /** Adding the unfrozen object keeps the heap well formed. */
  lemma Created(h: Heap, id: ObjId, opts: seq<Opt>, own: seq<Prop>)
    requires WfHeap(h) && id !in h
    requires multiset(own) == multiset(PropsUpTo(opts, |opts|)) && DistinctKeys(own)
    ensures WfHeap(h[id := PlainObject(own, ObjectPrototype, false)])
  {
    var h1 := h[id := PlainObject(own, ObjectPrototype, false)];
    forall x | x in h1 ensures ClosedObj(h1, h1[x]) {
      if x != id { assert ClosedObj(h, h[x]); }
      else { FreeOfRefs(h1, opts, own); }
    }
  }

  /** The options that store a closure. */
  predicate FuncOpt(opt: Opt) {
    opt in {EnumStringFunc, EnumSymbolFunc, NonenumStringFunc, NonenumSymbolFunc}
  }

  /** The keys under which an option stores a closure. */
  predicate FuncKey(k: PropKey) {
    k in {StrKey("enumStringFunc"), SymKey(Registered("symEnumFunc")),
          StrKey("nonEnumStringFunc"), SymKey(Registered("symNonenumFunc"))}
  }

  /** What every descriptor an option stores satisfies: it holds no
      reference, and it is a method exactly under a closure's key. */
  predicate GoodEntry(q: Prop) {
    (q.desc.Data? ==> !q.desc.value.Ref?) && (GoodMethod(q) <==> FuncKey(q.key))
  }

  lemma OptEntry(opt: Opt, f: nat)
    requires OptKey(opt).Some?
    ensures GoodEntry(Prop(OptKey(opt).value, OptDesc(opt, f)))
    ensures FuncKey(OptKey(opt).value) <==> FuncOpt(opt)
  {
  }

  lemma {:induction false} PropsUpToEntries(opts: seq<Opt>, i: nat)
    requires i <= |opts|
    ensures forall q :: q in PropsUpTo(opts, i) ==> GoodEntry(q)
  {
    if i > 0 {
      PropsUpToEntries(opts, i - 1);
      var ps := PropsUpTo(opts, i - 1);
      match OptKey(opts[i - 1])
      case None =>
      case Some(key) =>
        var p := Prop(key, OptDesc(opts[i - 1], i - 1));
        PutKeys(ps, p);
        OptEntry(opts[i - 1], i - 1);
    }
  }

  /** The built object holds no references, so its dictionary is closed in
      any heap. */
  lemma FreeOfRefs(h: Heap, opts: seq<Opt>, own: seq<Prop>)
    requires multiset(own) == multiset(PropsUpTo(opts, |opts|)) && DistinctKeys(own)
    ensures ClosedObj(h, PlainObject(own, ObjectPrototype, false))
  {
    PropsUpToEntries(opts, |opts|);
    forall i | 0 <= i < |own| && own[i].desc.Data? ensures RefsIn(h, own[i].desc.value) {
      assert own[i] in multiset(PropsUpTo(opts, |opts|));
      assert GoodEntry(own[i]);
    }
  }

  /** Every own property of the built object is a method exactly when
      every option that writes a key stores a closure. */
  lemma MethodsOfOptions(opts: seq<Opt>, own: seq<Prop>)
    requires multiset(own) == multiset(PropsUpTo(opts, |opts|))
    ensures (forall i :: 0 <= i < |own| ==> GoodMethod(own[i])) <==> OnlyMethods(opts)
  {
    var ps := PropsUpTo(opts, |opts|);
    PropsUpToEntries(opts, |opts|);
    PropsUpToKeys(opts, |opts|);
    KeysOfPerm(own, ps);
    EntriesMethods(own, ps);
    OptKeysMethods(opts);
  }

  lemma EntriesMethods(own: seq<Prop>, ps: seq<Prop>)
    requires multiset(own) == multiset(ps) && forall q :: q in ps ==> GoodEntry(q)
    ensures (forall i :: 0 <= i < |own| ==> GoodMethod(own[i])) <==> forall k :: k in Keys(own) ==> FuncKey(k)
  {
    forall i | 0 <= i < |own| ensures GoodEntry(own[i]) {
      assert own[i] in multiset(ps);
    }
    if forall k :: k in Keys(own) ==> FuncKey(k) {
      forall i | 0 <= i < |own| ensures GoodMethod(own[i]) {
        assert KeyOf(own[i]) in Keys(own);
      }
    }
  }

  lemma OptKeysMethods(opts: seq<Opt>)
    ensures (forall k :: k in OptKeys(opts, |opts|) ==> FuncKey(k)) <==> OnlyMethods(opts)
  {
    if forall k :: k in OptKeys(opts, |opts|) ==> FuncKey(k) {
      forall k | 0 <= k < |opts| && OptKey(opts[k]).Some? ensures FuncOpt(opts[k]) {
        assert OptKey(opts[k]).value in OptKeys(opts, |opts|);
        OptEntry(opts[k], k);
      }
    }
    if OnlyMethods(opts) {
      forall key | key in OptKeys(opts, |opts|) ensures FuncKey(key) {
        var k :| 0 <= k < |opts| && OptKey(opts[k]).Some? && OptKey(opts[k]).value == key;
        OptEntry(opts[k], k);
      }
    }
  }
}
