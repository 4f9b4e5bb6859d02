/**
 * The value space of the marshal layer and its classifier (`passStyleOf`),
 * together with `getInterfaceOf` and the `Remotable` / `Far` constructors.
 *
 * A JavaScript value graph is a heap of objects addressed by identity
 * (`ObjId`) plus a root value; primitives are held inline.  Prototype
 * reflection and freezing are replaced by explicit descriptors and flags.
 */
module Passable {
  import opened Wrappers

  type ObjId = nat

  /** Symbols: well-known ones (`Symbol.asyncIterator`), registered ones
      (`Symbol.for(key)`) and fresh ones (`Symbol(desc)`). */
  datatype Sym = WellKnown(name: string) | Registered(key: string) | Unique(id: nat)

  /** The only symbol the codec accepts. */
  const ASYNC_ITERATOR: Sym := WellKnown("asyncIterator")
  /** `Symbol.for('passStyle')`, the remotable marker key. */
  const PASS_STYLE: Sym := Registered("passStyle")
  /** The pass style of remotables, and the marker value a remotable proto carries. */
  const REMOTE_STYLE: string := "presence"
  /** The reserved discriminator key of the wire format. */
  const QCLASS: string := "@qclass"
  const ALLEGED_PREFIX: string := "Alleged: "

  /** IEEE doubles as far as the codec distinguishes them. */
  datatype Number = Finite(r: real) | NegZero | NaN | Infinity | NegInfinity

  /** The error classes the decoder can rebuild. */
  datatype ErrorKind =
    | PlainError | EvalError | RangeError | ReferenceError | SyntaxError | TypeError | URIError

  function ErrorName(k: ErrorKind): string {
    match k
    case PlainError => "Error"
    case EvalError => "EvalError"
    case RangeError => "RangeError"
    case ReferenceError => "ReferenceError"
    case SyntaxError => "SyntaxError"
    case TypeError => "TypeError"
    case URIError => "URIError"
  }

  /** The error class a decoded error name selects: the class of that name,
      or plain `Error` for an unknown name. */
  function ErrorKindNamed(name: string): (k: ErrorKind)
    ensures forall k': ErrorKind :: ErrorName(k') == name ==> k == k'
    ensures k != PlainError ==> ErrorName(k) == name
  {
    if name == "EvalError" then EvalError
    else if name == "RangeError" then RangeError
    else if name == "ReferenceError" then ReferenceError
    else if name == "SyntaxError" then SyntaxError
    else if name == "TypeError" then TypeError
    else if name == "URIError" then URIError
    else PlainError
  }

  datatype Val =
    | Undefined
    | Null
    | Bool(b: bool)
    | Num(n: Number)
    | BigInt(i: int)
    | Str(s: string)
    | Symbol(sym: Sym)
    | Function(fid: nat)
    | Ref(id: ObjId)

  datatype PropKey = StrKey(name: string) | SymKey(sym: Sym)

  /** An own property descriptor: a data property or an accessor (any
      descriptor with a getter or setter). */
  datatype PropDesc = Data(value: Val, enumerable: bool) | Accessor(enumerable: bool)

  datatype Prop = Prop(key: PropKey, desc: PropDesc)

  /** The own properties of a candidate remotable prototype: how many keys
      there are besides the three expected ones, the value under the
      `passStyle` marker, whether `toString` is a function, and the
      `Symbol.toStringTag` string (the alleged interface). */
  datatype ProtoDesc = ProtoDesc(
    extraKeys: nat,
    passStyleMark: Option<string>,
    toStringIsFunction: bool,
    iface: Option<string>)

  datatype Proto = ObjectPrototype | RemotableProto(desc: ProtoDesc)

  datatype Obj =
    | PlainObject(props: seq<Prop>, proto: Proto, frozen: bool)
    | ArrayObject(elems: seq<Val>, frozen: bool)
    | ErrorObject(kind: ErrorKind, message: string, frozen: bool)
    | PromiseObject(frozen: bool)

  type Heap = map<ObjId, Obj>

  datatype PassStyle =
    | UndefinedStyle | NullStyle | BooleanStyle | NumberStyle | BigintStyle | StringStyle
    | SymbolStyle | CopyRecord | CopyArray | CopyError | Presence | PromiseStyle

  /** Every failure the classifier, encoder and decoder report. */
  datatype MarshalError =
    // classifier
    | NonFrozen
    | UnsupportedSymbol(sym: Sym)
    | BareFunction
    | RecordAccessor(key: PropKey)
    | RecordNotEnumerable(key: PropKey)
    | RemotableGetter(key: PropKey)
    | NonMethod(key: PropKey)
    | ShadowsPassStyle
    | UnexpectedProtoProps
    | ExpectedPresence(mark: Option<string>)
    | ToStringNotFunction
    | IfaceNotString
    | IfaceUnimplemented(iface: string)
    // Remotable / Far
    | NotAnObject
    | ArrayNotRemotable
    | AlreadyMarked
    | AlreadyFrozen
    // decoder
    | InvalidQclass
    | UnrecognizedQclass(tag: string)
    | InvalidBigintDigits
    | InvalidErrorEncoding
    | InvalidIndex
    | IbidOutOfRange(index: nat)
    | IbidCycle(index: nat)
    | SlotOutOfRange(index: nat)
    | InvalidIface
    | InvalidHilbert
    | RestDefinesQclass
    | RestNotRecord

  /* ---------------- well-formed heaps ---------------- */

  predicate RefsIn(h: Heap, v: Val) {
    v.Ref? ==> v.id in h
  }

  function KeyOf(p: Prop): PropKey {
    p.key
  }

  predicate DistinctKeys(props: seq<Prop>) {
    forall i, j {:trigger KeyOf(props[i]), KeyOf(props[j])} ::
      0 <= i < j < |props| ==> KeyOf(props[i]) != KeyOf(props[j])
  }

  predicate ClosedObj(h: Heap, o: Obj) {
    match o
    case PlainObject(props, _, _) =>
      DistinctKeys(props) &&
      forall i :: 0 <= i < |props| ==> (props[i].desc.Data? ==> RefsIn(h, props[i].desc.value))
    case ArrayObject(elems, _) => forall i :: 0 <= i < |elems| ==> RefsIn(h, elems[i])
    case _ => true
  }

  /** A heap JavaScript could hold: no dangling references, distinct keys. */
  predicate WfHeap(h: Heap) {
    forall id :: id in h ==> ClosedObj(h, h[id])
  }

  /* ---------------- the classifier ---------------- */

  /** A data property holding a function: what `canBeMethod` accepts. */
  predicate IsMethod(p: Prop) {
    p.desc.Data? && p.desc.value.Function?
  }

  /** The shape `isPassByCopyRecord` looks at before it starts asserting:
      a plain non-empty object inheriting from `Object.prototype` with only
      string keys and no function-valued data. */
  predicate RecordShaped(o: Obj) {
    o.PlainObject? && o.proto == ObjectPrototype && |o.props| > 0 &&
    forall i :: 0 <= i < |o.props| ==> o.props[i].key.StrKey? && !IsMethod(o.props[i])
  }

  /** A field a copyRecord may hold: an enumerable data property. */
  predicate GoodField(p: Prop) {
    p.desc.Data? && p.desc.enumerable
  }

  function FieldFault(p: Prop): MarshalError {
    if p.desc.Accessor? then RecordAccessor(p.key) else RecordNotEnumerable(p.key)
  }

  /** The first field, in own-key order, that a copyRecord may not hold. */
  function RecordFault(props: seq<Prop>): (r: Option<MarshalError>)
    ensures r.None? <==> forall i :: 0 <= i < |props| ==> GoodField(props[i])
    ensures r.Some? ==>
      exists i :: 0 <= i < |props| && !GoodField(props[i]) &&
        (forall j :: 0 <= j < i ==> GoodField(props[j])) && r.value == FieldFault(props[i])
  {
    if |props| == 0 then None
    else if !GoodField(props[0]) then Some(FieldFault(props[0]))
    else
      var r := RecordFault(props[1..]);
      assert forall i :: 1 <= i < |props| ==> props[i] == props[1..][i - 1];
      r
  }

  /** A property a remotable may own: a method not keyed by the marker. */
  predicate GoodMethod(p: Prop) {
    IsMethod(p) && p.key != SymKey(PASS_STYLE)
  }

  function MethodFault(p: Prop): MarshalError {
    if p.desc.Accessor? then RemotableGetter(p.key)
    else if !IsMethod(p) then NonMethod(p.key)
    else ShadowsPassStyle
  }

  /** The first own property, in own-key order, that `assertCanBeRemotable`
      rejects. */
  function RemotableFault(props: seq<Prop>): (r: Option<MarshalError>)
    ensures r.None? <==> forall i :: 0 <= i < |props| ==> GoodMethod(props[i])
    ensures r.Some? ==>
      exists i :: 0 <= i < |props| && !GoodMethod(props[i]) &&
        (forall j :: 0 <= j < i ==> GoodMethod(props[j])) && r.value == MethodFault(props[i])
  {
    if |props| == 0 then None
    else if !GoodMethod(props[0]) then Some(MethodFault(props[0]))
    else
      var r := RemotableFault(props[1..]);
      assert forall i :: 1 <= i < |props| ==> props[i] == props[1..][i - 1];
      r
  }

  /** An alleged interface must be "Remotable" or begin with "Alleged: ". */
  predicate ValidIface(iface: string) {
    iface == "Remotable" || ALLEGED_PREFIX <= iface
  }

  /** What `assertRemotableProto` rejects, in the order it checks. */
  function ProtoFault(d: ProtoDesc): (r: Option<MarshalError>)
    ensures r.None? <==>
      d.extraKeys == 0 && d.passStyleMark == Some(REMOTE_STYLE) && d.toStringIsFunction &&
      d.iface.Some? && ValidIface(d.iface.value)
    ensures r.Some? && d.extraKeys > 0 ==> r == Some(UnexpectedProtoProps)
  {
    if d.extraKeys > 0 then Some(UnexpectedProtoProps)
    else if d.passStyleMark != Some(REMOTE_STYLE) then Some(ExpectedPresence(d.passStyleMark))
    else if !d.toStringIsFunction then Some(ToStringNotFunction)
    else if d.iface.None? then Some(IfaceNotString)
    else if !ValidIface(d.iface.value) then Some(IfaceUnimplemented(d.iface.value))
    else None
  }

  /** `assertRemotable` on a plain object: own properties, then the proto. */
  function RemotableObjFault(o: Obj): (r: Option<MarshalError>)
    requires o.PlainObject?
    ensures r.None? <==>
      (forall i :: 0 <= i < |o.props| ==> GoodMethod(o.props[i])) &&
      (o.proto.RemotableProto? ==> ProtoFault(o.proto.desc).None?)
  {
    var own := RemotableFault(o.props);
    if own.Some? then own
    else if o.proto.RemotableProto? then ProtoFault(o.proto.desc)
    else None
  }

  /** A copyRecord, stated directly. */
  predicate IsCopyRecord(o: Obj) {
    o.PlainObject? && o.frozen && o.proto == ObjectPrototype && |o.props| > 0 &&
    forall i :: 0 <= i < |o.props| ==>
      o.props[i].key.StrKey? && o.props[i].desc.Data? && o.props[i].desc.enumerable &&
      !o.props[i].desc.value.Function?
  }

  /** A remotable, stated directly: a frozen plain object all of whose own
      properties are methods, behind a well-formed remotable proto if any. */
  predicate IsRemotable(o: Obj) {
    o.PlainObject? && o.frozen && !RecordShaped(o) &&
    (forall i :: 0 <= i < |o.props| ==> GoodMethod(o.props[i])) &&
    (o.proto.RemotableProto? ==> ProtoFault(o.proto.desc).None?)
  }

  /** `passStyleOf`: the one pass style of a value, or why it is not passable. */
  function PassStyleOf(h: Heap, v: Val): (r: Result<PassStyle, MarshalError>)
    requires RefsIn(h, v)
    ensures v.Symbol? ==> (r.Ok? <==> v.sym == ASYNC_ITERATOR)
    ensures v.Function? ==> r == Err(BareFunction)
    ensures v.Ref? && !h[v.id].frozen ==> r == Err(NonFrozen)
    ensures r == Ok(CopyRecord) <==> v.Ref? && IsCopyRecord(h[v.id])
    ensures r == Ok(Presence) <==> v.Ref? && IsRemotable(h[v.id])
    ensures r == Ok(CopyArray) <==> v.Ref? && h[v.id].ArrayObject? && h[v.id].frozen
    ensures r == Ok(CopyError) <==> v.Ref? && h[v.id].ErrorObject? && h[v.id].frozen
    ensures r == Ok(PromiseStyle) <==> v.Ref? && h[v.id].PromiseObject? && h[v.id].frozen
    ensures !v.Ref? && !v.Symbol? && !v.Function? ==> r.Ok?
    ensures v.Ref? && r.Ok? ==> r.value in {CopyRecord, CopyArray, CopyError, Presence, PromiseStyle}
  {
    match v
    case Undefined => Ok(UndefinedStyle)
    case Null => Ok(NullStyle)
    case Bool(_) => Ok(BooleanStyle)
    case Num(_) => Ok(NumberStyle)
    case BigInt(_) => Ok(BigintStyle)
    case Str(_) => Ok(StringStyle)
    case Symbol(sym) => if sym == ASYNC_ITERATOR then Ok(SymbolStyle) else Err(UnsupportedSymbol(sym))
    case Function(_) => Err(BareFunction)
    case Ref(id) =>
      var o := h[id];
      if !o.frozen then Err(NonFrozen)
      else
        match o
        case PromiseObject(_) => Ok(PromiseStyle)
        case ErrorObject(_, _, _) => Ok(CopyError)
        case ArrayObject(_, _) => Ok(CopyArray)
        case PlainObject(props, _, _) =>
          if RecordShaped(o) then
            match RecordFault(props)
            case Some(e) => Err(e)
            case None => Ok(CopyRecord)
          else
            match RemotableObjFault(o)
            case Some(e) => Err(e)
            case None => Ok(Presence)
  }

  /** `getInterfaceOf`: the alleged interface of a remotable carrying a
      well-formed remotable proto, and nothing for anything else. */
  function GetInterfaceOf(h: Heap, v: Val): (r: Option<string>)
    requires RefsIn(h, v)
    ensures r.Some? ==> ValidIface(r.value)
    ensures r.Some? ==>
      v.Ref? && h[v.id].PlainObject? && h[v.id].proto.RemotableProto? &&
      h[v.id].proto.desc.iface == r
    ensures r.Some? && h[v.id].frozen ==> PassStyleOf(h, v) == Ok(Presence)
    ensures !v.Ref? ==> r.None?
  {
    if v.Ref? && h[v.id].PlainObject? && h[v.id].proto.RemotableProto? &&
       RemotableObjFault(h[v.id]).None?
    then h[v.id].proto.desc.iface
    else None
  }

  /* ---------------- Remotable and Far ---------------- */

  /** The proto `Remotable` installs for an interface. */
  function RemotableProtoFor(iface: string): ProtoDesc {
    ProtoDesc(0, Some(REMOTE_STYLE), true, Some(iface))
  }

  /** `Remotable(iface, undefined, target)`: checks the interface and the
      target, then gives the target a remotable proto and freezes it. */
  function Remotable(h: Heap, iface: Val, target: Val): (r: Result<Heap, MarshalError>)
    requires RefsIn(h, target)
    ensures r.Ok? <==>
      iface.Str? && ValidIface(iface.s) && target.Ref? && h[target.id].PlainObject? &&
      (forall i :: 0 <= i < |h[target.id].props| ==> GoodMethod(h[target.id].props[i])) &&
      h[target.id].proto == ObjectPrototype && !h[target.id].frozen
    ensures r.Ok? ==>
      r.value.Keys == h.Keys &&
      (forall id :: id in h && id != target.id ==> r.value[id] == h[id]) &&
      r.value[target.id] ==
        PlainObject(h[target.id].props, RemotableProto(RemotableProtoFor(iface.s)), true)
  {
    if !iface.Str? then Err(IfaceNotString)
    else if !ValidIface(iface.s) then Err(IfaceUnimplemented(iface.s))
    else if !target.Ref? then Err(NotAnObject)
    else
      match h[target.id]
      case ArrayObject(_, _) => Err(ArrayNotRemotable)
      case ErrorObject(_, _, _) => Err(NotAnObject)
      case PromiseObject(_) => Err(NotAnObject)
      case PlainObject(props, proto, frozen) =>
        match RemotableFault(props)
        case Some(e) => Err(e)
        case None =>
          if proto.RemotableProto? then Err(AlreadyMarked)
          else if frozen then Err(AlreadyFrozen)
          else Ok(h[target.id := PlainObject(props, RemotableProto(RemotableProtoFor(iface.s)), true)])
  }

  /** `Far(farName, target)` is `Remotable("Alleged: " + farName, undefined, target)`. */
  function Far(h: Heap, farName: string, target: Val): (r: Result<Heap, MarshalError>)
    requires RefsIn(h, target)
    ensures r.Ok? ==> target.Ref? && target.id in r.value
    ensures r.Ok? ==> GetInterfaceOf(r.value, target) == Some(ALLEGED_PREFIX + farName)
    ensures r.Ok? ==> PassStyleOf(r.value, target) == Ok(Presence)
  {
    var r := Remotable(h, Str(ALLEGED_PREFIX + farName), target);
    if r.Ok? then
      assert target.id in r.value;
      assert ALLEGED_PREFIX <= ALLEGED_PREFIX + farName;
      r
    else r
  }

  /** `Far` changes only its target's proto and frozenness, so the heap
      stays well formed. */
  lemma FarKeepsWf(h: Heap, farName: string, id: ObjId)
    requires WfHeap(h) && id in h && Far(h, farName, Ref(id)).Ok?
    ensures WfHeap(Far(h, farName, Ref(id)).value)
  {
    var h' := Far(h, farName, Ref(id)).value;
    forall x | x in h' ensures ClosedObj(h', h'[x]) {
      assert ClosedObj(h, h[x]);
    }
  }

  /** `Far` on an unfrozen plain object: its own properties decide. */
  lemma FarPlain(h: Heap, farName: string, id: ObjId, props: seq<Prop>)
    requires id in h && h[id] == PlainObject(props, ObjectPrototype, false)
    ensures Far(h, farName, Ref(id)) ==
      match RemotableFault(props)
      case Some(e) => Err(e)
      case None => Ok(h[id := PlainObject(props, RemotableProto(RemotableProtoFor(ALLEGED_PREFIX + farName)), true)])
  {
    assert ALLEGED_PREFIX <= ALLEGED_PREFIX + farName;
  }
}
