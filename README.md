# A model of Agoric's marshal, the swingset inbound message, and Zoe's amount assertion

This project models three pieces of the Agoric SDK:

- The **marshal** of `@agoric/marshal`. It has three parts:
  - The classifier `passStyleOf` (with `getInterfaceOf`, `Remotable` and `Far`). It decides how a value is passed: copied as a record, copied as an array or as an error, or sent by reference as a remotable or a promise.
  - The encoder `serialize`. It turns a value graph into a JSON body and a list of slots. Objects sent by reference become `slot` nodes. JSON-less scalars become `@qclass` nodes, and objects seen earlier in the same call become `ibid` back-references. A record that itself owns `@qclass` is escaped as a `hilbert` node. Errors carry an `errorId` when error tagging is on.
  - The decoder `unserialize`. It rebuilds a hardened value graph under one of three cycle policies.

  The behaviour follows what `packages/marshal/test/test-marshal.js` asserts. The `records` test's `build(...opts)` helper is modelled too.
- **`MsgDeliverInbound`**, the Cosmos message the swingset module accepts (`msgs.go`). The model covers its constructor, route, type and signers, and the stateless checks of `ValidateBasic`. It also covers the normalisation `GetSignBytes` applies before encoding.
- **Zoe's `assertAmountsEqual`** test helper and the recorder `makeFakeT` its own tests use.

## Layout

| file | module | what it holds |
|---|---|---|
| `wrappers.dfy` | `Wrappers` | `Option` and `Result` |
| `json.dfy` | `JsonTree` | the body as a parsed JSON tree and `CapData` |
| `decimal.dfy` | `Decimal` | bigint digit strings |
| `passable.dfy` | `Passable` | values, objects and heaps; `passStyleOf`, `getInterfaceOf`, `Remotable`, `Far` |
| `encode.dfy` | `Encoder` | `serialize` |
| `decode.dfy` | `Decoder` | `unserialize` and its cycle policies |
| `roundtrip.dfy`, `rt_proof.dfy` | `RoundTrip`, `RoundTripProof` | the round-trip theorem |
| `table.dfy` | `RoundTripTable` | the exact encodings of the round-trip table's records, and the ibid bodies decoded |
| `error_ids.dfy` | `ErrorIds` | how far one `serialize` call moves the error counter |
| `cycles.dfy` | `CyclePolicies` | how the three policies relate |
| `frozen.dfy` | `Hardened` | everything decoded is frozen |
| `marshal.dfy` | `Marshaller` | the `makeMarshal` instance, a class holding the error counter |
| `marshal_examples.dfy` | `MarshalExamples` | the marshal test cases |
| `records.dfy` | `RecordBuilder` | the `build(...opts)` helper of the records test, as a loop method |
| `records_examples.dfy` | `RecordExamples` | the records test cases |
| `msgs.dfy` | `DeliverInbound` | `MsgDeliverInbound` |
| `zoe_helpers.dfy` | `ZoeHelpers` | `assertAmountsEqual` and `FakeT` |

### How the model represents the system

- **Value graphs.**
  - A value graph is a heap `map<ObjId, Obj>` plus a root value, and object identity is the heap key.
  - Functions are opaque identities `Function(n)`. Symbols are registered, unique, or well known.
  - A property is a key (a string or a symbol) with a data or accessor descriptor. Properties are listed in own-key order.
- **Bridges.** The encoder's `convertValToSlot` and the decoder's `convertSlotToVal` are function parameters of the configurations.
- **Decoded identities.** The decoder allocates decoded objects at `base + i`, where `i` is the object's ibid index.
- **Hardening.** `harden` freezes every object the result reaches through elements and data properties. Prototypes are not objects of the heap, so hardening does not walk them.
- **`ValidateBasic`.**
  - It is a loop method proved against the specification function `Validation`.
  - Go's nil slice is kept distinct from an empty one (`GoSlice`), so that the `GetSignBytes` normalisation can be stated.
- **`assertAmountsEqual`.**
  - It is a method that calls `fail` and `pass` on a `FakeT` object (a class whose two fields the calls overwrite).
  - The amount-math equalities and the formatting functions (`q`, brand interpolation) are parameters.

## Model

| member | source | states |
|---|---|---|
| `Passable.PassStyleOf` | packages/marshal/test/test-marshal.js:141-156 | a symbol passes iff it is `Symbol.asyncIterator`; a bare function and a non-frozen object are refused; each object style holds exactly when the object has that shape (copy record, remotable, frozen array, error, promise); every primitive passes |
| `Passable.GetInterfaceOf` | packages/marshal/test/test-marshal.js:406-421 | an interface is reported only for a plain object behind a remotable proto, is that proto's valid interface, and a frozen one is then a remotable; non-objects have none |
| `Passable.Remotable` | packages/marshal/test/test-marshal.js:314-330 | succeeds iff the interface is a valid string and the target is an unfrozen plain object of methods with the plain prototype; it then changes only that object, which gets the remotable proto and is frozen |
| `Passable.Far` | packages/marshal/test/test-marshal.js:341-357 | a successful `Far(name, o)` makes `o` a remotable whose interface is `Alleged: name` |
| `Passable.FarKeepsWf` | packages/marshal/test/test-marshal.js:341-357 | `Far` keeps the heap well formed |
| `Passable.FarPlain` | packages/marshal/test/test-marshal.js:347-357 | on an unfrozen plain object, `Far` fails with the first non-method property's error, or installs the remotable proto and freezes |
| `Encoder.Serialize` | packages/marshal/test/test-marshal.js:158-168 | the error counter never moves back |
| `Decoder.Unserialize` | packages/marshal/test/test-marshal.js:175-202 | the result is hardened: every object it reaches is frozen, objects the bridge handed back included; an imported object changes at most by being frozen, and one the result does not reach, or already frozen, is unchanged |
| `Decoder.Harden` | packages/marshal/test/test-marshal.js:194-201 | every object the value reaches is frozen; only frozen flags change, only on reached objects, and the value reaches the same objects afterwards |
| `Decoder.ReachClosed` | packages/marshal/test/test-marshal.js:194-201 | the objects a value reaches are closed under reference through elements and data properties, and they are the least such set holding the value |
| `Decoder.HardenIdle` | packages/marshal/test/test-marshal.js:194-201 | hardening a value whose reachable objects are all frozen already leaves the heap as it is |
| `RoundTrip.SlottedIsStyle` | packages/marshal/test/test-marshal.js:359-372 | objects sent by reference are exactly the remotables and promises; the `iface` a slot carries is the remotable's interface |
| `RoundTripProof.SerializeRoundTrip` | packages/marshal/test/test-marshal.js:125-139 | whatever serializes, unserializes to the image of the graph: under `allowCycles` and `warnOfCycles` always, and under the default `forbidCycles` when, among the objects the call visits, none sent by copy reaches itself (witnessed by a ranking of those objects) and the call's slots come back as presences. The root comes back as its image, each object sent by copy at `base + index` as its frozen image, and each imported object changed at most by being frozen |
| `RoundTripProof.RtVal` | packages/marshal/test/test-marshal.js:22-123 | the step of the round trip for one value, by induction over the encoder's traversal |
| `CyclePolicies.UnserializePolicy` | packages/marshal/test/test-marshal.js:217-230 | `forbidCycles` decodes like `allowCycles` or fails with an ibid-cycle error (when it succeeds is stated by `RoundTripProof.SerializeRoundTrip`); `warnOfCycles` decodes exactly like `allowCycles` |
| `Hardened.UnserializeHard` | packages/marshal/test/test-marshal.js:194-201 | every object `unserialize` allocates is frozen, the root included |
| `Decimal.NatDecimalRoundTrip` | packages/marshal/test/test-marshal.js:47-49 | the decimal digits of a natural number parse back to it |
| `Decimal.BigIntDigitsRoundTrip` | packages/marshal/test/test-marshal.js:47-49 | the digits emitted for any bigint, sign included, parse back to it |
| `JsonTree.Lookup` | packages/marshal/test/test-marshal.js:268-302 | a member lookup finds the last member of that name, and none iff the name is absent |
| `JsonTree.AsNat` | packages/marshal/test/test-marshal.js:220-221 | accepts exactly the JSON numbers that are natural numbers, such as an ibid `index` |
| `Marshaller.Marshal.constructor` | packages/marshal/test/test-marshal.js:142 | a fresh marshal keeps its bridges and options and starts its error counter at 0 |
| `Marshaller.Marshal.Serialize` | packages/marshal/test/test-marshal.js:158-168 | one `serialize` call returns the encoder's result; with tagging on, the counter moves on by the number of distinct error objects the call visits, and with tagging off it stays |
| `Marshaller.Marshal.Unserialize` | packages/marshal/test/test-marshal.js:217-223 | with no policy given, cycles are forbidden; on success everything the result reaches is frozen, imported objects included, an imported object changes at most by being frozen, and every decoded object is frozen; the result is `allowCycles`' unless cycles are forbidden and an ibid cycle is met |
| `ErrorIds.SerializeCounts` | packages/marshal/test/test-marshal.js:158-168 | with tagging on, one `serialize` call moves the counter on by the number of distinct error objects it visits, whether or not it succeeds; with tagging off the counter stays |
| `ErrorIds.ValCounts` | packages/marshal/test/test-marshal.js:158-168 | from any encoder state, encoding one value moves the counter on by exactly the error objects it visits for the first time |
| `RoundTripTable.ElemsChain` | packages/marshal/test/test-marshal.js:54 | elements whose encodings chain, each from the state the one before left, encode to the list of those encodings |
| `RoundTripTable.FieldsChain` | packages/marshal/test/test-marshal.js:29-36 | a record's property values encoded in a chain come out under the properties' names, in order |
| `RoundTripTable.RecordEncoding` | packages/marshal/test/test-marshal.js:28-36 | a frozen record without `@qclass`, met for the first time, is sent as the JSON object of its properties in order, each holding its value's encoding |
| `RoundTripTable.HilbertEncoding` | packages/marshal/test/test-marshal.js:75-122 | a record owning `@qclass`, met for the first time, is a hilbert node: `original` is the encoding of the `@qclass` value, and `rest` is there iff the record owns other properties, holding exactly those, in order |
| `RoundTripTable.HilbertUnfold` | packages/marshal/test/test-marshal.js:75-122 | once `original` is encoded: no `rest` when `@qclass` is the only property, otherwise the other properties encoded as a record from the next index |
| `RoundTripTable.HilbertRest` | packages/marshal/test/test-marshal.js:100-122 | the properties other than `@qclass` are data fields and encode as a chain |
| `RoundTripTable.RecordOne` | packages/marshal/test/test-marshal.js:28 | a one-property record is sent as `{name: <the value's encoding>}` |
| `RoundTripTable.HilbertAlone` | packages/marshal/test/test-marshal.js:76-89 | a record owning only `@qclass` is a hilbert node with `original` and no `rest` |
| `RoundTripTable.HilbertField` | packages/marshal/test/test-marshal.js:100-122 | a record owning `@qclass` and one more property is a hilbert node whose `rest` holds that property, encoded after the rest takes its index |
| `RoundTripTable.SerializeFooOne` | packages/marshal/test/test-marshal.js:28 | `{foo: 1}` serializes to `{"foo":1}` with no slots and the counter unchanged |
| `RoundTripTable.SerializeTwoFields` | packages/marshal/test/test-marshal.js:29-32 | `{a: 1, b: 2}` serializes to `{"a":1,"b":2}`, properties in order |
| `RoundTripTable.SerializeNested` | packages/marshal/test/test-marshal.js:33-36 | `{a: 1, b: {c: 3}}` serializes with the inner record in place |
| `RoundTripTable.SerializeUndefinedElement` | packages/marshal/test/test-marshal.js:54 | `[undefined]` serializes to `[{"@qclass":"undefined"}]` |
| `RoundTripTable.SerializeUndefinedField` | packages/marshal/test/test-marshal.js:55 | `{foo: undefined}` keeps the property, tagged `undefined` |
| `RoundTripTable.SerializeQclassString` | packages/marshal/test/test-marshal.js:83-89 | `{'@qclass': '@qclass'}` is a hilbert node whose original is the string `@qclass` |
| `RoundTripTable.SerializeQclassNested` | packages/marshal/test/test-marshal.js:90-99 | `{'@qclass': {'@qclass': 8}}` nests one hilbert node inside another |
| `RoundTripTable.SerializeHilbertRests` | packages/marshal/test/test-marshal.js:100-122 | the record with a rest on both levels serializes to exactly the listed nested hilbert nodes |
| `RoundTripTable.SerializeHilbertCycle` | packages/marshal/test/test-marshal.js:244-251 | `cycle2` serializes as a hilbert node whose `rest` holds `foo` as ibid 0 |
| `RoundTripTable.HilbertCycle` | packages/marshal/test/test-marshal.js:244-251 | from any state, the back-reference inside the rest names the index the record itself was given |
| `RoundTripTable.DecodeFooBack` | packages/marshal/test/test-marshal.js:263-266 | allowing cycles, `{"foo": ibid 0}` decodes to a fresh frozen record whose `foo` is the object at index 0 |
| `RoundTripTable.UnserializeHilbertCycle` | packages/marshal/test/test-marshal.js:263-266 | allowing cycles, `cycle2`'s body decodes to a frozen record holding 8 under `@qclass` and itself under `foo` |
| `RoundTripTable.HilbertIbidRest` | packages/marshal/test/test-marshal.js:268-279 | a hilbert node whose rest is an ibid to a plain record without `@qclass` copies that record's current properties after `@qclass`, freezes the new record, and changes nothing else |
| `RoundTripTable.UnserializeImpossible1` | packages/marshal/test/test-marshal.js:268-279 | allowing cycles, `impossible1` decodes to `{bar: 9, foo: {'@qclass': 8, bar: 9}}`, both frozen |
| `RoundTripTable.HilbertIbidNotRecord` | packages/marshal/test/test-marshal.js:281-293 | a hilbert node whose rest is an ibid to an object that is not a plain record is refused as not a record |
| `RoundTripTable.UnserializeImpossible2` | packages/marshal/test/test-marshal.js:281-293 | allowing cycles, `impossible2`, whose rest is the enclosing array, is refused as not a record |
| `MarshalExamples.SerializeRejects` | packages/marshal/test/test-marshal.js:144-146 | an unpassable value makes `serialize` fail with the classifier's error, counter unchanged |
| `MarshalExamples.NonFrozenRejected` | packages/marshal/test/test-marshal.js:144-146 | a non-frozen object is refused as such |
| `MarshalExamples.UnsupportedSymbols` | packages/marshal/test/test-marshal.js:151-156 | registered, unique and other well-known symbols are unsupported |
| `MarshalExamples.NegativeZero` | packages/marshal/test/test-marshal.js:147-150 | `-0` serializes as `0`, body `0`, no slots |
| `MarshalExamples.JsonScalars` | packages/marshal/test/test-marshal.js:37-40 | `true`, `1`, `'abc'`, `null` encode as themselves and decode back |
| `MarshalExamples.UndefinedPair` | packages/marshal/test/test-marshal.js:43 | `undefined` pairs with `{"@qclass":"undefined"}` both ways |
| `MarshalExamples.NaNPair` | packages/marshal/test/test-marshal.js:44 | `NaN` pairs with its `@qclass` node both ways |
| `MarshalExamples.InfinityPair` | packages/marshal/test/test-marshal.js:45 | `Infinity` pairs with its `@qclass` node both ways |
| `MarshalExamples.NegInfinityPair` | packages/marshal/test/test-marshal.js:46 | `-Infinity` pairs with its `@qclass` node both ways |
| `MarshalExamples.SmallBigIntPair` | packages/marshal/test/test-marshal.js:47 | `4n` pairs with `{"@qclass":"bigint","digits":"4"}` |
| `MarshalExamples.LargeBigIntPair` | packages/marshal/test/test-marshal.js:48-49 | `9007199254740993n` keeps every digit both ways |
| `MarshalExamples.AsyncIteratorPair` | packages/marshal/test/test-marshal.js:50-51 | `Symbol.asyncIterator` pairs with `@@asyncIterator` |
| `MarshalExamples.DecodeBigint` | packages/marshal/test/test-marshal.js:47-49 | a bigint node holding any bigint's digits decodes to that bigint |
| `MarshalExamples.ArrayPair` | packages/marshal/test/test-marshal.js:24-27 | the frozen array `[1, 2]` encodes as itself and decodes to a frozen copy |
| `MarshalExamples.DecodePairArray` | packages/marshal/test/test-marshal.js:195-196 | `[1,2]` decodes to a frozen array |
| `MarshalExamples.UntaggedErrorPair` | packages/marshal/test/test-marshal.js:57-73 | without tagging an error encodes as its message and name and decodes to an error of the same class |
| `MarshalExamples.SerializeTaggedError` | packages/marshal/test/test-marshal.js:158-168 | with tagging the n-th error carries `error:<name>#<n+1>` and the counter moves by one |
| `MarshalExamples.DefaultErrorIds` | packages/marshal/test/test-marshal.js:160 | the default marshal's first two ids are `error:anon-marshal#1` and `#2` |
| `MarshalExamples.SuccessiveErrorIds` | packages/marshal/test/test-marshal.js:158-168 | one marshal serializing `Error()` and then `ReferenceError('msg')` produces exactly the two asserted bodies |
| `MarshalExamples.UnserializeError` | packages/marshal/test/test-marshal.js:179-192 | an error node decodes to a frozen error of the named class, plain `Error` for an unknown name |
| `MarshalExamples.ErrorClasses` | packages/marshal/test/test-marshal.js:179-192 | `ReferenceError`, `TypeError` and `Unknown` name their classes, the last plain `Error` |
| `MarshalExamples.UnserializeOk` | packages/marshal/test/test-marshal.js:175-177 | a slotless body that decodes gives the decoded heap and root |
| `MarshalExamples.SerializeCycle` | packages/marshal/test/test-marshal.js:204-215 | the array containing itself serializes with an ibid to index 0 |
| `MarshalExamples.IbidRef` | packages/marshal/test/test-marshal.js:204-215 | an object seen earlier in the call encodes as an ibid of its index |
| `MarshalExamples.ForbidCycle` | packages/marshal/test/test-marshal.js:217-223 | forbidding cycles, that body fails with the ibid cycle at 0 |
| `MarshalExamples.AllowCycle` | packages/marshal/test/test-marshal.js:225-230 | otherwise it decodes to an array whose second element is the array itself |
| `MarshalExamples.SerializeSelfQclass` | packages/marshal/test/test-marshal.js:236-242 | a record that is its own `@qclass` serializes as a hilbert node whose original is an ibid 0 |
| `MarshalExamples.UnserializeSelfQclass` | packages/marshal/test/test-marshal.js:258-261 | and decodes to a record that is its own `@qclass` |
| `MarshalExamples.SerializeQclassEight` | packages/marshal/test/test-marshal.js:76-82 | `{"@qclass": 8}` serializes as a hilbert node with no rest |
| `MarshalExamples.UnserializeQclassEight` | packages/marshal/test/test-marshal.js:76-82 | and decodes back to a frozen record holding 8 under `@qclass` |
| `MarshalExamples.RestDefiningQclass` | packages/marshal/test/test-marshal.js:295-301 | a hilbert rest that is the hilbert record itself is refused for defining `@qclass` |
| `MarshalExamples.HilbertRestOwnsQclass` | packages/marshal/test/test-marshal.js:295-301 | any rest that decodes to a record owning `@qclass` is refused |
| `MarshalExamples.NumericQclass` | packages/marshal/test/test-marshal.js:308-312 | `{"@qclass": 0}` is an invalid qclass |
| `MarshalExamples.FarThing` | packages/marshal/test/test-marshal.js:347-372 | `Far('Thing', {name, birthYear})` has interface `Alleged: Thing` and serializes to one slot carrying that interface |
| `MarshalExamples.FarNonMethod` | packages/marshal/test/test-marshal.js:320-324 | `Far` refuses a target with the non-method `foo` |
| `MarshalExamples.RemotableObjectIface` | packages/marshal/test/test-marshal.js:315-319 | an object interface is refused as not a string |
| `MarshalExamples.FarFunction` | packages/marshal/test/test-marshal.js:325-329 | only objects can become remotables |
| `MarshalExamples.NoInterfaceForData` | packages/marshal/test/test-marshal.js:331-338 | strings, `null`, functions and numbers have no interface |
| `MarshalExamples.ProtoAsValue` | packages/marshal/test/test-marshal.js:441-446 | a candidate proto passed as a value is refused for its first non-method property and has no interface |
| `MarshalExamples.SubProto` | packages/marshal/test/test-marshal.js:447-452 | an object inheriting from a proto is a remotable iff the proto is good, else fails with that proto's error |
| `MarshalExamples.ProtoValidation` | packages/marshal/test/test-marshal.js:374-404 | the good proto passes and the four bad ones fail with unexpected properties, a wrong style, a non-function `toString` and an unalleged interface |
| `RecordBuilder.Build` | packages/marshal/test/test-marshal.js:486-530 | the option loop returns exactly `BuildSpec`: the unknown-option error, or the created object after `Far('iface', o)` or `harden(o)` |
| `RecordBuilder.BuildSpecFacts` | packages/marshal/test/test-marshal.js:486-530 | `build` succeeds iff every option is known and, when marked `far`, every option stores a closure; otherwise it throws for the first unknown option; what it returns is the built object and keeps the heap well formed |
| `RecordBuilder.OwnOrder` | packages/marshal/test/test-marshal.js:522 | the created object's own keys are a reordering of the dictionary, one entry per key written: the string keys in the order first written, then the symbol keys in the order first written |
| `RecordBuilder.OwnKeyOrderFacts` | packages/marshal/test/test-marshal.js:522 | own-key order is a permutation with every string key before every symbol key; two keys of the same kind keep their relative order; distinct keys stay distinct |
| `RecordBuilder.PutKeys` | packages/marshal/test/test-marshal.js:489-513 | assigning a descriptor adds exactly its key; a new key goes last; every other entry stays where it was |
| `RecordBuilder.PropsUpToKeys` | packages/marshal/test/test-marshal.js:489-513 | the dictionary holds one distinct entry per key the options write |
| `RecordBuilder.FirstUnknownAt` | packages/marshal/test/test-marshal.js:518-519 | the error names the first unknown option |
| `RecordBuilder.MethodsOfOptions` | packages/marshal/test/test-marshal.js:526-528 | every property of the built object is a method iff every key-writing option stores a closure |
| `RecordExamples.RecordsEmpty` | packages/marshal/test/test-marshal.js:549-554 | `ser(build())` is one slot with no interface |
| `RecordExamples.RecordsFar` | packages/marshal/test/test-marshal.js:565-567 | `ser(build('far'))` is one slot alleging `Alleged: iface` |
| `RecordExamples.RecordsFarFunc` | packages/marshal/test/test-marshal.js:569-574 | with any one closure option, `ser(build('far', f))` is the same slot |
| `RecordExamples.RecordsData` | packages/marshal/test/test-marshal.js:576-581 | `ser(build('enumStringData'))` is the record `{"key1":"data"}` with no slots |
| `RecordExamples.RecordsFunc` | packages/marshal/test/test-marshal.js:583-591 | with any one closure option, `ser(build(f))` is a slot with no interface |
| `RecordExamples.RecordsFarDataFunc` | packages/marshal/test/test-marshal.js:596-598 | `Far` refuses the data property `key1` |
| `RecordExamples.RecordsGetter` | packages/marshal/test/test-marshal.js:600-609 | any string accessor alone is refused as a record accessor |
| `RecordExamples.RecordsGetterData` | packages/marshal/test/test-marshal.js:600-609 | beside `key1` the accessor is refused the same way |
| `RecordExamples.RecordsGetterFunc` | packages/marshal/test/test-marshal.js:600-609 | beside a method it is refused as a remotable's getter |
| `RecordExamples.RecordsSymbolGetter` | packages/marshal/test/test-marshal.js:610 | a symbol getter alone is refused as a remotable's getter |
| `RecordExamples.RecordsSymbolGetterData` | packages/marshal/test/test-marshal.js:611 | beside `key1`, the string key comes first and is refused as a non-method |
| `RecordExamples.RecordsSymbolGetterFunc` | packages/marshal/test/test-marshal.js:612 | beside a method the getter is refused |
| `RecordExamples.RecordsSymbolData` | packages/marshal/test/test-marshal.js:614-621 | symbol-keyed data alone is refused as a non-method |
| `RecordExamples.RecordsSymbolDataData` | packages/marshal/test/test-marshal.js:614-621 | beside `key1`, `key1` is refused first |
| `RecordExamples.RecordsSymbolDataFunc` | packages/marshal/test/test-marshal.js:614-621 | beside a method the symbol data is refused |
| `RecordExamples.RecordsNonEnumerable` | packages/marshal/test/test-marshal.js:623-624 | a non-enumerable field is refused as such |
| `RecordExamples.RecordsNonEnumerableData` | packages/marshal/test/test-marshal.js:625 | beside `key1` the same field is refused first |
| `RecordExamples.RecordsNonEnumerableFunc` | packages/marshal/test/test-marshal.js:626 | beside a method it is refused as a non-method |
| `RecordExamples.SerStyle` | packages/marshal/test/test-marshal.js:532-534 | a built object the classifier refuses is refused by `serialize`; a remotable becomes one slot |
| `DeliverInbound.NewMsgDeliverInbound` | packages/cosmic-swingset/x/swingset/internal/types/msgs.go:21-29 | the message carries the peer, the batch's messages, nums and ack, and the submitter |
| `DeliverInbound.Route` | packages/cosmic-swingset/x/swingset/internal/types/msgs.go:31-32 | the route is the module name |
| `DeliverInbound.Type` | packages/cosmic-swingset/x/swingset/internal/types/msgs.go:34-35 | the action is `deliver` |
| `DeliverInbound.GetSigners` | packages/cosmic-swingset/x/swingset/internal/types/msgs.go:74-77 | the one signer is the submitter |
| `DeliverInbound.ValidateBasic` | packages/cosmic-swingset/x/swingset/internal/types/msgs.go:38-60 | the loop returns exactly the error of the first failing check, in source order |
| `DeliverInbound.ValidIff` | packages/cosmic-swingset/x/swingset/internal/types/msgs.go:38-60 | nil is returned iff the message is well formed |
| `DeliverInbound.CheckOrder` | packages/cosmic-swingset/x/swingset/internal/types/msgs.go:39-58 | an empty submitter, then an empty peer, then a length mismatch decide the error, and with every entry good only the ack is left |
| `DeliverInbound.EntryFaultFirst` | packages/cosmic-swingset/x/swingset/internal/types/msgs.go:48-55 | the entry loop fails iff some entry is bad, naming the lowest bad index's fault |
| `DeliverInbound.FirstBadEntry` | packages/cosmic-swingset/x/swingset/internal/types/msgs.go:48-55 | at the lowest bad entry an empty message wins over a negative number, and the ack is never looked at |
| `DeliverInbound.ValidSigner` | packages/cosmic-swingset/x/swingset/internal/types/msgs.go:39-41 | a valid message has a non-empty signer |
| `DeliverInbound.NewMsgValidates` | packages/cosmic-swingset/x/swingset/internal/types/msgs.go:21-60 | a message built from a batch validates iff peer and submitter are present and the batch is well formed |
| `DeliverInbound.SignedForm` | packages/cosmic-swingset/x/swingset/internal/types/msgs.go:63-70 | nil slices become empty ones and every other field is kept |
| `DeliverInbound.SameContentsValidate` | packages/cosmic-swingset/x/swingset/internal/types/msgs.go:63-70 | the signed form validates exactly as the message does |
| `ZoeHelpers.FakeT.constructor` | packages/zoe/test/unitTests/test-testHelpers.js:11-13 | a fresh test context has no message and no error |
| `ZoeHelpers.FakeT.Fail` | packages/zoe/test/unitTests/test-testHelpers.js:15 | `fail` records its message as the error and leaves the message alone |
| `ZoeHelpers.FakeT.Pass` | packages/zoe/test/unitTests/test-testHelpers.js:16 | `pass` records its message and leaves the error alone |
| `ZoeHelpers.Prefix` | packages/zoe/test/zoeTestHelpers.js:33 | the empty label adds nothing; any other label adds itself and a space |
| `ZoeHelpers.AssertAmountsEqual` | packages/zoe/test/zoeTestHelpers.js:10-47 | afterwards the message is `values are equal`; the error is the complaint, if there is one, or else unchanged |
| `ZoeHelpers.ComplaintCases` | packages/zoe/test/zoeTestHelpers.js:17-42 | nothing is reported iff brands and values both match; each mismatch has its own message behind the label |
| `ZoeHelpers.KindSemantics` | packages/zoe/test/zoeTestHelpers.js:19-31 | NAT compares values strictly; a math kind the `switch` has no case for (not `nat`, `strSet` or `set`) always complains |
| `ZoeHelpers.SelfEqual` | packages/zoe/test/zoeTestHelpers.js:19-22 | an amount always equals itself under NAT |
| `ZoeHelpers.LabelPrefix` | packages/zoe/test/zoeTestHelpers.js:33 | a label puts itself and a space in front of what the unlabelled call reports |
| `ZoeHelpers.RunOnFresh` | packages/zoe/test/unitTests/test-testHelpers.js:22-29 | on a fresh context the message is `values are equal` and the error is the unlabelled complaint |
| `ZoeHelpers.NatDup` | packages/zoe/test/unitTests/test-testHelpers.js:22-29 | `moola(0)` against itself reports nothing |
| `ZoeHelpers.FalseNat` | packages/zoe/test/unitTests/test-testHelpers.js:43-49 | `moola(0)` against `moola(1)` reports `value (0) expected to equal 1` |
| `ZoeHelpers.BrandMismatch` | packages/zoe/test/unitTests/test-testHelpers.js:108-116 | different brands with equal values report only the brand message |

## Left out

- The marshal's implementation (`marshal.js`) is not part of this model. The encoder and decoder follow what the tests assert.
- `Decimal.ParseBigInt`: it accepts only an optional minus sign followed by decimal digits. JavaScript's `BigInt(digits)` also accepts a `+` sign, surrounding whitespace, the empty string and `0x`/`0o`/`0b` digits; the encoder never emits those.
- Concrete JSON text is not modelled. Bodies are parsed trees, so key order within a member list, whitespace and the `JSON.stringify`/`JSON.parse` steps are not represented.
- The hardening of the `CapData` record and its slot list is not modelled.
- Identities are not stable strings. Functions and symbols are opaque identities of the model, and closures created by `build` are numbered by option position.
- Error messages are constructors of one error datatype, not strings. The tests match these by pattern:
  - `/cannot serialize objects/` covers both a remotable's getter and a non-method;
  - `/Records must not contain accessors/` is a record accessor;
  - `/Record fields must be enumerable/` is a non-enumerable field;
  - `/cannot serialize objects with non-methods/` is a non-method.
- The encoder's slot table does not reuse a slot for a remotable seen twice in one call: an object seen before is always an ibid.
- Bigints are unbounded integers, and JavaScript numbers are reals with the four special values.
- Integer-like property names are not ordered numerically.
- The `warnOfCycles` console report is not kept: that policy decodes exactly as `allowCycles`.
- An inherited `@qclass` is not modelled.
- `RoundTripProof.SerializeRoundTrip`: under `forbidCycles` it asks for a ranking of the objects the call visits that shows they have no cycle through objects sent by copy, and for a decoding bridge that hands back presences for the call's slots. A call that does visit such a cycle is not covered. That such a call fails under `forbidCycles` is shown only for the self-containing array (`MarshalExamples.ForbidCycle`), not in general.
- `RoundTripTable.UnserializeImpossible2`: the marshal of that release decodes this body to an array whose second element mixes in array nature and is neither a copy record nor a copy array. The model's decoder refuses a rest that is not a plain object (`RestNotRecord`), the outcome the test's own TODO at line 284 calls for; the malformed object is not modelled.
- The `records` test's `data` mark and the `Data()` cases are commented out in the source, and the model leaves them out too.
- `MarshalExamples.RemotableObjectIface`: the interface `{bar: 29}` is any object reference, and the model reports it as not a string.
- `Far` with no target (the fresh empty object it then creates) is modelled only by passing an empty object explicitly. The string form of a remotable (`[Alleged: MyHandle]`) is not modelled, since the model has no `toString` conversion.
- `MarshalExamples.FarFunction`: `Far` on a function is reported as `NotAnObject`. The source only promises an error matching `/cannot serialize/`.
- The async Zoe helpers (`assertPayoutAmount`, `assertOfferResult`, `assertPayoutDeposit`, and similar) are left out. They wait on promises and remote calls, which have no counterpart here.
- The string-set and set amount maths (`doIsEqual`) are parameters of `assertAmountsEqual`. So are the quoting `q` and the interpolation of brands; their own behaviour lives in other packages.
- `ZoeHelpers.BrandMismatch`: it is stated over the two brands' texts rather than the literal `[Alleged: moola brand]` strings, because brand interpolation is a parameter.
- The `getError` and `getMessage` accessors of `makeFakeT` are the fields of `FakeT` themselves.
- The Set and StrSet tests of `assertAmountsEqual` are covered by `ZoeHelpers.ComplaintCases`, which is stated for every math kind, not by one lemma per case.
- The Go file's `key.go` is not part of this model. The module name `swingset`, which `RouterKey` copies, is taken from the module's directory.
- Of the SDK's `AccAddress`, only emptiness is used. `ValidateBasic`'s invalid-address error carries the raw bytes instead of their bech32 string.
- `GetSignBytes`: Amino JSON encoding and `MustSortJSON` are not modelled. Only the nil-to-empty normalisation that precedes them is (`DeliverInbound.SignedForm`).
- Go's `int` width is not modelled: the checks only compare with zero.
