# kad-localstorage, modelled in Dafny

kad-localstorage is a storage adapter for a Kademlia DHT. It keeps a logical
store `key -> JSON value`, scoped by a namespace, inside a flat
`string -> string` host store (the browser's `localStorage`). The logical key `k`
of namespace `ns` is stored under the flat key `ns_k`. Its value is stored as JSON
text. The adapter offers `put`, `get`, `del` and `createReadStream`. Its
constructor refuses a namespace that contains the separator `_`.

The model makes this functional:

- The host store is an immutable `map<string, string>` (`KadLocalStorage.Host`).
- `Put` and `Del` return the new host store together with the error their
  callback would receive (`Effect`).
- `Get` returns a `Result`, where the error is `NotFound` (message
  `"not found"`) or `InvalidJson`.
- `CreateReadStream` is a method. It visits the namespace's flat keys in an
  order it does not fix, and returns one `Data(key, value)` or `Err(error)` event
  per key. The end of the returned sequence is the stream's end signal.

Files:

- `wrappers.dfy`: the `Option` and `Result` datatypes.
- `json.dfy`: a small JSON codec. It handles null, booleans, naturals, and
  strings with the escapes `JSON.stringify` writes. Its round trip is proved.
- `kad_local_storage.dfy`: namespace validation, key encoding, and the four
  operations.
- `laws.dfy`: the put/get/del laws, the filter-and-strip law of the read
  stream, and namespace isolation.
- `scenarios.dfy`: the repository's test cases, as lemmas over the model.

The behaviour modelled here is the behaviour that the repository's test
suite, `tests.js`, fixes. The adapter's implementation file,
`kad-localstorage.js`, is not part of this model.

One point needed a decision. The tests fix two facts about namespaces:
`invalid_namespace` is refused at construction (tests.js:153-155), and `test`
is accepted (tests.js:15). The model's `ValidNamespace` asks for a non-empty
run of ASCII letters and digits. That refuses `_`, as the tests require, and
accepts `test`. Refusing other punctuation, non-ASCII letters and the empty
namespace is the model's own choice (see "## Left out").
`Laws.SeparatorInNamespaceCollides` shows why `_` has to be excluded. With `_`
allowed, key `b_c` of namespace `a` and key `c` of namespace `a_b` would share a
flat key. The isolation lemmas need only the absence of `_`, so they also cover
namespaces the model refuses for other reasons.

## Model

| member | source | states |
|---|---|---|
| KadLocalStorage.New | tests.js:149-158 | Construction succeeds exactly for a valid namespace. A success carries that namespace, which never contains the separator. A namespace containing `_` fails with InvalidNamespace and produces no store. |
| KadLocalStorage.Message | tests.js:35 | The error message is `"not found"` exactly for the not-found error. |
| KadLocalStorage.EncodeKey | tests.js:122-123 | The flat key of `k` in namespace `ns` carries the prefix `ns_`. Stripping that prefix gives back `k`. |
| KadLocalStorage.DecodeKey | tests.js:122-131 | Stripping the prefix from an owned flat key gives a logical key that re-encodes to the same flat key. |
| KadLocalStorage.Put | tests.js:17-18 | Put reports a null error. It adds exactly the encoded key, whose stored text parses back to the value put. Every other flat entry keeps its value. |
| KadLocalStorage.Get | tests.js:27-37 | Get is "not found" exactly when the encoded key is absent. A success is the value the stored text parses to. Any other error is a parse error on text that does not parse. |
| KadLocalStorage.Del | tests.js:62-70 | Del reports a null error and removes exactly the encoded key. The remaining entries keep their values. |
| KadLocalStorage.EntryEvent | tests.js:115-131 | The stream event for one owned entry is either a data item, whose key re-encodes to the entry and whose value is what get returns, or a parse error equal to get's error for that key. |
| KadLocalStorage.CreateReadStream | tests.js:79-113 | The stream has one event per owned flat key, in some order, with each key exactly once and nothing for keys of other namespaces. |
| Json.Parse | tests.js:48-50 | A parsed null, boolean or number has exactly one spelling, namely the serialization of the parsed value. Blank text never parses. |
| Json.Serialize | tests.js:46 | The JSON text put stores for a value. Its own contract says only that the text is non-empty and has no surrounding whitespace. Its meaning is carried by `Json.ParseSerialize` (the text parses back to the value) and `Json.SerializeInjective` (distinct values get distinct texts). |
| Json.ParseSerialize | tests.js:40-53 | Parsing the serialization of any value gives that value back, including the falsy values false, 0, "" and null. |
| Json.EscapeRoundTrip | tests.js:17-23 | The escaped body of any string parses back to that string and stops exactly at the closing quote. |
| Json.SerializeInjective | tests.js:46-53 | Distinct values have distinct serializations, so a stored false cannot be confused with another value. |
| Json.RejectsFreeText | tests.js:122-140 | The texts the tests plant as malformed entries do not parse. |
| Laws.EncodeKeyInjective | tests.js:122-123 | Within one namespace, distinct logical keys have distinct flat keys, even when the keys contain `_`. |
| Laws.OwnsDisjoint | tests.js:149-155 | If two namespaces without `_` both own a flat key, they are the same namespace. |
| Laws.EncodeKeyIsolated | tests.js:149-155 | Two distinct namespaces without `_` never produce the same flat key. |
| Laws.SeparatorInNamespaceCollides | tests.js:153-155 | With `_` allowed in a namespace, two different (namespace, key) pairs would share a flat key. That namespace is refused. |
| Laws.PutThenGet | tests.js:17-23 | After put(k, v), put's error is null and get(k) returns exactly v. |
| Laws.FalseIsNotAbsence | tests.js:40-53 | After put(k, false), get(k) returns false. After put(k, null), get(k) is not "not found". |
| Laws.PutLeavesOtherKeys | tests.js:88-91 | A put on one key does not change get on any other key of the namespace. |
| Laws.PutOverwrites | tests.js:17-18 | A second put on the same key leaves the same host store as that put alone. |
| Laws.GetFreshIsNotFound | tests.js:27-37 | On an empty host store, get is the "not found" error and has no value. |
| Laws.DelThenGet | tests.js:56-77 | Del reports a null error, and a later get is "not found". |
| Laws.DelLeavesOtherKeys | tests.js:62-70 | A del on one key does not change get on any other key. |
| Laws.DelIdempotent | tests.js:62-70 | Deleting twice leaves the same result as deleting once. |
| Laws.GetMalformed | tests.js:134-147 | When the entry under the encoded key does not parse, get fails with a parse error, not "not found", and has no value. |
| Laws.StreamDataIsGet | tests.js:79-113 | Filter-and-strip law: the stream holds Data(k, v) exactly when get(k) returns v. |
| Laws.StreamErrorsAreMalformedEntries | tests.js:115-132 | The stream holds an error event at the flat key of k exactly when get(k) fails with a parse error. |
| Laws.StreamDataKeysDistinct | tests.js:100-110 | No logical key appears twice among the stream's data items. |
| Laws.StreamLength | tests.js:79-113 | The stream's length equals the number of flat keys the namespace owns. |
| Laws.PutIsolated | tests.js:149-155 | A put in one namespace is invisible to get in another namespace. |
| Laws.DelIsolated | tests.js:149-155 | A del in one namespace is invisible to get in another namespace. |
| Laws.StreamIsolated | tests.js:149-155 | A put in one namespace does not change which event sequences are complete streams of another namespace. |
| Scenarios.ShouldGetKey | tests.js:11-25 | put('a', 'b') then get('a') gives null errors and 'b'. |
| Scenarios.ShouldDeleteKey | tests.js:56-77 | put('a', 'b'), del('a'), get('a') gives null errors, then "not found". |
| Scenarios.StreamHostIsTwoPuts | tests.js:86-91 | The stream scenario's host store is a foreign entry plus the two puts. |
| Scenarios.ShouldCreateReadStream | tests.js:79-113 | In every enumeration order, the stream is the multiset {a: 'a1', b: 'b1'}. The foreign entry is skipped. |
| Scenarios.ShouldPropagateParseErrorFromStream | tests.js:115-132 | Two malformed entries give exactly two events, both errors, and the stream ends. |
| Scenarios.ShouldHandleParseFailures | tests.js:134-147 | get over a malformed raw entry gives an error other than "not found". |
| Scenarios.ShouldValidateNamespace | tests.js:149-158 | 'invalid_namespace' is refused and 'test' is accepted. |

## Left out

- The host storage primitive: `localStorage`, `dom-storage` and `clear()` (tests.js:7-9, 13). The host store is a plain immutable map. A cleared store is the empty map.
- The test harness and module wiring (tests.js:1-6).
- Callbacks, event emitters and asynchronous scheduling. Results are return values, and the stream is a finite sequence of events.
- Backpressure, and mutation of the host store during enumeration.
- The concrete emission order. `CreateReadStream` picks each next key nondeterministically, and every lemma about the stream holds for every order.
- Serialization failure, such as circular values. No test exercises it, and every modelled value serializes. `undefined` and functions are outside the modelled value space. `Put` therefore always reports a null error.
- JSON objects, arrays, negative and fractional numbers, and exponents. `Json.Parse` rejects them, although `JSON.parse` accepts them. The modelled values are null, booleans, naturals and strings.
- Json.Parse: numbers are unbounded naturals. The source's IEEE doubles lose precision above 2^53, and `JSON.stringify` uses exponent notation from 1e21 on.
- Json.Parse: a `\uXXXX` escape naming a UTF-16 surrogate is rejected. Strings are sequences of Unicode scalar values, so surrogate pairs are not modelled.
- The error messages of `JSON.parse`. A parse error carries the codec's own reason text.
- KadLocalStorage.New: only two facts come from the tests, namely that a namespace containing `_` is refused and that `test` is accepted. The rest of `ValidNamespace` is an assumption: it also refuses the empty namespace, punctuation other than `_` (such as `-` or `.`), and non-ASCII letters.
- KadLocalStorage.Store: a `Store` value can be built without `New`, so the operations accept any namespace. The guarantee that no store exists for a refused namespace is a property of `New`. The isolation lemmas take the absence of `_` as a hypothesis.
