/** The namespaced key-value adapter (KadLocalStorage).

    A logical store `key -> JSON value`, scoped by a namespace, laid over a
    flat `string -> string` host store (the browser's localStorage). The
    logical key `k` of namespace `ns` lives under the flat key `ns_k`, and its
    value is stored as JSON text.

    The callback interface of the source becomes return values: put and del
    return the new host store with the error their callback receives, get
    returns a Result, and the read stream is a finite sequence of events. */
module KadLocalStorage {
  import opened Wrappers
  import Json

  /** The flat host store: every key and value is a string. */
  type Host = map<string, string>

  /** Separates the namespace from the logical key in a flat key. */
  const Separator: char := '_'

  datatype Error =
    | NotFound
    | InvalidJson(reason: string)
    | InvalidNamespace(namespace: string)

  /** The `message` of the error object the callback receives. */
  function Message(e: Error): (m: string)
    ensures e.NotFound? <==> m == "not found"
  {
    match e
    case NotFound => "not found"
    case InvalidJson(reason) => "invalid JSON: " + reason
    case InvalidNamespace(ns) => "invalid namespace: " + ns
  }

  /** What put and del hand back: the host store afterwards and the error
      argument of their callback (None for the source's null). */
  datatype Effect = Effect(host: Host, err: Option<Error>)

  /** One item of the read stream: a data item or a per-entry error. */
  datatype Event = Data(key: string, value: Json.Value) | Err(error: Error)

  /** An adapter instance: all it owns is its namespace. The type admits any
      namespace; only New guarantees a valid one. A Store built directly from
      a namespace containing the separator can see another namespace's
      entries, which is why the isolation laws assume the separator is absent. */
  datatype Store = Store(namespace: string)

  // ---------------------------------------------------------------------------
  // Namespaces and key encoding

  predicate IsNamespaceChar(c: char) { 'a' <= c <= 'z' || 'A' <= c <= 'Z' || '0' <= c <= '9' }

  /** A namespace is a non-empty run of ASCII letters and digits. The
      separator is excluded, which is what keeps namespaces apart; refusing
      the empty namespace and other punctuation is a modelling choice. */
  predicate ValidNamespace(ns: string)
  {
    |ns| > 0 && forall i :: 0 <= i < |ns| ==> IsNamespaceChar(ns[i])
  }

  /** Construction: an invalid namespace is refused before any store exists. */
  function New(ns: string): (r: Result<Store, Error>)
    ensures r.Success? <==> ValidNamespace(ns)
    ensures r.Success? ==> r.value.namespace == ns && Separator !in ns
    ensures Separator in ns ==> r == Failure(InvalidNamespace(ns))
  {
    if ValidNamespace(ns) then Success(Store(ns)) else Failure(InvalidNamespace(ns))
  }

  function Prefix(ns: string): (p: string)
    ensures |p| == |ns| + 1 && p[..|ns|] == ns && p[|ns|] == Separator
  {
    ns + [Separator]
  }

  /** True when the flat key carries the namespace's prefix. */
  predicate Owns(ns: string, flat: string)
  {
    |Prefix(ns)| <= |flat| && flat[..|Prefix(ns)|] == Prefix(ns)
  }

  /** The flat key of a logical key. */
  function EncodeKey(ns: string, key: string): (flat: string)
    ensures Owns(ns, flat)
    ensures |flat| == |ns| + 1 + |key| && flat[|ns| + 1..] == key
  {
    Prefix(ns) + key
  }

  /** The logical key of a flat key the namespace owns: the prefix stripped. */
  function DecodeKey(ns: string, flat: string): (key: string)
    requires Owns(ns, flat)
    ensures EncodeKey(ns, key) == flat
  {
    flat[|ns| + 1..]
  }

  // ---------------------------------------------------------------------------
  // Operations

  /** put: store the value's JSON text under the flat key; nothing else changes. */
  function Put(st: Store, host: Host, key: string, value: Json.Value): (r: Effect)
    ensures r.err == None
    ensures r.host.Keys == host.Keys + {EncodeKey(st.namespace, key)}
    ensures Json.Parse(r.host[EncodeKey(st.namespace, key)]) == Success(value)
    ensures forall flat :: flat in host && flat != EncodeKey(st.namespace, key) ==> r.host[flat] == host[flat]
  {
    Json.ParseSerialize(value);
    Effect(host[EncodeKey(st.namespace, key) := Json.Serialize(value)], None)
  }

  /** get: absence is the "not found" error; text that does not parse is a
      parse error; otherwise the parsed value. */
  function Get(st: Store, host: Host, key: string): (r: Result<Json.Value, Error>)
    ensures r == Failure(NotFound) <==> EncodeKey(st.namespace, key) !in host
    ensures r.Success? ==> Json.Parse(host[EncodeKey(st.namespace, key)]) == Success(r.value)
    ensures r.Failure? && r.error != NotFound ==>
              r.error.InvalidJson? && Json.Parse(host[EncodeKey(st.namespace, key)]).Failure?
  {
    var flat := EncodeKey(st.namespace, key);
    if flat !in host then Failure(NotFound)
    else
      match Json.Parse(host[flat])
      case Success(v) => Success(v)
      case Failure(reason) => Failure(InvalidJson(reason))
  }

  /** del: remove the flat key, present or not; it never reports an error. */
  function Del(st: Store, host: Host, key: string): (r: Effect)
    ensures r.err == None
    ensures r.host.Keys == host.Keys - {EncodeKey(st.namespace, key)}
    ensures forall flat :: flat in r.host ==> r.host[flat] == host[flat]
  {
    Effect(host - {EncodeKey(st.namespace, key)}, None)
  }

  /** The event the read stream emits for one flat entry of the namespace. */
  function EntryEvent(st: Store, host: Host, flat: string): (e: Event)
    requires flat in host && Owns(st.namespace, flat)
    ensures e.Data? ==> EncodeKey(st.namespace, e.key) == flat && Get(st, host, e.key) == Success(e.value)
    ensures e.Err? ==> e.error.InvalidJson? && Get(st, host, DecodeKey(st.namespace, flat)) == Failure(e.error)
  {
    var key := DecodeKey(st.namespace, flat);
    match Json.Parse(host[flat])
    case Success(v) => Data(key, v)
    case Failure(reason) => Err(InvalidJson(reason))
  }

  /** The flat keys the namespace owns. */
  function OwnedKeys(st: Store, host: Host): set<string>
  {
    set flat | flat in host && Owns(st.namespace, flat)
  }

  /** `events` is a complete read stream of the namespace, emitted in the
      enumeration order `order` of the flat keys: one event per owned flat
      key, each key exactly once, and nothing for keys the namespace does not
      own. The end signal is the end of the sequence. */
  predicate StreamOf(st: Store, host: Host, order: seq<string>, events: seq<Event>)
  {
    && |events| == |order|
    && (forall i :: 0 <= i < |order| ==> order[i] in host && Owns(st.namespace, order[i]))
    && (forall i :: 0 <= i < |order| ==> events[i] == EntryEvent(st, host, order[i]))
    && (forall flat :: flat in host && Owns(st.namespace, flat) ==> flat in order)
    && (forall i, j :: 0 <= i < j < |order| ==> order[i] != order[j])
  }

  /** createReadStream: visit the namespace's flat keys in an unspecified
      order, one event each; a malformed entry yields an error event and the
      enumeration goes on. Also returns the order the keys were visited in. */
  method CreateReadStream(st: Store, host: Host) returns (events: seq<Event>, order: seq<string>)
    ensures StreamOf(st, host, order, events)
  {
    var pending := OwnedKeys(st, host);
    events, order := [], [];
    while pending != {}
      invariant |events| == |order|
      invariant forall i :: 0 <= i < |order| ==> order[i] in host && Owns(st.namespace, order[i])
      invariant forall i :: 0 <= i < |order| ==> events[i] == EntryEvent(st, host, order[i])
      invariant forall flat :: flat in host && Owns(st.namespace, flat) ==> flat in order || flat in pending
      invariant forall flat :: flat in pending ==> flat in host && Owns(st.namespace, flat) && flat !in order
      invariant forall i, j :: 0 <= i < j < |order| ==> order[i] != order[j]
      decreases |pending|
    {
      var flat :| flat in pending;
      events := events + [EntryEvent(st, host, flat)];
      order := order + [flat];
      pending := pending - {flat};
    }
  }
}
