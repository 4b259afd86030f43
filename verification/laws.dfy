/** Laws of the adapter: what a sequence of operations observes, how the read
    stream relates to get, and why distinct namespaces never interfere. */
module Laws {
  import opened Wrappers
  import Json
  import opened KadLocalStorage

  // ---------------------------------------------------------------------------
  // Key encoding

  /** Within one namespace, distinct logical keys have distinct flat keys,
      even when the logical keys themselves contain the separator. */
  lemma EncodeKeyInjective(ns: string, k1: string, k2: string)
    requires EncodeKey(ns, k1) == EncodeKey(ns, k2)
    ensures k1 == k2
  {
    assert k1 == EncodeKey(ns, k1)[|ns| + 1..];
  }

  /** Two namespaces without the separator that differ own disjoint sets of
      flat keys: a prefix test can never pick up another namespace's entry. */
  lemma OwnsDisjoint(ns1: string, ns2: string, flat: string)
    requires Separator !in ns1 && Separator !in ns2
    requires Owns(ns1, flat) && Owns(ns2, flat)
    ensures ns1 == ns2
  {
    if |ns1| == |ns2| {
      assert ns1 == flat[..|ns1|] == ns2;
    }
  }

  /** Hence the pair (namespace, logical key) is recoverable from the flat key. */
  lemma EncodeKeyIsolated(ns1: string, ns2: string, k1: string, k2: string)
    requires Separator !in ns1 && Separator !in ns2 && ns1 != ns2
    ensures EncodeKey(ns1, k1) != EncodeKey(ns2, k2)
  {
    if EncodeKey(ns1, k1) == EncodeKey(ns2, k2) {
      OwnsDisjoint(ns1, ns2, EncodeKey(ns1, k1));
    }
  }

  /** Why the separator is refused in a namespace: with it allowed, key
      "b_c" of namespace "a" and key "c" of namespace "a_b" share a flat key. */
  lemma SeparatorInNamespaceCollides()
    ensures EncodeKey("a", "b_c") == EncodeKey("a_b", "c")
    ensures New("a_b").Failure?
  {
  }

  // ---------------------------------------------------------------------------
  // put / get / del

  /** put then get returns exactly the value put, with a null error. */
  lemma PutThenGet(st: Store, host: Host, key: string, v: Json.Value)
    ensures Put(st, host, key, v).err == None
    ensures Get(st, Put(st, host, key, v).host, key) == Success(v)
  {
  }

  /** A falsy value is a value: put(k, false) then get(k) yields false, not absence. */
  lemma FalseIsNotAbsence(st: Store, host: Host, key: string)
    ensures Get(st, Put(st, host, key, Json.Bool(false)).host, key) == Success(Json.Bool(false))
    ensures Get(st, Put(st, host, key, Json.Null).host, key) != Failure(NotFound)
  {
    PutThenGet(st, host, key, Json.Bool(false));
    PutThenGet(st, host, key, Json.Null);
  }

  /** put on one key leaves get on every other key of the namespace unchanged. */
  lemma PutLeavesOtherKeys(st: Store, host: Host, key: string, other: string, v: Json.Value)
    requires other != key
    ensures Get(st, Put(st, host, key, v).host, other) == Get(st, host, other)
  {
    if EncodeKey(st.namespace, other) == EncodeKey(st.namespace, key) {
      EncodeKeyInjective(st.namespace, other, key);
    }
  }

  /** The last put wins: a second put on the same key replaces the first entirely. */
  lemma PutOverwrites(st: Store, host: Host, key: string, v1: Json.Value, v2: Json.Value)
    ensures Put(st, Put(st, host, key, v1).host, key, v2).host == Put(st, host, key, v2).host
  {
  }

  /** get on a store where the key was never written is the "not found" error. */
  lemma GetFreshIsNotFound(st: Store, key: string)
    ensures Get(st, map[], key) == Failure(NotFound)
    ensures Message(Get(st, map[], key).error) == "not found"
  {
  }

  /** del reports a null error, and a later get is "not found". */
  lemma DelThenGet(st: Store, host: Host, key: string)
    ensures Del(st, host, key).err == None
    ensures Get(st, Del(st, host, key).host, key) == Failure(NotFound)
  {
  }

  /** del on one key leaves get on every other key unchanged. */
  lemma DelLeavesOtherKeys(st: Store, host: Host, key: string, other: string)
    requires other != key
    ensures Get(st, Del(st, host, key).host, other) == Get(st, host, other)
  {
    if EncodeKey(st.namespace, other) == EncodeKey(st.namespace, key) {
      EncodeKeyInjective(st.namespace, other, key);
    }
  }

  /** del is idempotent: deleting again changes nothing and still reports no error. */
  lemma DelIdempotent(st: Store, host: Host, key: string)
    ensures Del(st, Del(st, host, key).host, key) == Del(st, host, key)
  {
  }

  /** A stored entry that is not JSON makes get fail with a parse error (a
      truthy error, distinct from "not found") and no value. */
  lemma GetMalformed(st: Store, host: Host, key: string, text: string)
    requires Json.Parse(text).Failure?
    ensures Get(st, host[EncodeKey(st.namespace, key) := text], key).Failure?
    ensures Get(st, host[EncodeKey(st.namespace, key) := text], key).error.InvalidJson?
  {
  }

  // ---------------------------------------------------------------------------
  // The read stream

  /** Filter-and-strip: the stream carries the data item {key, value} exactly
      when get(key) succeeds with value. */
  lemma StreamDataIsGet(st: Store, host: Host, order: seq<string>, events: seq<Event>, key: string, v: Json.Value)
    requires StreamOf(st, host, order, events)
    ensures Data(key, v) in events <==> Get(st, host, key) == Success(v)
  {
    if Get(st, host, key) == Success(v) {
      var flat := EncodeKey(st.namespace, key);
      assert flat in order;
      var i :| 0 <= i < |order| && order[i] == flat;
      assert DecodeKey(st.namespace, flat) == key;
      assert events[i] == Data(key, v);
    }
  }

  /** Every owned entry whose text does not parse yields an error event, and
      every error event comes from such an entry: errors do not abort the stream. */
  lemma StreamErrorsAreMalformedEntries(st: Store, host: Host, order: seq<string>, events: seq<Event>, key: string)
    requires StreamOf(st, host, order, events)
    ensures (exists i :: 0 <= i < |order| && order[i] == EncodeKey(st.namespace, key) && events[i].Err?)
        <==> Get(st, host, key).Failure? && Get(st, host, key) != Failure(NotFound)
  {
    var flat := EncodeKey(st.namespace, key);
    if Get(st, host, key).Failure? && Get(st, host, key) != Failure(NotFound) {
      assert flat in order;
      var i :| 0 <= i < |order| && order[i] == flat;
      assert DecodeKey(st.namespace, flat) == key;
      assert events[i].Err?;
    }
  }

  /** No logical key is emitted twice as data. */
  lemma StreamDataKeysDistinct(st: Store, host: Host, order: seq<string>, events: seq<Event>, i: nat, j: nat)
    requires StreamOf(st, host, order, events)
    requires i < j < |events| && events[i].Data? && events[j].Data?
    ensures events[i].key != events[j].key
  {
    assert order[i] != order[j];
  }

  /** A sequence without repeats has as many elements as its set. */
  lemma {:induction false} DistinctCard(s: seq<string>)
    requires forall i, j :: 0 <= i < j < |s| ==> s[i] != s[j]
    ensures |set x | x in s| == |s|
    decreases |s|
  {
    if |s| > 0 {
      var t := s[..|s| - 1];
      DistinctCard(t);
      assert (set x | x in s) == (set x | x in t) + {s[|s| - 1]};
      assert s[|s| - 1] !in t;
    }
  }

  /** The stream has exactly one event per flat key the namespace owns. */
  lemma StreamLength(st: Store, host: Host, order: seq<string>, events: seq<Event>)
    requires StreamOf(st, host, order, events)
    ensures |events| == |OwnedKeys(st, host)|
  {
    DistinctCard(order);
    assert (set x | x in order) == OwnedKeys(st, host);
  }

  // ---------------------------------------------------------------------------
  // Namespace isolation

  /** A put in one namespace is invisible to get in another. */
  lemma PutIsolated(st1: Store, st2: Store, host: Host, k1: string, k2: string, v: Json.Value)
    requires Separator !in st1.namespace && Separator !in st2.namespace && st1 != st2
    ensures Get(st2, Put(st1, host, k1, v).host, k2) == Get(st2, host, k2)
  {
    EncodeKeyIsolated(st1.namespace, st2.namespace, k1, k2);
  }

  /** A del in one namespace is invisible to get in another. */
  lemma DelIsolated(st1: Store, st2: Store, host: Host, k1: string, k2: string)
    requires Separator !in st1.namespace && Separator !in st2.namespace && st1 != st2
    ensures Get(st2, Del(st1, host, k1).host, k2) == Get(st2, host, k2)
  {
    EncodeKeyIsolated(st1.namespace, st2.namespace, k1, k2);
  }

  /** A put in one namespace leaves the other namespace's read stream as it was:
      the same event sequences are complete streams before and after. */
  lemma StreamIsolated(st1: Store, st2: Store, host: Host, k1: string, v: Json.Value,
                       order: seq<string>, events: seq<Event>)
    requires Separator !in st1.namespace && Separator !in st2.namespace && st1 != st2
    ensures StreamOf(st2, Put(st1, host, k1, v).host, order, events) <==> StreamOf(st2, host, order, events)
  {
    var after := Put(st1, host, k1, v).host;
    var flat1 := EncodeKey(st1.namespace, k1);
    forall flat | Owns(st2.namespace, flat)
      ensures (flat in after <==> flat in host)
      ensures flat in host ==> after[flat] == host[flat]
    {
      if flat == flat1 {
        OwnsDisjoint(st1.namespace, st2.namespace, flat);
      }
    }
  }
}
