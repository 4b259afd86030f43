/** The repository's test scenarios, stated over the model. Each lemma fixes
    the host store a scenario builds and proves what the scenario observes,
    for every enumeration order the read stream may take. */
module Scenarios {
  import opened Wrappers
  import Json
  import opened KadLocalStorage
  import Laws

  const Test := Store("test")

  /** put('a', 'b') then get('a'): null errors, and the value 'b'. */
  lemma ShouldGetKey()
    ensures New("test") == Success(Test)
    ensures Put(Test, map[], "a", Json.Str("b")).err == None
    ensures Get(Test, Put(Test, map[], "a", Json.Str("b")).host, "a") == Success(Json.Str("b"))
  {
    Laws.PutThenGet(Test, map[], "a", Json.Str("b"));
  }

  /** put('a', 'b'), del('a'), get('a'): null errors, then "not found". */
  lemma ShouldDeleteKey()
    ensures Del(Test, Put(Test, map[], "a", Json.Str("b")).host, "a").err == None
    ensures Get(Test, Del(Test, Put(Test, map[], "a", Json.Str("b")).host, "a").host, "a") == Failure(NotFound)
  {
    Laws.DelThenGet(Test, Put(Test, map[], "a", Json.Str("b")).host, "a");
  }

  /** The host store of the read-stream scenario: a foreign entry without the
      namespace prefix, then put('a', 'a1') and put('b', 'b1'). */
  const StreamHost: Host :=
    map["someOtherNamespace" := "should ignore other namespaces", "test_a" := "\"a1\"", "test_b" := "\"b1\""]

  /** StreamHost is what the scenario's two puts leave behind. */
  lemma StreamHostIsTwoPuts()
    ensures StreamHost == Put(Test, Put(Test, map["someOtherNamespace" := "should ignore other namespaces"],
                                        "a", Json.Str("a1")).host, "b", Json.Str("b1")).host
  {
    assert EncodeKey("test", "a") == "test_a";
    assert EncodeKey("test", "b") == "test_b";
    assert Json.Serialize(Json.Str("a1")) == "\"a1\"";
    assert Json.Serialize(Json.Str("b1")) == "\"b1\"";
  }

  /** Of the three flat keys, the namespace owns exactly the two it put. */
  lemma StreamHostOwnedKeys()
    ensures OwnedKeys(Test, StreamHost) == {"test_a", "test_b"}
  {
    assert !Owns("test", "someOtherNamespace");
    assert Owns("test", "test_a") && Owns("test", "test_b");
  }

  /** Each owned entry parses back to the value put, under the stripped key. */
  lemma StreamHostEvents()
    ensures EntryEvent(Test, StreamHost, "test_a") == Data("a", Json.Str("a1"))
    ensures EntryEvent(Test, StreamHost, "test_b") == Data("b", Json.Str("b1"))
  {
    Json.ParseSerialize(Json.Str("a1"));
    Json.ParseSerialize(Json.Str("b1"));
    assert Json.Serialize(Json.Str("a1")) == StreamHost["test_a"];
    assert Json.Serialize(Json.Str("b1")) == StreamHost["test_b"];
    assert DecodeKey("test", "test_a") == "a" && DecodeKey("test", "test_b") == "b";
  }

  /** A namespace owning exactly two flat keys streams their two events, in one order or the other. */
  lemma TwoKeyStream(st: Store, host: Host, k1: string, k2: string, order: seq<string>, events: seq<Event>)
    requires k1 != k2 && OwnedKeys(st, host) == {k1, k2}
    requires StreamOf(st, host, order, events)
    ensures multiset(events) == multiset{EntryEvent(st, host, k1), EntryEvent(st, host, k2)}
  {
    Laws.StreamLength(st, host, order, events);
    assert order[0] in OwnedKeys(st, host) && order[1] in OwnedKeys(st, host);
    if order[0] == k1 {
      assert events == [EntryEvent(st, host, k1), EntryEvent(st, host, k2)];
    } else {
      assert events == [EntryEvent(st, host, k2), EntryEvent(st, host, k1)];
    }
  }

  /** Sorted by key, the stream is exactly [{a, 'a1'}, {b, 'b1'}]: as a
      multiset it holds these two items and nothing from the foreign entry. */
  lemma ShouldCreateReadStream(order: seq<string>, events: seq<Event>)
    requires StreamOf(Test, StreamHost, order, events)
    ensures multiset(events) == multiset{Data("a", Json.Str("a1")), Data("b", Json.Str("b1"))}
  {
    StreamHostOwnedKeys();
    StreamHostEvents();
    TwoKeyStream(Test, StreamHost, "test_a", "test_b", order, events);
  }

  /** Two raw entries under the namespace that are not JSON: the stream holds
      exactly two error events and no data item, and it still ends. */
  lemma ShouldPropagateParseErrorFromStream(order: seq<string>, events: seq<Event>)
    requires StreamOf(Test, map["test_a" := "this is invalid JSON 1", "test_b" := "this is invalid JSON 2"], order, events)
    ensures |events| == 2
    ensures forall i :: 0 <= i < |events| ==> events[i].Err?
  {
    var h := map["test_a" := "this is invalid JSON 1", "test_b" := "this is invalid JSON 2"];
    assert OwnedKeys(Test, h) == {"test_a", "test_b"};
    Laws.StreamLength(Test, h, order, events);
    Json.RejectsFreeText();
    assert forall flat :: flat in h ==> Json.Parse(h[flat]).Failure?;
    forall i | 0 <= i < |events|
      ensures events[i].Err?
    {
      assert events[i] == EntryEvent(Test, h, order[i]);
    }
  }

  /** get('a') over a raw entry 'test_a' that is not JSON: a truthy error and no value. */
  lemma ShouldHandleParseFailures()
    ensures Get(Test, map["test_a" := "this is invalid JSON"], "a").Failure?
    ensures Get(Test, map["test_a" := "this is invalid JSON"], "a") != Failure(NotFound)
  {
    assert EncodeKey("test", "a") == "test_a";
    Json.RejectsFreeText();
  }

  /** 'invalid_namespace' is refused at construction; 'test' is accepted. */
  lemma ShouldValidateNamespace()
    ensures New("invalid_namespace") == Failure(InvalidNamespace("invalid_namespace"))
    ensures New("test").Success?
  {
  }
}
