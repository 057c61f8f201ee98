/**
 The artifact cache: one document collection per artifact kind
 (`summaries`, `quizzes`), queried by exact topic. A collection is the
 sequence of its documents in insertion order; `find_one` is modelled as
 returning the first document whose topic matches (an unsorted `find_one`
 promises only some match, and reachable collections hold at most one per
 topic), `insert_one` appends.
 */
module Cache {
  import opened Optional

  /** A stored document: the topic key and the cached artifact. */
  datatype Doc<V> = Doc(topic: string, body: V)

  type Collection<V> = seq<Doc<V>>

  predicate HasTopic<V>(c: Collection<V>, topic: string) {
    exists i :: 0 <= i < |c| && c[i].topic == topic
  }

  /** Position of the first document for `topic`, if any. */
  function FirstMatch<V>(c: Collection<V>, topic: string): (r: Option<nat>)
    ensures r.None? <==> !HasTopic(c, topic)
    ensures r.Some? ==> r.value < |c| && c[r.value].topic == topic
    ensures r.Some? ==> forall j :: 0 <= j < r.value ==> c[j].topic != topic
  {
    if |c| == 0 then None
    else if c[0].topic == topic then Some(0)
    else match FirstMatch(c[1..], topic)
      case None => None
      case Some(i) => Some(i + 1)
  }

  /** `find_one({"topic": topic})`, yielding the artifact of the first match. */
  function FindOne<V>(c: Collection<V>, topic: string): (r: Option<V>)
    ensures r.Some? <==> HasTopic(c, topic)
    ensures r.Some? ==> Doc(topic, r.value) in c
  {
    match FirstMatch(c, topic)
    case None => None
    case Some(i) => Some(c[i].body)
  }

  /** `insert_one({"topic": topic, ...})`. */
  function InsertOne<V>(c: Collection<V>, topic: string, body: V): (r: Collection<V>)
    ensures |r| == |c| + 1 && r[..|c|] == c
    ensures r[|c|] == Doc(topic, body)
  {
    c + [Doc(topic, body)]
  }

  /** At most one document per topic. */
  predicate UniqueTopics<V>(c: Collection<V>) {
    forall i, j :: 0 <= i < j < |c| ==> c[i].topic != c[j].topic
  }

  /** The first match in `c` stays the first match when documents are
      appended. */
  lemma {:induction false} FirstMatchStable<V>(c: Collection<V>, d: Collection<V>, topic: string)
    requires HasTopic(c, topic)
    ensures FirstMatch(c + d, topic) == FirstMatch(c, topic)
    decreases |c|
  {
    assert (c + d)[0] == c[0];
    if c[0].topic != topic {
      assert HasTopic(c[1..], topic) by {
        var i :| 0 <= i < |c| && c[i].topic == topic;
        assert c[1..][i - 1].topic == topic;
      }
      FirstMatchStable(c[1..], d, topic);
      assert (c + d)[1..] == c[1..] + d;
    }
  }

  /** A lookup that succeeds keeps succeeding, with the same answer, however
      many documents are appended afterwards. */
  lemma FindOneStable<V>(c: Collection<V>, d: Collection<V>, topic: string)
    requires HasTopic(c, topic)
    ensures FindOne(c + d, topic) == FindOne(c, topic)
  {
    FirstMatchStable(c, d, topic);
    var i := FirstMatch(c, topic).value;
    assert (c + d)[i] == c[i];
  }

  /** Reading back after an insert: a topic already present keeps its first
      document, a new topic yields what was inserted, and every other topic
      reads as before. */
  lemma {:induction false} FindAfterInsert<V>(c: Collection<V>, topic: string, body: V, other: string)
    ensures FindOne(InsertOne(c, topic, body), topic)
      == if HasTopic(c, topic) then FindOne(c, topic) else Some(body)
    ensures other != topic ==>
      FindOne(InsertOne(c, topic, body), other) == FindOne(c, other)
  {
    var c' := InsertOne(c, topic, body);
    if HasTopic(c, topic) {
      FindOneStable(c, [Doc(topic, body)], topic);
    } else {
      FirstMatchAppend(c, Doc(topic, body), topic);
    }
    if other != topic {
      if HasTopic(c, other) {
        FindOneStable(c, [Doc(topic, body)], other);
      } else {
        assert !HasTopic(c', other) by {
          forall i | 0 <= i < |c'| ensures c'[i].topic != other {
            if i < |c| { assert c'[i] == c[i]; }
          }
        }
      }
    }
  }

  /** With no earlier match, the first match in `c + [d]` is `d` itself. */
  lemma {:induction false} FirstMatchAppend<V>(c: Collection<V>, d: Doc<V>, topic: string)
    requires !HasTopic(c, topic) && d.topic == topic
    ensures FirstMatch(c + [d], topic) == Some(|c|)
    decreases |c|
  {
    if |c| > 0 {
      assert !HasTopic(c[1..], topic) by {
        forall i | 0 <= i < |c| - 1 ensures c[1..][i].topic != topic {
          assert c[1..][i] == c[i + 1];
        }
      }
      FirstMatchAppend(c[1..], d, topic);
      assert (c + [d])[1..] == c[1..] + [d];
    }
  }

  /** Inserting only on a miss keeps the collection free of duplicate topics. */
  lemma {:induction false} InsertOnMissUnique<V>(c: Collection<V>, topic: string, body: V)
    requires UniqueTopics(c) && !HasTopic(c, topic)
    ensures UniqueTopics(InsertOne(c, topic, body))
  {
    var c' := InsertOne(c, topic, body);
    forall i, j | 0 <= i < j < |c'| ensures c'[i].topic != c'[j].topic {
      assert c'[i] == c[i];
      if j < |c| { assert c'[j] == c[j]; }
    }
  }
}
