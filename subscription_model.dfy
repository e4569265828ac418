/**
 * The Subscription collection as the controller sees it: a sequence of
 * directed (subscriber -> channel) records kept in insertion order (an
 * order the database itself does not promise for an unsorted query),
 * each carrying its own record id, and the four query operations the
 * controller issues against it (find, findOne, deleteOne, create).
 */
module SubscriptionModel {

  /** An opaque user or channel identifier, compared by equality only. */
  type Id = string

  /** The `_id` of a stored record. */
  type RecordId = nat

  datatype Option<T> = None | Some(value: T)

  /** One Subscription record: `subscriber` follows `channel`. */
  datatype Edge = Edge(id: RecordId, subscriber: Id, channel: Id)

  /** A query document: every field that is present must equal the record's; an absent field matches anything. */
  datatype Filter = Filter(id: Option<RecordId>, channel: Option<Id>, subscriber: Option<Id>)

  function ById(id: RecordId): Filter { Filter(Some(id), None, None) }
  function ByChannel(channel: Id): Filter { Filter(None, Some(channel), None) }
  function BySubscriber(subscriber: Id): Filter { Filter(None, None, Some(subscriber)) }
  function ByPair(channel: Id, subscriber: Id): Filter { Filter(None, Some(channel), Some(subscriber)) }

  predicate Matches(e: Edge, f: Filter) {
    && (f.id.Some? ==> e.id == f.id.value)
    && (f.channel.Some? ==> e.channel == f.channel.value)
    && (f.subscriber.Some? ==> e.subscriber == f.subscriber.value)
  }

  /** Some record says that `subscriber` follows `channel`. */
  predicate Subscribed(docs: seq<Edge>, channel: Id, subscriber: Id) {
    exists i :: 0 <= i < |docs| && docs[i].channel == channel && docs[i].subscriber == subscriber
  }

  /** The record ids are distinct and all below the next id to be handed out. */
  predicate WellFormed(docs: seq<Edge>, nextId: RecordId) {
    && (forall i :: 0 <= i < |docs| ==> docs[i].id < nextId)
    && (forall i, j :: 0 <= i < j < |docs| ==> docs[i].id != docs[j].id)
  }

  /** At most one record per (subscriber, channel) pair. */
  predicate UniquePairs(docs: seq<Edge>) {
    forall i, j :: 0 <= i < j < |docs| && docs[i].channel == docs[j].channel ==> docs[i].subscriber != docs[j].subscriber
  }

  /** `find(f)`: the records that match, in stored order. */
  function Find(docs: seq<Edge>, f: Filter): (r: seq<Edge>)
    ensures forall e :: e in r <==> e in docs && Matches(e, f)
  {
    if docs == [] then []
    else
      var rest := Find(docs[1..], f);
      if Matches(docs[0], f) then [docs[0]] + rest else rest
  }

  /** `find(f)` returns every matching record as often as it is stored, and nothing else. */
  lemma {:induction false} FindCounts(docs: seq<Edge>, f: Filter)
    ensures forall e :: multiset(Find(docs, f))[e] == if Matches(e, f) then multiset(docs)[e] else 0
  {
    if docs != [] {
      assert docs == [docs[0]] + docs[1..];
      FindCounts(docs[1..], f);
    }
  }

  /** The position of the first record that matches, or `|docs|` when none does. */
  function FirstMatch(docs: seq<Edge>, f: Filter): (k: nat)
    ensures k <= |docs|
    ensures k < |docs| ==> Matches(docs[k], f)
    ensures forall j :: 0 <= j < k ==> !Matches(docs[j], f)
  {
    if docs == [] then 0
    else if Matches(docs[0], f) then 0
    else 1 + FirstMatch(docs[1..], f)
  }

  /** `findOne(f)`: the first record in stored order that matches, if any. */
  function FindOne(docs: seq<Edge>, f: Filter): (r: Option<Edge>)
    ensures r.None? <==> forall i :: 0 <= i < |docs| ==> !Matches(docs[i], f)
    ensures r.Some? ==> r.value in docs && Matches(r.value, f)
  {
    var k := FirstMatch(docs, f);
    if k < |docs| then Some(docs[k]) else None
  }

  /** `deleteOne(f)`: removes the first record that matches; the collection is unchanged when none does. */
  function DeleteFirst(docs: seq<Edge>, f: Filter): (r: seq<Edge>)
    ensures FindOne(docs, f).None? ==> r == docs
    ensures FindOne(docs, f).Some? ==>
              |r| == |docs| - 1 && multiset(r) == multiset(docs) - multiset{FindOne(docs, f).value}
  {
    var k := FirstMatch(docs, f);
    if k < |docs| then
      assert docs == docs[..k] + [docs[k]] + docs[k+1..];
      docs[..k] + docs[k+1..]
    else docs
  }

  /** `find` distributes over the concatenation of two stretches of the collection, keeping stored order. */
  lemma {:induction false} FindConcat(a: seq<Edge>, b: seq<Edge>, f: Filter)
    ensures Find(a + b, f) == Find(a, f) + Find(b, f)
  {
    if a == [] {
      assert a + b == b;
    } else {
      var head := if Matches(a[0], f) then [a[0]] else [];
      assert (a + b)[0] == a[0] && (a + b)[1..] == a[1..] + b;
      calc {
        Find(a + b, f);
        head + Find(a[1..] + b, f);
        { FindConcat(a[1..], b, f); }
        head + (Find(a[1..], f) + Find(b, f));
        (head + Find(a[1..], f)) + Find(b, f);
        Find(a, f) + Find(b, f);
      }
    }
  }

  /** `find` over a collection with one more record at its end. */
  lemma FindAppend(docs: seq<Edge>, e: Edge, f: Filter)
    ensures Find(docs + [e], f) == Find(docs, f) + (if Matches(e, f) then [e] else [])
  {
    FindConcat(docs, [e], f);
    assert [e][1..] == [];
  }

  /** `find` over a collection with a matching record taken out at position `k`. */
  lemma FindRemoveAt(docs: seq<Edge>, k: nat, f: Filter)
    requires k < |docs| && Matches(docs[k], f)
    ensures Find(docs, f) == Find(docs[..k], f) + [docs[k]] + Find(docs[k+1..], f)
    ensures Find(docs[..k] + docs[k+1..], f) == Find(docs[..k], f) + Find(docs[k+1..], f)
  {
    var rest := [docs[k]] + docs[k+1..];
    assert docs == docs[..k] + rest;
    assert rest[1..] == docs[k+1..];
    FindConcat(docs[..k], rest, f);
    FindConcat(docs[..k], docs[k+1..], f);
  }

  /** Removing a record that does not belong to a pair does not change whether the pair is present. */
  lemma SubscribedAfterRemoval(docs: seq<Edge>, k: nat, channel: Id, subscriber: Id)
    requires k < |docs| && !(docs[k].channel == channel && docs[k].subscriber == subscriber)
    ensures Subscribed(docs[..k] + docs[k+1..], channel, subscriber) == Subscribed(docs, channel, subscriber)
  {
    var r := docs[..k] + docs[k+1..];
    assert forall i :: 0 <= i < |r| ==> r[i] == docs[if i < k then i else i + 1];
    if Subscribed(docs, channel, subscriber) {
      var i :| 0 <= i < |docs| && docs[i].channel == channel && docs[i].subscriber == subscriber;
      assert r[if i < k then i else i - 1] == docs[i];
    }
  }

  /** With at most one record per pair, removing a record removes its pair. */
  lemma UniquePairGoneAfterRemoval(docs: seq<Edge>, k: nat)
    requires UniquePairs(docs) && k < |docs|
    ensures !Subscribed(docs[..k] + docs[k+1..], docs[k].channel, docs[k].subscriber)
  {
    var r := docs[..k] + docs[k+1..];
    forall i | 0 <= i < |r|
      ensures !(r[i].channel == docs[k].channel && r[i].subscriber == docs[k].subscriber)
    {
      if i < k {
        assert r[i] == docs[i];
      } else {
        assert r[i] == docs[i + 1];
      }
    }
  }

  /** Appending a record adds exactly its own pair. */
  lemma SubscribedAfterAppend(docs: seq<Edge>, e: Edge, channel: Id, subscriber: Id)
    ensures Subscribed(docs + [e], channel, subscriber)
            == (Subscribed(docs, channel, subscriber) || (e.channel == channel && e.subscriber == subscriber))
  {
    var r := docs + [e];
    assert r[|docs|] == e;
    if Subscribed(docs, channel, subscriber) {
      var i :| 0 <= i < |docs| && docs[i].channel == channel && docs[i].subscriber == subscriber;
      assert r[i] == docs[i];
    }
  }

  /** Removing one record keeps the record ids distinct and below the counter. */
  lemma DeleteFirstKeepsWellFormed(docs: seq<Edge>, nextId: RecordId, f: Filter)
    requires WellFormed(docs, nextId)
    ensures WellFormed(DeleteFirst(docs, f), nextId)
  {
    var k := FirstMatch(docs, f);
    if k < |docs| {
      var r := DeleteFirst(docs, f);
      assert forall i :: 0 <= i < |r| ==> r[i] == docs[if i < k then i else i + 1];
    }
  }

  /** Removing one record keeps at most one record per pair. */
  lemma DeleteFirstKeepsUniquePairs(docs: seq<Edge>, f: Filter)
    requires UniquePairs(docs)
    ensures UniquePairs(DeleteFirst(docs, f))
  {
    var k := FirstMatch(docs, f);
    if k < |docs| {
      var r := DeleteFirst(docs, f);
      assert forall i :: 0 <= i < |r| ==> r[i] == docs[if i < k then i else i + 1];
    }
  }

  /**
   * The Subscription collection. `docs` is what is stored, `nextId` the
   * source of fresh `_id`s. The database keeps `_id`s unique; `Valid()`
   * states that guarantee.
   */
  class SubscriptionCollection {
    var docs: seq<Edge>
    var nextId: RecordId

    ghost predicate Valid()
      reads this
    {
      WellFormed(docs, nextId)
    }

    constructor ()
      ensures Valid() && docs == []
    {
      docs := [];
      nextId := 0;
    }

    /** `Subscription.create`: stores one new record under an `_id` no stored record has. */
    method Create(channel: Id, subscriber: Id) returns (e: Edge)
      requires Valid()
      modifies this
      ensures Valid()
      ensures e.channel == channel && e.subscriber == subscriber
      ensures forall i :: 0 <= i < |old(docs)| ==> old(docs)[i].id != e.id
      ensures docs == old(docs) + [e]
      ensures e.id == old(nextId) && nextId == old(nextId) + 1
    {
      e := Edge(nextId, subscriber, channel);
      docs := docs + [e];
      nextId := nextId + 1;
    }

    /** `Subscription.deleteOne`: removes the first record matching `f`, if any. */
    method DeleteOne(f: Filter)
      requires Valid()
      modifies this
      ensures Valid()
      ensures docs == DeleteFirst(old(docs), f) && nextId == old(nextId)
    {
      DeleteFirstKeepsWellFormed(docs, nextId, f);
      docs := DeleteFirst(docs, f);
    }
  }
}
