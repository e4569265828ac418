/**
 * The four subscription handlers: toggle a (caller -> channel) subscription,
 * list a channel's subscriber records, list a subscriber's channel records,
 * and report whether the caller follows a channel. HTTP responses become
 * result values; the identifier check is the parameter `isValidObjectId`.
 */
module SubscriptionController {
  import opened SubscriptionModel

  /** What `toggleSubscription` answers: 400, 200 "removed", or 201 with the new record. */
  datatype ToggleOutcome = Rejected | Removed | Created(edge: Edge)

  /** What the two listing handlers answer: 400, or 200 with the matching records. */
  datatype Listing = InvalidId | Fetched(edges: seq<Edge>)

  /** The collection after a toggle, and the answer the caller gets. */
  datatype Transition = Transition(docs: seq<Edge>, nextId: RecordId, outcome: ToggleOutcome)

  /**
   * The toggle on the collection's contents: reject a malformed channel id
   * before touching the store; otherwise delete the caller's record for this
   * channel by its id if there is one, and create one if there is not.
   */
  function Toggle(docs: seq<Edge>, nextId: RecordId, isValidObjectId: Id -> bool, channelId: Id, caller: Id): (t: Transition)
    requires WellFormed(docs, nextId)
    ensures t.outcome == Rejected <==> !isValidObjectId(channelId)
    ensures t.outcome == Rejected ==> t.docs == docs && t.nextId == nextId
    ensures t.outcome == Removed <==> isValidObjectId(channelId) && Subscribed(docs, channelId, caller)
    ensures t.outcome == Removed ==>
              && t.nextId == nextId
              && exists k :: 0 <= k < |docs| && docs[k].channel == channelId && docs[k].subscriber == caller
                             && t.docs == docs[..k] + docs[k+1..]
    ensures t.outcome.Created? ==>
              && t.outcome.edge == Edge(nextId, caller, channelId)
              && t.docs == docs + [t.outcome.edge]
              && t.nextId == nextId + 1
  {
    if !isValidObjectId(channelId) then Transition(docs, nextId, Rejected)
    else
      var k := FirstMatch(docs, ByPair(channelId, caller));
      if k < |docs| then
        var found := docs[k];
        var j := FirstMatch(docs, ById(found.id));
        assert j == k;
        Transition(DeleteFirst(docs, ById(found.id)), nextId, Removed)
      else
        var e := Edge(nextId, caller, channelId);
        Transition(docs + [e], nextId + 1, Created(e))
  }

  /** `toggleSubscription`, run against the collection object. */
  method ToggleSubscription(subs: SubscriptionCollection, isValidObjectId: Id -> bool, channelId: Id, caller: Id)
    returns (outcome: ToggleOutcome)
    requires subs.Valid()
    modifies subs
    ensures subs.Valid()
    ensures Transition(subs.docs, subs.nextId, outcome)
            == Toggle(old(subs.docs), old(subs.nextId), isValidObjectId, channelId, caller)
  {
    if !isValidObjectId(channelId) {
      return Rejected;
    }
    var subscriptionCheck := FindOne(subs.docs, ByPair(channelId, caller));
    if subscriptionCheck.Some? {
      subs.DeleteOne(ById(subscriptionCheck.value.id));
      return Removed;
    }
    var created := subs.Create(channelId, caller);
    return Created(created);
  }

  /** `getUserChannelSubscribers`: the records whose channel is `channelId`, after the id check. */
  function GetUserChannelSubscribers(docs: seq<Edge>, isValidObjectId: Id -> bool, channelId: Id): (r: Listing)
    ensures r == InvalidId <==> !isValidObjectId(channelId)
    ensures r.Fetched? ==>
              forall e :: multiset(r.edges)[e] == if e.channel == channelId then multiset(docs)[e] else 0
  {
    if !isValidObjectId(channelId) then InvalidId
    else
      FindCounts(docs, ByChannel(channelId));
      Fetched(Find(docs, ByChannel(channelId)))
  }

  /** `getSubscribedChannels`: the records whose subscriber is `subscriberId`, after the id check. */
  function GetSubscribedChannels(docs: seq<Edge>, isValidObjectId: Id -> bool, subscriberId: Id): (r: Listing)
    ensures r == InvalidId <==> !isValidObjectId(subscriberId)
    ensures r.Fetched? ==>
              forall e :: multiset(r.edges)[e] == if e.subscriber == subscriberId then multiset(docs)[e] else 0
  {
    if !isValidObjectId(subscriberId) then InvalidId
    else
      FindCounts(docs, BySubscriber(subscriberId));
      Fetched(Find(docs, BySubscriber(subscriberId)))
  }

  /** `getSubscriptionStatus`: whether `userId` follows `channelId`; no identifier check. */
  function GetSubscriptionStatus(docs: seq<Edge>, channelId: Id, userId: Id): (isSubscribed: bool)
    ensures isSubscribed <==> Subscribed(docs, channelId, userId)
  {
    FindOne(docs, ByPair(channelId, userId)).Some?
  }

  /** A toggle keeps the record ids distinct and below the counter. */
  lemma TogglePreservesWellFormed(docs: seq<Edge>, nextId: RecordId, isValidObjectId: Id -> bool, channelId: Id, caller: Id)
    requires WellFormed(docs, nextId)
    ensures var t := Toggle(docs, nextId, isValidObjectId, channelId, caller);
            WellFormed(t.docs, t.nextId)
  {
    var t := Toggle(docs, nextId, isValidObjectId, channelId, caller);
    if t.outcome == Removed {
      var k := FirstMatch(docs, ByPair(channelId, caller));
      DeleteFirstKeepsWellFormed(docs, nextId, ById(docs[k].id));
    }
  }

  /** A toggle never creates a second record for a pair. */
  lemma TogglePreservesUniquePairs(docs: seq<Edge>, nextId: RecordId, isValidObjectId: Id -> bool, channelId: Id, caller: Id)
    requires WellFormed(docs, nextId) && UniquePairs(docs)
    ensures UniquePairs(Toggle(docs, nextId, isValidObjectId, channelId, caller).docs)
  {
    var t := Toggle(docs, nextId, isValidObjectId, channelId, caller);
    if t.outcome == Removed {
      var k := FirstMatch(docs, ByPair(channelId, caller));
      DeleteFirstKeepsUniquePairs(docs, ById(docs[k].id));
    } else if t.outcome.Created? {
      var e := t.outcome.edge;
      forall i, j | 0 <= i < j < |t.docs| && t.docs[i].channel == t.docs[j].channel
        ensures t.docs[i].subscriber != t.docs[j].subscriber
      {
        if j == |docs| {
          assert t.docs[i] == docs[i] && t.docs[j] == e;
          assert !Matches(docs[i], ByPair(channelId, caller));
        }
      }
    }
  }

  /** With at most one record per pair, a valid toggle flips whether the caller follows the channel. */
  lemma ToggleFlipsPair(docs: seq<Edge>, nextId: RecordId, isValidObjectId: Id -> bool, channelId: Id, caller: Id)
    requires WellFormed(docs, nextId) && UniquePairs(docs)
    requires isValidObjectId(channelId)
    ensures Subscribed(Toggle(docs, nextId, isValidObjectId, channelId, caller).docs, channelId, caller)
            == !Subscribed(docs, channelId, caller)
  {
    var t := Toggle(docs, nextId, isValidObjectId, channelId, caller);
    if t.outcome == Removed {
      var k :| 0 <= k < |docs| && docs[k].channel == channelId && docs[k].subscriber == caller
               && t.docs == docs[..k] + docs[k+1..];
      UniquePairGoneAfterRemoval(docs, k);
    } else {
      SubscribedAfterAppend(docs, t.outcome.edge, channelId, caller);
    }
  }

  /** A toggle of (caller, channelId) leaves every other pair as it was, the reverse pair included. */
  lemma ToggleIsolatesOtherPairs(docs: seq<Edge>, nextId: RecordId, isValidObjectId: Id -> bool, channelId: Id, caller: Id,
                                 otherChannel: Id, otherSubscriber: Id)
    requires WellFormed(docs, nextId)
    requires otherChannel != channelId || otherSubscriber != caller
    ensures Subscribed(Toggle(docs, nextId, isValidObjectId, channelId, caller).docs, otherChannel, otherSubscriber)
            == Subscribed(docs, otherChannel, otherSubscriber)
  {
    var t := Toggle(docs, nextId, isValidObjectId, channelId, caller);
    if t.outcome == Removed {
      var k :| 0 <= k < |docs| && docs[k].channel == channelId && docs[k].subscriber == caller
               && t.docs == docs[..k] + docs[k+1..];
      SubscribedAfterRemoval(docs, k, otherChannel, otherSubscriber);
    } else if t.outcome.Created? {
      SubscribedAfterAppend(docs, t.outcome.edge, otherChannel, otherSubscriber);
    }
  }

  /** From a state without the pair, toggling twice subscribes, unsubscribes, and restores the very same records. */
  lemma ToggleTwiceRestores(docs: seq<Edge>, nextId: RecordId, isValidObjectId: Id -> bool, channelId: Id, caller: Id)
    requires WellFormed(docs, nextId)
    requires isValidObjectId(channelId) && !Subscribed(docs, channelId, caller)
    ensures var first := Toggle(docs, nextId, isValidObjectId, channelId, caller);
            && first.outcome.Created?
            && WellFormed(first.docs, first.nextId)
            && var second := Toggle(first.docs, first.nextId, isValidObjectId, channelId, caller);
            && second.outcome == Removed
            && second.docs == docs
  {
    var first := Toggle(docs, nextId, isValidObjectId, channelId, caller);
    TogglePreservesWellFormed(docs, nextId, isValidObjectId, channelId, caller);
    var second := Toggle(first.docs, first.nextId, isValidObjectId, channelId, caller);
    var e := first.outcome.edge;
    assert first.docs[|docs|] == e;
    var k :| 0 <= k < |first.docs| && first.docs[k].channel == channelId && first.docs[k].subscriber == caller
             && second.docs == first.docs[..k] + first.docs[k+1..];
    assert k == |docs|;
    assert first.docs[..k] == docs;
  }

  /** With at most one record per pair, toggling any pair twice leaves every pair's presence as it was. */
  lemma ToggleTwiceRestoresPairs(docs: seq<Edge>, nextId: RecordId, isValidObjectId: Id -> bool, channelId: Id, caller: Id,
                                 anyChannel: Id, anySubscriber: Id)
    requires WellFormed(docs, nextId) && UniquePairs(docs)
    ensures var first := Toggle(docs, nextId, isValidObjectId, channelId, caller);
            && WellFormed(first.docs, first.nextId)
            && var second := Toggle(first.docs, first.nextId, isValidObjectId, channelId, caller);
            Subscribed(second.docs, anyChannel, anySubscriber) == Subscribed(docs, anyChannel, anySubscriber)
  {
    var first := Toggle(docs, nextId, isValidObjectId, channelId, caller);
    TogglePreservesWellFormed(docs, nextId, isValidObjectId, channelId, caller);
    TogglePreservesUniquePairs(docs, nextId, isValidObjectId, channelId, caller);
    if anyChannel == channelId && anySubscriber == caller {
      if isValidObjectId(channelId) {
        ToggleFlipsPair(docs, nextId, isValidObjectId, channelId, caller);
        ToggleFlipsPair(first.docs, first.nextId, isValidObjectId, channelId, caller);
      }
    } else {
      ToggleIsolatesOtherPairs(docs, nextId, isValidObjectId, channelId, caller, anyChannel, anySubscriber);
      ToggleIsolatesOtherPairs(first.docs, first.nextId, isValidObjectId, channelId, caller, anyChannel, anySubscriber);
    }
  }

  /**
   * The subscriber listing of the toggled channel moves with the toggle, in
   * stored order: a created record joins its end, a removed record of the
   * caller leaves it, and nothing else changes.
   */
  lemma ToggleUpdatesSubscriberListing(docs: seq<Edge>, nextId: RecordId, isValidObjectId: Id -> bool, channelId: Id, caller: Id)
    requires WellFormed(docs, nextId) && isValidObjectId(channelId)
    ensures var t := Toggle(docs, nextId, isValidObjectId, channelId, caller);
            var before := GetUserChannelSubscribers(docs, isValidObjectId, channelId).edges;
            var after := GetUserChannelSubscribers(t.docs, isValidObjectId, channelId).edges;
            && (t.outcome.Created? ==> after == before + [t.outcome.edge])
            && (t.outcome == Removed ==>
                  exists prefix, gone, suffix :: before == prefix + [gone] + suffix && after == prefix + suffix
                                                 && gone.subscriber == caller)
  {
    var t := Toggle(docs, nextId, isValidObjectId, channelId, caller);
    if t.outcome.Created? {
      FindAppend(docs, t.outcome.edge, ByChannel(channelId));
    } else if t.outcome == Removed {
      var k :| 0 <= k < |docs| && docs[k].channel == channelId && docs[k].subscriber == caller
               && t.docs == docs[..k] + docs[k+1..];
      FindRemoveAt(docs, k, ByChannel(channelId));
      var prefix, suffix := Find(docs[..k], ByChannel(channelId)), Find(docs[k+1..], ByChannel(channelId));
      assert Find(docs, ByChannel(channelId)) == prefix + [docs[k]] + suffix;
    }
  }

  /** The status check agrees with both listings. */
  lemma StatusAgreesWithListings(docs: seq<Edge>, isValidObjectId: Id -> bool, channelId: Id, userId: Id)
    requires isValidObjectId(channelId) && isValidObjectId(userId)
    ensures GetSubscriptionStatus(docs, channelId, userId)
            <==> exists e :: e in GetUserChannelSubscribers(docs, isValidObjectId, channelId).edges && e.subscriber == userId
    ensures GetSubscriptionStatus(docs, channelId, userId)
            <==> exists e :: e in GetSubscribedChannels(docs, isValidObjectId, userId).edges && e.channel == channelId
  {
    if GetSubscriptionStatus(docs, channelId, userId) {
      var i :| 0 <= i < |docs| && docs[i].channel == channelId && docs[i].subscriber == userId;
      assert docs[i] in docs;
    }
  }

  /** Subscribe, check, list, unsubscribe, list again, on an empty collection. */
  method SubscribeThenUnsubscribe(isValidObjectId: Id -> bool)
    requires isValidObjectId("c1")
  {
    var subs := new SubscriptionCollection();
    var first := ToggleSubscription(subs, isValidObjectId, "c1", "u1");
    assert first.Created? && subs.docs == [first.edge];
    assert GetSubscriptionStatus(subs.docs, "c1", "u1");
    var listed := GetUserChannelSubscribers(subs.docs, isValidObjectId, "c1");
    FindAppend([], first.edge, ByChannel("c1"));
    assert listed == Fetched([first.edge]);
    var second := ToggleSubscription(subs, isValidObjectId, "c1", "u1");
    assert second == Removed && subs.docs == [];
    assert GetUserChannelSubscribers(subs.docs, isValidObjectId, "c1") == Fetched([]);
  }
}
