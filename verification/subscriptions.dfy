/** The subscription controller: subscribing to and unsubscribing from a channel (a channel is
    a user), and the two listings of subscribers and subscribed channels. */
module Subscriptions {
  import opened Common
  import opened Query
  import opened Database

  function ChannelIs(channel: Id): Subscription -> bool
  {
    (s: Subscription) => s.channel == channel
  }

  function SubscriberIs(subscriber: Id): Subscription -> bool
  {
    (s: Subscription) => s.subscriber == subscriber
  }

  /** The subscriptions to `channel`: what a subscriber count counts. */
  ghost function SubscribersOf(subs: map<Id, Subscription>, channel: Id): set<Id>
  {
    Where(subs, ChannelIs(channel))
  }

  /** The subscriptions `subscriber` holds. */
  ghost function SubscriptionsBy(subs: map<Id, Subscription>, subscriber: Id): set<Id>
  {
    Where(subs, SubscriberIs(subscriber))
  }

  /** The self-subscription test as the handler writes it, `userId.toString() === channelId`:
      it compares the caller's canonical spelling with the raw path parameter. */
  predicate SelfAsWritten(caller: Id, channelId: IdParam)
  {
    SameString(caller, channelId)
  }

  /** The evidently intended test: the path parameter denotes the caller's own id. */
  predicate IsSelf(caller: Id, channelId: IdParam)
  {
    channelId.Cast? && channelId.id == caller
  }

  /** The guards toggleSubscription passes before it looks for a subscription, with the
      self-subscription test as written. */
  ghost predicate GuardsAsWritten(users: map<Id, User>, channelId: IdParam, caller: Option<Id>)
  {
    && IsValidObjectId(channelId) && caller.Some?
    && !SelfAsWritten(caller.value, channelId)
    && channelId.id in users
  }

  /** The same guards with the intended self-subscription test. */
  ghost predicate Guards(users: map<Id, User>, channelId: IdParam, caller: Option<Id>)
  {
    && IsValidObjectId(channelId) && caller.Some?
    && !IsSelf(caller.value, channelId)
    && channelId.id in users
  }

  /** The guards as written let a caller through to their own channel when the path spells
      their id in any form other than the canonical one (upper-case hexadecimal, say): the
      handler then creates a subscription whose subscriber and channel coincide. */
  lemma AsWrittenAdmitsSelfSubscription(users: map<Id, User>, u: Id)
    requires u in users
    ensures GuardsAsWritten(users, Cast(u, false), Some(u))
    ensures IsSelf(u, Cast(u, false)) && !Guards(users, Cast(u, false), Some(u))
  {
  }

  /** The intended guards never let a caller reach their own channel, and they agree with the
      guards as written whenever the path spells the id canonically. */
  lemma GuardsExcludeSelf(users: map<Id, User>, channelId: IdParam, caller: Option<Id>)
    ensures Guards(users, channelId, caller) ==> channelId.id != caller.value
    ensures channelId.Cast? && channelId.canonical ==>
              (Guards(users, channelId, caller) <==> GuardsAsWritten(users, channelId, caller))
  {
  }

  /** Deleting a subscription lowers its channel's subscriber count and its subscriber's
      subscription count by one, and leaves every other channel's subscribers as they were. */
  lemma RemoveSubscriptionCounts(subs: map<Id, Subscription>, sid: Id)
    requires sid in subs
    ensures var (s, rest) := (subs[sid], subs - {sid});
      && |SubscribersOf(rest, s.channel)| == |SubscribersOf(subs, s.channel)| - 1
      && |SubscriptionsBy(rest, s.subscriber)| == |SubscriptionsBy(subs, s.subscriber)| - 1
      && (forall c :: c != s.channel ==> SubscribersOf(rest, c) == SubscribersOf(subs, c))
  {
    var s := subs[sid];
    WhereRemove(subs, ChannelIs(s.channel), sid);
    WhereRemove(subs, SubscriberIs(s.subscriber), sid);
    forall c | c != s.channel
      ensures SubscribersOf(subs - {sid}, c) == SubscribersOf(subs, c)
    {
      WhereRemove(subs, ChannelIs(c), sid);
    }
  }

  /** Creating a subscription raises its channel's subscriber count and its subscriber's
      subscription count by one, and leaves every other channel's subscribers as they were. */
  lemma AddSubscriptionCounts(subs: map<Id, Subscription>, sid: Id, s: Subscription)
    requires sid !in subs
    ensures var more := subs[sid := s];
      && |SubscribersOf(more, s.channel)| == |SubscribersOf(subs, s.channel)| + 1
      && |SubscriptionsBy(more, s.subscriber)| == |SubscriptionsBy(subs, s.subscriber)| + 1
      && (forall c :: c != s.channel ==> SubscribersOf(more, c) == SubscribersOf(subs, c))
  {
    WhereInsert(subs, ChannelIs(s.channel), sid, s);
    WhereInsert(subs, SubscriberIs(s.subscriber), sid, s);
    forall c | c != s.channel
      ensures SubscribersOf(subs[sid := s], c) == SubscribersOf(subs, c)
    {
      WhereInsert(subs, ChannelIs(c), sid, s);
    }
  }

  /** toggleSubscription: invalid id 400, no caller 401, own channel 400, unknown channel 404;
      then an existing subscription is deleted (200) or a new one created (201, returned). The
      channel's subscriber count and the caller's subscription count move by one; other
      channels' subscribers stay as they were. */
  method ToggleSubscription(db: Store, channelId: IdParam, caller: Option<Id>, now: int)
    returns (r: Reply<Option<Id>>)
    requires db.Valid()
    modifies db`subscriptions, db`nextId
    ensures db.Valid()
    ensures !IsValidObjectId(channelId) ==> r == Err(BadRequest)
    ensures IsValidObjectId(channelId) && caller.None? ==> r == Err(Unauthorized)
    ensures IsValidObjectId(channelId) && caller.Some? ==>
      && (IsSelf(caller.value, channelId) ==> r == Err(BadRequest))
      && (!IsSelf(caller.value, channelId) && channelId.id !in db.users ==> r == Err(NotFound))
    ensures r.Ok? <==> Guards(db.users, channelId, caller)
    ensures r.Err? ==> db.subscriptions == old(db.subscriptions) && db.nextId == old(db.nextId)
    ensures Guards(db.users, channelId, caller) ==>
      var (channel, subscriber, before) := (channelId.id, caller.value, old(db.subscriptions));
      var key := SubscriptionKey(Subscription(subscriber, channel, now));
      var was := key in Image(before, SubscriptionKey);
      var (oldCount, newCount) := (|SubscribersOf(before, channel)|, |SubscribersOf(db.subscriptions, channel)|);
      var (oldHeld, newHeld) := (|SubscriptionsBy(before, subscriber)|, |SubscriptionsBy(db.subscriptions, subscriber)|);
      && (was ==> r == Ok(Success, None))
      && (was ==> var found := WithKey(before, SubscriptionKey, key);
                  |found| == 1 && db.subscriptions == before - found)
      && (!was ==> r == Ok(Created, Some(old(db.nextId))) && old(db.nextId) !in before)
      && (!was ==> db.subscriptions == before[old(db.nextId) := Subscription(subscriber, channel, now)])
      && Image(db.subscriptions, SubscriptionKey) == (if was then Image(before, SubscriptionKey) - {key}
                                                      else Image(before, SubscriptionKey) + {key})
      && newCount == (if was then oldCount - 1 else oldCount + 1)
      && newHeld == (if was then oldHeld - 1 else oldHeld + 1)
      && (forall c :: c != channel ==> SubscribersOf(db.subscriptions, c) == SubscribersOf(before, c))
  {
    if !IsValidObjectId(channelId) {
      return Err(BadRequest);
    }
    if caller.None? {
      return Err(Unauthorized);
    }
    if IsSelf(caller.value, channelId) {
      return Err(BadRequest);
    }
    if channelId.id !in db.users {
      return Err(NotFound);
    }
    var channel, subscriber := channelId.id, caller.value;
    var key := (subscriber, channel);
    var before := db.subscriptions;
    var found := WithKey(db.subscriptions, SubscriptionKey, key);
    WithKeyImage(db.subscriptions, SubscriptionKey, key);
    if found != {} {
      var sid :| sid in found;
      assert found == {sid};
      ImageRemove(before, SubscriptionKey, sid);
      RemoveSubscriptionCounts(before, sid);
      DeleteSubscription(db, sid);
      r := Ok(Success, None);
    } else {
      var s := Subscription(subscriber, channel, now);
      AddSubscriptionCounts(before, db.nextId, s);
      var sid := InsertSubscription(db, s);
      r := Ok(Created, Some(sid));
    }
  }

  /** `Subscription.findByIdAndDelete`. */
  method DeleteSubscription(db: Store, sid: Id)
    requires db.Valid() && sid in db.subscriptions
    modifies db`subscriptions
    ensures db.Valid()
    ensures db.subscriptions == old(db.subscriptions) - {sid}
  {
    db.subscriptions := db.subscriptions - {sid};
  }

  /** `Subscription.create` for a pair not yet subscribed, between two different users. */
  method InsertSubscription(db: Store, s: Subscription) returns (sid: Id)
    requires db.Valid() && SubscriptionKey(s) !in Image(db.subscriptions, SubscriptionKey)
    requires s.subscriber != s.channel
    modifies db`subscriptions, db`nextId
    ensures db.Valid()
    ensures sid == old(db.nextId) && sid !in old(db.subscriptions)
    ensures db.subscriptions == old(db.subscriptions)[sid := s]
    ensures Image(db.subscriptions, SubscriptionKey) == old(Image(db.subscriptions, SubscriptionKey)) + {SubscriptionKey(s)}
  {
    sid := db.nextId;
    ImageInsert(db.subscriptions, SubscriptionKey, sid, s);
    db.subscriptions := db.subscriptions[sid := s];
    db.nextId := db.nextId + 1;
  }

  /** Toggling the same channel twice restores the set of (subscriber, channel) pairs; the two
      replies are one creation and one deletion. */
  method ToggleSubscriptionTwice(db: Store, channelId: IdParam, caller: Option<Id>, now: int, later: int)
    returns (first: Reply<Option<Id>>, second: Reply<Option<Id>>)
    requires db.Valid()
    modifies db`subscriptions, db`nextId
    ensures db.Valid()
    ensures Image(db.subscriptions, SubscriptionKey) == old(Image(db.subscriptions, SubscriptionKey))
    ensures first.Ok? <==> second.Ok?
    ensures first.Ok? ==> first.status != second.status && (first.body.Some? <==> second.body.None?)
  {
    first := ToggleSubscription(db, channelId, caller, now);
    second := ToggleSubscription(db, channelId, caller, later);
  }

  function SubscriptionCreatedAt(subs: map<Id, Subscription>): Id -> int
  {
    i => if i in subs then subs[i].createdAt else 0
  }

  /** The subscriptions to `channel` that survive the subscriber `$lookup`/`$unwind`: the
      subscriber's account still exists. */
  ghost function ListedSubscribers(users: map<Id, User>, subs: map<Id, Subscription>, channel: Id): set<Id>
  {
    set i | i in SubscribersOf(subs, channel) && subs[i].subscriber in users
  }

  /** getUserChannelSubscribers: invalid id 400, unknown channel 404; otherwise the
      subscriptions to the channel whose subscriber still exists, newest first. */
  ghost function ChannelSubscribers(users: map<Id, User>, subs: map<Id, Subscription>, channelId: IdParam)
    : (r: Reply<seq<Id>>)
    ensures !IsValidObjectId(channelId) ==> r == Err(BadRequest)
    ensures IsValidObjectId(channelId) && channelId.id !in users ==> r == Err(NotFound)
    ensures r.Ok? ==>
      && r.status == Success && Distinct(r.body)
      && (forall i :: i in r.body <==> i in subs && subs[i].channel == channelId.id && subs[i].subscriber in users)
      && Ordered(r.body, SubscriptionCreatedAt(subs), true)
    ensures r.Ok? <==> IsValidObjectId(channelId) && channelId.id in users
  {
    if !IsValidObjectId(channelId) then Err(BadRequest)
    else if channelId.id !in users then Err(NotFound)
    else Ok(Success, SortBy(ListedSubscribers(users, subs, channelId.id), SubscriptionCreatedAt(subs), true))
  }

  /** One entry of the subscribed-channels listing: the subscription, its channel and the
      channel's subscriber count (every subscription to it, `$size` of the second lookup). */
  datatype ChannelEntry = ChannelEntry(subscription: Id, channel: Id, subscribersCount: nat)

  /** The subscriptions `subscriber` holds whose channel account still exists. */
  ghost function ListedChannels(users: map<Id, User>, subs: map<Id, Subscription>, subscriber: Id): set<Id>
  {
    set i | i in SubscriptionsBy(subs, subscriber) && subs[i].channel in users
  }

  /** The subscriptions an entry listing refers to, in listing order. */
  function SubscriptionIds(es: seq<ChannelEntry>): (ids: seq<Id>)
    ensures |ids| == |es| && forall k :: 0 <= k < |es| ==> ids[k] == es[k].subscription
  {
    seq(|es|, k requires 0 <= k < |es| => es[k].subscription)
  }

  /** getSubscribedChannels: invalid id 400, unknown user 404; otherwise one entry per
      subscription the user holds to a channel that still exists, newest subscription first,
      each carrying the channel's total subscriber count. */
  ghost function SubscribedChannels(users: map<Id, User>, subs: map<Id, Subscription>, subscriberId: IdParam)
    : (r: Reply<seq<ChannelEntry>>)
    ensures !IsValidObjectId(subscriberId) ==> r == Err(BadRequest)
    ensures IsValidObjectId(subscriberId) && subscriberId.id !in users ==> r == Err(NotFound)
    ensures r.Ok? <==> IsValidObjectId(subscriberId) && subscriberId.id in users
    ensures r.Ok? ==>
      var (es, ids, listed) := (r.body, SubscriptionIds(r.body), ListedChannels(users, subs, subscriberId.id));
      && r.status == Success
      && Distinct(ids) && (forall i :: i in ids <==> i in listed)
      && Ordered(ids, SubscriptionCreatedAt(subs), true)
      && (forall k :: 0 <= k < |es| ==> es[k].subscription in subs && es[k].channel == subs[es[k].subscription].channel)
      && (forall k :: 0 <= k < |es| ==> es[k].subscribersCount == |SubscribersOf(subs, es[k].channel)|)
  {
    if !IsValidObjectId(subscriberId) then Err(BadRequest)
    else if subscriberId.id !in users then Err(NotFound)
    else
      var ids := SortBy(ListedChannels(users, subs, subscriberId.id), SubscriptionCreatedAt(subs), true);
      Ok(Success, ChannelEntries(subs, ids))
  }

  /** The second `$lookup` and the `$size` stage: each listed subscription with its channel and
      that channel's subscriber count. */
  ghost function ChannelEntries(subs: map<Id, Subscription>, ids: seq<Id>): (es: seq<ChannelEntry>)
    requires forall k :: 0 <= k < |ids| ==> ids[k] in subs
    ensures SubscriptionIds(es) == ids
    ensures forall k :: 0 <= k < |es| ==> es[k].subscription in subs && es[k].channel == subs[es[k].subscription].channel
    ensures forall k :: 0 <= k < |es| ==> es[k].subscribersCount == |SubscribersOf(subs, es[k].channel)|
  {
    var es := seq(|ids|, k requires 0 <= k < |ids| =>
                ChannelEntry(ids[k], subs[ids[k]].channel, |SubscribersOf(subs, subs[ids[k]].channel)|));
    assert SubscriptionIds(es) == ids;
    es
  }
}
