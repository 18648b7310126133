/** The subscription handlers: a subscription is an edge document from a
    subscriber to a channel, appended on subscribe and deleted one at a
    time on unsubscribe. */
module SubscriptionController {
  import opened Api
  import opened Models
  import opened Mongo
  import opened Store

  /** The messages the handlers fall back on when the caught error has none. */
  const SubscribeFailure := "Something went wrong while adding subscriber"
  const UnsubscribeFailure := "Something went wrong while removing subscriber"

  /** `addSubscriber`: appends the edge (requester, channel) with no
      duplicate or self-subscription check; the catch turns the missing
      channel's 400 into a 500. */
  method AddSubscriber(db: Db, requester: Id, channelId: Id) returns (r: Result<Subscription>)
    requires db.Valid()
    modifies db
    ensures db.Valid()
    ensures channelId == "" ==> r == Err(500, "Channel ID is required") && unchanged(db)
    ensures channelId != "" ==>
      && r == Ok(Subscription(requester, channelId))
      && db.Snapshot() == old(db.Snapshot()).(subscriptions := old(db.subscriptions) + [Subscription(requester, channelId)])
  {
    if channelId == "" {
      r := Err(400, "Channel ID is required");
    } else {
      var edge := Subscription(requester, channelId);
      db.subscriptions := db.subscriptions + [edge];
      r := Ok(edge);
    }
    r := Rethrow(r, 500, SubscribeFailure);
  }

  /** `removeSubscriber`: `findOneAndDelete` removes the first edge
      (requester, channel); with none, status 500. */
  method RemoveSubscriber(db: Db, requester: Id, channelId: Id) returns (r: Result<Subscription>)
    requires db.Valid()
    modifies db
    ensures db.Valid()
    ensures channelId == "" ==> r == Err(500, "Channel ID is required") && unchanged(db)
    ensures channelId != "" && Subscription(requester, channelId) !in old(db.subscriptions) ==>
      r == Err(500, "Failed to remove subscriber") && unchanged(db)
    ensures channelId != "" && Subscription(requester, channelId) in old(db.subscriptions) ==>
      && r == Ok(Subscription(requester, channelId))
      && db.Snapshot() == old(db.Snapshot()).(subscriptions := RemoveFirst(old(db.subscriptions), Subscription(requester, channelId)))
  {
    if channelId == "" {
      r := Err(400, "Channel ID is required");
    } else {
      var edge := Subscription(requester, channelId);
      if edge in db.subscriptions {
        db.subscriptions := RemoveFirst(db.subscriptions, edge);
        r := Ok(edge);
      } else {
        r := Err(500, "Failed to remove subscriber");
      }
    }
    r := Rethrow(r, 500, UnsubscribeFailure);
  }

  /** The query "subscribers of this channel". */
  function SubscribersOf(channel: Id): Subscription -> bool {
    (s: Subscription) => s.channel == channel
  }

  /** The query "edges to this channel from anyone but this user". */
  function OthersOn(channel: Id, user: Id): Subscription -> bool {
    (s: Subscription) => s.channel == channel && s.subscriber != user
  }

  /** Subscribing and then unsubscribing gives the channel its subscriber
      count back. */
  lemma SubscribeThenUnsubscribeRestoresCount(subs: seq<Subscription>, user: Id, channel: Id)
    ensures |Filter(RemoveFirst(subs + [Subscription(user, channel)], Subscription(user, channel)), SubscribersOf(channel))|
         == |Filter(subs, SubscribersOf(channel))|
  {
    var edge := Subscription(user, channel);
    FilterAppend(subs, edge, SubscribersOf(channel));
    FilterCountRemoveFirst(subs + [edge], edge, SubscribersOf(channel));
  }

  /** Unsubscribing lowers the channel's subscriber count by exactly one
      and leaves every other user's edges to the channel as they were. */
  lemma UnsubscribeRemovesOnlyOwnEdge(subs: seq<Subscription>, user: Id, channel: Id)
    requires Subscription(user, channel) in subs
    ensures |Filter(RemoveFirst(subs, Subscription(user, channel)), SubscribersOf(channel))|
         == |Filter(subs, SubscribersOf(channel))| - 1
    ensures Filter(RemoveFirst(subs, Subscription(user, channel)), OthersOn(channel, user))
         == Filter(subs, OthersOn(channel, user))
  {
    var edge := Subscription(user, channel);
    FilterCountRemoveFirst(subs, edge, SubscribersOf(channel));
    FilterRemoveUnselected(subs, edge, OthersOn(channel, user));
  }

  /** The handler-level round trip: subscribing and then unsubscribing
      leaves the channel's subscriber count, and every other collection,
      as it was. */
  method SubscribeThenUnsubscribe(db: Db, requester: Id, channelId: Id)
    requires db.Valid()
    modifies db
    ensures |Filter(db.subscriptions, SubscribersOf(channelId))| == |Filter(old(db.subscriptions), SubscribersOf(channelId))|
    ensures db.Snapshot().(subscriptions := old(db.subscriptions)) == old(db.Snapshot())
  {
    var added := AddSubscriber(db, requester, channelId);
    var removed := RemoveSubscriber(db, requester, channelId);
    SubscribeThenUnsubscribeRestoresCount(old(db.subscriptions), requester, channelId);
  }
}
