/** The pubsub as an append-only log of published events, and what each
    subscription receives from it. */
module Events {
  import opened Wrappers
  import opened IntParsing
  import opened Messages

  /** The two channels, MESSAGE_ADDED and MESSAGE_UPDATED. */
  datatype Topic = MessageAdded | MessageUpdated

  /** One `pubsub.publish(topic, { messageAdded | messageUpdated: payload })`. */
  datatype Event = Event(topic: Topic, payload: Message)

  /** The `withFilter` predicate of `messageUpdated(id)`:
      `payload.messageUpdated.id === parseInt(variables.id, 10)`.
      A NaN argument equals nothing. */
  predicate UpdateMatches(payload: Message, idArg: string): (b: bool)
    ensures ParseInt(idArg).None? ==> !b
    ensures idArg == Decimal(payload.id) ==> b
  {
    ParseIntInvertsDecimal(payload.id);
    ParseInt(idArg) == Some(payload.id)
  }

  /** What a `messageAdded` subscription yields from the events published
      while it is connected, in publish order. */
  function AddedFeed(log: seq<Event>): (r: seq<Message>)
    ensures |r| <= |log|
    ensures forall m :: m in r ==> Event(MessageAdded, m) in log
  {
    if log == [] then []
    else
      var last := log[|log| - 1];
      AddedFeed(log[..|log| - 1]) + (if last.topic == MessageAdded then [last.payload] else [])
  }

  /** What a `messageUpdated(id: idArg)` subscription yields: the
      MESSAGE_UPDATED events whose payload passes the filter, in publish
      order. */
  function UpdatedFeed(log: seq<Event>, idArg: string): (r: seq<Message>)
    ensures |r| <= |log|
    ensures forall m :: m in r ==> Event(MessageUpdated, m) in log && UpdateMatches(m, idArg)
  {
    if log == [] then []
    else
      var last := log[|log| - 1];
      UpdatedFeed(log[..|log| - 1], idArg)
        + (if last.topic == MessageUpdated && UpdateMatches(last.payload, idArg) then [last.payload] else [])
  }

  /** Every matching MESSAGE_UPDATED event reaches the subscription. */
  lemma {:induction false} UpdatedFeedComplete(log: seq<Event>, idArg: string, m: Message)
    requires Event(MessageUpdated, m) in log && UpdateMatches(m, idArg)
    ensures m in UpdatedFeed(log, idArg)
  {
    var init := log[..|log| - 1];
    if log[|log| - 1] != Event(MessageUpdated, m) {
      assert log == init + [log[|log| - 1]];
      assert Event(MessageUpdated, m) in init;
      UpdatedFeedComplete(init, idArg, m);
    }
  }

  /** Every MESSAGE_ADDED event reaches a `messageAdded` subscription. */
  lemma {:induction false} AddedFeedComplete(log: seq<Event>, m: Message)
    requires Event(MessageAdded, m) in log
    ensures m in AddedFeed(log)
  {
    var init := log[..|log| - 1];
    if log[|log| - 1] != Event(MessageAdded, m) {
      assert log == init + [log[|log| - 1]];
      assert Event(MessageAdded, m) in init;
      AddedFeedComplete(init, m);
    }
  }

  /** A subscription that connected when `early` had been published sees
      exactly the feed of what came after: missed events are not replayed,
      and nothing later is lost or reordered. */
  lemma {:induction false} UpdatedFeedSplits(early: seq<Event>, late: seq<Event>, idArg: string)
    ensures UpdatedFeed(early + late, idArg) == UpdatedFeed(early, idArg) + UpdatedFeed(late, idArg)
  {
    if late == [] {
      assert early + late == early;
    } else {
      var init := late[..|late| - 1];
      assert (early + late)[..|early + late| - 1] == early + init;
      UpdatedFeedSplits(early, init, idArg);
    }
  }

  lemma {:induction false} AddedFeedSplits(early: seq<Event>, late: seq<Event>)
    ensures AddedFeed(early + late) == AddedFeed(early) + AddedFeed(late)
  {
    if late == [] {
      assert early + late == early;
    } else {
      var init := late[..|late| - 1];
      assert (early + late)[..|early + late| - 1] == early + init;
      AddedFeedSplits(early, init);
    }
  }

  /** Publishing on MESSAGE_ADDED extends every `messageAdded` feed by the
      payload and no `messageUpdated` feed. */
  lemma PublishAdded(log: seq<Event>, m: Message, idArg: string)
    ensures AddedFeed(log + [Event(MessageAdded, m)]) == AddedFeed(log) + [m]
    ensures UpdatedFeed(log + [Event(MessageAdded, m)], idArg) == UpdatedFeed(log, idArg)
  {
  }

  /** Publishing on MESSAGE_UPDATED extends exactly the `messageUpdated`
      feeds whose argument parses to the payload's id, and no
      `messageAdded` feed. */
  lemma PublishUpdated(log: seq<Event>, m: Message, idArg: string)
    ensures UpdatedFeed(log + [Event(MessageUpdated, m)], idArg)
         == UpdatedFeed(log, idArg) + (if UpdateMatches(m, idArg) then [m] else [])
    ensures AddedFeed(log + [Event(MessageUpdated, m)]) == AddedFeed(log)
  {
  }

  /** A subscription for message n, written as `String(n)`, never receives
      an update of another message. */
  lemma SubscriptionReceivesOnlyItsId(log: seq<Event>, n: int, m: Message)
    requires m in UpdatedFeed(log, Decimal(n))
    ensures m.id == n
  {
    ParseIntInvertsDecimal(n);
  }

  /** An argument that parseInt turns into NaN matches nothing: the
      subscription stays silent rather than failing. */
  lemma NonNumericSubscriptionIsSilent(log: seq<Event>, idArg: string)
    requires ParseInt(idArg).None?
    ensures UpdatedFeed(log, idArg) == []
  {
  }
}
