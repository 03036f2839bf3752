/** The class methods of the Subscription model: a store holding the
    subscriptions table and the notifications table, updated in place. */
module Subscriptions {
  import opened Tables

  /** What `subscribe` returns: `true` when the pair was already there,
      otherwise the row `create!` made. */
  datatype SubscribeOutcome = AlreadySubscribed | Created(row: Subscription)

  class SubscriptionStore {
    var subscriptions: seq<Subscription>
    var notifications: seq<Notification>

    /** The store's invariant: each (user, answer) pair has at most one row. */
    ghost predicate Valid()
      reads this
    {
      NoDuplicates(subscriptions)
    }

    constructor ()
      ensures Valid()
      ensures subscriptions == [] && notifications == []
    {
      subscriptions := [];
      notifications := [];
    }

    /** `Subscription.find_by(user:, answer:)`: the position of the first
        row for the pair, scanning the table from the front. */
    method FindBy(user: UserId, answer: AnswerId) returns (found: bool, i: nat)
      ensures found <==> Subscription(user, answer) in subscriptions
      ensures found ==> i < |subscriptions| && subscriptions[i] == Subscription(user, answer)
      ensures found ==> forall k :: 0 <= k < i ==> subscriptions[k] != Subscription(user, answer)
    {
      var row := Subscription(user, answer);
      found, i := false, 0;
      while i < |subscriptions|
        invariant i <= |subscriptions|
        invariant forall k :: 0 <= k < i ==> subscriptions[k] != row
      {
        if subscriptions[i] == row {
          found := true;
          return;
        }
        i := i + 1;
      }
    }

    /** `subscribe(recipient, target)`: answer `AlreadySubscribed` and
        change nothing when the pair has a row, otherwise add the row. */
    method Subscribe(recipient: UserId, target: Answer) returns (r: SubscribeOutcome)
      requires Valid()
      modifies this
      ensures Valid()
      ensures notifications == old(notifications)
      ensures subscriptions == Subscribed(old(subscriptions), Subscription(recipient, target.id))
      ensures Subscription(recipient, target.id) in old(subscriptions) ==> r == AlreadySubscribed
      ensures Subscription(recipient, target.id) !in old(subscriptions) ==>
        r == Created(Subscription(recipient, target.id))
    {
      var existing, _ := FindBy(recipient, target.id);
      if existing {
        return AlreadySubscribed;
      }
      var row := Subscription(recipient, target.id);
      SubscribeKeepsUnique(subscriptions, row);
      subscriptions := subscriptions + [row];
      r := Created(row);
    }

    /** `unsubscribe(recipient, target)`: nothing happens when either is
        missing; otherwise the pair's row, if there is one, is destroyed. */
    method Unsubscribe(recipient: Option<UserId>, target: Option<Answer>) returns (r: Option<Subscription>)
      requires Valid()
      modifies this
      ensures Valid()
      ensures notifications == old(notifications)
      ensures recipient.None? || target.None? ==> r == None && subscriptions == old(subscriptions)
      ensures recipient.Some? && target.Some? ==>
        var row := Subscription(recipient.value, target.value.id);
        subscriptions == RemoveFirst(old(subscriptions), row) &&
        row !in subscriptions &&
        r == (if row in old(subscriptions) then Some(row) else None)
    {
      if recipient.None? || target.None? {
        return None;
      }
      var row := Subscription(recipient.value, target.value.id);
      var found, i := FindBy(row.user, row.answer);
      UnsubscribeClears(subscriptions, row);
      if !found {
        return None;
      }
      RemoveFirstAt(subscriptions, row, i);
      subscriptions := subscriptions[..i] + subscriptions[i + 1..];
      r := Some(row);
    }

    /** `destruct(target)`: nothing happens when the answer is missing;
        otherwise the rows are visited one by one, as `destroy_all` does,
        the table becomes the rows of other answers, and the rows of the
        answer are returned as the destroyed ones. */
    method Destruct(target: Option<Answer>) returns (r: Option<seq<Subscription>>)
      requires Valid()
      modifies this
      ensures Valid()
      ensures notifications == old(notifications)
      ensures target.None? ==> r == None && subscriptions == old(subscriptions)
      ensures target.Some? ==>
        subscriptions == KeptFor(old(subscriptions), target.value.id) &&
        r == Some(RowsOf(old(subscriptions), target.value.id))
    {
      if target.None? {
        return None;
      }
      var a := target.value.id;
      var rows := subscriptions;
      var kept, removed := [], [];
      var i := 0;
      while i < |rows|
        invariant i <= |rows|
        invariant kept == KeptFor(rows[..i], a)
        invariant removed == RowsOf(rows[..i], a)
      {
        assert rows[..i + 1][..i] == rows[..i];
        if rows[i].answer == a {
          removed := removed + [rows[i]];
        } else {
          kept := kept + [rows[i]];
        }
        i := i + 1;
      }
      assert rows[..i] == rows;
      DestructKeepsUnique(rows, a);
      subscriptions := kept;
      r := Some(removed);
    }

    /** `notify(source, target)`: nothing happens when either is missing;
        otherwise the fan-out batch is inserted in one statement and its
        size is returned. */
    method Notify(source: Option<Comment>, target: Option<Answer>) returns (r: Option<nat>)
      requires Valid()
      modifies this
      ensures Valid()
      ensures subscriptions == old(subscriptions)
      ensures source.None? || target.None? ==> r == None && notifications == old(notifications)
      ensures source.Some? && target.Some? ==>
        var batch := FanOut(subscriptions, source.value, target.value);
        notifications == old(notifications) + batch && r == Some(|batch|) &&
        DistinctRecipients(batch)
    {
      if source.None? || target.None? {
        return None;
      }
      var batch := FanOut(subscriptions, source.value, target.value);
      FanOutOncePerSubscriber(subscriptions, source.value, target.value);
      notifications := notifications + batch;
      r := Some(|batch|);
    }

    /** `denotify(source, target)`: nothing happens when either is missing;
        otherwise the notifications whose target is the answer and whose
        recipient subscribes to it are deleted in one statement, and their
        number is returned. `source` is only checked for presence. */
    method Denotify(source: Option<Comment>, target: Option<Answer>) returns (r: Option<nat>)
      requires Valid()
      modifies this
      ensures Valid()
      ensures subscriptions == old(subscriptions)
      ensures source.None? || target.None? ==> r == None && notifications == old(notifications)
      ensures source.Some? && target.Some? ==>
        notifications == Denotified(old(notifications), target.value, SubscribersOf(subscriptions, target.value.id)) &&
        r == Some(|old(notifications)| - |notifications|)
      ensures source.Some? && target.Some? ==> forall n :: n in notifications <==>
        n in old(notifications) &&
        !(n.targetType == AnswerTarget && n.targetId == target.value.id &&
          Subscription(n.recipient, target.value.id) in subscriptions)
    {
      if source.None? || target.None? {
        return None;
      }
      var recipients := SubscribersOf(subscriptions, target.value.id);
      var before := |notifications|;
      notifications := Denotified(notifications, target.value, recipients);
      r := Some(before - |notifications|);
    }
  }
}
