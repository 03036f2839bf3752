/** Rows of the two tables the Subscription model works on, and the pure
    functions that say what each of its class methods does to them.

    Tables are sequences of rows. The database gives no order to the rows a
    query returns, so the properties below are stated by membership and by
    multiplicity (multisets); the functions keep the table's own order. */
module Tables {

  datatype Option<T> = None | Some(value: T)

  type UserId = nat
  type AnswerId = nat
  type CommentId = nat

  /** An answer; `owner` is the user who wrote it (`answer.user`). */
  datatype Answer = Answer(id: AnswerId, owner: UserId)

  /** A comment on an answer: the event `notify` fans out. */
  datatype Comment = Comment(id: CommentId)

  /** A row of the subscriptions table: `user` follows `answer`. */
  datatype Subscription = Subscription(user: UserId, answer: AnswerId)

  /** The `target_type` column of a notification's polymorphic target. */
  datatype TargetType = CommentTarget | AnswerTarget | OtherTarget(name: string)

  /** The `type` column of a notification (its single-table-inheritance subclass). */
  datatype NotificationType = Commented | OtherNotification(name: string)

  /** A row of the notifications table. */
  datatype Notification = Notification(
    targetId: nat,
    targetType: TargetType,
    recipient: UserId,
    isNew: bool,
    kind: NotificationType)

  /** The row `notify` writes for `recipient` when `source` is posted. */
  function CommentNotice(source: Comment, recipient: UserId): Notification {
    Notification(source.id, CommentTarget, recipient, true, Commented)
  }

  /** The uniqueness invariant: no (user, answer) pair has two rows. */
  ghost predicate NoDuplicates(subs: seq<Subscription>) {
    forall row :: multiset(subs)[row] <= 1
  }

  /** No user appears twice as a recipient. */
  predicate DistinctRecipients(notes: seq<Notification>) {
    forall i, j :: 0 <= i < j < |notes| ==> notes[i].recipient != notes[j].recipient
  }

  /** A notification that `denotify` deletes: its target is the answer and its
      recipient is one of `recipients`. */
  predicate Retracted(n: Notification, target: Answer, recipients: seq<UserId>) {
    n.targetType == AnswerTarget && n.targetId == target.id && n.recipient in recipients
  }

  // ---------------------------------------------------------------------
  // subscribe

  /** The subscriptions table after `subscribe`: the row is added unless it
      is already there. */
  function Subscribed(subs: seq<Subscription>, row: Subscription): (r: seq<Subscription>)
    ensures row in r
    ensures forall x :: x != row ==> multiset(r)[x] == multiset(subs)[x]
    ensures row in subs ==> r == subs
    ensures row !in subs ==> multiset(r)[row] == 1 && |r| == |subs| + 1
  {
    if row in subs then subs else subs + [row]
  }

  /** Subscribing keeps every (user, answer) pair unique. */
  lemma SubscribeKeepsUnique(subs: seq<Subscription>, row: Subscription)
    requires NoDuplicates(subs)
    ensures NoDuplicates(Subscribed(subs, row))
    ensures multiset(Subscribed(subs, row))[row] == 1
  {
  }

  /** Subscribing twice is the same as subscribing once. */
  lemma SubscribeIdempotent(subs: seq<Subscription>, row: Subscription)
    ensures Subscribed(Subscribed(subs, row), row) == Subscribed(subs, row)
  {
  }

  // ---------------------------------------------------------------------
  // unsubscribe

  /** The table with the first row equal to `row` deleted: `find_by` then
      `destroy`. */
  function RemoveFirst(subs: seq<Subscription>, row: Subscription): (r: seq<Subscription>)
    ensures row in subs ==> multiset(r) == multiset(subs) - multiset{row}
    ensures row !in subs ==> r == subs
  {
    if subs == [] then []
    else if subs[0] == row then
      assert subs == [subs[0]] + subs[1..];
      subs[1..]
    else
      assert subs == [subs[0]] + subs[1..];
      [subs[0]] + RemoveFirst(subs[1..], row)
  }

  /** Deleting the row that a front-to-back search found first is `RemoveFirst`. */
  lemma {:induction false} RemoveFirstAt(subs: seq<Subscription>, row: Subscription, i: nat)
    requires i < |subs| && subs[i] == row
    requires forall k :: 0 <= k < i ==> subs[k] != row
    ensures RemoveFirst(subs, row) == subs[..i] + subs[i + 1..]
  {
    if i > 0 {
      RemoveFirstAt(subs[1..], row, i - 1);
      assert subs[1..][..i - 1] == subs[1..i];
      assert subs[1..][i..] == subs[i + 1..];
      assert subs[..i] == [subs[0]] + subs[1..i];
    }
  }

  /** On a unique table, unsubscribing leaves no row for the pair and keeps
      the table unique. */
  lemma UnsubscribeClears(subs: seq<Subscription>, row: Subscription)
    requires NoDuplicates(subs)
    ensures row !in RemoveFirst(subs, row)
    ensures NoDuplicates(RemoveFirst(subs, row))
  {
  }

  /** Unsubscribing from a freshly added row gives back the table as it was. */
  lemma {:induction false} RemoveFirstAppended(subs: seq<Subscription>, row: Subscription)
    requires row !in subs
    ensures RemoveFirst(subs + [row], row) == subs
  {
    if subs != [] {
      assert (subs + [row])[0] == subs[0];
      assert (subs + [row])[1..] == subs[1..] + [row];
      RemoveFirstAppended(subs[1..], row);
    }
  }

  /** `subscribe` then `unsubscribe` on a new pair restores the table, and
      on any unique table leaves no row for the pair, so that a further
      `unsubscribe` changes nothing. */
  lemma SubscribeUnsubscribeRoundTrip(subs: seq<Subscription>, row: Subscription)
    requires NoDuplicates(subs)
    ensures row !in subs ==> RemoveFirst(Subscribed(subs, row), row) == subs
    ensures row !in RemoveFirst(Subscribed(subs, row), row)
    ensures var after := RemoveFirst(Subscribed(subs, row), row);
      RemoveFirst(after, row) == after
  {
    if row !in subs {
      RemoveFirstAppended(subs, row);
    } else {
      UnsubscribeClears(subs, row);
    }
  }

  // ---------------------------------------------------------------------
  // destruct

  /** The rows that follow answer `a`: `where(answer: target)`. */
  function RowsOf(subs: seq<Subscription>, a: AnswerId): (r: seq<Subscription>)
    ensures forall row :: row in r <==> row in subs && row.answer == a
    ensures |r| <= |subs|
  {
    if subs == [] then []
    else
      var init, last := subs[..|subs| - 1], subs[|subs| - 1];
      assert subs == init + [last];
      RowsOf(init, a) + (if last.answer == a then [last] else [])
  }

  /** The rows that follow some other answer: what `destroy_all` leaves. */
  function KeptFor(subs: seq<Subscription>, a: AnswerId): (r: seq<Subscription>)
    ensures forall row :: row in r <==> row in subs && row.answer != a
    ensures |r| <= |subs|
  {
    if subs == [] then []
    else
      var init, last := subs[..|subs| - 1], subs[|subs| - 1];
      assert subs == init + [last];
      KeptFor(init, a) + (if last.answer != a then [last] else [])
  }

  /** `destruct` splits the table: every row is either destroyed or kept,
      with its multiplicity. */
  lemma {:induction false} DestructPartition(subs: seq<Subscription>, a: AnswerId)
    ensures multiset(KeptFor(subs, a)) + multiset(RowsOf(subs, a)) == multiset(subs)
  {
    if subs != [] {
      var init, last := subs[..|subs| - 1], subs[|subs| - 1];
      assert subs == init + [last];
      DestructPartition(init, a);
    }
  }

  /** `destruct` keeps the table unique and leaves no row for the answer. */
  lemma DestructKeepsUnique(subs: seq<Subscription>, a: AnswerId)
    requires NoDuplicates(subs)
    ensures NoDuplicates(KeptFor(subs, a))
    ensures forall row :: row in KeptFor(subs, a) ==> row.answer != a
  {
    DestructPartition(subs, a);
    forall x ensures multiset(KeptFor(subs, a))[x] <= 1 {
      assert multiset(subs)[x] <= 1;
    }
  }

  // ---------------------------------------------------------------------
  // notify

  /** The batch `notify` inserts: one `Commented` row per subscription of
      `target`, skipping the answer's owner. */
  function FanOut(subs: seq<Subscription>, source: Comment, target: Answer): (r: seq<Notification>)
    ensures forall n :: n in r ==>
      n == CommentNotice(source, n.recipient) && n.recipient != target.owner &&
      Subscription(n.recipient, target.id) in subs
    ensures forall u :: Subscription(u, target.id) in subs && u != target.owner ==>
      CommentNotice(source, u) in r
  {
    if subs == [] then []
    else
      var init, last := subs[..|subs| - 1], subs[|subs| - 1];
      assert subs == init + [last];
      FanOut(init, source, target) +
        (if last.answer == target.id && last.user != target.owner
         then [CommentNotice(source, last.user)] else [])
  }

  /** The batch has one row per subscription of the answer, less the
      owner's own subscriptions. */
  lemma {:induction false} FanOutCount(subs: seq<Subscription>, source: Comment, target: Answer)
    ensures |FanOut(subs, source, target)| ==
      |RowsOf(subs, target.id)| - multiset(subs)[Subscription(target.owner, target.id)]
  {
    if subs != [] {
      var init, last := subs[..|subs| - 1], subs[|subs| - 1];
      assert subs == init + [last];
      FanOutCount(init, source, target);
    }
  }

  /** On a unique table no subscriber is notified twice. */
  lemma {:induction false} FanOutOncePerSubscriber(subs: seq<Subscription>, source: Comment, target: Answer)
    requires NoDuplicates(subs)
    ensures DistinctRecipients(FanOut(subs, source, target))
  {
    if subs != [] {
      var init, last := subs[..|subs| - 1], subs[|subs| - 1];
      assert subs == init + [last];
      assert NoDuplicates(init) by {
        forall x ensures multiset(init)[x] <= 1 {
          assert multiset(subs)[x] <= 1;
        }
      }
      FanOutOncePerSubscriber(init, source, target);
      var head := FanOut(init, source, target);
      var r := FanOut(subs, source, target);
      if last.answer == target.id && last.user != target.owner {
        assert r == head + [CommentNotice(source, last.user)];
        assert multiset(subs)[last] == multiset(init)[last] + 1;
        assert last !in init by {
          assert multiset(subs)[last] <= 1;
        }
        forall i | 0 <= i < |head| ensures head[i].recipient != last.user {
          assert head[i] in head;
          assert Subscription(head[i].recipient, target.id) in init;
        }
        forall i, j | 0 <= i < j < |r| ensures r[i].recipient != r[j].recipient {
          if j < |head| {
            assert r[i] == head[i] && r[j] == head[j];
          }
        }
      } else {
        assert r == head;
        forall i, j | 0 <= i < j < |r| ensures r[i].recipient != r[j].recipient {
          assert r[i] == head[i] && r[j] == head[j];
        }
      }
    }
  }

  // ---------------------------------------------------------------------
  // denotify

  /** The users of the given rows: `subs.map(&:user)` over `where(answer: a)`. */
  function SubscribersOf(subs: seq<Subscription>, a: AnswerId): (r: seq<UserId>)
    ensures forall u :: u in r <==> Subscription(u, a) in subs
  {
    if subs == [] then []
    else
      var init, last := subs[..|subs| - 1], subs[|subs| - 1];
      assert subs == init + [last];
      SubscribersOf(init, a) + (if last.answer == a then [last.user] else [])
  }

  /** The notifications table after `delete_all`: the retracted rows go,
      every other row stays with its multiplicity. */
  function Denotified(notes: seq<Notification>, target: Answer, recipients: seq<UserId>): (r: seq<Notification>)
    ensures forall n :: n in r <==> n in notes && !Retracted(n, target, recipients)
    ensures forall n :: !Retracted(n, target, recipients) ==> multiset(r)[n] == multiset(notes)[n]
    ensures |r| <= |notes|
  {
    if notes == [] then []
    else
      var init, last := notes[..|notes| - 1], notes[|notes| - 1];
      assert notes == init + [last];
      Denotified(init, target, recipients) +
        (if Retracted(last, target, recipients) then [] else [last])
  }

  /** Retraction of a table with one more row at the end. */
  lemma DenotifiedSnoc(notes: seq<Notification>, last: Notification, target: Answer, recipients: seq<UserId>)
    ensures Denotified(notes + [last], target, recipients) ==
      Denotified(notes, target, recipients) + (if Retracted(last, target, recipients) then [] else [last])
  {
  }

  /** Retraction distributes over the two halves of a table. */
  lemma {:induction false} DenotifiedAppend(notes: seq<Notification>, more: seq<Notification>,
                                            target: Answer, recipients: seq<UserId>)
    ensures Denotified(notes + more, target, recipients) ==
      Denotified(notes, target, recipients) + Denotified(more, target, recipients)
  {
    if more != [] {
      var init, last := more[..|more| - 1], more[|more| - 1];
      assert more == init + [last];
      assert notes + more == (notes + init) + [last];
      DenotifiedSnoc(notes + init, last, target, recipients);
      DenotifiedSnoc(init, last, target, recipients);
      DenotifiedAppend(notes, init, target, recipients);
    } else {
      assert notes + more == notes;
    }
  }

  /** Because `denotify` filters on the answer as target while `notify`
      writes rows whose target is the comment, `denotify` right after
      `notify` deletes exactly what it would have deleted before it, and the
      whole fan-out batch stays in the table. */
  lemma NotifyThenDenotify(notes: seq<Notification>, subs: seq<Subscription>, source: Comment, target: Answer)
    ensures var batch := FanOut(subs, source, target);
      var recipients := SubscribersOf(subs, target.id);
      Denotified(notes + batch, target, recipients) == Denotified(notes, target, recipients) + batch
  {
    var batch := FanOut(subs, source, target);
    var recipients := SubscribersOf(subs, target.id);
    DenotifiedAppend(notes, batch, target, recipients);
    DenotifiedKeepsOthers(batch, target, recipients);
  }

  /** A table with no retracted row is left as it is. */
  lemma {:induction false} DenotifiedKeepsOthers(notes: seq<Notification>, target: Answer, recipients: seq<UserId>)
    requires forall n :: n in notes ==> !Retracted(n, target, recipients)
    ensures Denotified(notes, target, recipients) == notes
  {
    if notes != [] {
      var init, last := notes[..|notes| - 1], notes[|notes| - 1];
      assert notes == init + [last];
      DenotifiedKeepsOthers(init, target, recipients);
    }
  }
}
