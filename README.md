# Subscriptions and comment notifications

A model of the class methods of the `Subscription` model in a Q&A site:
users subscribe to answers, and when a comment is posted on an answer every
subscriber except the answer's author gets a `Commented` notification.

The model has two files:

- `tables.dfy` (module `Tables`) holds the rows of the two tables and the pure
  functions that say what each operation does to a table. It also holds the
  lemmas about those functions.
- `subscription.dfy` (module `Subscriptions`) holds the class
  `SubscriptionStore`. The class keeps the subscriptions table and the
  notifications table as `seq` fields. Its five methods `Subscribe`,
  `Unsubscribe`, `Destruct`, `Notify` and `Denotify` update the tables in
  place. Each method's `ensures` ties the new tables to a function of the old
  ones and says which table does not change.

The store's invariant `Valid()` says that no (user, answer) pair has two
rows. Every method keeps it. The source itself does not enforce this. It
holds because `subscribe` checks whether the row exists before it creates
one.

Modelling choices:

- A missing argument (Ruby `nil`) is `None` of an `Option`.
- An answer carries its author as `Answer.owner`. This stands for
  `target.user` in `notify`.
- A polymorphic notification target is a `(targetId, targetType)` pair, and
  `targetType` is a tag: `CommentTarget`, `AnswerTarget` or another kind.
- The database gives no order to the rows a query returns. So the properties
  are stated by membership and multiplicity, and the functions keep the
  table's order.

`denotify` filters on `target:` (`app/models/subscription.rb:42`). In Ruby
3.1 this is shorthand for `target: target`, the answer. `notify` writes its
rows with the comment as target (`app/models/subscription.rb:32`). So
`denotify` right after `notify` does not delete the rows `notify` wrote.
`Tables.NotifyThenDenotify` proves this: `denotify` deletes exactly what it
would have deleted before the `notify`, and the whole fan-out batch stays.

## Model

| member | source | states |
|---|---|---|
| `Subscriptions.SubscriptionStore.FindBy` | app/models/subscription.rb:9 | `found` holds exactly when the pair has a row. When found, `i` is the position of the first such row. |
| `Subscriptions.SubscriptionStore.Subscribe` | app/models/subscription.rb:8-13 | An existing pair gives `AlreadySubscribed` and leaves both tables unchanged. A new pair gives `Created(row)` and appends that one row. Notifications are untouched and uniqueness is kept. |
| `Tables.Subscribed` | app/models/subscription.rb:9-12 | After subscribing, the pair is in the table. The count of every other row is unchanged. A present pair leaves the table as it was. A new pair ends with exactly one row and the table grows by one. |
| `Tables.SubscribeKeepsUnique` | app/models/subscription.rb:9-12 | On a table without duplicate pairs, subscribing leaves no duplicates, and the pair has exactly one row. |
| `Tables.SubscribeIdempotent` | app/models/subscription.rb:9-12 | Subscribing a second time changes nothing. |
| `Subscriptions.SubscriptionStore.Unsubscribe` | app/models/subscription.rb:15-20 | A missing user or answer returns `None` and changes nothing. Otherwise the first row of the pair is removed and no row of the pair remains. It returns the removed row, or `None` if there was none. Notifications are untouched and uniqueness is kept. |
| `Tables.RemoveFirst` | app/models/subscription.rb:18-19 | If the pair has a row, the table loses exactly one copy of it and nothing else. Otherwise the table is unchanged. |
| `Tables.RemoveFirstAt` | app/models/subscription.rb:18-19 | Deleting the row that a front-to-back search finds first is the same as `RemoveFirst`. |
| `Tables.UnsubscribeClears` | app/models/subscription.rb:18-19 | On a table without duplicate pairs, unsubscribing leaves no row for the pair and no duplicates. |
| `Tables.SubscribeUnsubscribeRoundTrip` | app/models/subscription.rb:8-20 | Subscribing a new pair and then unsubscribing it gives back the original table. On any table without duplicates, no row of the pair is left afterwards, and a further unsubscribe is a no-op. |
| `Subscriptions.SubscriptionStore.Destruct` | app/models/subscription.rb:22-26 | A missing answer returns `None` and changes nothing. Otherwise the table becomes the rows of the other answers, and the return value is the destroyed rows of the answer. Notifications are untouched and uniqueness is kept. |
| `Tables.RowsOf` | app/models/subscription.rb:25 | A row is selected exactly when it is in the table and belongs to the answer. |
| `Tables.KeptFor` | app/models/subscription.rb:25 | A row survives `destroy_all` exactly when it is in the table and belongs to another answer. |
| `Tables.DestructPartition` | app/models/subscription.rb:25 | The kept rows and the destroyed rows together are the old table, with multiplicities. |
| `Tables.DestructKeepsUnique` | app/models/subscription.rb:25 | After destruct, no row of the answer remains and the table still has no duplicate pairs. |
| `Subscriptions.SubscriptionStore.Notify` | app/models/subscription.rb:28-36 | A missing comment or answer returns `None` and changes nothing. Otherwise the fan-out batch is appended and its size returned. The batch has no recipient twice. Subscriptions are untouched. |
| `Tables.FanOut` | app/models/subscription.rb:31-33 | Every batch row has `targetId` equal to the comment id, target type `Comment`, `new = true` and type `Commented`. Its recipient subscribes to the answer and is not the answer's author. Every subscriber other than the author gets a row. |
| `Tables.FanOutCount` | app/models/subscription.rb:31-35 | The batch size is the number of rows of the answer minus the number of the author's own rows for it. |
| `Tables.FanOutOncePerSubscriber` | app/models/subscription.rb:31-33 | On a table without duplicate pairs, no user appears twice as a recipient in the batch. |
| `Subscriptions.SubscriptionStore.Denotify` | app/models/subscription.rb:38-43 | A missing comment or answer returns `None` and changes nothing. Otherwise a notification is deleted exactly when its target is the answer and its recipient subscribes to the answer. All other notifications stay, and the count deleted is returned. Subscriptions are untouched. |
| `Tables.SubscribersOf` | app/models/subscription.rb:41-42 | A user is listed exactly when the user has a row for the answer. |
| `Tables.Denotified` | app/models/subscription.rb:42 | A notification remains exactly when it was present and is not retracted. Every notification that is not retracted keeps its multiplicity. The table does not grow. |
| `Tables.DenotifiedAppend` | app/models/subscription.rb:42 | Deleting from two concatenated parts of the table is the same as deleting from each part. |
| `Tables.NotifyThenDenotify` | app/models/subscription.rb:28-43 | `denotify` right after `notify` on the same comment and answer deletes exactly what it would have deleted without the `notify`. The whole fan-out batch stays. |

## Left out

- Subscribe: a missing user or answer is not modelled. The source has no guard for it. There, `create!` raises because the required `belongs_to` references are absent. The parameters are plain values.
- ActiveRecord validation, callbacks and exceptions are left out. This covers `create!` raising on an invalid row and `destroy` callbacks. The return objects of `destroy` and `destroy_all` are modelled as the removed rows.
- Notify: the value `insert_all!` returns is modelled as the number of rows inserted. An empty batch is modelled as inserting nothing. What the library does with an empty batch is not modelled.
- Extra notification columns are not modelled: row ids and timestamps. Only the columns `notify` writes or `denotify` filters on are kept.
- Concurrency: two `subscribe` calls can both see no row and then both create one. The model runs each operation alone. Any uniqueness constraint the database may enforce is not modelled.
- Persistence failures (lost connection, constraint violations) are not modelled. In the source they propagate to the caller.
- spec/controllers/concerns/turbo_streamable_spec.rb is not part of this model. It tests HTTP rendering, not subscription logic.
