# Subscription registry of the video platform's backend

This project models the subscription controller of the backend
(`backend/src/controllers/subscription.controller.js`). The controller keeps
one collection, Subscription. Each record is a directed edge: a `subscriber`
follows a `channel`, and the record has its own `_id`. Four handlers use it:

- `toggleSubscription` checks the channel id first. It then looks up the
  caller's record for that channel. If there is one, it deletes it by its
  `_id`. If there is none, it creates one.
- `getUserChannelSubscribers` checks the channel id, then lists the records
  for that channel.
- `getSubscribedChannels` checks the subscriber id, then lists the records
  for that subscriber.
- `getSubscriptionStatus` reports whether the caller follows the channel.
  It does no id check.

Layout:

- `subscription_model.dfy`, module `SubscriptionModel`. The collection's
  contents are a `seq<Edge>` in stored order. A query document is a
  `Filter`: any present field must equal the record's. Mongoose's `find`,
  `findOne` and `deleteOne` are functions on the contents (`Find`,
  `FindOne`, `DeleteFirst`). The class `SubscriptionCollection` holds the
  records (`docs`) and a fresh-id counter (`nextId`). Its methods `Create`
  and `DeleteOne` change the collection in place. `Valid()` states the
  database's `_id` guarantee: ids are distinct and below the counter.
- `subscription_controller.dfy`, module `SubscriptionController`. It holds
  the four handlers and the lemmas about them. `ToggleSubscription` is a
  method on the collection object. Its `ensures` ties the new contents and
  the answer to the function `Toggle`. The lemmas are stated about `Toggle`.
  The three read-only handlers are functions of the collection's contents,
  so they cannot change the store.

Answers are values, not HTTP responses. `ToggleOutcome` is `Rejected`
(400), `Removed` (200) or `Created(edge)` (201). `Listing` is `InvalidId`
(400) or `Fetched(edges)` (200). The status handler returns a `bool`.

Mongoose's `isValidObjectId` is the parameter `isValidObjectId: Id -> bool`,
so every result holds for any identifier check. The caller's identity
(`req.user._id`, or `req.user.id` in the status handler) is the parameter
`caller` / `userId`.

Facts about the code that shape the model:

- `getSubscriptionStatus` does no id check, so `GetSubscriptionStatus`
  takes no validity predicate.
- Nothing in the controller keeps one record per pair. It looks up, then
  creates, and no unique index is visible. So `UniquePairs` is not assumed.
  `TogglePreservesUniquePairs` proves a toggle keeps it, and
  `ToggleFlipsPair` requires it: with a duplicate pair, removing one record
  leaves the other.
- `toggleSubscription` checks only `channelId`. The subscriber is the
  authenticated caller.
- The collection's contents are kept in insertion order. The statements
  about order (in `FindConcat`, `FindAppend`, `FindRemoveAt`, `Toggle` and
  `ToggleUpdatesSubscriberListing`) hold for this model only; see
  "## Left out".

## Model

| member | source | states |
|---|---|---|
| SubscriptionModel.FirstMatch | backend/src/controllers/subscription.controller.js:16-19 | gives the position of the first record in stored order that matches the query, or the collection's length when none matches |
| SubscriptionModel.FindOne | backend/src/controllers/subscription.controller.js:16-19 | `findOne` finds nothing exactly when no record matches; what it finds is a stored record that matches |
| SubscriptionModel.Find | backend/src/controllers/subscription.controller.js:53-56 | `find` returns a record exactly when that record is stored and matches the query |
| SubscriptionModel.FindCounts | backend/src/controllers/subscription.controller.js:53-56 | `find` returns each matching record as many times as it is stored, and no other record |
| SubscriptionModel.FindConcat | backend/src/controllers/subscription.controller.js:73-75 | `find` over two stretches of the collection is the two results joined in stored order |
| SubscriptionModel.FindAppend | backend/src/controllers/subscription.controller.js:30-33 | after a record is added at the end, `find` returns the old result, plus that record at the end when it matches |
| SubscriptionModel.FindRemoveAt | backend/src/controllers/subscription.controller.js:23 | taking out a matching record removes exactly that record from `find`'s result and keeps the rest in order |
| SubscriptionModel.DeleteFirst | backend/src/controllers/subscription.controller.js:23 | `deleteOne` leaves the collection unchanged when nothing matches; otherwise it removes exactly one copy of the first match and nothing else |
| SubscriptionModel.DeleteFirstKeepsWellFormed | backend/src/controllers/subscription.controller.js:23 | deleting a record keeps record ids distinct and below the counter |
| SubscriptionModel.DeleteFirstKeepsUniquePairs | backend/src/controllers/subscription.controller.js:23 | deleting a record never creates two records for one pair |
| SubscriptionModel.SubscribedAfterRemoval | backend/src/controllers/subscription.controller.js:23 | removing a record of another pair does not change whether a pair is present |
| SubscriptionModel.UniquePairGoneAfterRemoval | backend/src/controllers/subscription.controller.js:23 | with at most one record per pair, deleting a record leaves its pair absent |
| SubscriptionModel.SubscribedAfterAppend | backend/src/controllers/subscription.controller.js:30-33 | adding a record adds its own pair and no other |
| SubscriptionModel.SubscriptionCollection.Create | backend/src/controllers/subscription.controller.js:30-33 | `create` adds one record at the end with the given channel and subscriber, under an id no stored record has; the existing records are kept |
| SubscriptionModel.SubscriptionCollection.DeleteOne | backend/src/controllers/subscription.controller.js:23 | the collection becomes `deleteOne`'s result, and the id invariant still holds |
| SubscriptionController.Toggle | backend/src/controllers/subscription.controller.js:7-44 | rejects exactly when the channel id fails the check, and then leaves the store unchanged; removes exactly when the caller has a record for the channel, and then removes one such record and keeps the others in order; otherwise adds exactly one record (subscriber = caller, channel = channelId, fresh id) at the end and returns it |
| SubscriptionController.ToggleSubscription | backend/src/controllers/subscription.controller.js:7-44 | the handler run on the collection object: its answer and the new contents are those of `Toggle`, and the id invariant holds |
| SubscriptionController.GetUserChannelSubscribers | backend/src/controllers/subscription.controller.js:46-63 | answers 400 exactly when the channel id fails the check; otherwise returns exactly the records whose channel is `channelId`, each as often as it is stored |
| SubscriptionController.GetSubscribedChannels | backend/src/controllers/subscription.controller.js:66-86 | answers 400 exactly when the subscriber id fails the check; otherwise returns exactly the records whose subscriber is `subscriberId`, each as often as it is stored |
| SubscriptionController.GetSubscriptionStatus | backend/src/controllers/subscription.controller.js:88-106 | true exactly when some record has this channel and this subscriber; no id check applies |
| SubscriptionController.TogglePreservesWellFormed | backend/src/controllers/subscription.controller.js:16-33 | after a toggle, record ids are still distinct and below the counter |
| SubscriptionController.TogglePreservesUniquePairs | backend/src/controllers/subscription.controller.js:16-33 | if each pair has at most one record before a toggle, that still holds after it |
| SubscriptionController.ToggleFlipsPair | backend/src/controllers/subscription.controller.js:16-33 | with unique pairs, a toggle with a valid channel id flips whether the caller follows the channel |
| SubscriptionController.ToggleIsolatesOtherPairs | backend/src/controllers/subscription.controller.js:16-33 | a toggle of (caller, channel) does not change whether any other pair is present, including the reverse pair and the caller's other channels |
| SubscriptionController.ToggleTwiceRestores | backend/src/controllers/subscription.controller.js:16-33 | when the caller does not follow the channel, two toggles with a valid id first create a record and then remove it, leaving exactly the original records |
| SubscriptionController.ToggleTwiceRestoresPairs | backend/src/controllers/subscription.controller.js:16-33 | with unique pairs, two toggles of the same pair leave every pair's presence as it was |
| SubscriptionController.ToggleUpdatesSubscriberListing | backend/src/controllers/subscription.controller.js:22-33 | after a toggle, the channel's subscriber listing gains the created record at its end, or loses exactly one record of the caller with the rest kept in order |
| SubscriptionController.StatusAgreesWithListings | backend/src/controllers/subscription.controller.js:94-98 | the status is true exactly when the channel's subscriber listing holds a record of the user, and exactly when the user's channel listing holds a record of the channel |

## Left out

- HTTP response shaping is left out: status codes, `ApiResponse` envelopes and JSON error bodies. Each answer is a result value instead.
- `asyncHandler` and the status handler's try/catch answer 500 on a database failure. These paths are left out. The model has no failing store.
- `.populate(...)` is called with the paths `"Subscriber"` and `"Channel"` (capitalised), while the records' fields are `subscriber` and `channel`. The schema is not part of this model. Unless it declares those paths, the call fills in nothing, or, under Mongoose's strict populate mode, throws, and the handler then answers 500.
- GetUserChannelSubscribers: assumes the populate call succeeds and returns the matched records unchanged; a populate failure (answer 500) is not modelled.
- GetSubscribedChannels: assumes the populate call succeeds and returns the matched records unchanged; a populate failure (answer 500) is not modelled.
- FindConcat, FindAppend, FindRemoveAt, ToggleUpdatesSubscriberListing: their order statements rest on the model's insertion order. MongoDB promises no order for an unsorted `find` or `findOne`, and the code sorts nothing. For the real database only the multiset statements hold, as in `FindCounts` and the listing handlers' contracts. The same goes for which matching record `FirstMatch`/`FindOne` picks.
- The format rules behind `isValidObjectId` are left out. The check is an arbitrary predicate parameter.
- Mongoose casts string ids to ObjectIds. This is left out, and identifiers are compared as plain strings. So a `channelId` that passes the check but is not in canonical form compares differently here than in the database. A `channelId` the status handler cannot cast would make `findOne` throw (answer 500). In the model the status is simply false.
- Concurrency is left out. Nothing makes find-then-create atomic. The model runs one handler at a time.
- Timestamps on records are left out. They are informational only.
- The real `_id` generator is left out. A counter hands out fresh ids. Only their freshness and distinctness matter.
