# gqueue: verified model of the queue protocol and its surroundings

gqueue publishes events over HTTP, fans each one out to its consumers through Google Pub/Sub, retries failed
deliveries, archives exhausted ones on a dead-letter topic, and reports on what happened. This project models the
parts of it that hold real logic and proves what they promise. `dafny verify dfyconfig.toml` checks everything.

| file | part of the program |
|---|---|
| `PubSub.dfy`, `Publisher.dfy` | the publisher, the settling handler, the dead-letter handler, the HTTP fan-out |
| `Protocol.dfy`, `ProtocolTheorems.dfy`, `ProtocolRuns.dfy` | whole runs of the retry and dead-letter protocol, and two concrete ones |
| `Json.dfy`, `MsgData.dfy` | the scanner that finds a JSON object in a stored message, and the grammar it is proved against |
| `TopicUtils.dfy` | topic and subscription names |
| `Catalogue.dfy`, `MemStore.dfy`, `Serving.dfy` | the `events` table, its in-memory index, and runs of both together |
| `Percentile.dfy`, `Rpm.dfy`, `Metric.dfy`, `MetricReport.dfy`, `MetricLimits.dfy`, `InsightsStore.dfy` | recording, listing and aggregating metrics |
| `QueryParser.dfy` | query parameters into typed fields |
| `ArchivedTask.dfy` | the two listings of archived tasks |
| `Strconv.dfy`, `Strings.dfy`, `Domain.dfy`, `Prelude.dfy` | decimal numbers, joined texts, shared entities |

Code that changes things step by step is a method or a class with the source's fields; it is proved against a
specification function, and the theorems are about that function or about runs of it.

## Assumptions

* Pub/Sub: only the first Ack or Nack of a delivery has an effect. A Nack, or a lease that expires, makes the broker
  offer its own copy again, without the attribute edits of the handler. An acknowledged copy is not offered again.
* A delivery is one step of a run: its publication and its settlement happen together, and a delivery whose lease has
  expired has no later effect. A handler that goes on after losing its lease, and republishes, is outside the model.
* A publication may fail, or be stored although the publisher is told that it failed (`Unconfirmed`).
* Redis: `ZADD`, `SADD`, `SMEMBERS` and `ZRANGE` act on sorted sets and sets; a reply may be lost after the command was applied.
* Postgres: each statement is atomic and `events.name` and `events.id` are unique.
* The library sort sorts; a Go map is ranged over in any order. Both are modelled by their contract only.

## What the proofs brought to light

* A retry publishes the Pub/Sub message itself, so every retry adds one envelope, and a retried delivery never
  decodes as a request: no consumer is ever notified by a retry (`ProtocolTheorems.RetriesNeverDeliver`), and once no
  unwrapped copy of a message is left its consumer is never notified of it again
  (`ProtocolTheorems.NeverNotifiedAgain`). A failed notification can still be made good when the republication is
  refused, since the broker then offers the original again (`ProtocolRuns.RefusedRetryDelivers`).
* The only step that loses a message is a cancellation during the back-off (`ProtocolTheorems.LostIffCancelled`,
  `ProtocolTheorems.NoCancellationNoLoss`, with a run in `ProtocolRuns.CancelledRunLoses`).
* `Metrics.Insights` keeps the first duration of a key only, because the longer slice is not stored back. A reported
  percentile is right exactly when the first duration happens to have the rank asked for among all durations of the
  key (`MetricLimits.ReportedExactIff`).
* The joined keys of the report identify topic and consumer exactly when the separator does not occur in them
  (`MetricLimits.KeyIdentifiesIff`).
* A call of `Published` or `Consumed` that answers success is reported exactly when some group write of the same key
  came through, which its answer does not tell (`InsightsStore.SavedIsListedIff`, `InsightsStore.SavedButNeverListed`).
  Equal metrics are counted once (`InsightsStore.EveryCallCountedIff`, `InsightsStore.RecordedTwiceCountedOnce`).
* Saving an event under the name of a deleted one succeeds and is never served (`Serving.SavedIsServed`,
  `Serving.SavedUnderDeletedName`). A load that asked before a deletion and refreshes after it serves the deleted event
  until a load that asked after the deletion refreshes (`Serving.StaleLoadServesDeleted`, `Serving.ServedAgainIff`).
* Two topics share a subscription name exactly when one has 241 to 253 characters and the other is it with as much of
  the suffix as fits (`TopicUtils.SubscriptionCollision`, `TopicUtils.SubscriptionShared`).
* A list element that is too large for its integer type is accepted with another value when it fits 64 bits, and
  refused otherwise (`QueryParser.AcceptedIff`, `QueryParser.IntegerRoundTripIff`).
* The two archive listings differ for exactly the queues whose list cannot be fetched, and for unlisted queues that
  still have readable tasks (`ArchivedTask.ListingsDifferIff`, `ArchivedTask.UnlistedQueueIsMissed`).

## Model

| member | source | states |
|---|---|---|
| `PubSub.TopicNames` | internal/domain/events.go:3-7 | the names built for the request and dead-letter queues, spelled out; they differ |
| `PubSub.Broker.Publish` | pkg/pubadapter/pub_sub_google.go:24-60 | appends one message with the payload and the given attributes, or the default ones when none are given, unless the broker refuses; success is reported only when the broker confirms |
| `PubSub.ArchiveMessage` | pkg/asyncadapter/gbubsub_adapter.go:19-27 | sends the local message to the dead-letter topic, and is settled by Nack when the publication is reported as failed, by Ack otherwise |
| `PubSub.RetryMessage` | pkg/asyncadapter/gbubsub_adapter.go:29-79 | has the effect of `Retry`: unparsable counters panic after the Ack, an exhausted counter archives, a cancelled back-off acknowledges without sending, and otherwise the counted message is published again on its own topic |
| `PubSub.HandleDelivery` | pkg/asyncadapter/gbubsub_adapter.go:83-96 | one delivery has the effect of `Deliver` on broker, settlement and attributes; missing attributes panic into a Nack |
| `PubSub.DeliveryOutcome` | pkg/asyncadapter/gbubsub_adapter.go:29-96 | for any message: done, panicked, archived, dropped or republished by what its attributes say, the topic it goes to, and the settlement by what the publisher was told |
| `PubSub.FailedDeliverySends` | pkg/asyncadapter/gbubsub_adapter.go:73-92 | what a failed delivery sends is the whole message as it stands: the error noted under `msg`, and every attribute other than `msg` and `retry_count` as it was |
| `PubSub.SentCounter` | pkg/asyncadapter/gbubsub_adapter.go:50-59 | the counter sent is one higher on a retry and unchanged on the way to the dead-letter topic |
| `PubSub.HandleDeadLetter` | internal/app/pubsubapp/deadletter_handle.go:22-59 | fails, or notifies every consumer of every scheduler once and in order, as the store's answer decides |
| `PubSub.NoticesPrefix` | internal/app/pubsubapp/deadletter_handle.go:41-56 | the notices of one more event follow those of the events before it |
| `PubSub.NoticeAt` | internal/app/pubsubapp/deadletter_handle.go:41-56 | consumer j of event i is told of that event and the dead message, after all consumers before it |
| `Publisher.PublishEvent` | internal/app/pubsubapp/publisher_handle_http.go:70-144 | the status for each outcome, and exactly which messages are stored: as many as the fan-out came to, message i addressed to consumer i with the body's data and headers, the event's name, its time, the next id, and the attributes of a first attempt |
| `Publisher.FanOut` | internal/app/pubsubapp/publisher_handle_http.go:111-141 | publishes one request per consumer in order, stops at the first not confirmed, and changes nothing else in the broker |
| `Publisher.FreshMessageAt` | internal/app/pubsubapp/publisher_handle_http.go:113-135 | every field of the message that consumer i gets |
| `Publisher.FanOutIsRun` | internal/app/pubsubapp/publisher_handle_http.go:111-141 | a fan-out stores what the corresponding publish steps of the protocol store, so the theorems about runs apply to it |
| `Protocol.FinishStores` | pkg/asyncadapter/gbubsub_adapter.go:83-96 | a finished delivery of the protocol leaves in the broker what `HandleDelivery` leaves, plus the delivered copy when it was nacked |
| `Protocol.RetryEffect` | pkg/asyncadapter/gbubsub_adapter.go:58-78 | a failed message with retries left is dropped by cancellation, or goes back to the request topic wrapped and counted once more |
| `Protocol.ArchiveEffect` | pkg/asyncadapter/gbubsub_adapter.go:50-54 | a failed message whose counter is at the limit goes to the dead-letter topic wrapped once more, its counter unchanged |
| `Protocol.CounterParses` | pkg/asyncadapter/gbubsub_adapter.go:33-48 | the counters that the program itself writes always parse |
| `Protocol.StepKeepsInv` | pkg/asyncadapter/gbubsub_adapter.go:17-98 | every step keeps the invariant: placement, envelope depth and counters, conservation, retry budget, no panic |
| `Protocol.RunKeepsInv` | pkg/asyncadapter/gbubsub_adapter.go:17-98 | so does every run |
| `Protocol.SmoothStep` | pkg/asyncadapter/gbubsub_adapter.go:17-98 | a pull, or a finished delivery with confirmed publications, strictly decreases the remaining work |
| `Protocol.SmoothRunsEnd` | pkg/asyncadapter/gbubsub_adapter.go:17-98 | a run of such steps is at most as long as the remaining work |
| `ProtocolTheorems.Conservation` | pkg/asyncadapter/gbubsub_adapter.go:17-98 | in every reachable state a published message has exactly one copy, plus one per republication stored though reported as failed; nothing else exists and no handler has panicked |
| `ProtocolTheorems.ExactlyOneCopy` | pkg/asyncadapter/gbubsub_adapter.go:17-98 | when failures are reported truly there is exactly one copy and at most max_retries + 1 acknowledged request deliveries |
| `ProtocolTheorems.BoundedRetry` | pkg/asyncadapter/gbubsub_adapter.go:50-59 | in general the acknowledged request deliveries are at most (max_retries + 1) per copy ever made |
| `ProtocolTheorems.LostIffCancelled` | pkg/asyncadapter/gbubsub_adapter.go:62-71 | a step drops a message if and only if it is a failed request delivery with retries left that is cancelled during the back-off |
| `ProtocolTheorems.NoCancellationNoLoss` | pkg/asyncadapter/gbubsub_adapter.go:62-71 | a run without cancelled back-offs drops nothing |
| `ProtocolRuns.CancelledRunLoses` | pkg/asyncadapter/gbubsub_adapter.go:62-71 | a run of three steps that loses its message |
| `ProtocolTheorems.Envelopes` | pkg/asyncadapter/gbubsub_adapter.go:58-75 | on the request topic a message is wrapped exactly `retry_count` times, an archived one beyond its limit; full unwrapping gives the request first published |
| `ProtocolTheorems.ArchivedIffExhausted` | pkg/asyncadapter/gbubsub_adapter.go:50-54 | archiving happens exactly at the limit, and a retry goes to the topic of first publication exactly below it |
| `ProtocolTheorems.RetriesNeverDeliver` | internal/app/pubsubapp/consumer_handle.go:50-60 | every request delivery that ever succeeded was of a message never retried |
| `ProtocolTheorems.NeverNotifiedAgain` | internal/app/pubsubapp/consumer_handle.go:50-60 | once no unwrapped copy of a message is left, the number of its copies whose consumer was notified never changes again |
| `ProtocolRuns.RefusedRetryDelivers` | pkg/asyncadapter/gbubsub_adapter.go:73-78 | a run in which a failed notification is followed by a refused republication and then by a successful delivery |
| `ProtocolTheorems.OnlySubscribedTopics` | cmd/setup/pubsub/consumer.go:22-34 | messages only ever exist on the two subscribed topics |
| `ProtocolTheorems.NeverBack` | pkg/asyncadapter/gbubsub_adapter.go:19-54 | once no copy of a message is on the request side, none ever is again, even when dead-letter handling fails |
| `ProtocolTheorems.DeadLetterHandledAtOnce` | internal/interstore/mem_store.go:71-73 | with the wired store the first finished delivery of an archived message acknowledges it |
| `ProtocolTheorems.QuietMeansOver` | pkg/asyncadapter/gbubsub_adapter.go:17-98 | when nothing is live every copy of a published message was handled, dead-lettered or dropped |
| `ProtocolTheorems.Drain` | pkg/asyncadapter/gbubsub_adapter.go:17-98 | every reachable state of the wired deployment can be driven to such a state within the remaining work |
| `Strconv.UintRoundTrip` | pkg/queryparser/parser.go:158-163 | printing then parsing an unsigned number gives it back exactly within 64 bits |
| `Strconv.IntRoundTrip` | pkg/asyncadapter/gbubsub_adapter.go:40-59 | printing then parsing a signed number gives it back exactly within 64 bits |
| `Strconv.OnlyDigits` | pkg/queryparser/parser.go:152-162 | a character other than a digit, a first sign aside, is refused, and so is the empty text |
| `Strconv.PlusSign` | pkg/queryparser/parser.go:152-152 | a plus sign is accepted before digits and changes nothing |
| `MsgData.ExtractJson` | internal/app/taskapp/msg_data.go:26-70 | returns the shortest text from the first opening brace whose unquoted braces balance, or nothing when there is none |
| `MsgData.ScannerBalances` | internal/app/taskapp/msg_data.go:43-66 | the scanner's depth is the balance of the braces outside strings |
| `MsgData.ExtractsUnique` | internal/app/taskapp/msg_data.go:26-70 | that characterisation determines the result |
| `MsgData.EmptyIffUnbalanced` | internal/app/taskapp/msg_data.go:26-70 | nothing is returned exactly when no prefix from the first brace balances |
| `MsgData.ExtractsInContext` | internal/app/taskapp/msg_data.go:26-70 | a non-empty result does not depend on the tail, nor on a prefix without opening brace |
| `MsgData.ExtractsFixedPoint` | internal/app/taskapp/msg_data.go:26-70 | extraction is idempotent |
| `MsgData.ValueKeeps` | internal/app/taskapp/msg_data.go:43-66 | every JSON value of RFC 8259 leaves the scanner where it was and never below its depth |
| `MsgData.ObjectExtracted` | internal/app/taskapp/msg_data.go:26-70 | for every prefix without opening brace, every object text of RFC 8259 (sections 2, 4, 5 and 7) and every tail, exactly the object is extracted |
| `TopicUtils.PassesJoinTokens` | pkg/topicutils/sanitize.go:33-40 | the replace, collapse and trim passes split the name into words and join them with single hyphens |
| `TopicUtils.TopicNameFromTokens` | pkg/topicutils/sanitize.go:69-72 | a topic name depends only on the words of the project followed by those of the event |
| `TopicUtils.SanitizeIsCanonical` | pkg/topicutils/sanitize.go:23-66 | every result has 3 to 255 allowed characters, starts with a letter, and has no double or trailing hyphen |
| `TopicUtils.SanitizeExactly` | pkg/topicutils/sanitize.go:42-65 | the exact result: `topic` for no words, else the joined words prefixed at most once and cut to 255 characters, 254 when the last would be a hyphen |
| `TopicUtils.FixedPointIffCanonical` | pkg/topicutils/sanitize.go:32-66 | a name is left alone exactly when it is canonical |
| `TopicUtils.KeptExactly` | pkg/topicutils/sanitize.go:23-66 | the same in terms of characters |
| `TopicUtils.SanitizeIdempotent` | pkg/topicutils/sanitize.go:32-66 | sanitizing twice is sanitizing once |
| `TopicUtils.SubscriptionBoundary` | pkg/topicutils/sanitize.go:75-80 | how many characters of the suffix survive for each topic length; the name equals the topic exactly from 254 characters on |
| `TopicUtils.EmptyTopic` | pkg/topicutils/sanitize.go:76-78 | the subscription name of no topic |
| `TopicUtils.SubscriptionCollision` | pkg/topicutils/sanitize.go:75-80 | two different topics share a subscription name exactly when the shorter has 241 to 253 characters and the longer is the shorter with the part of the suffix that fits |
| `TopicUtils.SubscriptionShared` | pkg/topicutils/sanitize.go:75-80 | two such topics |
| `TopicUtils.SubscriptionInjective` | pkg/topicutils/sanitize.go:75-80 | below 254 characters subscription names are injective |
| `Catalogue.EventStore.Upsert` | internal/interstore/postgres_store.go:164-211 | inserts a row, or updates the row of that name and keeps its id, name and deletion mark |
| `Catalogue.EventStore.DisabledEvent` | internal/interstore/postgres_store.go:294-302 | marks the undeleted row of that id as deleted and disabled, or does nothing |
| `Catalogue.EventStore.UpdateEvent` | internal/interstore/postgres_store.go:304-329 | rewrites the undeleted row of that id, or fails without effect when the name belongs to another row |
| `Catalogue.EventStore.GetAllEvents` | internal/interstore/postgres_store.go:44-75 | lists the rows neither deleted nor archived |
| `Catalogue.UpsertExactly` | internal/interstore/postgres_store.go:177-203 | row by row: when saving succeeds, which row is rewritten and with what, and that no other row changes |
| `Catalogue.DisableExactly` | internal/interstore/postgres_store.go:295-295 | row by row: the undeleted row of the id is marked, and no other row changes |
| `Catalogue.UpdateExactly` | internal/interstore/postgres_store.go:305-324 | row by row: when updating succeeds, which row is rewritten and with what, and that no other row changes |
| `Catalogue.UpsertSound` | deployment/tables.sql:2-4 | an upsert keeps names and ids unique |
| `Catalogue.DisableSound` | deployment/tables.sql:2-4 | so does disabling |
| `Catalogue.UpdateSound` | deployment/tables.sql:2-4 | so does an update |
| `MemStore.MemStore.LoadInMemStore` | internal/interstore/mem_store.go:37-48 | a hard failure keeps the snapshot, anything else replaces it |
| `MemStore.MemStore.Refresh` | internal/interstore/mem_store.go:75-88 | the index of a list maps each name to its last event |
| `MemStore.MemStore.RefreshRetryTopics` | internal/interstore/mem_store.go:90-103 | the same for the retry topics, leaving the served index alone |
| `MemStore.MemStore.GetEvent` | internal/interstore/mem_store.go:50-68 | a look-up in the current snapshot |
| `MemStore.MemStore.GetAllSchedulers` | internal/interstore/mem_store.go:71-73 | always the answer that the wired dead-letter handler sees |
| `MemStore.LookupIsLastMatch` | internal/interstore/mem_store.go:75-88 | looking up in the index is a linear search for the last event of that name |
| `MemStore.LookupIsLatest` | internal/interstore/mem_store.go:79-82 | a name is served as the event at its last position in the list, and not at all when it does not occur |
| `Serving.CacheAgreement` | internal/interstore/mem_store.go:37-68 | after any interleaving of writes, queries, refreshes and failures names and ids are unique and the cache answers by last match in the list last refreshed from |
| `Serving.FailuresChangeNothing` | internal/interstore/mem_store.go:40-43 | a failed statement or query changes neither table nor cache |
| `Serving.RunConsistent` | deployment/tables.sql:2-4 | every run of writes and loads keeps names and ids unique table-wide and the index in step with the list last loaded |
| `Serving.LoadMirrorsTable` | internal/interstore/postgres_store.go:44-75 | the index a load installs serves a name exactly when its query saw a row of that name neither deleted nor archived, and then serves that row |
| `Serving.LoadOrderIrrelevant` | internal/interstore/mem_store.go:78-85 | the order of the answer does not matter |
| `Serving.TombstoneForever` | internal/interstore/postgres_store.go:294-312 | through any run a deleted row stays deleted with its id and name |
| `Serving.LoadMakesGone` | internal/interstore/postgres_store.go:44-45 | a load that asked after the deletion, with no older load under way, makes the row gone |
| `Serving.NeverServedAgain` | internal/interstore/mem_store.go:37-48 | a row once gone stays gone through any interleaving of writes, queries and refreshes |
| `Serving.GoneIsNotServed` | internal/interstore/mem_store.go:50-68 | then neither its name nor its id is served |
| `Serving.ServedAgainIff` | internal/interstore/mem_store.go:37-48 | the name of a deleted row is served in some continuation exactly when it is still in the list last refreshed from or in an answer of a load under way |
| `Serving.StaleLoadServesDeleted` | internal/interstore/mem_store.go:39-45 | a load that asked before the deletion and refreshes after it serves the deleted event |
| `Serving.SavedIsServed` | internal/interstore/postgres_store.go:177-191 | a saved event is served after a load exactly when its name is not a deleted row's and its state is not archived, and under which id |
| `Serving.SavedUnderDeletedName` | internal/interstore/postgres_store.go:181-191 | a save that succeeds under a deleted name and is never loaded |
| `Percentile.Percentile` | internal/domain/metric.go:191-213 | fails on no data or p outside 0 to 1, and otherwise returns the nearest-rank value |
| `Percentile.NearestIndex` | internal/domain/metric.go:203-210 | the clamped index is the nearest rank minus one |
| `Percentile.RankIsCeiling` | internal/domain/metric.go:203-207 | the rank is p times n rounded up, and 1 when that is 0 |
| `Percentile.NearestRank` | internal/domain/metric.go:203-212 | the value is a sample with at least k samples up to it and at most k - 1 below it, for the rank k |
| `Percentile.NearestRankUnique` | internal/domain/metric.go:203-212 | that property pins the value down |
| `Percentile.OrderIrrelevant` | internal/domain/metric.go:199-201 | the order of the samples does not matter |
| `Percentile.Monotone` | internal/domain/metric.go:203-212 | a larger p never gives a smaller value |
| `Rpm.RpmIndex.Add` | internal/domain/metric.go:160-189 | updates the entry of the key in place, or adds a new one, and leaves every other key alone |
| `Rpm.EncodeExpands` | internal/domain/metric.go:160-189 | the arrays are a run-length encoding, and expanding them gives the minutes in input order |
| `Rpm.OrderedSeries` | internal/domain/metric.go:160-189 | when minutes arrive in order the series strictly increases and each value is the exact count of its minute |
| `Metric.ComputeInsights` | internal/domain/metric.go:39-109 | every total and every map of the report, defined from the input's groups by key |
| `Metric.Percentiles` | internal/domain/metric.go:91-103 | one nearest-rank value per key, in any order of keys |
| `Metric.CountsAddUp` | internal/domain/metric.go:49-75 | success and error counts add up to each side's total and both totals to the input |
| `Metric.ReportAddsUp` | internal/domain/metric.go:46-89 | in every report the counts, segmentations and totals agree |
| `Metric.SeriesExpand` | internal/domain/metric.go:66-86 | every reported series expands to the minutes of its key's metrics in input order |
| `MetricReport.ConsumedExactly` | internal/domain/metric.go:49-55 | total, success and error of the consumer side are the numbers of metrics with a consumer name, acknowledged or not |
| `MetricReport.PublishedExactly` | internal/domain/metric.go:69-75 | the same for metrics without a consumer name |
| `MetricReport.ConsumerSegment` | internal/domain/metric.go:65-65 | a consumer's entry is the number of its deliveries over all topics |
| `MetricReport.TopicSegment` | internal/domain/metric.go:85-85 | a topic's entry is the number of its publications |
| `MetricReport.MinuteOf` | internal/domain/metric.go:47-47 | the minute of a time is the multiple of sixty seconds at or below it |
| `MetricReport.ConsumerSeries` | internal/domain/metric.go:66-66 | the series of a joined key expands to the minutes in which exactly the deliveries of that key ended, in input order |
| `MetricReport.PublisherSeries` | internal/domain/metric.go:86-86 | the same for the publications of a topic |
| `MetricReport.ConsumerPercentiles` | internal/domain/metric.go:91-96 | both percentiles of a joined key are the duration of its first delivery |
| `MetricReport.PublisherPercentiles` | internal/domain/metric.go:98-103 | both percentiles of a topic are the duration of its first publication |
| `MetricLimits.FirstIsPercentileIff` | internal/domain/metric.go:57-63 | the first duration is the percentile for p exactly when its place among all durations has the nearest rank of p |
| `MetricLimits.ReportedExactIff` | internal/domain/metric.go:91-103 | each of the four reported percentiles of a key is the true one exactly when the first duration has that rank; keys that do not occur are absent |
| `MetricLimits.PercentilesExactIffConstant` | internal/domain/metric.go:57-63 | the first duration is the percentile for every p at once exactly when all durations of the key are equal |
| `MetricLimits.PercentileCounterexample` | internal/domain/metric.go:57-63 | for 8 ms then 12 ms every report says 8 where the 99th percentile is 12; in the other order it says 12 |
| `MetricLimits.KeyIdentifiesIff` | internal/domain/metric.go:177-177 | a joined key identifies topic and consumer exactly when the separator occurs in neither, a last character of the consumer aside |
| `InsightsStore.DataKeyIsNoGroupKey` | internal/storests/base.go:26-31 | no metric's key is ever the key of a day's group |
| `InsightsStore.PublishedKeyText` | internal/storests/w_published.go:15-22 | the key of a publisher metric, letter by letter |
| `InsightsStore.ConsumedKeyText` | internal/storests/w_consumed.go:15-22 | the key of a consumer metric, letter by letter |
| `InsightsStore.GroupKeyText` | internal/storests/base.go:33-34 | the key of a day's group, letter by letter |
| `InsightsStore.KeysTellDays` | internal/storests/base.go:26-31 | different days have different groups, and different sorted sets for the same metric |
| `InsightsStore.Store.Published` | internal/storests/w_published.go:14-41 | the state after a call and its answer, for every combination of failures, with the deferred group write on every path |
| `InsightsStore.Store.Consumed` | internal/storests/w_consumed.go:14-41 | the same for a consumer metric |
| `InsightsStore.Store.GroupInsights` | internal/storests/base.go:33-41 | adds the key to the day's group |
| `InsightsStore.Store.GetAll` | internal/storests/r_all.go:11-40 | lists the sorted sets of the day's group one after another, fails exactly when a read fails, and returns what was read before |
| `InsightsStore.ListedMetrics` | internal/storests/r_all.go:11-40 | over any run, a metric is listed exactly when some call stored it in a sorted set that some call listed for that day |
| `InsightsStore.ListedPlainly` | internal/storests/r_all.go:11-40 | the same in terms of the calls: one encoded the metric and got it stored, and one whose group day is the day asked for got its key into the group |
| `InsightsStore.QuietDay` | internal/storests/r_all.go:12-13 | a day without a group write lists nothing, whatever was recorded on other days |
| `InsightsStore.ScoreIsLastCall` | internal/storests/w_published.go:30-31 | the score of a metric, by which a range is ordered, is the time of the last call that stored it |
| `InsightsStore.ListedOnce` | internal/storests/r_all.go:18-37 | within one day nothing is listed twice, whatever failed |
| `InsightsStore.SavedIsListedIff` | internal/storests/w_consumed.go:23-24 | a stored metric is listed exactly when the group write of some call with its key came through |
| `InsightsStore.SavedButNeverListed` | internal/storests/w_consumed.go:23-24 | a call that answers success, whose metric is in its sorted set and is never listed |
| `InsightsStore.ReportMatchesRecorded` | internal/domain/metric.go:46-89 | for every run of a day, whatever failed: every count of the report is the number of different metrics of that side that were stored and whose key was listed |
| `InsightsStore.EveryCallCountedIff` | internal/storests/w_published.go:30-33 | the totals count every call exactly when no two calls recorded the same metric and each was stored and had its key listed |
| `InsightsStore.RecordedTwiceCountedOnce` | internal/storests/w_published.go:30-33 | the same metric recorded twice without failure is counted once |
| `InsightsStore.ConsumersCountedIff` | internal/domain/metric.go:49-49 | the consumer total is the number of different recorded deliveries exactly when each names its consumer, was stored, and had its key listed |
| `QueryParser.BuildSlice` | pkg/queryparser/parser.go:112-143 | the elements of all parameters joined and split at commas, or the error of the first bad one |
| `QueryParser.FirstBadElement` | pkg/queryparser/parser.go:122-135 | the error of a list is that of its first bad element |
| `QueryParser.Target.SetSliceValue` | pkg/queryparser/parser.go:112-143 | sets the field to that slice; a bad element leaves it unchanged |
| `QueryParser.Target.SetScalar` | pkg/queryparser/parser.go:54-77 | sets a string or integer field, wrapped to its width, or leaves it unchanged with the error text of its kind |
| `QueryParser.Target.SetFieldValue` | pkg/queryparser/parser.go:54-109 | sets a field by its type; an absent parameter or an error leaves it unchanged |
| `QueryParser.FirstValueCounts` | pkg/queryparser/parser.go:42-43 | of a repeated scalar parameter the first value is taken, and what becomes of it |
| `QueryParser.UntouchedField` | pkg/queryparser/parser.go:31-40 | a field that is not exported, has no tag, or whose parameter is absent or empty keeps its value |
| `QueryParser.Target.ParseQueryParams` | pkg/queryparser/parser.go:13-51 | fields are set in order up to the first bad one, which is named in the error; it and later ones keep their values |
| `QueryParser.PartitionIrrelevant` | pkg/queryparser/parser.go:115-139 | however pieces are divided among parameters, the same elements come out |
| `QueryParser.BlankPieceIgnored` | pkg/queryparser/parser.go:120-121 | a blank piece anywhere never matters |
| `QueryParser.SpaceCodes` | pkg/queryparser/parser.go:120-120 | which code points are trimmed around an item |
| `QueryParser.PaddingIgnored` | pkg/queryparser/parser.go:120-120 | nor does padding around an element |
| `QueryParser.TextRoundTripIff` | pkg/queryparser/parser.go:112-149 | a list of texts in any division into parameters parses back exactly when each is trimmed, not blank and without commas |
| `QueryParser.AcceptedIff` | pkg/queryparser/parser.go:151-163 | a rendered integer is accepted exactly when it fits 64 bits of its sign, and then as what its type keeps of it |
| `QueryParser.WrappedExactly` | pkg/queryparser/parser.go:156-163 | what a type keeps lies in its range and differs by a multiple of its size |
| `QueryParser.WidestExactly` | pkg/queryparser/parser.go:150-163 | the 64-bit types hold exactly the 64-bit ranges and keep every value in them |
| `QueryParser.IntegerRoundTripIff` | pkg/queryparser/parser.go:151-163 | a list of integers in any division parses back exactly when every one fits the element type |
| `QueryParser.NarrowCounterexample` | pkg/queryparser/parser.go:151-156 | 300 as an 8-bit element is accepted as 44 |
| `ArchivedTask.GetMsgsArchived` | internal/app/taskapp/archived_task.go:35-79 | the entries of the listed, fetchable queues, one queue after another in some order |
| `ArchivedTask.GetAllMsgsByQueue` | internal/app/taskapp/archived_task.go:81-111 | the readable tasks of one queue in order, or the error |
| `ArchivedTask.ByQueueExactly` | internal/app/taskapp/archived_task.go:84-108 | what it answers by what the cache says: nothing for no list, the error, or the readable tasks in list order with every field |
| `ArchivedTask.ListQueue` | internal/app/taskapp/archived_task.go:60-75 | unreadable tasks are skipped, the others keep their order and carry their extracted text |
| `ArchivedTask.EntriesExactly` | internal/app/taskapp/archived_task.go:60-75 | a queue's listing is its readable tasks, each once, in list order, with name, queue, all names, and extracted text |
| `ArchivedTask.CollectArchived` | internal/app/taskapp/archived_task.go:48-57 | the task names of every listed queue that can be fetched |
| `ArchivedTask.ListingsAgree` | internal/app/taskapp/archived_task.go:35-111 | the part of the whole listing for a queue is the queue's own listing up to consumers when the queue is listed, and empty otherwise |
| `ArchivedTask.ListingsDifferIff` | internal/app/taskapp/archived_task.go:35-111 | the two listings differ exactly for queues whose list fails and for unlisted queues with readable tasks |
| `ArchivedTask.UnlistedQueueIsMissed` | internal/app/taskapp/archived_task.go:38-48 | an unlisted queue with a readable task, missed by the whole listing |

## Left out

- HTTP handlers beyond the fan-out, middleware, server start and shutdown, telemetry, logging and configuration: plumbing without a deep property.
- `Notify` and the fetcher: the outcome of a notification is a parameter.
- Marshalling of a Pub/Sub message: an envelope keeps identity, data and attributes; publish time, ordering key and delivery attempt are dropped. The JSON of event data and options is kept as opaque text.
- Decoding an envelope as a request is modelled as failing, since its data is a base64 string where an object is expected.
- Panics inside a handler are recorded as a flag; what the runtime does afterwards is not modelled.
- `Publisher.PublishEvent`: does not model the metric recorded when the handler returns, because it does not influence the response or the broker.
- The publisher always sends one retry, whatever the event's options say; the protocol is proved for any limit.
- `Catalogue.EventStore.Upsert`: does not model column length limits, time stamps and JSONB normalisation, because no property here depends on them.
- Paging and filtering of internal events, look-ups by id or name in the table: easy members.
- `Percentile.Percentile`: does not model floating-point rounding of p times n, since the guarantee is about the rank; samples are exact reals.
- `Percentile.NearestIndex`: does not model floating-point rounding before the ceiling, for the same reason.
- `Metric.ComputeInsights`: does not model the two success percentages, because they are a rounded text of counts that are modelled.
- Counters beyond 64 bits and time zones of wall-clock minutes.
- `InsightsStore.Store.Published`: does not model expiry, because a report is about one day; the clock readings are parameters.
- `InsightsStore.Store.GetAll`: does not model the decoding error, because only marshalled metrics are stored; members of equal score come in any order, where Redis orders them by text, because no property depends on it.
- `QueryParser.Target.SetFieldValue`: does not model float and boolean fields, because their parsing is a matter of Go's library; the same holds for slice elements.
- Reflection in the query parser, and default values for zero fields.
- `TopicUtils.SanitizeIsCanonical`: does not model invalid UTF-8, because names are sequences of code points here; the result is ASCII either way.
- `ArchivedTask.ListQueue`: carries the text handed to the JSON decoder and not the decoded map, because the decoder is a library.
- Removal and re-publication of archived tasks, the asynq back end and its options.
