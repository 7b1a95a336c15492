# cache: a verified model of the pull, decode, store and acknowledge pipeline

The `cache` service connects a Google Cloud Pub/Sub subscription to a PostgreSQL table
`cache (id SERIAL PRIMARY KEY, message TEXT)`. This project models its core in Dafny:

- `publish_to_pubsub`;
- the ack-after-insert pipeline `pull_messages_and_insert`. It pulls a batch, then for each
  message base64-decodes the payload, UTF-8-decodes the result and inserts it. Only then does
  it record the message's ack handle, and it sends one acknowledge for all recorded handles
  after the loop;
- the ack-all pull `pull_messages_from_subscription`. It acknowledges everything it received
  before returning the batch;
- the four Flask routes `/health`, `/publish`, `/ingest` and `/fetch`;
- the two database operations `insert_message` and `check_db_connection`.

The model follows the code as written. On the ack-after-insert path a handle is
acknowledged only after its row commits (app/pubsub_utils.py:72-79). The routes `/ingest`
and `/fetch` use the ack-all pull instead, and the model proves that they can acknowledge a
message that is never stored (`Routes.IngestAckedButNotStored`,
`Routes.FetchFailureLosesBatch`). `pull_messages_and_insert` is imported by the routes
module (app/main.py:4) but never called, so only the ack-all path is reachable over HTTP.
The two paths also decode differently: the ack-after-insert pipeline base64-decodes and then
UTF-8-decodes, while `/ingest` only UTF-8-decodes.

## Layout

| file | module | what it holds |
|---|---|---|
| `wrappers.dfy` | `Wrappers` | `Option` and `Result`; `Err` stands for an exception that propagates |
| `json.dfy` | `Json` | JSON request values and Python truthiness, `dict.get` |
| `queue.dfy` | `Queue` | received messages, the pull answer, the per-call client `Conditions`, the payload `Codecs`, and the `Service` class whose `log` records every pull, acknowledge and publish call |
| `db.dfy` | `Db` | the `Store` class (rows plus the SERIAL counter), its invariant, and the connection probe |
| `batch.dfy` | `Batch` | per-message `Outcome`s and the selection functions (stored positions, stored texts, collected ack handles) with their alignment lemmas |
| `pubsub_utils.dfy` | `PubSubUtils` | publish, both pull pipelines, and the lemmas about them |
| `routes.dfy` | `Routes` | the HTTP routes as `Response(code, body)` values |

Everything outside the program is an input:

- **Client behaviour.** `Conditions(clientUp, response, ackReachable)` gives, for one call into
  the subscriber client, whether the client can be created, what the pull answers (a batch,
  or an exception), and whether the acknowledge call returns normally.
- **Inserts.** `commits: nat -> bool` says whether the insert for the message at each pull
  position commits.
- **Decoders.** `Codecs(base64, utf8)` are the two decoders, as total functions that return
  `None` where the library raises.
- **Environment.** Configuration values are `Option<string>`. `Configured` is Python's
  `if not value` test: unset and empty both count as missing.

A call on the service is recorded when it is made, whether or not it then raises.

## Model

| member | source | states |
|---|---|---|
| Json.Get | app/main.py:27 | a missing key reads as a falsy value (JSON null); a present key reads as its value |
| Queue.AckIdsOf | app/pubsub_utils.py:101-103 | one handle per received message, in pull order, position by position |
| Queue.Service.Pull | app/pubsub_utils.py:90-92 | the pull is recorded with its batch size and answers what the service answers |
| Queue.Service.Acknowledge | app/pubsub_utils.py:117-120 | the acknowledge is recorded with exactly the handles given; it raises exactly when the service is unreachable |
| Queue.Service.Publish | app/pubsub_utils.py:25-26 | the publish call is recorded with its text |
| Db.RowsFromKeepSerial | app/db.py:49 | appending a run of inserted rows keeps SERIAL ids positive, below the counter and strictly increasing; no new id equals an old one |
| Db.Store.constructor | app/db.py:48-50 | the first-ever creation of the table: empty, with its counter at 1 (a table that already exists keeps its rows; the operations accept any store satisfying `Valid`) |
| Db.Store.Insert | app/db.py:58-69 | a committed insert appends exactly one row with the given text and returns its id, which is the counter's value, fresh against every existing id; earlier rows are unchanged; a failed insert is re-raised (`Err`) and changes nothing |
| Db.CheckDbConnection | app/db.py:71-84 | false without a connection; with one, true exactly when the probe query completes; it never raises |
| Batch.StoredIndicesExact | app/pubsub_utils.py:59-76 | the selected positions are exactly those whose outcome is `Stored`, in range and strictly ascending |
| Batch.SelectionsAligned | app/pubsub_utils.py:72-74 | the collected handles, the inserted texts and the stored positions have equal length, and entry j of each comes from the j-th stored message |
| Batch.SelectionsSnoc | app/pubsub_utils.py:59-74 | one more loop iteration extends the inserted texts and the collected handles by that message exactly when it is stored |
| PubSubUtils.PublishEffect | app/pubsub_utils.py:10-30 | publishing makes at most one publish call; it makes one exactly when topic and project are set, the client is up and the message is a string; the call carries that string |
| PubSubUtils.PublishToPubSub | app/pubsub_utils.py:10-30 | the service log grows by exactly `PublishEffect`; every failure is swallowed |
| PubSubUtils.ClassifyPulled | app/pubsub_utils.py:60-76 | a message is stored exactly when both decodings succeed and its insert commits, and then with the decoded text; `NotBase64` exactly when base64 decoding fails |
| PubSubUtils.DecodeAndInsert | app/pubsub_utils.py:60-76 | one loop iteration returns an id exactly when the message is stored, appending that one row; otherwise the table is unchanged |
| PubSubUtils.StoreBatch | app/pubsub_utils.py:56-76 | after the loop the table holds the old rows plus one row per stored message in pull order, with consecutive ids from the old counter; the returned ids are those rows' ids; the collected handles are those of the stored messages |
| PubSubUtils.CycleLog | app/pubsub_utils.py:78-79 | a cycle makes one pull, then exactly one acknowledge carrying the collected handles when that list is nonempty, and no other call |
| PubSubUtils.PullMessagesAndInsert | app/pubsub_utils.py:42-82 | missing configuration returns `[]` with no call on the service and no row; a failing client construction or pull propagates without inserting; otherwise the table gains the stored rows, the log gains `CycleLog`, and the result is the new ids, unless the acknowledge raised |
| PubSubUtils.AckedIffInserted | app/pubsub_utils.py:72-74 | the acknowledged handles and the inserted texts are selected by the same ascending positions; a position is selected exactly when its message decodes twice and its insert commits, and the text is that message's decoded payload |
| PubSubUtils.UndecodableSkipped | app/pubsub_utils.py:62-69 | a message that fails base64 or UTF-8 decoding is neither stored nor acknowledged |
| PubSubUtils.InsertFailureIsolated | app/pubsub_utils.py:59-76 | a failed insert on message k is not stored; every other message is stored exactly as if message k's insert had committed |
| PubSubUtils.AllStored | app/pubsub_utils.py:59-79 | three messages that decode and commit give three inserted texts and all three handles acknowledged, in order |
| PubSubUtils.MalformedMiddleSkipped | app/pubsub_utils.py:59-79 | with batch "ok", a non-UTF-8 payload, "ok2", only "ok" and "ok2" are stored and only their handles acknowledged |
| PubSubUtils.SecondInsertFails | app/pubsub_utils.py:59-79 | when of two messages only the second insert fails, one text is stored and only the first handle acknowledged |
| PubSubUtils.EmptyPullNoAcknowledge | app/pubsub_utils.py:78-82 | an empty batch stores nothing and makes no acknowledge call |
| PubSubUtils.StoredPosition | app/pubsub_utils.py:72-74 | a message the cycle stores has a position among the inserted texts holding its decoded payload, so the collected handles are nonempty |
| PubSubUtils.RedeliveryDuplicates | app/pubsub_utils.py:42-82 | two ack-after-insert cycles over the same batch, the first failing at its acknowledge: the first cycle reports the failure, and a message it stored is stored again by the second, with the same decoded text and a larger id |
| PubSubUtils.Delivered | app/pubsub_utils.py:89-127 | the pull returns the received batch unchanged, or nothing when the pull raised, the batch was empty or the acknowledge raised |
| PubSubUtils.SubscriptionPullLog | app/pubsub_utils.py:90-120 | one pull and, for a nonempty batch, one acknowledge of every received handle in pull order |
| PubSubUtils.PullMessagesFromSubscription | app/pubsub_utils.py:84-129 | a client that cannot be created propagates with no call made; otherwise the result is `Delivered` and the log gains `SubscriptionPullLog` |
| PubSubUtils.AckAllIgnoresPayload | app/pubsub_utils.py:101-120 | the ack-all pull acknowledges a message the ack-after-insert cycle would not store |
| Routes.Health | app/main.py:14-22 | 200 "ok" exactly when the connection exists and answers the probe, otherwise 500 "db unreachable" |
| Routes.PublishResponse | app/main.py:24-36 | a body that is not a JSON object is a 500; a missing or falsy `message` is a 400 with the fixed error; otherwise 200 "message published" |
| Routes.Publish | app/main.py:24-36 | answers `PublishResponse`; the service log grows by `PublishEffect` for the message on a 200 and is unchanged otherwise |
| Routes.PublishSuccessNotDelivery | app/main.py:33-36 | a valid request is answered 200 even when nothing was published |
| Routes.ClassifyIngested | app/main.py:56-66 | `/ingest` stores a message exactly when its raw payload is UTF-8 and its insert commits, with the decoded text; the base64 outcome never occurs |
| Routes.DecodeUtf8AndInsert | app/main.py:56-66 | one loop iteration returns an id exactly when the message is stored, appending that one row; otherwise the table is unchanged |
| Routes.InsertDelivered | app/main.py:53-66 | the table gains one row per stored message in pull order, with consecutive ids from the old counter, and the collected ids are those rows' ids |
| Routes.Ingest | app/main.py:38-73 | a client that cannot be created gives 500 "Failed to ingest messages" with no call and no row; otherwise the log gains the ack-all pull; no delivered messages gives 200 "No messages to ingest." with the table unchanged; else 200 with the ids of the rows added |
| Routes.IngestAckedButNotStored | app/main.py:47-66 | a delivered message that is not UTF-8, or whose insert fails, was acknowledged and is not stored |
| Routes.IngestStoresExactly | app/main.py:55-69 | the answered ids are one per delivered message that is UTF-8 and commits, in ascending pull order, each with that message's text |
| Routes.FetchEntries | app/main.py:88-91 | the projection succeeds exactly when every nonempty payload is UTF-8; then it gives one entry per message, in order, with the message id, `None` for an empty payload, else the decoded text |
| Routes.FetchResponse | app/main.py:88-93 | 200 with the projected entries exactly when the projection succeeds, otherwise the 500 page |
| Routes.Fetch | app/main.py:75-93 | missing configuration gives 400 with the fixed error and no call; a client that cannot be created gives 500; otherwise the log gains the ack-all pull and the answer is `FetchResponse` of the delivered batch |
| Routes.FetchFailureLosesBatch | app/main.py:85-91 | when one nonempty payload is not UTF-8 the route answers 500, yet every handle of the batch was acknowledged |
| Routes.FetchAnswersWholeBatch | app/main.py:88-93 | a batch whose payloads are empty or UTF-8 is answered 200 with one entry per message |

## Left out

- The Pub/Sub and Secret Manager clients are not modelled. This covers client construction
  (reduced to `clientUp`), `subscription_path` and `topic_path`, the pull timeout,
  `future.result()` and `subscriber.close()`. Pull answers and acknowledge failures are
  inputs. Message attributes, which are only logged, are not modelled.
- The psycopg2 connection, cursors and `conn.commit()` are not modelled. Nor are `init_db`
  and `get_db_password` (app/db.py:10-56), which do network and secret I/O, except for the
  table `init_db` creates, which `Db.Store.constructor` stands for. Whether an insert
  commits is an input.
- The transaction state after a failed insert is not modelled. The code never rolls back,
  so the driver would reject later statements in the aborted transaction; here each insert
  succeeds or fails independently.
- Db.Store.Insert: a failed insert leaves the SERIAL counter where it was. PostgreSQL can
  consume a sequence value on a failed insert and leave a gap, so the model's ids are
  consecutive. Ids are still fresh and increasing.
- The base64 and UTF-8 decoders (section 4 of RFC 4648, RFC 3629) are library calls. They
  are inputs that return `None` where the library raises.
- Flask routing and JSON marshalling are not modelled. The request body is a JSON value.
  Reading `request.json` inside the route (app/main.py:26) raises 400 on malformed JSON and
  415 on a content type that is not JSON; those answers are not modelled. JSON numbers are
  integers only, because floating point is not modelled.
- Logging is not modelled, and reading an environment variable is an `Option<string>`
  input.
- `pubsub_utils.insert_message` (app/pubsub_utils.py:33-39) performs the same insert as
  `db.insert_message` without the log-and-re-raise wrapper. Both are modelled by
  `Db.Store.Insert`; an exception propagates out of either unchanged.
- Routes.Ingest: `/ingest` does not check its configuration. An unset subscription or
  project only makes the client calls fail, and that failure belongs to the `Conditions`
  input.
- The process-wide connection is modelled by two independent inputs: a `Store`, whose
  inserts commit or fail by the `commits` input, and a `Connection` for `/health`. Nothing
  ties them together: in the source a missing connection (`db_conn is None`) also makes
  every insert raise, which the model only captures when `commits` is false throughout.
  Concurrent requests sharing that connection are not modelled.
- Db.Store.Insert: the `SERIAL` id is a 32-bit integer. Once the sequence passes
  2147483647, every insert raises. The model's counter is unbounded, so it hands out ids
  the table can never return.
- PubSubUtils.PublishEffect: a JSON string may carry a lone surrogate escape. Python accepts
  it as a `str`, but `message.encode("utf-8")` (app/pubsub_utils.py:25) rejects it, and the
  swallowed error means nothing is published. Dafny strings cannot hold lone surrogates, so
  the model publishes every string message.
