# ESP32 sensor API and to-do service, modelled in Dafny

This project models the in-memory core of `src/server.js`, a small Express
server. The core has two parts.

The first is the sensor store. It holds the reading counter (starting at 1),
the readings in arrival order, and the set of live stream subscribers. It
covers:

- ingest validation: the device key, the device id, the five metrics checked
  in a fixed order, the "at least one metric" rule, and the timestamp;
- the FIFO window of at most `MAX_SENSOR_READINGS` readings;
- the latest-reading scan from the newest reading down;
- the history answer: the limit clamped into [1, 500] with a default of 100,
  the device filter, `slice(-limit)` and `reverse()`;
- the broadcast rule, which sends a reading to every subscriber it matches
  and removes any subscriber whose write throws.

The second is the to-do list. It holds the to-do counter (starting at 2
after the seeded to-do 1) and the list of to-dos. It covers list with an
optional `completed` filter, find by id, create with a trimmed title, the
partial update in place, and delete by filtering with a not-found answer.

The files, one module each:

- `wrappers.dfy`: `Option` and `Result`.
- `js_values.dfy`: the JavaScript values the handlers receive, and the
  coercions the server applies to them: `toNumberOrNull`, `parseBool`,
  `String.prototype.trim` and `normalizeDeviceId`.
- `readings.dfy`: readings, and the validation half of the ingest handler.
- `sensor_queries.dfy`: functions over the stored readings, covering the
  filter, the window, the latest query and the history query, with their
  lemmas.
- `sensor_store.dfy`: the `SensorStore` class. Its fields are the
  module-level variables of the sensor half, and its methods are the handlers
  that change them.
- `todos.dfy`: the `Todo` and `TodoList` classes and the functions that
  specify their handlers.

Each handler becomes one member. That member returns an outcome datatype in
place of the HTTP status and JSON body. The Turkish messages of the ingest
route's 400 and 401 answers and of the to-do routes' 400 and 404 answers are
given as the exact strings the server sends. Several things outside the program become
parameters:

- clock readings (`new Date()`);
- the result of parsing a timestamp (`new Date(body.timestamp)`, `None` when
  invalid);
- the `x-device-key` header;
- the set of subscribers whose `res.write` throws.

## Model

| member | source | states |
|---|---|---|
| JsValues.ToNumberOrNull | src/server.js:35-39 | Undefined and non-finite values give null (None). Null gives 0 and booleans give 0/1. A finite number is kept as it is. |
| JsValues.ParseBool | src/server.js:28-33 | Undefined gives "unset". Only the exact strings "true" and "false" give booleans. Every other value is invalid. |
| JsValues.Trim | src/server.js:43 | The result is a contiguous slice of the input. Every character outside the slice is JS whitespace. A non-empty result has no whitespace at either end. The result is empty exactly when the input is all whitespace. |
| JsValues.TrimIdempotent | src/server.js:43 | Trimming twice gives the same as trimming once. |
| JsValues.TrimOfTrimmed | src/server.js:43 | A non-empty string with no whitespace at either end is unchanged by trim. |
| JsValues.NormalizeDeviceId | src/server.js:41-45 | Null exactly for non-strings and blank strings. Otherwise the trimmed, non-empty string, with no whitespace at either end. |
| Readings.CollectedMetrics | src/server.js:117-133 | Fails exactly when some present field is non-numeric, and reports the first such metric in order. On success, the keys are exactly the present fields and each value is that field's number. soundLevel falls back to `sound` when it is null or undefined. |
| Readings.CollectMetrics | src/server.js:126-133 | The handler's loop, which skips undefined fields and returns at the first non-numeric one, gives exactly `CollectedMetrics`. |
| Readings.FailureIsFinal | src/server.js:129-131 | Once the loop has failed on a prefix of the fields, the later fields do not change the outcome. |
| Readings.Message | src/server.js:130 | The non-numeric message begins with the metric's JSON key. |
| Readings.MetricOrderComplete | src/server.js:118-124 | The metric list names all five metrics, each exactly once. |
| Readings.Validate | src/server.js:110-147 | The handler's checks as one definition. An accepted body has the normalised device id and at least one metric. The Validate lemmas below give each error case. |
| Readings.CheckIngestBody | src/server.js:110-147 | The handler's checks, with their early returns, agree with `Validate` on every body. |
| Readings.ValidateDeviceIdFirst | src/server.js:111-115 | "deviceId zorunludur" is returned exactly when the device id normalises to null, before any other check. |
| Readings.ValidateFirstNonNumeric | src/server.js:117-133 | With a usable device id, a field is reported non-numeric exactly when one is. The one reported is the first non-numeric field in the order temperature, humidity, soundLevel, pressure, battery. |
| Readings.ValidateNoMetrics | src/server.js:135-139 | "At least one metric" is returned exactly when the device id is usable and all five fields are undefined. |
| Readings.ValidateTimestampLast | src/server.js:141-147 | An invalid timestamp is reported exactly when everything else is valid, the timestamp is present and it does not parse. |
| Readings.ValidateAccepted | src/server.js:141-155 | An accepted body yields the normalised device id and a non-empty metrics map holding exactly the present fields with their numbers. It has no non-numeric field. The measured time is the parsed timestamp, or the clock when the timestamp is absent. |
| SensorQueries.LastN | src/server.js:59-62 | Keeps min(n, length) elements. The input is unchanged when it already fits. The result is always a suffix of the input. |
| SensorQueries.LatestIndex | src/server.js:51-54 | Gives a matching index with no later match, or -1. |
| SensorQueries.LatestMatching | src/server.js:47-57 | Null exactly when no reading matches. Without a filter, the last reading. Otherwise a stored reading that matches. |
| SensorQueries.Filtered | src/server.js:94-96 | Every kept reading matches. Without a filter, the readings are kept unchanged. |
| SensorQueries.FilteredMembers | src/server.js:94-96 | A reading is in the filtered sequence exactly when it is stored and matches. |
| SensorQueries.FilteredInOrder | src/server.js:94-96 | `filter` keeps store order: a matching reading sits in the filtered sequence right after the matching readings stored before it. |
| SensorQueries.FilteredSubMultiset | src/server.js:94-96 | `filter` never repeats a reading: the kept readings are a sub-multiset of the store. |
| SensorQueries.History | src/server.js:94-98 | `filtered.slice(-limit).reverse()`: never longer than the limit or the store. Its exact shape is proved by `HistoryShape`. |
| SensorQueries.Reversed | src/server.js:98 | Same length, and element k is element n-1-k of the input. |
| SensorQueries.Trunc | src/server.js:91 | `Math.trunc`: rounds toward zero, to within 1 of the input. |
| SensorQueries.SafeLimit | src/server.js:88-92 | Always in [1, 500]. 100 when the limit is absent or not finite. Otherwise the truncated value clamped to 1 from below and to 500 from above. |
| SensorQueries.HistoryShape | src/server.js:86-99 | The history holds min(limit, matching count) readings. All of them match, and they are the newest matching readings, newest first. |
| SensorQueries.NewestFirst | src/server.js:98 | `slice(-n).reverse()` lists the last n elements from the newest down. |
| SensorQueries.LatestIsLastFiltered | src/server.js:47-57 | The latest query returns the last element of the filtered sequence, or null when that sequence is empty. |
| SensorQueries.HistoryStartsWithLatest | src/server.js:86-99 | The history is empty exactly when the latest query finds nothing. Otherwise the history starts with the latest reading for the same filter. |
| SensorQueries.AppendedIsLatest | src/server.js:157-158 | After a push and a trim, the new reading is the latest reading overall and the latest for its own device. |
| SensorQueries.LatestSkipsOtherDevices | src/server.js:51-54 | A newer reading from another device does not change the latest reading for a device. |
| SensorQueries.AppendKeepsIdOrder | src/server.js:149-158 | Pushing a reading with the next id and then trimming keeps ids strictly increasing and below the advanced counter. |
| SensorServer.OutcomeMessage | src/server.js:78-146 | A message is sent exactly for the 400 and 401 answers: "Gecersiz x-device-key" for a wrong key, and the validation error's message for a 400. |
| SensorServer.Recipients | src/server.js:66-69 | A subscriber is a recipient exactly when it has no device filter or its filter equals the reading's device id. |
| SensorServer.SensorStore.constructor | src/server.js:24-26 | The store starts empty: the counter is 1 and there are no subscribers. |
| SensorServer.SensorStore.TrimHistory | src/server.js:59-62 | The readings become the newest `maxReadings` of themselves. |
| SensorServer.SensorStore.Latest | src/server.js:47-57 | The backward scan returns `LatestMatching`: null exactly when nothing matches, otherwise a matching reading with no later match. |
| SensorServer.SensorStore.HistoryResponse | src/server.js:86-99 | At most 500 readings, all stored, all matching the normalised device id. Exactly min(limit, matching count) of them, the newest matching readings, newest first, so the first one is the latest for that filter. |
| SensorServer.SensorStore.Subscribe | src/server.js:181-197 | Adds the subscriber with its normalised filter. Returns the latest matching reading, which is what is sent after "ready". |
| SensorServer.SensorStore.Disconnect | src/server.js:203-206 | Removes the subscriber. |
| SensorServer.SensorStore.Broadcast | src/server.js:64-76 | Delivered to exactly the matching subscribers whose write succeeds. Exactly the matching subscribers whose write fails are removed. |
| SensorServer.SensorStore.Ingest | src/server.js:78-161 | The key check of requireDeviceApiKey, then the ingest handler. A wrong key gives 401 and a validation failure gives 400 with `Validate`'s error; on either, nothing changes. On success: a reading with the old counter as its id, the counter advanced, the readings become the trimmed window ending in the new reading, the broadcast applied, and the store invariant kept. |
| SensorServer.SensorStore.Append | src/server.js:149-159 | Builds the reading from the draft with the next id, advances the counter, pushes, trims and broadcasts, keeping the store invariant. |
| SensorServer.SensorStore.Push | src/server.js:157-158 | The readings become `LastN(old + [reading], max)` and end with the reading. Ids stay increasing and below the counter. |
| Todos.Todo.constructor | src/server.js:250-255 | A to-do with the given id, title, flag and creation time. |
| Todos.TodoMessage | src/server.js:213-297 | The message of each to-do 400 or 404 answer. The title errors begin with "title alani" and the flag errors with "completed". |
| Todos.TodoMessagesDistinct | src/server.js:213-297 | Distinct to-do errors have distinct messages. In particular, POST's missing-title text differs from PUT's invalid-title text. |
| Todos.IndexOfId | src/server.js:228 | `find` by id: the first to-do with that id, or -1 when no to-do has it. |
| Todos.WithoutId | src/server.js:294 | Never longer than the list. Exactly as long exactly when no to-do has the id. |
| Todos.WithoutIdContents | src/server.js:294 | Keeps exactly the to-dos with another id. |
| Todos.WithCompleted | src/server.js:221 | Never longer than the list, and every kept to-do has the requested flag. |
| Todos.WithCompletedContents | src/server.js:221 | Keeps exactly the to-dos whose flag equals the query. |
| Todos.WithCompletedKeepsOrder | src/server.js:221 | Filtering by the flag keeps ids strictly increasing, so the kept to-dos stay in list order, each once. |
| Todos.WithCompletedOrdered | src/server.js:221 | Filtering by the flag keeps increasing ids increasing and above any lower bound they had. |
| Todos.WithoutIdKeepsOrder | src/server.js:294 | Filtering keeps ids strictly increasing. |
| Todos.WithoutIdOrdered | src/server.js:294 | Filtering keeps ids increasing and above any lower bound they had. |
| Todos.DeleteRemovesOne | src/server.js:291-298 | With distinct ids, deleting an existing id removes exactly one to-do. |
| Todos.WithoutIdUnchanged | src/server.js:294-297 | Filtering by an absent id returns the list itself, which is the 404 case. |
| Todos.ApplyUpdate | src/server.js:269-286 | An invalid given title gives 400 with the fields unchanged. Otherwise a given title is stored trimmed. Then a given non-boolean completed gives 400, and the new title stays applied. Success holds exactly when both given fields are valid, and only then is a given flag stored. |
| Todos.ApplyUpdateIdempotent | src/server.js:269-286 | Repeating an update that succeeded changes nothing more. |
| Todos.TodoList.constructor | src/server.js:14-22 | The seeded to-do 1, "Ilk gorev", not completed. The next id is 2. |
| Todos.TodoList.List | src/server.js:210-224 | 400 exactly when parseBool is invalid. All to-dos when the query is absent. Otherwise exactly the to-dos with that flag, in list order (ids increasing). |
| Todos.TodoList.Get | src/server.js:226-235 | A to-do whose id equals `Number(param)`, or 404 exactly when none has it. |
| Todos.TodoList.Create | src/server.js:237-259 | Succeeds exactly when the title is a non-blank string and completed is absent or boolean. A bad title gives 400 and is checked first. A non-boolean flag gives 400. On success: a fresh to-do with the next id, the trimmed title and the flag (default false), appended to the list, with the counter advanced. |
| Todos.TodoList.Update | src/server.js:261-289 | 404 when the id is absent, with nothing changed. Otherwise the found to-do's fields become `ApplyUpdate` of its old fields, even when a 400 follows, and every other to-do is unchanged. |
| Todos.TodoList.Delete | src/server.js:291-301 | The list becomes the to-dos with another id. 404 exactly when the list is unchanged. A successful delete removes exactly one to-do. |

## Left out

- Express wiring is not modelled: routing, CORS, the JSON body parser and its 32kb limit, static files, `/health`, and the 404 and 500 fallback handlers. A request body that is not an object (`req.body || {}`, and the destructuring of `req.body` in the to-do handlers) is not modelled.
- Server-sent events are not modelled at the byte level. The payload text, the headers, the "ready" event and the 25-second heartbeat timer are left out. `Subscribe` returns the reading sent after "ready".
- SensorServer.SensorStore.Subscribe: requires that the connection is not already subscribed. The server creates a new client object for every request, so it cannot be.
- SensorServer.SensorStore.Broadcast: the outcome does not depend on the order in which the set is visited. A write failure is given as the `failing` set, and the write's side effects on the socket are not modelled.
- `Number()` on strings and on arrays or objects is an oracle. Such a value carries the finite number it coerces to, or none (`JsValue.Str`, `JsValue.Composite`).
- `Date` parsing, clock reads and `toISOString` are oracles. Times are integers given as parameters (`parsedTimestamp`, `now`, `receivedAt`, `createdAt`).
- `PORT`, `DEVICE_API_KEY` and `MAX_SENSOR_READINGS` come from the environment and are constructor parameters. `SensorStore.constructor` requires `maxReadings >= 1`. `Number(env) || 1000` turns an absent, zero or non-numeric value into 1000, which the model covers. A negative, fractional or infinite (`Infinity`, `1e999`) `MAX_SENSOR_READINGS` is not modelled, because `maxReadings` is a natural number. The server slices differently for a negative or fractional value, and never trims for an infinite one.
- The latest route's 404 ("Sensor verisi bulunamadi") is the `None` answer of `Latest`. The JSON shape of a reading, with its metrics spread into the object, is a map from metric to number.
- SensorServer.SensorStore.Ingest: the reading counter is an unbounded integer. The source's `nextReadingId` is a JavaScript number, so `++` stops advancing at 2^53 and ids then repeat. The "ids strictly increase and stay below the counter" invariant (`Valid`, `AppendKeepsIdOrder`) holds only below that bound in the source.
- Todos.TodoList.Create: the to-do counter is an unbounded integer. The source's `nextTodoId` stops advancing at 2^53, after which ids repeat, so `TodoList.Valid`'s increasing ids hold only below that bound in the source.
- Strings are sequences of Unicode scalar values, while JavaScript strings are UTF-16 code units. A lone surrogate (`"\ud800"`) in `deviceId` or `title` cannot be represented. Equality and `trim` agree on every other string.
- Todos.TodoList.Update: the frame is stated per to-do object (`unchanged`). The list itself and the counter are not changed.
- `start()` and `app.listen` are not modelled.
- The tests and `scripts/smoke-ingest.js` are not modelled.
