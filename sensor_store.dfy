/**
 * The sensor half of src/server.js as one owned object: the module-level
 * `nextReadingId`, `sensorReadings` and `sensorStreamClients` become fields
 * of a SensorStore, and the handlers that touch them become its methods.
 */
module SensorServer {
  import opened Wrappers
  import opened JsValues
  import opened Readings
  import opened SensorQueries

  /**
   * A live stream connection. `conn` stands for the identity of the response
   * object; `filter` is the normalised deviceId query parameter.
   */
  datatype Subscriber = Subscriber(conn: nat, filter: Option<string>)

  /** The subscribers a reading is written to: those whose filter it passes. */
  function Recipients(clients: set<Subscriber>, deviceId: string): (r: set<Subscriber>)
    ensures r <= clients
    ensures forall c :: c in clients ==> (c in r <==> !HasFilter(c.filter) || c.filter.value == deviceId)
  {
    set c | c in clients && Matches(c.filter, deviceId)
  }

  /** The outcome of the ingest route, in place of its HTTP responses (201, 400, 401). */
  datatype IngestOutcome = Created(reading: Reading) | BadRequest(error: IngestError) | Unauthorized

  /** The message of a rejected key (requireDeviceApiKey's 401 answer). */
  const UnauthorizedMessage := "Gecersiz x-device-key"

  /** The `message` of the JSON answer: present exactly for the 400 and 401 answers; a 201 sends the reading. */
  function OutcomeMessage(o: IngestOutcome): (msg: Option<string>)
    ensures msg.None? <==> o.Created?
    ensures o.Unauthorized? ==> msg == Some(UnauthorizedMessage)
    ensures o.BadRequest? ==> msg == Some(Message(o.error))
  {
    match o
    case Created(_) => None
    case BadRequest(e) => Some(Message(e))
    case Unauthorized => Some(UnauthorizedMessage)
  }

  class SensorStore {
    /** MAX_SENSOR_READINGS. */
    const maxReadings: nat
    /** DEVICE_API_KEY, compared with the x-device-key header. */
    const deviceApiKey: string
    var nextReadingId: int
    var readings: seq<Reading>
    var clients: set<Subscriber>

    ghost predicate Valid()
      reads this
    {
      && maxReadings >= 1
      && |readings| <= maxReadings
      && IdsIncreasing(readings)
      && IdsBelow(readings, nextReadingId)
    }

    /** Process start: an empty store whose first reading gets id 1, and no subscribers. */
    constructor (maxReadings: nat, deviceApiKey: string)
      requires maxReadings >= 1
      ensures Valid()
      ensures this.maxReadings == maxReadings && this.deviceApiKey == deviceApiKey
      ensures nextReadingId == 1 && readings == [] && clients == {}
    {
      this.maxReadings := maxReadings;
      this.deviceApiKey := deviceApiKey;
      nextReadingId := 1;
      readings := [];
      clients := {};
    }

    /** trimSensorHistory: keep the newest maxReadings readings, dropping the oldest. */
    method TrimHistory()
      modifies this`readings
      ensures readings == LastN(old(readings), maxReadings)
    {
      if |readings| <= maxReadings {
        return;
      }
      readings := readings[|readings| - maxReadings..];
    }

    /**
     * getLatestSensorReading: without a filter the last reading; with one, a
     * scan from the newest reading down to the oldest for the first that matches.
     */
    method Latest(filter: Option<string>) returns (r: Option<Reading>)
      ensures r == LatestMatching(readings, filter)
      ensures r.None? <==> forall j :: 0 <= j < |readings| ==> !Matches(filter, readings[j].deviceId)
      ensures r.Some? ==>
        exists i :: && 0 <= i < |readings| && readings[i] == r.value
                    && Matches(filter, r.value.deviceId)
                    && forall j :: i < j < |readings| ==> !Matches(filter, readings[j].deviceId)
    {
      if |readings| == 0 {
        return None;
      }
      if !HasFilter(filter) {
        return Some(readings[|readings| - 1]);
      }
      var index := |readings| - 1;
      while index >= 0
        invariant -1 <= index < |readings|
        invariant LatestIndex(readings, filter) == LatestIndex(readings[..index + 1], filter)
      {
        var reading := readings[index];
        if reading.deviceId == filter.value {
          assert readings[..index + 1][..index + 1] == readings[..index + 1];
          return Some(reading);
        }
        assert readings[..index + 1][..index] == readings[..index];
        index := index - 1;
      }
      return None;
    }

    /** createHistoryResponse: the request's deviceId and limit applied to the current store. */
    function HistoryResponse(rawDeviceId: JsValue, rawLimit: JsValue): (h: seq<Reading>)
      reads this
      ensures |h| <= MaxHistoryLimit && |h| <= |readings|
      ensures forall k :: 0 <= k < |h| ==> h[k] in readings && Matches(NormalizeDeviceId(rawDeviceId), h[k].deviceId)
      ensures h != [] ==> LatestMatching(readings, NormalizeDeviceId(rawDeviceId)) == Some(h[0])
      ensures var f := Filtered(readings, NormalizeDeviceId(rawDeviceId));
        && |h| == (if SafeLimit(rawLimit) < |f| then SafeLimit(rawLimit) else |f|)
        && forall k :: 0 <= k < |h| ==> h[k] == f[|f| - 1 - k]
    {
      var filter := NormalizeDeviceId(rawDeviceId);
      var limit := SafeLimit(rawLimit);
      HistoryShape(readings, filter, limit);
      FilteredMembers(readings, filter);
      HistoryStartsWithLatest(readings, filter, limit);
      History(readings, filter, limit)
    }

    /**
     * The registration part of GET /api/v1/sensors/stream: add the connection
     * with its filter and return the reading sent right after "ready", if any.
     */
    method Subscribe(conn: nat, rawDeviceId: JsValue) returns (initial: Option<Reading>)
      requires Valid()
      requires forall c :: c in clients ==> c.conn != conn
      modifies this`clients
      ensures Valid()
      ensures clients == old(clients) + {Subscriber(conn, NormalizeDeviceId(rawDeviceId))}
      ensures initial == LatestMatching(readings, NormalizeDeviceId(rawDeviceId))
    {
      var filter := NormalizeDeviceId(rawDeviceId);
      clients := clients + {Subscriber(conn, filter)};
      initial := Latest(filter);
    }

    /** The teardown on "close": the connection leaves the set. */
    method Disconnect(client: Subscriber)
      requires Valid()
      modifies this`clients
      ensures Valid()
      ensures clients == old(clients) - {client}
    {
      clients := clients - {client};
    }

    /**
     * sendSensorUpdateToStreams: write the reading to every subscriber it
     * matches; a subscriber whose write throws (one in `failing`) is removed.
     * Returns the subscribers the event reached.
     */
    method Broadcast(reading: Reading, failing: set<Subscriber>) returns (delivered: set<Subscriber>)
      requires Valid()
      modifies this`clients
      ensures Valid()
      ensures delivered == Recipients(old(clients), reading.deviceId) - failing
      ensures clients == old(clients) - (Recipients(old(clients), reading.deviceId) * failing)
    {
      ghost var targets := Recipients(clients, reading.deviceId);
      var pending := clients;
      delivered := {};
      while pending != {}
        invariant pending <= old(clients)
        invariant delivered == (targets - pending) - failing
        invariant clients == old(clients) - ((targets - pending) * failing)
        decreases pending
      {
        var client :| client in pending;
        pending := pending - {client};
        if HasFilter(client.filter) && client.filter.value != reading.deviceId {
          continue;
        }
        if client in failing {
          clients := clients - {client};
        } else {
          delivered := delivered + {client};
        }
      }
    }

    /**
     * POST /api/v1/sensors/ingest: the key check, then validation, then a new
     * reading with the next id appended, the history trimmed and the reading
     * broadcast. `key` is the x-device-key header; `parsedTimestamp`, `now` and
     * `receivedAt` are the results of the Date calls; `failing` the subscribers
     * whose write throws.
     */
    method Ingest(key: Option<string>, body: IngestBody, parsedTimestamp: Option<Time>,
                  now: Time, receivedAt: Time, failing: set<Subscriber>)
      returns (outcome: IngestOutcome, delivered: set<Subscriber>)
      requires Valid()
      modifies this`readings, this`nextReadingId, this`clients
      ensures Valid()
      ensures key != Some(deviceApiKey) ==> outcome == Unauthorized
      ensures key == Some(deviceApiKey) ==>
        match Validate(body, parsedTimestamp, now)
        case Failure(e) => outcome == BadRequest(e)
        case Success(d) => outcome == Created(Reading(old(nextReadingId), d.deviceId, d.metrics, d.measuredAt, receivedAt))
      ensures !outcome.Created? ==>
        && readings == old(readings) && nextReadingId == old(nextReadingId)
        && clients == old(clients) && delivered == {}
      ensures outcome.Created? ==>
        && outcome.reading.id == old(nextReadingId)
        && nextReadingId == old(nextReadingId) + 1
        && readings == LastN(old(readings) + [outcome.reading], maxReadings)
        && readings[|readings| - 1] == outcome.reading
        && delivered == Recipients(old(clients), outcome.reading.deviceId) - failing
        && clients == old(clients) - (Recipients(old(clients), outcome.reading.deviceId) * failing)
    {
      delivered := {};
      if key != Some(deviceApiKey) {
        return Unauthorized, delivered;
      }
      var checked := CheckIngestBody(body, parsedTimestamp, now);
      if checked.Failure? {
        return BadRequest(checked.error), delivered;
      }
      var reading;
      reading, delivered := Append(checked.value, receivedAt, failing);
      outcome := Created(reading);
    }

    /**
     * The success path of the ingest handler: the reading takes the next id,
     * is pushed, the history is trimmed and the reading is broadcast.
     */
    method Append(d: Draft, receivedAt: Time, failing: set<Subscriber>)
      returns (reading: Reading, delivered: set<Subscriber>)
      requires Valid()
      modifies this`readings, this`nextReadingId, this`clients
      ensures Valid()
      ensures reading == Reading(old(nextReadingId), d.deviceId, d.metrics, d.measuredAt, receivedAt)
      ensures nextReadingId == old(nextReadingId) + 1
      ensures readings == LastN(old(readings) + [reading], maxReadings)
      ensures readings[|readings| - 1] == reading
      ensures delivered == Recipients(old(clients), reading.deviceId) - failing
      ensures clients == old(clients) - (Recipients(old(clients), reading.deviceId) * failing)
    {
      reading := Reading(nextReadingId, d.deviceId, d.metrics, d.measuredAt, receivedAt);
      nextReadingId := nextReadingId + 1;
      Push(reading);
      delivered := Broadcast(reading, failing);
    }

    /** `sensorReadings.push(reading)` followed by trimSensorHistory. */
    method Push(reading: Reading)
      requires maxReadings >= 1
      requires IdsIncreasing(readings) && IdsBelow(readings, reading.id) && reading.id + 1 == nextReadingId
      modifies this`readings
      ensures Valid()
      ensures readings == LastN(old(readings) + [reading], maxReadings)
      ensures readings[|readings| - 1] == reading
    {
      AppendKeepsIdOrder(readings, reading, reading.id, maxReadings);
      readings := readings + [reading];
      TrimHistory();
    }
  }
}
