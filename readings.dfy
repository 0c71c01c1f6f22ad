/**
 * Sensor readings and the validation half of the ingest handler
 * (POST /api/v1/sensors/ingest in src/server.js): device id, the five
 * recognised metrics in their fixed order, the "at least one metric" rule
 * and the timestamp.
 */
module Readings {
  import opened Wrappers
  import opened JsValues

  datatype Metric = Temperature | Humidity | SoundLevel | Pressure | Battery

  /** The JSON key under which a metric is stored and reported. */
  function MetricName(m: Metric): string {
    match m
    case Temperature => "temperature"
    case Humidity => "humidity"
    case SoundLevel => "soundLevel"
    case Pressure => "pressure"
    case Battery => "battery"
  }

  /** The order in which the handler examines the metric fields. */
  const MetricOrder: seq<Metric> := [Temperature, Humidity, SoundLevel, Pressure, Battery]

  /** A stored reading; `metrics` holds the metric keys spread into the JSON object. */
  datatype Reading = Reading(
    id: int,
    deviceId: string,
    metrics: map<Metric, real>,
    timestamp: Time,
    receivedAt: Time)

  /** The fields of a request body the handler looks at; a missing field is Undefined. */
  datatype IngestBody = IngestBody(
    deviceId: JsValue,
    temperature: JsValue,
    humidity: JsValue,
    soundLevel: JsValue,
    sound: JsValue,
    pressure: JsValue,
    battery: JsValue,
    timestamp: JsValue)

  /** The value examined for a metric; soundLevel falls back to `sound` when null or undefined (`??`). */
  function FieldFor(body: IngestBody, m: Metric): JsValue {
    match m
    case Temperature => body.temperature
    case Humidity => body.humidity
    case SoundLevel => if body.soundLevel.Undefined? || body.soundLevel.Null? then body.sound else body.soundLevel
    case Pressure => body.pressure
    case Battery => body.battery
  }

  /** A metric field that is present but does not coerce to a finite number. */
  predicate NonNumeric(body: IngestBody, m: Metric) {
    !FieldFor(body, m).Undefined? && ToNumberOrNull(FieldFor(body, m)).None?
  }

  /**
   * The metrics object the handler's loop builds from the fields named by ms,
   * in that order, or the first metric whose field is present and not numeric.
   */
  function CollectedMetrics(body: IngestBody, ms: seq<Metric>): (r: Result<map<Metric, real>, Metric>)
    ensures r.Failure? <==> exists i :: 0 <= i < |ms| && NonNumeric(body, ms[i])
    ensures r.Failure? ==> NonNumeric(body, r.error)
    ensures r.Failure? ==> exists i :: 0 <= i < |ms| && ms[i] == r.error && forall j :: 0 <= j < i ==> !NonNumeric(body, ms[j])
    ensures r.Success? ==> forall m :: m in r.value <==> m in ms && !FieldFor(body, m).Undefined?
    ensures r.Success? ==> forall m :: m in r.value ==> ToNumberOrNull(FieldFor(body, m)) == Some(r.value[m])
  {
    if ms == [] then Success(map[])
    else
      var m := ms[|ms| - 1];
      var v := FieldFor(body, m);
      match CollectedMetrics(body, ms[..|ms| - 1])
      case Failure(bad) =>
        Failure(bad)
      case Success(metrics) =>
        if v.Undefined? then Success(metrics)
        else if ToNumberOrNull(v).None? then Failure(m)
        else Success(metrics[m := ToNumberOrNull(v).value])
  }

  /**
   * The handler's `for...of` loop over the metric fields: skip an undefined
   * field, stop at the first non-numeric one, record the others.
   */
  method CollectMetrics(body: IngestBody, ms: seq<Metric>) returns (r: Result<map<Metric, real>, Metric>)
    ensures r == CollectedMetrics(body, ms)
  {
    var metrics := map[];
    var i := 0;
    while i < |ms|
      invariant 0 <= i <= |ms|
      invariant CollectedMetrics(body, ms[..i]) == Success(metrics)
    {
      var m := ms[i];
      var v := FieldFor(body, m);
      assert ms[..i + 1][..i] == ms[..i];
      if !v.Undefined? {
        var number := ToNumberOrNull(v);
        if number.None? {
          assert CollectedMetrics(body, ms[..i + 1]) == Failure(m);
          FailureIsFinal(body, ms, i + 1);
          return Failure(m);
        }
        metrics := metrics[m := number.value];
      }
      i := i + 1;
    }
    assert ms[..i] == ms;
    r := Success(metrics);
  }

  /** Once a prefix of the fields has failed, every longer prefix fails with the same metric. */
  lemma {:induction false} FailureIsFinal(body: IngestBody, ms: seq<Metric>, k: nat)
    requires k <= |ms| && CollectedMetrics(body, ms[..k]).Failure?
    ensures CollectedMetrics(body, ms) == CollectedMetrics(body, ms[..k])
    decreases |ms| - k
  {
    if k < |ms| {
      assert ms[..k + 1][..k] == ms[..k];
      FailureIsFinal(body, ms, k + 1);
    } else {
      assert ms[..k] == ms;
    }
  }

  /** Why an ingest request is rejected with 400. */
  datatype IngestError = MissingDeviceId | NotNumeric(field: Metric) | NoMetrics | BadTimestamp

  /** The message of the 400 response. */
  function Message(e: IngestError): (msg: string)
    ensures e.NotNumeric? ==> |MetricName(e.field)| <= |msg| && msg[..|MetricName(e.field)|] == MetricName(e.field)
  {
    match e
    case MissingDeviceId => "deviceId zorunludur"
    case NotNumeric(m) => MetricName(m) + " numeric olmalidir"
    case NoMetrics => "En az bir sensor alani gonderilmelidir"
    case BadTimestamp => "timestamp gecersiz"
  }

  /** What a valid request contributes to the reading; id and receivedAt are added by the store. */
  datatype Draft = Draft(deviceId: string, metrics: map<Metric, real>, measuredAt: Time)

  /** Every metric is examined: MetricOrder lists all five, each once. */
  lemma MetricOrderComplete()
    ensures forall m :: m in MetricOrder
    ensures forall i, j :: 0 <= i < j < |MetricOrder| ==> MetricOrder[i] != MetricOrder[j]
  {
    forall m ensures m in MetricOrder {
      match m
      case Temperature => assert MetricOrder[0] == m;
      case Humidity => assert MetricOrder[1] == m;
      case SoundLevel => assert MetricOrder[2] == m;
      case Pressure => assert MetricOrder[3] == m;
      case Battery => assert MetricOrder[4] == m;
    }
  }

  /**
   * The checks of the ingest handler in their order. `parsedTimestamp` is what
   * `new Date(body.timestamp)` gives (None for an invalid date) and `now` the
   * clock read for `new Date()`.
   */
  function Validate(body: IngestBody, parsedTimestamp: Option<Time>, now: Time): (r: Result<Draft, IngestError>)
    ensures r.Success? ==> Some(r.value.deviceId) == NormalizeDeviceId(body.deviceId) && r.value.metrics != map[]
  {
    var deviceId := NormalizeDeviceId(body.deviceId);
    if deviceId.None? then Failure(MissingDeviceId)
    else
      match CollectedMetrics(body, MetricOrder)
      case Failure(m) => Failure(NotNumeric(m))
      case Success(metrics) =>
        if |metrics| == 0 then Failure(NoMetrics)
        else if !body.timestamp.Undefined? && parsedTimestamp.None? then Failure(BadTimestamp)
        else
          var measuredAt := if body.timestamp.Undefined? then now else parsedTimestamp.value;
          Success(Draft(deviceId.value, metrics, measuredAt))
  }

  /**
   * The handler's checks as it performs them, with early returns; agrees with
   * Validate on every body.
   */
  method CheckIngestBody(body: IngestBody, parsedTimestamp: Option<Time>, now: Time)
    returns (r: Result<Draft, IngestError>)
    ensures r == Validate(body, parsedTimestamp, now)
  {
    var deviceId := NormalizeDeviceId(body.deviceId);
    if deviceId.None? {
      return Failure(MissingDeviceId);
    }
    var collected := CollectMetrics(body, MetricOrder);
    if collected.Failure? {
      return Failure(NotNumeric(collected.error));
    }
    var metrics := collected.value;
    if |metrics| == 0 {
      return Failure(NoMetrics);
    }
    var measuredAt := now;
    if !body.timestamp.Undefined? {
      if parsedTimestamp.None? {
        return Failure(BadTimestamp);
      }
      measuredAt := parsedTimestamp.value;
    }
    r := Success(Draft(deviceId.value, metrics, measuredAt));
  }

  /** A blank or missing deviceId is the first thing rejected, and only it gives this error. */
  lemma ValidateDeviceIdFirst(body: IngestBody, parsedTimestamp: Option<Time>, now: Time)
    ensures Validate(body, parsedTimestamp, now) == Failure(MissingDeviceId)
        <==> NormalizeDeviceId(body.deviceId).None?
  {
  }

  /**
   * With a usable deviceId, a field is reported non-numeric exactly when some
   * present field is non-numeric, and the one reported is the first such in
   * the order temperature, humidity, soundLevel (or sound), pressure, battery.
   */
  lemma ValidateFirstNonNumeric(body: IngestBody, parsedTimestamp: Option<Time>, now: Time)
    requires NormalizeDeviceId(body.deviceId).Some?
    ensures var r := Validate(body, parsedTimestamp, now);
      && (r.Failure? && r.error.NotNumeric? <==> exists m :: NonNumeric(body, m))
      && (r.Failure? && r.error.NotNumeric? ==>
            && NonNumeric(body, r.error.field)
            && exists i :: 0 <= i < |MetricOrder| && MetricOrder[i] == r.error.field &&
                 forall j :: 0 <= j < i ==> !NonNumeric(body, MetricOrder[j]))
  {
    MetricOrderComplete();
  }

  /** "At least one metric" is checked after the numeric checks and before the timestamp. */
  lemma {:induction false} ValidateNoMetrics(body: IngestBody, parsedTimestamp: Option<Time>, now: Time)
    ensures Validate(body, parsedTimestamp, now) == Failure(NoMetrics)
        <==> NormalizeDeviceId(body.deviceId).Some? && forall m :: FieldFor(body, m).Undefined?
  {
    MetricOrderComplete();
    var r := CollectedMetrics(body, MetricOrder);
    if NormalizeDeviceId(body.deviceId).Some? && forall m :: FieldFor(body, m).Undefined? {
      assert forall m :: !NonNumeric(body, m);
      assert r.Success?;
      assert r.value.Keys == {};
    }
  }

  /** The timestamp is checked last: only a present, unparseable timestamp of an otherwise valid body fails it. */
  lemma ValidateTimestampLast(body: IngestBody, parsedTimestamp: Option<Time>, now: Time)
    ensures Validate(body, parsedTimestamp, now) == Failure(BadTimestamp)
        <==> && NormalizeDeviceId(body.deviceId).Some?
             && CollectedMetrics(body, MetricOrder).Success?
             && |CollectedMetrics(body, MetricOrder).value| > 0
             && !body.timestamp.Undefined? && parsedTimestamp.None?
  {
  }

  /** What an accepted body yields: the trimmed device id, every present metric as its number, the measured time. */
  lemma {:induction false} ValidateAccepted(body: IngestBody, parsedTimestamp: Option<Time>, now: Time)
    requires Validate(body, parsedTimestamp, now).Success?
    ensures var d := Validate(body, parsedTimestamp, now).value;
      && Some(d.deviceId) == NormalizeDeviceId(body.deviceId)
      && d.metrics != map[]
      && (forall m :: m in d.metrics <==> !FieldFor(body, m).Undefined?)
      && (forall m :: m in d.metrics ==> ToNumberOrNull(FieldFor(body, m)) == Some(d.metrics[m]))
      && !(exists m :: NonNumeric(body, m))
      && d.measuredAt == (if body.timestamp.Undefined? then now else parsedTimestamp.value)
  {
    MetricOrderComplete();
    var r := CollectedMetrics(body, MetricOrder);
    assert r.Success?;
  }
}
