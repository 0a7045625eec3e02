/**
 The state of one BIOS POST code component (`class BPC`) and the operations
 that change it outside the UART loops: the two sensor setters,
 `update_post_code`, and the two halves of the high-frequency rate controller.

 Calls into the sensor framework (`publish_state`, `set_has_state`) and into
 the scheduler's high-frequency requester are not executed; each operation
 returns them, in call order, as a log next to the new state.
 */
module Bpc {
  import opened U32
  import opened Optional
  import Formatter

  /** Identity of a sensor object the component was given; `None` is `nullptr`. */
  type SensorId = nat

  /** Every field of `class BPC`.  `highFrequency` is the requester's state:
      whether this component currently holds a high-frequency loop request. */
  datatype Component = Component(
    codeSensor: Option<SensorId>,
    textSensor: Option<SensorId>,
    highFrequency: bool,
    lastCode: byte,
    lastTimestamp: u32)

  /** A call the component makes into a sensor. */
  datatype SensorCall =
    | PublishCode(sensor: SensorId, code: byte)
    | PublishText(sensor: SensorId, text: string)
    | ClearState(sensor: SensorId)

  /** A call the component makes into its high-frequency loop requester. */
  datatype SchedulerRequest = StartHighFrequency | StopHighFrequency

  /** Milliseconds without a new code after which high-frequency polling ends. */
  const QuietPeriod: u32 := 200

  /** A freshly constructed component: no sensors, no request, code 0 at time 0. */
  const Initial: Component := Component(None, None, false, 0, 0)

  /** `set_post_code_sensor`: assigns the numeric sensor and nothing else. */
  function SetPostCodeSensor(c: Component, sensor: Option<SensorId>): (r: Component)
    ensures r.codeSensor == sensor
    ensures r.(codeSensor := c.codeSensor) == c
  {
    c.(codeSensor := sensor)
  }

  /** `set_post_code_text_sensor`: assigns the text sensor and nothing else. */
  function SetPostCodeTextSensor(c: Component, sensor: Option<SensorId>): (r: Component)
    ensures r.textSensor == sensor
    ensures r.(textSensor := c.textSensor) == c
  {
    c.(textSensor := sensor)
  }

  /** The two setters touch disjoint fields, so the order of configuration does not matter. */
  lemma SettersCommute(c: Component, code: Option<SensorId>, text: Option<SensorId>)
    ensures SetPostCodeSensor(SetPostCodeTextSensor(c, text), code)
         == SetPostCodeTextSensor(SetPostCodeSensor(c, code), text)
  {
  }

  /** The outcome of `update_post_code`: the new state, the delta it computed,
      and the sensor calls it made. */
  datatype Update = Update(state: Component, delta: u32, calls: seq<SensorCall>)

  function Configured(sensor: Option<SensorId>): nat {
    if sensor.Some? then 1 else 0
  }

  /** The sensor calls publishing one code: the numeric sensor first, then the text sensor. */
  function Publish(c: Component, code: byte, timestamp: u32, delta: u32): seq<SensorCall> {
    (if c.codeSensor.Some? then [PublishCode(c.codeSensor.value, code)] else [])
    + (if c.textSensor.Some?
       then [PublishText(c.textSensor.value, Formatter.FormatPostCode(code, timestamp, delta))]
       else [])
  }

  /** `update_post_code(code, timestamp)`.  The delta is the `uint32_t`
      difference to the previous timestamp, correct across wrap-around; the
      code and timestamp are recorded whether or not any sensor is configured,
      and no other field changes. */
  function UpdatePostCode(c: Component, code: byte, timestamp: u32): (u: Update)
    ensures u.state == c.(lastCode := code, lastTimestamp := timestamp)
    ensures WrapAdd(c.lastTimestamp, u.delta) == timestamp
    ensures |u.calls| == Configured(c.codeSensor) + Configured(c.textSensor)
    ensures c.codeSensor.Some? ==> u.calls[0] == PublishCode(c.codeSensor.value, code)
    ensures c.textSensor.Some? ==>
              && u.calls[|u.calls| - 1].PublishText?
              && u.calls[|u.calls| - 1].sensor == c.textSensor.value
              && Formatter.ParsePostCodeText(u.calls[|u.calls| - 1].text)
                 == Some(Formatter.Shown(code, u.delta))
  {
    var delta := WrapSub(timestamp, c.lastTimestamp);
    Formatter.ParseFormat(code, timestamp, delta);
    Update(c.(lastCode := code, lastTimestamp := timestamp), delta, Publish(c, code, timestamp, delta))
  }

  /** Two updates in a row: the second delta is the wrapped distance between
      the two timestamps, e.g. 4294967200 then 200 gives 296. */
  lemma ConsecutiveDeltas(c: Component, code1: byte, t1: u32, code2: byte, t2: u32)
    ensures var u1 := UpdatePostCode(c, code1, t1);
            var u2 := UpdatePostCode(u1.state, code2, t2);
            && u2.delta == WrapSub(t2, t1)
            && (t2 >= t1 ==> u2.delta == t2 - t1)
            && (t2 < t1 ==> u2.delta == t2 + Modulus - t1)
            && u2.state.lastCode == code2
            && u2.state.lastTimestamp == t2
  {
    var u1 := UpdatePostCode(c, code1, t1);
    var u2 := UpdatePostCode(u1.state, code2, t2);
    WrapSubUnique(t2, t1, u2.delta);
  }

  /** The wrap-around example: 96 ms before the counter wraps, then 200 ms after it. */
  lemma DeltaAcrossWrapExample(c: Component, code: byte)
    requires c.lastTimestamp == 4294967200
    ensures UpdatePostCode(c, code, 200).delta == 296
  {
    WrapSubUnique(200, 4294967200, UpdatePostCode(c, code, 200).delta);
  }

  /** The first code after construction is measured from time 0, so its delta is its own timestamp. */
  lemma FirstDeltaIsTimestamp(code: byte, timestamp: u32)
    ensures UpdatePostCode(Initial, code, timestamp).delta == timestamp
    ensures UpdatePostCode(Initial, code, timestamp).calls == []
  {
    WrapSubUnique(timestamp, 0, UpdatePostCode(Initial, code, timestamp).delta);
  }

  /** Activity on the UART: the requester is started unless it already
      reports high frequency, so activity is idempotent. */
  function MarkActivity(c: Component): (r: (Component, seq<SchedulerRequest>))
    ensures r.0.highFrequency
    ensures r.0.(highFrequency := c.highFrequency) == c
    ensures StartHighFrequency in r.1 <==> !c.highFrequency
    ensures |r.1| <= 1 && StopHighFrequency !in r.1
  {
    if c.highFrequency then (c, []) else (c.(highFrequency := true), [StartHighFrequency])
  }

  /** A second burst of activity changes nothing and requests nothing. */
  lemma MarkActivityIdempotent(c: Component)
    ensures MarkActivity(MarkActivity(c).0) == (MarkActivity(c).0, [])
  {
  }

  /** The end-of-loop test: the final reading is above the last code's
      timestamp plus 200, the `uint32_t` sum wrapping as written. */
  predicate QuietPeriodOver(lastTimestamp: u32, endTs: u32) {
    endTs > WrapAdd(lastTimestamp, QuietPeriod)
  }

  /** End of `loop()`: the request is released when the quiet period is over
      and it is held; otherwise nothing changes. */
  function ReleaseIfQuiet(c: Component, endTs: u32): (r: (Component, seq<SchedulerRequest>))
    ensures r.0.(highFrequency := c.highFrequency) == c
    ensures r.0.highFrequency <==> c.highFrequency && !QuietPeriodOver(c.lastTimestamp, endTs)
    ensures StopHighFrequency in r.1 <==> c.highFrequency && !r.0.highFrequency
    ensures |r.1| <= 1 && StartHighFrequency !in r.1
  {
    if QuietPeriodOver(c.lastTimestamp, endTs) && c.highFrequency
    then (c.(highFrequency := false), [StopHighFrequency])
    else (c, [])
  }

  /** Away from the wrap point the test means "more than 200 ms have passed
      since the last code": the release comes at the first end-of-loop
      reading 201 ms or more after the last code, and not before. */
  lemma QuietPeriodAwayFromWrap(lastTimestamp: u32, endTs: u32)
    requires lastTimestamp + QuietPeriod < Modulus
    requires endTs >= lastTimestamp
    ensures QuietPeriodOver(lastTimestamp, endTs) <==> WrapSub(endTs, lastTimestamp) > QuietPeriod
  {
  }

  /** As written, the sum wraps when the last code arrived in the final
      200 ms before the counter wraps: the test then holds at once, so the
      request is released without waiting for the quiet period. */
  lemma QuietPeriodNearWrap(lastTimestamp: u32, endTs: u32)
    requires lastTimestamp + QuietPeriod >= Modulus
    requires endTs >= lastTimestamp
    ensures QuietPeriodOver(lastTimestamp, endTs)
    ensures endTs == lastTimestamp ==> WrapSub(endTs, lastTimestamp) <= QuietPeriod
  {
  }

  /** As written, once the counter has wrapped past a last code taken well
      before the wrap point, the test fails until the counter climbs back
      above that code's timestamp plus 200, however long ago it arrived. */
  lemma QuietPeriodAfterWrap(lastTimestamp: u32, endTs: u32)
    requires lastTimestamp + QuietPeriod < Modulus
    requires endTs < lastTimestamp
    ensures !QuietPeriodOver(lastTimestamp, endTs)
  {
  }

  /** Once the counter has wrapped past a last code from the final 200 ms
      before the wrap, the wrapped sum is correct again: the test holds
      exactly when more than 200 ms have passed since that code. */
  lemma QuietPeriodWrappedAfterWrap(lastTimestamp: u32, endTs: u32)
    requires lastTimestamp + QuietPeriod >= Modulus
    requires endTs < lastTimestamp
    ensures QuietPeriodOver(lastTimestamp, endTs) <==> WrapSub(endTs, lastTimestamp) > QuietPeriod
  {
  }

  /** As written, a last code taken exactly 201 ms before the wrap makes the
      bound the largest `uint32_t`, so no reading ever passes the test: the
      high-frequency request is held until the next code arrives. */
  lemma QuietPeriodNeverOver(endTs: u32)
    ensures !QuietPeriodOver(Modulus - 201, endTs)
  {
  }
}
