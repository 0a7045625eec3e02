/**
 The two UART loops of the component, `BPC::setup` and `BPC::loop`.

 The UART is a finite sequence of `read_byte` attempts: `available() > 0`
 holds while attempts remain, each loop iteration consumes exactly one, and
 an attempt either delivers a byte or reports failure.  `millis()` is the
 sequence of readings it returns, consumed one per call in the order the
 source makes the calls (the budget test is only evaluated when a byte is
 available).  Nothing is assumed about the readings: they may wrap, and they
 need not even increase.
 */
module BpcLoop {
  import opened U32
  import opened Bpc

  /** One `read_byte` attempt: the byte it delivered and whether it reported success. */
  datatype RxItem = RxItem(data: byte, ok: bool)

  /** Milliseconds each loop may keep draining the UART. */
  const Budget: u32 := 100

  /** The loop test: a fresh reading is below the start reading plus 100,
      the `uint32_t` sum wrapping as written. */
  predicate WithinBudget(startTs: u32, now: u32) {
    now < WrapAdd(startTs, Budget)
  }

  /** Away from the wrap point the budget test means "under 100 ms since the loop started". */
  lemma WithinBudgetAwayFromWrap(startTs: u32, now: u32)
    requires startTs + Budget < Modulus
    requires now >= startTs
    ensures WithinBudget(startTs, now) <==> WrapSub(now, startTs) < Budget
  {
  }

  /** As written, a loop started in the last 100 ms before the counter wraps
      reads nothing when its first test's reading is also taken before the
      wrap: the wrapped bound is already below the clock. */
  lemma WithinBudgetNearWrap(startTs: u32, now: u32)
    requires startTs + Budget >= Modulus
    requires now >= startTs
    ensures !WithinBudget(startTs, now)
  {
  }

  /** Once the counter has wrapped past a start taken in the last 100 ms
      before the wrap, the wrapped bound is correct again: the test passes
      exactly while under 100 ms have passed since the loop started. */
  lemma WithinBudgetAfterWrap(startTs: u32, now: u32)
    requires startTs + Budget >= Modulus
    requires now < startTs
    ensures WithinBudget(startTs, now) <==> WrapSub(now, startTs) < Budget
  {
  }

  // ---------------------------------------------------------------------------
  // BPC::setup

  /** The outcome of `setup()`: the state, the number of bytes it cleared
      (a `uint32_t` counter), the sensor calls, and the unread UART and clock. */
  datatype SetupOutcome = SetupOutcome(
    state: Component,
    discarded: u32,
    calls: seq<SensorCall>,
    rx: seq<RxItem>,
    clock: seq<u32>)

  /** `setup()`: marks the numeric sensor as having no state, then discards
      what the UART holds for up to 100 ms.  No byte is forwarded, so the
      last code and timestamp are untouched; the count is the number of read
      attempts, successful or not, modulo 2^32.  Reads clock[0] as the start
      and one reading per budget test. */
  method Setup(c: Component, rx: seq<RxItem>, clock: seq<u32>) returns (r: SetupOutcome)
    requires |clock| >= |rx| + 1
    ensures r.state == c
    ensures r.calls == if c.codeSensor.Some? then [ClearState(c.codeSensor.value)] else []
    ensures |r.rx| <= |rx| && r.rx == rx[|rx| - |r.rx|..]
    ensures var k := |rx| - |r.rx|;
            && (forall j :: 1 <= j <= k ==> WithinBudget(clock[0], clock[j]))
            && (k < |rx| ==> !WithinBudget(clock[0], clock[k + 1]))
            && r.discarded == k % Modulus
            && r.clock == clock[if k < |rx| then k + 2 else k + 1..]
  {
    var startTs := clock[0];
    var calls := if c.codeSensor.Some? then [ClearState(c.codeSensor.value)] else [];
    var count: u32 := 0;
    var i := 0;
    while i < |rx| && WithinBudget(startTs, clock[i + 1])
      invariant 0 <= i <= |rx|
      invariant forall j :: 1 <= j <= i ==> WithinBudget(startTs, clock[j])
      invariant count == i % Modulus
      decreases |rx| - i
    {
      CountStep(i);
      count := WrapAdd(count, 1);
      i := i + 1;
    }
    var used := if i < |rx| then i + 2 else i + 1;
    r := SetupOutcome(c, count, calls, rx[i..], clock[used..]);
  }

  /** Incrementing a wrapped counter keeps it equal to the true count modulo 2^32. */
  lemma CountStep(n: nat)
    ensures WrapAdd(n % Modulus, 1) == (n + 1) % Modulus
  {
  }

  // ---------------------------------------------------------------------------
  // BPC::loop

  /** A code forwarded to `update_post_code`, with the delta that call computed. */
  datatype Event = Event(code: byte, timestamp: u32, delta: u32)

  /** The number of successful reads among `rx`. */
  function OkCount(rx: seq<RxItem>): (n: nat)
    ensures n <= |rx|
  {
    if |rx| == 0 then 0
    else OkCount(rx[..|rx| - 1]) + (if rx[|rx| - 1].ok then 1 else 0)
  }

  /** The `millis()` readings `loop()` takes while it consumes `rx`: one for
      each budget test and one more after each successful read. */
  function ClockUse(rx: seq<RxItem>): (n: nat)
    ensures |rx| <= n <= 2 * |rx|
  {
    |rx| + OkCount(rx)
  }

  lemma OkCountStep(rx: seq<RxItem>, i: nat)
    requires i < |rx|
    ensures OkCount(rx[..i + 1]) == OkCount(rx[..i]) + (if rx[i].ok then 1 else 0)
  {
    assert rx[..i + 1][..i] == rx[..i];
  }

  /** The first `k` attempts are the ones `loop()` makes: each was preceded by
      a budget test that passed, and after them (unless the UART ran dry) a
      test failed.  clock[0] is the start reading. */
  ghost predicate DrainsExactly(rx: seq<RxItem>, clock: seq<u32>, k: nat)
    requires k <= |rx| && |clock| >= 2 * |rx| + 2
  {
    && (forall j :: 0 <= j < k ==> WithinBudget(clock[0], clock[1 + ClockUse(rx[..j])]))
    && (k < |rx| ==> !WithinBudget(clock[0], clock[1 + ClockUse(rx[..k])]))
  }

  /** The events are the successful reads among the first `k` attempts, in
      read order, each stamped with the reading taken right after its read. */
  ghost predicate ForwardsSuccessfulReads(rx: seq<RxItem>, clock: seq<u32>, k: nat, events: seq<Event>)
    requires k <= |rx| && |clock| >= 2 * |rx| + 2
  {
    && |events| == OkCount(rx[..k])
    && forall j :: 0 <= j < k && rx[j].ok ==>
         && OkCount(rx[..j]) < |events|
         && events[OkCount(rx[..j])].code == rx[j].data
         && events[OkCount(rx[..j])].timestamp == clock[2 + ClockUse(rx[..j])]
  }

  /** Event `e`'s delta is measured from the event before it, or from
      `lastTimestamp` for the first event. */
  ghost predicate ChainedAt(lastTimestamp: u32, events: seq<Event>, e: nat)
    requires e < |events|
  {
    events[e].delta == WrapSub(events[e].timestamp, if e == 0 then lastTimestamp else events[e - 1].timestamp)
  }

  /** Each event's delta is measured from the event before it, the first from `lastTimestamp`. */
  ghost predicate Chained(lastTimestamp: u32, events: seq<Event>) {
    forall e :: 0 <= e < |events| ==> ChainedAt(lastTimestamp, events, e)
  }

  /** The last code and timestamp once `events` have been forwarded. */
  function AfterEvents(c: Component, events: seq<Event>): Component {
    if |events| == 0 then c
    else c.(lastCode := events[|events| - 1].code, lastTimestamp := events[|events| - 1].timestamp)
  }

  /** The sensor calls of forwarding `events`, in order. */
  function PublishAll(c: Component, events: seq<Event>): seq<SensorCall> {
    if |events| == 0 then []
    else
      var e := events[|events| - 1];
      PublishAll(c, events[..|events| - 1]) + Publish(c, e.code, e.timestamp, e.delta)
  }

  /** Forwarding attempt `i` extends the events by exactly that read when it succeeded. */
  lemma ForwardStep(rx: seq<RxItem>, clock: seq<u32>, i: nat, events: seq<Event>, e: Event)
    requires i < |rx| && |clock| >= 2 * |rx| + 2
    requires ForwardsSuccessfulReads(rx, clock, i, events)
    requires rx[i].ok ==> e.code == rx[i].data && e.timestamp == clock[2 + ClockUse(rx[..i])]
    ensures ForwardsSuccessfulReads(rx, clock, i + 1, if rx[i].ok then events + [e] else events)
  {
    OkCountStep(rx, i);
  }

  /** A passed budget test before attempt `i` extends the passed tests to the first `i + 1` attempts. */
  lemma BudgetStep(rx: seq<RxItem>, clock: seq<u32>, i: nat)
    requires i < |rx| && |clock| >= 2 * |rx| + 2
    requires forall j :: 0 <= j < i ==> WithinBudget(clock[0], clock[1 + ClockUse(rx[..j])])
    requires WithinBudget(clock[0], clock[1 + ClockUse(rx[..i])])
    ensures forall j :: 0 <= j < i + 1 ==> WithinBudget(clock[0], clock[1 + ClockUse(rx[..j])])
  {
  }

  /** An event measured from the previous one keeps the chain of deltas intact. */
  lemma ChainedStep(lastTimestamp: u32, events: seq<Event>, e: Event)
    requires Chained(lastTimestamp, events)
    requires e.delta == WrapSub(e.timestamp, if |events| == 0 then lastTimestamp else events[|events| - 1].timestamp)
    ensures Chained(lastTimestamp, events + [e])
  {
    var es := events + [e];
    forall k | 0 <= k < |es|
      ensures ChainedAt(lastTimestamp, es, k)
    {
      if k < |events| {
        assert ChainedAt(lastTimestamp, events, k);
        if k > 0 {
          assert es[k - 1] == events[k - 1];
        }
      }
    }
  }

  lemma PublishAllStep(c: Component, events: seq<Event>, e: Event)
    ensures PublishAll(c, events + [e]) == PublishAll(c, events) + Publish(c, e.code, e.timestamp, e.delta)
  {
    assert (events + [e])[..|events|] == events;
  }

  /** One successful read inside `loop()`: `update_post_code(data, ts)`, then
      the high-frequency request if it is not already held. */
  method Forward(c: Component, code: byte, ts: u32)
    returns (next: Component, calls: seq<SensorCall>, started: seq<SchedulerRequest>)
    ensures next == c.(lastCode := code, lastTimestamp := ts, highFrequency := true)
    ensures calls == Publish(c, code, ts, WrapSub(ts, c.lastTimestamp))
    ensures started == if c.highFrequency then [] else [StartHighFrequency]
  {
    var u := UpdatePostCode(c, code, ts);
    WrapSubUnique(ts, c.lastTimestamp, u.delta);
    calls := u.calls;
    next, started := MarkActivity(u.state).0, MarkActivity(u.state).1;
  }

  /** What the `while` loop of `loop()` keeps true after `i` attempts, with
      `p` readings of the clock taken (`DrainFrom` carries it from one
      iteration to the next): the attempts drained so far all passed
      the budget test, the events are their successful reads, and the state,
      sensor calls and requests are those of forwarding the events. */
  ghost predicate DrainInvariant(
    c: Component, rx: seq<RxItem>, clock: seq<u32>, i: nat, p: nat,
    st: Component, events: seq<Event>, calls: seq<SensorCall>, requests: seq<SchedulerRequest>)
    requires |clock| >= 2 * |rx| + 2
  {
    && i <= |rx|
    && p <= 2 * i + 1
    && p == 1 + ClockUse(rx[..i])
    && (forall j :: 0 <= j < i ==> WithinBudget(clock[0], clock[1 + ClockUse(rx[..j])]))
    && ForwardsSuccessfulReads(rx, clock, i, events)
    && Chained(c.lastTimestamp, events)
    && st == AfterEvents(c, events).(highFrequency := c.highFrequency || |events| > 0)
    && calls == PublishAll(c, events)
    && requests == if !c.highFrequency && |events| > 0 then [StartHighFrequency] else []
  }

  /** One iteration of the `while` loop keeps `DrainInvariant`: a failed read
      only advances past the attempt, a successful one forwards the byte with
      the reading taken after it. */
  lemma DrainStep(
    c: Component, rx: seq<RxItem>, clock: seq<u32>, i: nat, p: nat,
    st: Component, events: seq<Event>, calls: seq<SensorCall>, requests: seq<SchedulerRequest>,
    next: Component, published: seq<SensorCall>, started: seq<SchedulerRequest>)
    requires |clock| >= 2 * |rx| + 2 && i < |rx|
    requires DrainInvariant(c, rx, clock, i, p, st, events, calls, requests)
    requires WithinBudget(clock[0], clock[p])
    requires rx[i].ok ==>
               && next == st.(lastCode := rx[i].data, lastTimestamp := clock[p + 1], highFrequency := true)
               && published == Publish(st, rx[i].data, clock[p + 1], WrapSub(clock[p + 1], st.lastTimestamp))
               && started == if st.highFrequency then [] else [StartHighFrequency]
    ensures !rx[i].ok ==> DrainInvariant(c, rx, clock, i + 1, p + 1, st, events, calls, requests)
    ensures rx[i].ok ==>
              var e := Event(rx[i].data, clock[p + 1], WrapSub(clock[p + 1], st.lastTimestamp));
              DrainInvariant(c, rx, clock, i + 1, p + 2, next, events + [e], calls + published, requests + started)
  {
    OkCountStep(rx, i);
    BudgetStep(rx, clock, i);
    var e := Event(rx[i].data, clock[p + 1], WrapSub(clock[p + 1], st.lastTimestamp));
    ForwardStep(rx, clock, i, events, e);
    if rx[i].ok {
      ChainedStep(c.lastTimestamp, events, e);
      PublishAllStep(c, events, e);
    }
  }

  /** One pass through the body of the `while` loop of `loop()`, entered
      after the budget test on clock[p] passed: attempt `i` is read, and a
      successful read is forwarded with the reading taken right after it. */
  method DrainIteration(
    c: Component, rx: seq<RxItem>, clock: seq<u32>, i: nat, p: nat,
    st: Component, events: seq<Event>, calls: seq<SensorCall>, requests: seq<SchedulerRequest>)
    returns (p': nat, st': Component, events': seq<Event>, calls': seq<SensorCall>, requests': seq<SchedulerRequest>)
    requires |clock| >= 2 * |rx| + 2 && i < |rx|
    requires DrainInvariant(c, rx, clock, i, p, st, events, calls, requests)
    requires WithinBudget(clock[0], clock[p])
    ensures DrainInvariant(c, rx, clock, i + 1, p', st', events', calls', requests')
    ensures p' == if rx[i].ok then p + 2 else p + 1
  {
    var item := rx[i];
    if item.ok {
      var ts := clock[p + 1];
      var next, published, started := Forward(st, item.data, ts);
      DrainStep(c, rx, clock, i, p, st, events, calls, requests, next, published, started);
      p', st' := p + 2, next;
      events' := events + [Event(item.data, ts, WrapSub(ts, st.lastTimestamp))];
      calls', requests' := calls + published, requests + started;
    } else {
      DrainStep(c, rx, clock, i, p, st, events, calls, requests, st, [], []);
      p', st', events', calls', requests' := p + 1, st, events, calls, requests;
    }
  }

  /** What draining the UART produced: the state, the forwarded codes, the
      calls made, the number of attempts consumed and of clock readings used. */
  datatype Drained = Drained(
    state: Component,
    events: seq<Event>,
    calls: seq<SensorCall>,
    requests: seq<SchedulerRequest>,
    consumed: nat,
    used: nat)

  /** What the `while` loop of `loop()` achieves: it drains exactly the
      attempts whose budget test passed, forwards exactly their successful
      reads with chained deltas, leaves the state, calls and requests of
      forwarding them, and has used the readings up to the failed test. */
  ghost predicate DrainResult(c: Component, rx: seq<RxItem>, clock: seq<u32>, d: Drained)
    requires |clock| >= 2 * |rx| + 2
  {
    && d.consumed <= |rx|
    && DrainsExactly(rx, clock, d.consumed)
    && ForwardsSuccessfulReads(rx, clock, d.consumed, d.events)
    && Chained(c.lastTimestamp, d.events)
    && d.state == AfterEvents(c, d.events).(highFrequency := c.highFrequency || |d.events| > 0)
    && d.calls == PublishAll(c, d.events)
    && d.requests == (if !c.highFrequency && |d.events| > 0 then [StartHighFrequency] else [])
    && d.used == 1 + ClockUse(rx[..d.consumed]) + (if d.consumed < |rx| then 1 else 0)
  }

  /** Before the first attempt nothing has been drained, forwarded or called. */
  lemma DrainStart(c: Component, rx: seq<RxItem>, clock: seq<u32>)
    requires |clock| >= 2 * |rx| + 2
    ensures DrainInvariant(c, rx, clock, 0, 1, c, [], [], [])
  {
    assert rx[..0] == [];
  }

  /** When the `while` loop stops after `i` attempts, with `p` readings
      taken, its outcome is the one `DrainResult` describes. */
  lemma DrainExit(
    c: Component, rx: seq<RxItem>, clock: seq<u32>, i: nat, p: nat,
    st: Component, events: seq<Event>, calls: seq<SensorCall>, requests: seq<SchedulerRequest>)
    requires |clock| >= 2 * |rx| + 2
    requires DrainInvariant(c, rx, clock, i, p, st, events, calls, requests)
    requires i < |rx| ==> !WithinBudget(clock[0], clock[p])
    ensures DrainResult(c, rx, clock, Drained(st, events, calls, requests, i, if i < |rx| then p + 1 else p))
  {
  }

  /** The `while` loop of `loop()`: reads while attempts remain and the budget
      test on a fresh reading passes; forwards each successful read to
      `update_post_code` with the reading taken right after it, and starts
      high-frequency polling at the first one if it is not already on.  The
      iterations are those of `DrainFrom`, which runs the loop by recursion. */
  method Drain(c: Component, rx: seq<RxItem>, clock: seq<u32>) returns (d: Drained)
    requires |clock| >= 2 * |rx| + 2
    ensures DrainResult(c, rx, clock, d)
  {
    DrainStart(c, rx, clock);
    d := DrainFrom(c, rx, clock, 0, 1, c, [], [], []);
  }

  /** The `while` loop of `loop()` from attempt `i` on, with `p` readings
      already taken: one more iteration while an attempt remains and the
      budget test on clock[p] passes, otherwise the loop exits. */
  method DrainFrom(
    c: Component, rx: seq<RxItem>, clock: seq<u32>, i: nat, p: nat,
    st: Component, events: seq<Event>, calls: seq<SensorCall>, requests: seq<SchedulerRequest>)
    returns (d: Drained)
    requires |clock| >= 2 * |rx| + 2
    requires DrainInvariant(c, rx, clock, i, p, st, events, calls, requests)
    ensures DrainResult(c, rx, clock, d)
    decreases |rx| - i
  {
    if i < |rx| && WithinBudget(clock[0], clock[p]) {
      var p', st', events', calls', requests' := DrainIteration(c, rx, clock, i, p, st, events, calls, requests);
      d := DrainFrom(c, rx, clock, i + 1, p', st', events', calls', requests');
    } else {
      DrainExit(c, rx, clock, i, p, st, events, calls, requests);
      d := Drained(st, events, calls, requests, i, if i < |rx| then p + 1 else p);
    }
  }

  /** The outcome of `loop()`: the state, the codes it forwarded, the calls
      it made into sensors and into the high-frequency requester, and the
      unread UART and clock. */
  datatype LoopOutcome = LoopOutcome(
    state: Component,
    events: seq<Event>,
    calls: seq<SensorCall>,
    requests: seq<SchedulerRequest>,
    rx: seq<RxItem>,
    clock: seq<u32>)

  /** `loop()`.  It drains the UART while attempts remain and the budget test
      passes, forwarding exactly the successful reads; failed reads change
      nothing.  The first forwarded code starts high-frequency polling if it
      is not already on.  A last reading, taken after draining, releases it
      when the quiet period since the last code is over. */
  method Loop(c: Component, rx: seq<RxItem>, clock: seq<u32>) returns (r: LoopOutcome)
    requires |clock| >= 2 * |rx| + 2
    ensures |r.rx| <= |rx| && r.rx == rx[|rx| - |r.rx|..]
    ensures var k := |rx| - |r.rx|;
            && DrainsExactly(rx, clock, k)
            && ForwardsSuccessfulReads(rx, clock, k, r.events)
            && Chained(c.lastTimestamp, r.events)
            && var endAt := 1 + ClockUse(rx[..k]) + (if k < |rx| then 1 else 0);
               var active := c.highFrequency || |r.events| > 0;
               && r.state == AfterEvents(c, r.events).(highFrequency := r.state.highFrequency)
               && (r.state.highFrequency <==> active && !QuietPeriodOver(r.state.lastTimestamp, clock[endAt]))
               && r.requests
                  == (if !c.highFrequency && |r.events| > 0 then [StartHighFrequency] else [])
                   + (if active && !r.state.highFrequency then [StopHighFrequency] else [])
               && r.clock == clock[endAt + 1..]
    ensures r.calls == PublishAll(c, r.events)
  {
    var d := Drain(c, rx, clock);
    var endTs := clock[d.used];
    var (released, stopped) := ReleaseIfQuiet(d.state, endTs);
    r := LoopOutcome(released, d.events, d.calls, d.requests + stopped, rx[d.consumed..], clock[d.used + 1..]);
  }
}
