# BIOS POST code gateway — a Dafny model

This project models the ESPHome component `BPC` (BIOS POST codes). The
component reads the one-byte POST codes a PC's firmware writes to a serial
port during boot. It publishes each code to a numeric sensor and to a text
sensor. It also asks the scheduler for high-frequency looping while codes are
arriving.

The model covers the whole of `bpc.cpp` and `bpc.h`:

- `u32.dfy` (`U32`): `uint8_t`/`uint32_t` as subset types of `int`. `uint32_t`
  addition and subtraction are written out modulo 2^32.
- `digits.dfy` (`Digits`): upper-case hexadecimal digits and unsigned
  decimal numerals, with the functions that read them back.
- `formatter.dfy` (`Formatter`): `format_post_code_text_sensor`, and a parser
  for its output. The two are proved inverse.
- `bpc.dfy` (`Bpc`): the fields of `class BPC` as an immutable `Component`
  record. It holds the two sensor setters and `update_post_code`, plus the
  two halves of the rate controller (start on activity, release after a quiet
  period).
- `bpc_loop.dfy` (`BpcLoop`): `setup()` and `loop()` as methods. The
  `while` loop of `setup()` carries loop invariants. The `while` loop of
  `loop()` is written as a recursive method whose precondition is the loop
  invariant.
- `option.dfy` (`Optional`): an `Option` type for the sensor pointers.

The environment is supplied as input:

- The UART is a finite sequence of `read_byte` attempts. Each attempt is a
  byte plus a success flag. `available() > 0` holds while attempts remain.
  Each loop iteration consumes one attempt.
- `millis()` is a sequence of `uint32_t` readings. The loops consume them one
  per call, in the order the C++ makes the calls. The budget test
  short-circuits, so it takes no reading once the UART is empty.
- Nothing is assumed about the readings. They may wrap, and they need not
  increase. Every property below holds for any readings.
- Calls into the sensor framework are returned as a log of `SensorCall`
  values: `publish_state` on either sensor, and `set_has_state(false)`.
  Calls into the high-frequency requester are logged as `SchedulerRequest`
  values.

The three comparisons that are not safe across counter wrap-around are
modelled as written. These are the 100 ms budget test in both loops
(bpc.cpp lines 25 and 41) and the 200 ms quiet-period test at the end of
`loop()` (line 56). Each uses a wrapping sum and a plain comparison
(`BpcLoop.WithinBudget` and `Bpc.QuietPeriodOver`). Lemmas state what these
tests mean away from the wrap point. Other lemmas state what they do near it:

- A loop started in the last 100 ms before the wrap stops at its first budget
  test, provided that test's reading is also taken before the wrap. If the
  counter has already wrapped by then, the wrapped bound is correct: the
  test passes exactly while fewer than 100 ms have passed since the start.
- A code received in the last 200 ms before the wrap makes the release test
  hold at once, for an end reading taken before the wrap. For an end reading
  taken after the wrap, the wrapped sum is correct: the test holds exactly
  when more than 200 ms have passed.
- After the counter wraps past an older code, the release waits until the
  counter climbs back above that code's timestamp plus 200.
- A code received exactly 201 ms before the wrap makes the bound the largest
  `uint32_t`. No reading passes the test, so high-frequency polling stays on
  until the next code arrives.

## Model

| member | source | states |
|---|---|---|
| `U32.WrapAdd` | components/bios-post-code-gw/bpc.cpp:41 | `uint32_t` addition: the exact sum below 2^32, the sum minus 2^32 when it overflows |
| `U32.WrapSub` | components/bios-post-code-gw/bpc.cpp:64 | `uint32_t` subtraction gives the amount that takes the old timestamp to the new one modulo 2^32. That is the numeric difference when no wrap occurred, and the difference plus 2^32 otherwise |
| `U32.WrapSubUnique` | components/bios-post-code-gw/bpc.cpp:64 | the wrapped difference is the only `uint32_t` delta that takes the old timestamp to the new one, so deltas stay correct across wrap-around |
| `Digits.HexDigit` | components/bios-post-code-gw/bpc.cpp:82-83 | each nibble is printed as an upper-case hexadecimal digit that reads back as that nibble |
| `Digits.Decimal` | components/bios-post-code-gw/bpc.cpp:84-92 | the delta is printed as a canonical unsigned decimal numeral whose value is the delta: at least one digit, no leading zero, at most 4 digits below 10000 |
| `Digits.DecimalOfValue` | components/bios-post-code-gw/bpc.cpp:84-92 | every canonical numeral is the rendering of its value, so rendering and reading numerals are inverse bijections |
| `Digits.DecimalExamples` | components/bios-post-code-gw/bpc.cpp:91 | 0, 12 and 1500 print as `0`, `12` and `1500` |
| `Formatter.CodeField` | components/bios-post-code-gw/bpc.cpp:82-86 | the code field is exactly two upper-case hex digits, zero-padded, whose value is the code, followed by `h` |
| `Formatter.FormatPostCode` | components/bios-post-code-gw/bpc.cpp:78-97 | the text starts with the code field. It is exactly that field if and only if the delta is 5000 or more. Otherwise the separator, the decimal delta and the ` ms` suffix follow, 10 to 13 characters in all |
| `Formatter.ParseFormat` | components/bios-post-code-gw/bpc.cpp:78-97 | reading a formatted text gives back the code, and the delta exactly when it is under 5000 |
| `Formatter.FormatParse` | components/bios-post-code-gw/bpc.cpp:78-97 | every text that reads back is the formatter's output for what it reads as, so the outputs are exactly the readable texts |
| `Formatter.FormatIgnoresTimestamp` | components/bios-post-code-gw/bpc.cpp:78-97 | the text does not depend on the `timestamp` argument |
| `Formatter.FormatInjective` | components/bios-post-code-gw/bpc.cpp:82-94 | equal texts mean equal codes, and equal deltas when the delta is shown |
| `Formatter.FormatExampleZeroPadded` | components/bios-post-code-gw/bpc.cpp:82-94 | code 0x00 with delta 12 gives `00h`, the separator and `12 ms` |
| `Formatter.FormatExampleUpperCase` | components/bios-post-code-gw/bpc.cpp:82-94 | code 0x2B with delta 1500 gives `2Bh`, the separator and `1500 ms` |
| `Formatter.FormatExampleLongDelta` | components/bios-post-code-gw/bpc.cpp:88-94 | a delta of exactly 5000 ms is left out: `2Bh` |
| `Bpc.SetPostCodeSensor` | components/bios-post-code-gw/bpc.h:20 | the setter assigns the numeric sensor and leaves every other field as it was |
| `Bpc.SetPostCodeTextSensor` | components/bios-post-code-gw/bpc.h:21 | the setter assigns the text sensor and leaves every other field as it was |
| `Bpc.SettersCommute` | components/bios-post-code-gw/bpc.h:20-21 | the two setters touch disjoint fields, so configuration order does not matter |
| `Bpc.UpdatePostCode` | components/bios-post-code-gw/bpc.cpp:63-76 | the calls are those of `Bpc.Publish`. The delta is the wrapped distance from the previous timestamp. Code and timestamp are recorded whether or not a sensor is configured, and no other field changes. One call per configured sensor is made: the numeric sensor gets the code, and the text sensor gets a text that reads back as the code and shown delta |
| `Bpc.ConsecutiveDeltas` | components/bios-post-code-gw/bpc.cpp:64-75 | after two updates the second delta is `t2 - t1` modulo 2^32, numerically `t2 - t1` or `t2 + 2^32 - t1` |
| `Bpc.DeltaAcrossWrapExample` | components/bios-post-code-gw/bpc.cpp:64 | previous timestamp 4294967200 and new timestamp 200 give a delta of 296 |
| `Bpc.FirstDeltaIsTimestamp` | components/bios-post-code-gw/bpc.h:38-44 | `Bpc.Initial` is a new component. A new component has no sensors and last timestamp 0, so its first delta equals the capture timestamp and nothing is published |
| `Bpc.MarkActivity` | components/bios-post-code-gw/bpc.cpp:48-50 | after activity the flag is set and nothing else changes. `start()` is called exactly when the flag was not already set, and `stop()` never |
| `Bpc.MarkActivityIdempotent` | components/bios-post-code-gw/bpc.cpp:48-50 | further activity changes nothing and issues no request |
| `Bpc.ReleaseIfQuiet` | components/bios-post-code-gw/bpc.cpp:54-60 | the flag ends set if and only if it was set and the release test `Bpc.QuietPeriodOver`, `endTs > last + 200` with a wrapping sum, fails. `stop()` is called exactly when the flag is cleared, and nothing else changes |
| `Bpc.QuietPeriodAwayFromWrap` | components/bios-post-code-gw/bpc.cpp:56 | without wrap, the release test holds exactly when more than 200 ms have passed since the last code |
| `Bpc.QuietPeriodNearWrap` | components/bios-post-code-gw/bpc.cpp:56 | as written, a last code in the final 200 ms before the wrap makes the release test hold at once, even 0 ms later, for end readings taken before the wrap |
| `Bpc.QuietPeriodAfterWrap` | components/bios-post-code-gw/bpc.cpp:56 | as written, once the counter wraps past an older last code, the release test fails until the counter exceeds that timestamp plus 200 again |
| `Bpc.QuietPeriodWrappedAfterWrap` | components/bios-post-code-gw/bpc.cpp:56 | for a last code in the final 200 ms before the wrap and an end reading taken after it, the release test holds exactly when more than 200 ms have passed since the code |
| `Bpc.QuietPeriodNeverOver` | components/bios-post-code-gw/bpc.cpp:56 | as written, a last code at 2^32 - 201 makes the release test fail for every end reading, so polling stays high-frequency until the next code |
| `BpcLoop.WithinBudgetAwayFromWrap` | components/bios-post-code-gw/bpc.cpp:40-42 | `BpcLoop.WithinBudget` is the loop test `now < start + 100` with a wrapping sum. Without wrap, the loop test holds exactly while under 100 ms have passed since the loop started |
| `BpcLoop.WithinBudgetAfterWrap` | components/bios-post-code-gw/bpc.cpp:24-26 | for a start in the last 100 ms before the wrap and a test reading taken after it, the test holds exactly while under 100 ms have passed since the start |
| `BpcLoop.WithinBudgetNearWrap` | components/bios-post-code-gw/bpc.cpp:24-26 | as written, a loop started in the last 100 ms before the wrap stops at its first test, when that test's reading is also taken before the wrap |
| `BpcLoop.Setup` | components/bios-post-code-gw/bpc.cpp:14-34 | the numeric sensor is marked stateless. Then exactly the attempts made while bytes remained and the budget test passed are consumed, stopping at the first failed test. No byte is forwarded, so the state is unchanged. The count is the number of attempts, successful or not, modulo 2^32 |
| `BpcLoop.CountStep` | components/bios-post-code-gw/bpc.cpp:22-29 | incrementing the `uint32_t` counter keeps it equal to the number of attempts modulo 2^32 |
| `BpcLoop.Forward` | components/bios-post-code-gw/bpc.cpp:44-51 | a successful read records the code and the reading taken after it, and publishes with the wrapped delta. It sets the flag, requesting `start()` only if the flag was clear |
| `BpcLoop.DrainStep` | components/bios-post-code-gw/bpc.cpp:40-52 | one iteration keeps the drain invariant: a failed read only moves past the attempt, and a successful one forwards that byte, stamped with the next reading |
| `BpcLoop.DrainIteration` | components/bios-post-code-gw/bpc.cpp:43-51 | one pass through the loop body keeps the drain invariant. It uses one more reading after a failed read and two more after a successful one |
| `BpcLoop.DrainFrom` | components/bios-post-code-gw/bpc.cpp:40-52 | run from any state that satisfies the drain invariant, the rest of the loop ends with everything `BpcLoop.Drain` states |
| `BpcLoop.Drain` | components/bios-post-code-gw/bpc.cpp:37-52 | the loop drains exactly the attempts whose budget test passed, stopping when none remain or a test fails. It forwards exactly the successful reads, in read order, each stamped with the reading after its read. Deltas chain from the previous last timestamp. The state holds the last forwarded code. `start()` is requested once, on the first forwarded code, unless polling was already high-frequency |
| `BpcLoop.Loop` | components/bios-post-code-gw/bpc.cpp:36-61 | everything `Drain` states, plus the rate-controller outcome. The flag ends set if and only if it was set or a code arrived, and the end reading does not exceed the wrapped last timestamp plus 200. `stop()` is requested exactly when that clears it. The unread UART and clock are the exact suffixes after what was used |

## Left out

- `__init__.py`: the ESPHome configuration schema, code generation and build flags. It is not runtime logic.
- `get_setup_priority`: a constant that orders components in the framework. Nothing in the component depends on it.
- Logging (`ESP_LOGI` in `update_post_code`, and `ESP_LOGW` "cleared %u RX bytes" in `setup`). It is observability only. `Setup` still returns the count that the warning prints.
- The UART driver and the hardware `millis()` counter. They are input sequences here. A failed `read_byte` is taken to consume its attempt like a successful one.
- `BpcLoop.Loop`: requires at least `2n + 2` clock readings for `n` UART attempts. That is the most one call can take: the start reading, one test and one timestamp per attempt, and the end reading. It is the finite stand-in for a clock that never runs out, not a restriction the C++ places on its caller.
- `BpcLoop.Setup`: requires at least `n + 1` clock readings for `n` UART attempts. That is the most one call can take: the start reading and one test per attempt. The reason is the same.
- `publish_state(static_cast<float>(code))` is logged with the code as a byte. Every value 0-255 converts to a `float` exactly, so nothing is lost. The sensor framework behind `publish_state` and `set_has_state` is not modelled.
- The relative order of sensor calls and scheduler requests. They are kept in two separate logs. Each log keeps its own order, but the interleaving in `loop()` is not kept: the publish calls of a code, then `start()`, then the next code's publish calls. Nothing in the component depends on that interleaving.
- `HighFrequencyLoopRequester`'s internals. In ESPHome it keeps a process-wide count of requests. Here it is this component's own flag, with `start()`/`stop()` recorded as requests.
- The local `data` variable's initial value `0xFF` in `loop()`. No code path reads it before a read succeeds.
