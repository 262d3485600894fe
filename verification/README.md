# LedController in Dafny

This project models the decision logic of the LedController client, a small
Java program that drives a ring of eight networked LEDs (ids 20 to 27)
through a remote light service. It covers these operations of
`LedControllerImpl`:

- `getLight`, `setLed`, `getGroupLeds`, `turnOffAllLeds`;
- the chase animation `spinningLed`;
- the clock face `showTime(hours, minutes, seconds)` with its two index
  mappers `mapHourToIndex` and `mapToIndex`;
- the static colour mixer `LedController.mixColors`.

Each operation is a pure function. `getLight`, `getGroupLeds` and
`showTime` receive the service's answer (a `Response`) and return a `Run`: the
trace of calls the controller makes on its collaborators, in order, together
with the value the operation returns or the exception it throws. `setLed`,
`turnOffAllLeds` and `spinningLed` read nothing and return their trace alone.
The calls are `setLight`, `getLights` and `getLight` on the service and
`sleep` on the sleeper.

Calls in a trace are counted with `Events.Count`. The trace can also be
replayed on a board, a map from LED id to the colour and power last set, with
`Events.Play`. That is how "exactly one on call per LED" and "at most one LED
lit at any moment" are stated.

Modules:

- `Results`: `Option` and `Result`.
- `Lights`: the light records and the org.json group test.
  - `optJSONObject` yields nothing for a missing, null or non-object value.
  - `has` is true for a null value.
  - `isNull` is true for a missing key.
- `Events`: traces, counts, boards and the one-lit-LED predicate.
- `LedController`: `mixColors` and hex printing and parsing.
- `LedControllerImpl`: the operations.
- `TurnOffProofs`, `SpinningLedProofs`, `ShowTimeProofs`: the properties of
  the three larger operations, including the scenarios of the unit tests.

Arithmetic follows Java.

- `%` is truncating: `JavaRem` keeps the sign of the dividend. A negative
  hour can therefore yield a negative index (−3 gives −2), which then
  matches no LED.
- `Math.round` is computed on the exact rational as floor(x + 1/2). It
  rounds halves toward positive infinity; rounding half away from zero would
  differ only at negative half-integers.

Two points where the code may surprise a reader:

- `getGroupLeds` admits a light whose group name is the empty string. Line 59
  of `LedControllerImpl.java` only checks `has("name")` and `!isNull("name")`.
  `Lights.InGroupCases` states this.
- The clock test comments that `mapHourToIndex(3, 0, 8)` "should be 3". The
  code yields 2 (3/12 of 8), and the test itself only uses the value the code
  computes. `ShowTimeProofs.MappingExamples` states 2.

## Model

Source paths are relative to the repository root.

| member | source | states |
|---|---|---|
| LedControllerImpl.GetLightOp | ledController/src/main/java/at/edu/c02/ledcontroller/LedControllerImpl.java:32-40 | Exactly one `getLight(id)` call and no `getLights`. A response without a "lights" array fails. A not-found error for `id` is raised exactly when the array is empty. Otherwise the first light is returned unchanged. |
| LedControllerImpl.GetGroupLeds | ledController/src/main/java/at/edu/c02/ledcontroller/LedControllerImpl.java:50-65 | Exactly one `getLights` call. It succeeds iff the response holds a "lights" array. The result keeps the original order (a subsequence of the input). A light is in the result iff it is in the input and passes the group test, and each grouped light occurs in the result exactly as often as in the input, every ungrouped one never. |
| Lights.FilterGroup | ledController/src/main/java/at/edu/c02/ledcontroller/LedControllerImpl.java:56-62 | Every kept light passes the group test. A grouped light occurs as often as in the input, an ungrouped one never. The result is a subsequence of the input. |
| Lights.InGroupCases | ledController/src/main/java/at/edu/c02/ledcontroller/LedControllerImpl.java:58-59 | About `Lights.InGroup`, the test of line 59: a missing, null or non-object group is rejected, and so is a group whose name is missing or null. A group named "" is accepted. A light is grouped iff its group is an object whose name is present and non-null. |
| Lights.FilterGroupAppend | ledController/src/main/java/at/edu/c02/ledcontroller/LedControllerImpl.java:56-62 | Filtering a concatenation gives the concatenation of the filtered parts, so relative order is preserved across any split. |
| Lights.FilterGroupAllGrouped | ledController/src/main/java/at/edu/c02/ledcontroller/LedControllerImpl.java:56-62 | When every light is grouped, the filter returns its input. |
| Lights.FilterGroupExample | ledController/src/test/java/at/edu/c02/ledcontroller/LedControllerTest.java:42-56 | The test's list [A, no group, B, null group] filters to [A, B]. |
| LedControllerImpl.SetLed | ledController/src/main/java/at/edu/c02/ledcontroller/LedControllerImpl.java:43-46 | Exactly one call: an on call for `id`. On any board it sets that LED to the colour, powered on, and leaves every other LED as it was. |
| LedControllerImpl.TurnOffAllLeds | ledController/src/main/java/at/edu/c02/ledcontroller/LedControllerImpl.java:68-73 | Eight calls. Call i is `setLight(20 + i, "#000000", false)`. |
| TurnOffProofs.TurnOffAllLedsCalls | ledController/src/test/java/at/edu/c02/ledcontroller/LedControllerTest.java:88-99 | One off call for each of LEDs 20..27. No off call for any other LED, no on call, no sleep, eight calls in all. |
| TurnOffProofs.TurnOffAllLedsBoard | ledController/src/main/java/at/edu/c02/ledcontroller/LedControllerImpl.java:68-73 | Afterwards every ring LED is black and off. Every other LED is as it was. |
| TurnOffProofs.OffSweepLit | ledController/src/main/java/at/edu/c02/ledcontroller/LedControllerImpl.java:70-72 | The LEDs lit after an off sweep are exactly those lit before that the sweep did not touch. |
| LedControllerImpl.OffSweep | ledController/src/main/java/at/edu/c02/ledcontroller/LedControllerImpl.java:70-72 | One call per id, in order: call i is `setLight(ids[i], "#000000", false)`. |
| LedControllerImpl.ChaseLoop | ledController/src/main/java/at/edu/c02/ledcontroller/LedControllerImpl.java:102-111 | The loop from `step` to `totalSteps` makes 3·(totalSteps − step) + 2 calls: three per step, and two (sleep, off) on the last. |
| LedControllerImpl.SpinningLed | ledController/src/main/java/at/edu/c02/ledcontroller/LedControllerImpl.java:90-114 | With `turns <= 0` the trace is exactly `turnOffAllLeds`. Otherwise it has 16 + 24·turns calls. |
| SpinningLedProofs.SpinningLedShape | ledController/src/main/java/at/edu/c02/ledcontroller/LedControllerImpl.java:92-113 | For turns ≥ 1 the trace is: an off sweep, LED 20 on, then step s = 0, 1, … as sleep, LED 20 + s mod 8 off, LED 20 + (s+1) mod 8 on, the last step lighting nothing, then an off sweep. |
| SpinningLedProofs.ChaseLoopClosedForm | ledController/src/main/java/at/edu/c02/ledcontroller/LedControllerImpl.java:101-111 | Call k of the loop from `step` on is the closed-form call 3·(step−1)+k, as long as `currentIndex == (step − 1) mod 8`. |
| SpinningLedProofs.SpinningLedOneTurn | ledController/src/test/java/at/edu/c02/ledcontroller/LedControllerTest.java:110-142 | One turn gives 40 calls. LED 20 goes on. For i < 7: sleep, LED 20+i off, LED 21+i on. Then sleep and LED 27 off. |
| SpinningLedProofs.SpinningLedCounts | ledController/src/test/java/at/edu/c02/ledcontroller/LedControllerTest.java:144-153 | For turns ≥ 1 there are turns·8 sleeps. Each ring LED is switched on `turns` times and off `turns + 2` times. No other LED is touched. |
| SpinningLedProofs.SpinningLedNoTurns | ledController/src/test/java/at/edu/c02/ledcontroller/LedControllerTest.java:164-176 | For turns ≤ 0 there is no sleep and no on call, and exactly one off call per ring LED. |
| SpinningLedProofs.SpinningLedAtMostOneLit | ledController/src/main/java/at/edu/c02/ledcontroller/LedControllerImpl.java:98-113 | Start from a board with at most one LED lit, that one in the ring. After every prefix of the trace at most one LED is lit. |
| SpinningLedProofs.SpinningLedEndsDark | ledController/src/main/java/at/edu/c02/ledcontroller/LedControllerImpl.java:92-113 | Whatever the turns, every ring LED ends black and off. |
| LedControllerImpl.JavaRem | ledController/src/main/java/at/edu/c02/ledcontroller/LedControllerImpl.java:150 | Java `%`: the remainder has the sign of the dividend, its magnitude is below the divisor, and quotient·divisor + remainder is the dividend. |
| LedControllerImpl.RoundHalfUpIsNearest | ledController/src/main/java/at/edu/c02/ledcontroller/LedControllerImpl.java:154 | About `LedControllerImpl.RoundHalfUp`, `Math.round` of lines 154 and 161 on the exact quotient: the rounded value k satisfies k − 1/2 ≤ num/den < k + 1/2. |
| ShowTimeProofs.RoundHalfUpUnique | ledController/src/main/java/at/edu/c02/ledcontroller/LedControllerImpl.java:161 | Any integer within that half-open half step of num/den is the rounded value. |
| LedControllerImpl.MapToIndex | ledController/src/main/java/at/edu/c02/ledcontroller/LedControllerImpl.java:158-163 | For a non-negative value the index lies in [0, ledCount). For any value it lies in (−ledCount, ledCount). |
| LedControllerImpl.MapHourToIndex | ledController/src/main/java/at/edu/c02/ledcontroller/LedControllerImpl.java:149-156 | For non-negative hours and minutes the index lies in [0, ledCount). For any input it lies in (−ledCount, ledCount). |
| ShowTimeProofs.MapToIndexIsRoundedPosition | ledController/src/main/java/at/edu/c02/ledcontroller/LedControllerImpl.java:158-163 | For any value, the index is the integer k nearest to value/max·ledCount (halves rounded up), reduced by Java's `%` by ledCount. |
| ShowTimeProofs.MapHourToIndexIsRoundedPosition | ledController/src/main/java/at/edu/c02/ledcontroller/LedControllerImpl.java:149-156 | For any input, the hour index is the integer k nearest to (h % 12 + m/60)/12·ledCount, reduced by Java's `%` by ledCount, where both `%` are Java's. |
| ShowTimeProofs.MappingExamples | ledController/src/main/java/at/edu/c02/ledcontroller/LedControllerImpl.java:149-163 | On 8 LEDs: 03:00 is position 2 and minute 0 is position 0, the values the test at LedControllerTest.java:216-218 computes; 00:00 is position 0, the hour of the test at LedControllerTest.java:249. The extra samples, in no test, are 12:00 at position 0 and minute 30 at position 4. |
| ShowTimeProofs.NegativeHourMissesRing | ledController/src/main/java/at/edu/c02/ledcontroller/LedControllerImpl.java:150-155 | Hour −3 maps to index −2, so no LED shows the hour hand. |
| LedControllerImpl.ClockEvent | ledController/src/main/java/at/edu/c02/ledcontroller/LedControllerImpl.java:138-145 | The call for one LED is a `setLight` of that LED with the mixed colour. It is powered on iff at least one hand is on it. |
| LedControllerImpl.ClockFace | ledController/src/main/java/at/edu/c02/ledcontroller/LedControllerImpl.java:134-146 | One call per grouped LED, in group order. Call i carries the colour of the hands at position i and is on iff some hand is at i. |
| LedControllerImpl.ShowTime | ledController/src/main/java/at/edu/c02/ledcontroller/LedControllerImpl.java:123-147 | It succeeds iff the lights could be fetched. It always starts with one `getLights`. On success it makes one further call per grouped LED. On failure the trace is that `getLights` alone and the error is the missing "lights" array, as thrown by `getGroupLeds` at lines 52-53. |
| ShowTimeProofs.ShowTimeNoGroup | ledController/src/main/java/at/edu/c02/ledcontroller/LedControllerImpl.java:124-128 | With no grouped LED the trace is only the `getLights` call, with no `setLight`. |
| ShowTimeProofs.ShowTimeCalls | ledController/src/main/java/at/edu/c02/ledcontroller/LedControllerImpl.java:134-146 | Each grouped LED gets exactly one `setLight`, in group order, coloured by `mixColors` of the hands on its position. It is powered on iff that colour is not `#000000`. |
| ShowTimeProofs.ShowTimeLitCount | ledController/src/main/java/at/edu/c02/ledcontroller/LedControllerImpl.java:130-146 | For a time of day the number of on calls is the number of distinct hand positions, between 1 and 3. |
| ShowTimeProofs.ShowTimeThreeOClock | ledController/src/test/java/at/edu/c02/ledcontroller/LedControllerTest.java:210-230 | At 03:00:00 on the eight-LED test group: LED 20 cyan, LED 22 red, the other six off, eight `setLight` calls, success. |
| ShowTimeProofs.ShowTimeMidnight | ledController/src/test/java/at/edu/c02/ledcontroller/LedControllerTest.java:249-253 | At 00:00:00: LED 20 white and the other seven off, eight `setLight` calls. |
| LedController.MixColors | ledController/src/main/java/at/edu/c02/ledcontroller/LedController.java:34-40 | Seven characters: '#' and six lower-case hex digits. Digits 1-2 are "ff" iff the hour hand is present, else "00", and likewise 3-4 for minute and 5-6 for second. |
| LedController.Hex2RoundTrip | ledController/src/main/java/at/edu/c02/ledcontroller/LedController.java:39 | Reading back the two `%02x` digits of a byte gives the byte. |
| LedController.MixColorsChannels | ledController/src/main/java/at/edu/c02/ledcontroller/LedController.java:35-39 | Read back as levels, the colour is (hour ? 255 : 0, minute ? 255 : 0, second ? 255 : 0). Each hand drives its own channel only. |
| LedController.MixColorsInjective | ledController/src/main/java/at/edu/c02/ledcontroller/LedController.java:34-40 | Distinct hand combinations give distinct colours. |
| LedController.MixColorsBlackIff | ledController/src/main/java/at/edu/c02/ledcontroller/LedController.java:34-40 | The colour is `#000000` iff no hand is present. |
| LedController.MixColorsExamples | ledController/src/main/java/at/edu/c02/ledcontroller/LedController.java:34-40 | Red is `#ff0000`. Red and green give `#ffff00`. Green and blue give `#00ffff`. All three give `#ffffff`. None gives `#000000`. |

## Left out

- The HTTP client `ApiServiceImpl`, its credential lookup and its file reads
  are not modelled. The service is the `Response` parameter, and every call
  is taken to answer. The `IOException` it may throw, and its propagation
  through each operation, are not modelled.
- `ApiServiceImpl` issues each request once, with no retry, backoff or
  pacing; there is nothing of that kind to model.
- `spinningWheel` is not modelled. It is declared in `LedController.java` but
  has no implementation in `LedControllerImpl`.
- `demo()` is not modelled: it fetches the lights and prints two fields of
  the first one, throwing when the "lights" array is missing or empty. Its
  only effect beyond that `getLights` call is console output.
- The zero-argument `showTime()` is not modelled. It reads the wall clock;
  the model takes hours, minutes and seconds as parameters.
- Real sleeping is not modelled. `Thread::sleep` and the `Sleeper` are a
  `Sleep(ms)` event. `InterruptedException` is not modelled.
- A light element that is not a JSON object, or one whose "id" is missing
  or cannot be read as an int, makes `getJSONObject`/`getInt` throw; the
  model's lights are always objects with an id, so these exceptions are
  absent. `getInt` also converts numeric strings and non-int numbers
  (`"21"` gives 21, `21.5` gives 21, a long beyond the int range wraps);
  `Light.id` holds the int it yields, and that conversion is not modelled.
- LedControllerImpl.MapToIndex: computes on exact rationals, not Java
  `double`. It therefore does not reproduce the rounding error of
  `value / (double) maxExclusive * ledCount`, nor the `(int)` cast of an
  out-of-range `long`. At an exact half-position this error can move a hand
  by one LED: 42/60 of 45 LEDs is exactly 31.5, which the model rounds to
  32, while in IEEE-754 doubles `42 / 60.0 * 45` falls just below 31.5 and
  rounds to 31 (`ShowTimeProofs.MinuteHalfPositionRoundsUp` states the
  model's 32). No such case arises on the 8-LED ring. It also requires
  `maxExclusive > 0`: the only callers pass 60, and Java would divide by
  zero in floating point and yield `Math.round` of NaN or infinity. And it
  requires `ledCount > 0`, where Java's `% 0` would throw
  `ArithmeticException`; `showTime` never calls it on an empty group.
- LedControllerImpl.MapHourToIndex: computes on exact rationals, as above,
  so `double` rounding error is not modelled, and at exact half-positions
  the hour hand can land one LED later than in Java. At 01:12 on 5 LEDs the
  exact position is 0.5 and the model gives index 1, while in IEEE-754
  doubles `(1 + 12/60.0) / 12.0 * 5` is 0.49999999999999994 and Java gives
  0 (`ShowTimeProofs.HourHalfPositionRoundsUp` states the model's 1); likewise 00:36 on 10 LEDs and 07:20 on 9 LEDs. No such case arises on
  the 8-LED ring. It requires `ledCount > 0`;
  `showTime` returns before calling it on an empty group.
- LedControllerImpl.SpinningLed: `turns * GROUP_LED_IDS.length` is computed
  without 32-bit overflow. For `turns` above 268435455 Java would wrap
  around, which the model does not reproduce.
- LedControllerImpl.GetGroupLeds: the result is a list of light records,
  not an `org.json.JSONArray`. JSON text formatting is not modelled.
