/**
 * `LedControllerImpl`: every operation is a pure function from what the
 * light service answers to the calls the controller makes (its trace) and
 * what it returns or throws.
 */
module LedControllerImpl {
  import opened Results
  import opened Lights
  import opened Events
  import opened LedController

  /** `GROUP_LED_IDS`: the fixed ring the animations drive, in ring order. */
  const GroupLedIds: seq<int> := [20, 21, 22, 23, 24, 25, 26, 27]

  /** The ring size, `GROUP_LED_IDS.length`. */
  const RingSize: nat := |GroupLedIds|

  /** Ring LED k has id 20 + k; the proofs write the ring as the ids 20 to 27 through this fact. */
  lemma GroupLedIdsAt(k: nat)
    requires k < RingSize
    ensures |GroupLedIds| == RingSize && GroupLedIds[k] == 20 + k
  {
  }

  // ---------------------------------------------------------------- lookups

  /** `getLight(id)`: one `getLight` call; the first light of the answer, or not-found when it is empty. */
  function GetLightOp(id: int, response: Response): (run: Run<Light>)
    ensures run.trace == [GetLight(id)]
    ensures response.lights.None? ==> run.result == Err(LightsMissing)
    ensures response.lights.Some? ==>
      (run.result.Ok? <==> |response.lights.value| > 0)
    ensures response.lights.Some? && run.result.Ok? ==> run.result.value == response.lights.value[0]
    ensures response.lights.Some? && run.result.Err? ==> run.result.error == NoLightFound(id)
  {
    match response.lights
    case None => Run([GetLight(id)], Err(LightsMissing))
    case Some(lights) =>
      if |lights| == 0 then Run([GetLight(id)], Err(NoLightFound(id)))
      else Run([GetLight(id)], Ok(lights[0]))
  }

  /** `getGroupLeds()`: one `getLights` call, then the grouped lights in their original order. */
  function GetGroupLeds(response: Response): (run: Run<seq<Light>>)
    ensures run.trace == [GetLights]
    ensures run.result.Ok? <==> response.lights.Some?
    ensures run.result.Ok? ==> IsSubsequence(run.result.value, response.lights.value)
    ensures run.result.Ok? ==> forall l :: l in run.result.value <==> l in response.lights.value && InGroup(l)
    ensures run.result.Ok? ==> forall l :: multiset(run.result.value)[l] == if InGroup(l) then multiset(response.lights.value)[l] else 0
    ensures run.result.Err? ==> run.result.error == LightsMissing
  {
    match response.lights
    case None => Run([GetLights], Err(LightsMissing))
    case Some(lights) =>
      var group := FilterGroup(lights);
      assert forall l :: l in group <==> multiset(group)[l] > 0;
      Run([GetLights], Ok(group))
  }

  // ---------------------------------------------------------------- setting

  /** `setLed(id, color)`: a single `setLight(id, color, true)`. */
  function SetLed(id: int, color: string): (t: seq<Event>)
    ensures |t| == 1 && Count(t, OnOf(id)) == 1 && Count(t, AnySet) == 1
    ensures forall b: Board :: Play(b, t) == b[id := Lamp(color, true)]
  {
    [SetLight(id, color, true)]
  }

  /** One `setLight(id, "#000000", false)` per id, in order. */
  function OffSweep(ids: seq<int>): (t: seq<Event>)
    ensures |t| == |ids|
    ensures forall i :: 0 <= i < |ids| ==> t[i] == SetLight(ids[i], Black, false)
  {
    if ids == [] then [] else [SetLight(ids[0], Black, false)] + OffSweep(ids[1..])
  }

  /** `turnOffAllLeds()`: switch off LEDs 20..27 in that order, and nothing else. */
  function TurnOffAllLeds(): (t: seq<Event>)
    ensures |t| == RingSize
    ensures forall i :: 0 <= i < RingSize ==> t[i] == SetLight(20 + i, Black, false)
  {
    OffSweep(GroupLedIds)
  }

  // ---------------------------------------------------------------- chase

  /**
   * The `for (step = ...; step <= totalSteps; step++)` loop of `spinningLed`
   * from `step` on, with `current` the index of the LED now lit: sleep, switch
   * the current LED off, and unless this is the last step move on and light
   * the next one.
   */
  function ChaseLoop(color: string, sleepMillis: int, totalSteps: nat, step: nat, current: nat): (t: seq<Event>)
    requires 1 <= step <= totalSteps
    requires current < RingSize
    ensures |t| == 3 * (totalSteps - step) + 2
    decreases totalSteps - step
  {
    var sleepAndOff := [Sleep(sleepMillis), SetLight(GroupLedIds[current], Black, false)];
    if step == totalSteps then sleepAndOff
    else
      var next := (current + 1) % RingSize;
      sleepAndOff + [SetLight(GroupLedIds[next], color, true)]
        + ChaseLoop(color, sleepMillis, totalSteps, step + 1, next)
  }

  /** `spinningLed(color, turns, sleepMillis)`. */
  function SpinningLed(color: string, turns: int, sleepMillis: int): (t: seq<Event>)
    ensures turns <= 0 ==> t == TurnOffAllLeds()
    ensures turns > 0 ==> |t| == 2 * RingSize + 3 * turns * RingSize
  {
    if turns <= 0 then TurnOffAllLeds()
    else
      TurnOffAllLeds()
        + [SetLight(GroupLedIds[0], color, true)]
        + ChaseLoop(color, sleepMillis, turns * RingSize, 1, 0)
        + TurnOffAllLeds()
  }

  // ---------------------------------------------------------------- clock

  /** Java's `/` on `int`: the quotient is truncated toward zero. */
  function JavaQuot(a: int, n: int): int
    requires n > 0
  {
    if a >= 0 then a / n else -((-a) / n)
  }

  /** Java's `%` on `int`: the remainder takes the sign of the dividend. */
  function JavaRem(a: int, n: int): (r: int)
    requires n > 0
    ensures a >= 0 ==> 0 <= r < n
    ensures a < 0 ==> -n < r <= 0
    ensures a == JavaQuot(a, n) * n + r
  {
    if a >= 0 then a % n else -((-a) % n)
  }

  /**
   * `Math.round(num / den)` on the exact quotient, floor(num/den + 1/2):
   * `RoundHalfUpIsNearest` shows it is the integer nearest to num/den,
   * halves rounded up.
   */
  function RoundHalfUp(num: int, den: int): int
    requires den > 0
  {
    (2 * num + den) / (2 * den)
  }

  /** The rounded value lies within half a step of num/den, below or at the upper half. */
  lemma RoundHalfUpIsNearest(num: int, den: int)
    requires den > 0
    ensures var k := RoundHalfUp(num, den);
      2 * den * k - den <= 2 * num < 2 * den * k + den
  {
  }

  /** `mapToIndex(value, maxExclusive, ledCount)`: value/maxExclusive of the way round the ring. */
  function MapToIndex(value: int, maxExclusive: int, ledCount: int): (index: int)
    requires maxExclusive > 0 && ledCount > 0
    ensures value >= 0 ==> 0 <= index < ledCount
    ensures -ledCount < index < ledCount
  {
    JavaRem(RoundHalfUp(value * ledCount, maxExclusive), ledCount)
  }

  /** `mapHourToIndex(hours, minutes, ledCount)`: the hour hand of a 12-hour dial, minutes included. */
  function MapHourToIndex(hours: int, minutes: int, ledCount: int): (index: int)
    requires ledCount > 0
    ensures hours >= 0 && minutes >= 0 ==> 0 <= index < ledCount
    ensures -ledCount < index < ledCount
  {
    var h12 := JavaRem(hours, 12);
    JavaRem(RoundHalfUp((60 * h12 + minutes) * ledCount, 720), ledCount)
  }

  /** The call `showTime` makes for the LED at ring position `i`. */
  function ClockEvent(id: int, isHour: bool, isMinute: bool, isSecond: bool): (e: Event)
    ensures e.SetLight? && e.id == id
    ensures e.on <==> isHour || isMinute || isSecond
    ensures e.color == MixColors(isHour, isMinute, isSecond)
  {
    var color := MixColors(isHour, isMinute, isSecond);
    MixColorsBlackIff(isHour, isMinute, isSecond);
    SetLight(id, color, color != Black)
  }

  /** The loop of `showTime`: one call per grouped LED, in group order. */
  function ClockFace(group: seq<Light>, hourIndex: int, minuteIndex: int, secondIndex: int): (t: seq<Event>)
    ensures |t| == |group|
    ensures forall i :: 0 <= i < |group| ==> t[i].SetLight? && t[i].id == group[i].id
    ensures forall i :: 0 <= i < |group| ==>
      t[i].color == MixColors(i == hourIndex, i == minuteIndex, i == secondIndex)
    ensures forall i :: 0 <= i < |group| ==>
      (t[i].on <==> i == hourIndex || i == minuteIndex || i == secondIndex)
  {
    seq(|group|, i requires 0 <= i < |group| =>
      ClockEvent(group[i].id, i == hourIndex, i == minuteIndex, i == secondIndex))
  }

  /** `showTime(hours, minutes, seconds)` on the LEDs `getGroupLeds` returns. */
  function ShowTime(hours: int, minutes: int, seconds: int, response: Response): (run: Run<()>)
    ensures run.result.Ok? <==> response.lights.Some?
    ensures |run.trace| >= 1 && run.trace[0] == GetLights
    ensures run.result.Ok? ==> |run.trace| == 1 + |FilterGroup(response.lights.value)|
    ensures run.result.Err? ==> run.trace == [GetLights] && run.result.error == LightsMissing
  {
    var groupRun := GetGroupLeds(response);
    match groupRun.result
    case Err(e) => Run(groupRun.trace, Err(e))
    case Ok(group) =>
      var ledCount := |group|;
      if ledCount == 0 then Run(groupRun.trace, Ok(()))
      else
        var hourIndex := MapHourToIndex(hours, minutes, ledCount);
        var minuteIndex := MapToIndex(minutes, 60, ledCount);
        var secondIndex := MapToIndex(seconds, 60, ledCount);
        Run(groupRun.trace + ClockFace(group, hourIndex, minuteIndex, secondIndex), Ok(()))
  }
}
