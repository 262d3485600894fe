/**
 * The clock face `showTime(h, m, s)`: where each hand lands on the ring,
 * which call each grouped LED receives, and the scenarios of the tests.
 */
module ShowTimeProofs {
  import opened Results
  import opened Lights
  import opened Events
  import opened LedController
  import opened LedControllerImpl

  // ---------------------------------------------------------------- index mapping

  lemma {:induction false} MulAtLeast(a: int, d: int)
    requires a >= 0 && d >= 1
    ensures a * d >= a
    decreases d
  {
    if d > 1 {
      MulAtLeast(a, d - 1);
      assert a * d == a * (d - 1) + a;
    }
  }

  /** Multiplying by a positive factor keeps integers at least one factor apart. */
  lemma MulGap(a: int, x: int, y: int)
    requires a > 0 && x < y
    ensures a * x + a <= a * y
  {
    MulAtLeast(a, y - x);
    assert a * y == a * x + a * (y - x);
  }

  /** Only one integer lies within half a step of num/den, so the rounding is determined. */
  lemma RoundHalfUpUnique(num: int, den: int, k: int)
    requires den > 0
    requires 2 * den * k - den <= 2 * num < 2 * den * k + den
    ensures RoundHalfUp(num, den) == k
  {
    var r := RoundHalfUp(num, den);
    RoundHalfUpIsNearest(num, den);
    if r < k {
      MulGap(2 * den, r, k);
    } else if r > k {
      MulGap(2 * den, k, r);
    }
  }

  /**
   * `mapToIndex` puts a hand at the ring position nearest to value/max of
   * the way round (halves rounded up), wrapped into the ring.
   */
  lemma MapToIndexIsRoundedPosition(value: int, maxExclusive: int, ledCount: int, k: int)
    requires maxExclusive > 0 && ledCount > 0
    requires 2 * maxExclusive * k - maxExclusive <= 2 * value * ledCount < 2 * maxExclusive * k + maxExclusive
    ensures MapToIndex(value, maxExclusive, ledCount) == JavaRem(k, ledCount)
  {
    RoundHalfUpUnique(value * ledCount, maxExclusive, k);
  }

  /**
   * `mapHourToIndex` puts the hour hand at the ring position nearest to
   * (h mod 12 + m / 60) / 12 of the way round, wrapped into the ring.
   */
  lemma MapHourToIndexIsRoundedPosition(hours: int, minutes: int, ledCount: int, k: int)
    requires ledCount > 0
    requires 1440 * k - 720 <= 2 * (60 * JavaRem(hours, 12) + minutes) * ledCount < 1440 * k + 720
    ensures MapHourToIndex(hours, minutes, ledCount) == JavaRem(k, ledCount)
  {
    RoundHalfUpUnique((60 * JavaRem(hours, 12) + minutes) * ledCount, 720, k);
  }

  lemma HourIndexAtThree()
    ensures MapHourToIndex(3, 0, 8) == 2
  {
  }

  lemma HourIndexAtMidnight()
    ensures MapHourToIndex(0, 0, 8) == 0
  {
  }

  lemma HourIndexAtNoon()
    ensures MapHourToIndex(12, 0, 8) == 0
  {
  }

  lemma IndexAtZero()
    ensures MapToIndex(0, 60, 8) == 0
  {
  }

  lemma IndexAtHalf()
    ensures MapToIndex(30, 60, 8) == 4
  {
  }

  /** Sample indices on 8 LEDs: three o'clock is position 2, not 3; midnight and noon are position 0; minute 30 is position 4. */
  lemma MappingExamples()
    ensures MapHourToIndex(3, 0, 8) == 2
    ensures MapHourToIndex(0, 0, 8) == 0
    ensures MapHourToIndex(12, 0, 8) == 0
    ensures MapToIndex(0, 60, 8) == 0
    ensures MapToIndex(30, 60, 8) == 4
  {
    HourIndexAtThree();
    HourIndexAtMidnight();
    HourIndexAtNoon();
    IndexAtZero();
    IndexAtHalf();
  }

  /** At the exact half-position of 01:12 on five LEDs the hour hand rounds up to index 1. */
  lemma HourHalfPositionRoundsUp()
    ensures MapHourToIndex(1, 12, 5) == 1
  {
  }

  /** 42/60 of 45 LEDs is exactly 31.5, which rounds up to index 32. */
  lemma MinuteHalfPositionRoundsUp()
    ensures MapToIndex(42, 60, 45) == 32
  {
  }

  /** Hour −3 keeps Java's negative remainder, so its hour hand gets index −2 and falls off the ring. */
  lemma NegativeHourMissesRing()
    ensures MapHourToIndex(-3, 0, 8) == -2
  {
  }

  // ---------------------------------------------------------------- calls

  /** The hand positions `showTime` computes for a group of `ledCount` LEDs. */
  function Hands(hours: int, minutes: int, seconds: int, ledCount: int): (hands: (int, int, int))
    requires ledCount > 0
  {
    (MapHourToIndex(hours, minutes, ledCount), MapToIndex(minutes, 60, ledCount), MapToIndex(seconds, 60, ledCount))
  }

  /** With no grouped LED, `showTime` asks for the lights and sets nothing. */
  lemma ShowTimeNoGroup(hours: int, minutes: int, seconds: int, response: Response)
    requires response.lights.Some? && FilterGroup(response.lights.value) == []
    ensures ShowTime(hours, minutes, seconds, response).trace == [GetLights]
    ensures Count(ShowTime(hours, minutes, seconds, response).trace, AnySet) == 0
  {
    assert [GetLights][1..] == [];
  }

  /** `showTime` completes whenever the lights could be fetched. */
  lemma ShowTimeSucceeds(hours: int, minutes: int, seconds: int, response: Response)
    requires response.lights.Some?
    ensures ShowTime(hours, minutes, seconds, response).result == Ok(())
  {
  }

  /** `showTime` on a non-empty group: the `getLights` call, then the clock face. */
  lemma ShowTimeFace(hours: int, minutes: int, seconds: int, response: Response)
    requires response.lights.Some? && |FilterGroup(response.lights.value)| > 0
    ensures var group := FilterGroup(response.lights.value);
      var hands := Hands(hours, minutes, seconds, |group|);
      ShowTime(hours, minutes, seconds, response).trace == [GetLights] + ClockFace(group, hands.0, hands.1, hands.2)
  {
  }

  /**
   * Each grouped LED gets exactly one `setLight`, in group order, with the
   * colour of the hands on its position, powered on iff that colour is not black.
   */
  lemma ShowTimeCalls(hours: int, minutes: int, seconds: int, response: Response)
    requires response.lights.Some? && |FilterGroup(response.lights.value)| > 0
    ensures var group := FilterGroup(response.lights.value);
      var hands := Hands(hours, minutes, seconds, |group|);
      var face := ShowTime(hours, minutes, seconds, response).trace[1..];
      && |face| == |group|
      && (forall i :: 0 <= i < |group| ==> face[i].SetLight? && face[i].id == group[i].id)
      && (forall i :: 0 <= i < |group| ==> face[i].color == MixColors(i == hands.0, i == hands.1, i == hands.2))
      && (forall i :: 0 <= i < |group| ==> (face[i].on <==> face[i].color != Black))
      && Count(ShowTime(hours, minutes, seconds, response).trace, AnySet) == |group|
  {
    var group := FilterGroup(response.lights.value);
    var hands := Hands(hours, minutes, seconds, |group|);
    var face := ClockFace(group, hands.0, hands.1, hands.2);
    ShowTimeFace(hours, minutes, seconds, response);
    assert ([GetLights] + face)[1..] == face;
    ClockFaceCalls(group, hands.0, hands.1, hands.2);
  }

  lemma ClockFaceCalls(group: seq<Light>, hourIndex: int, minuteIndex: int, secondIndex: int)
    ensures var face := ClockFace(group, hourIndex, minuteIndex, secondIndex);
      && (forall i :: 0 <= i < |group| ==> (face[i].on <==> face[i].color != Black))
      && Count([GetLights] + face, AnySet) == |group|
  {
    var face := ClockFace(group, hourIndex, minuteIndex, secondIndex);
    forall i | 0 <= i < |group|
      ensures face[i].on <==> face[i].color != Black
    {
      MixColorsBlackIff(i == hourIndex, i == minuteIndex, i == secondIndex);
    }
    CountAppend([GetLights], face, AnySet);
    assert [GetLights][1..] == [];
    CountWhereAll(face, AnySet);
  }

  lemma {:induction false} CountWhereAll(t: seq<Event>, sel: Selector)
    requires forall i :: 0 <= i < |t| ==> Matches(t[i], sel)
    ensures Count(t, sel) == |t|
    decreases |t|
  {
    if t != [] {
      CountWhereAll(t[1..], sel);
    }
  }

  /** The positions of `P` below `n`. */
  function Below(P: set<int>, n: int): set<int>
  {
    set i | i in P && 0 <= i < n
  }

  /** When call i is an on call exactly for i in P, the on calls number the positions of P in range. */
  lemma {:induction false} CountOnPositions(t: seq<Event>, P: set<int>)
    requires forall i :: 0 <= i < |t| ==> t[i].SetLight? && (t[i].on <==> i in P)
    ensures Count(t, AnyOn) == |Below(P, |t|)|
    decreases |t|
  {
    if t != [] {
      var n := |t| - 1;
      var front := t[..n];
      assert t == front + [t[n]];
      CountOnPositions(front, P);
      CountAppend(front, [t[n]], AnyOn);
      assert [t[n]][1..] == [];
      if n in P {
        assert Below(P, |t|) == Below(P, n) + {n};
      } else {
        assert Below(P, |t|) == Below(P, n);
      }
    }
  }

  /**
   * For a time of day, the number of LEDs `showTime` powers on is the number
   * of distinct hand positions: one, two or three.
   */
  lemma ShowTimeLitCount(hours: int, minutes: int, seconds: int, response: Response)
    requires hours >= 0 && minutes >= 0 && seconds >= 0
    requires response.lights.Some? && |FilterGroup(response.lights.value)| > 0
    ensures var hands := Hands(hours, minutes, seconds, |FilterGroup(response.lights.value)|);
      Count(ShowTime(hours, minutes, seconds, response).trace, AnyOn) == |{hands.0, hands.1, hands.2}|
    ensures 1 <= Count(ShowTime(hours, minutes, seconds, response).trace, AnyOn) <= 3
  {
    var group := FilterGroup(response.lights.value);
    var hands := Hands(hours, minutes, seconds, |group|);
    ShowTimeFace(hours, minutes, seconds, response);
    ClockFaceLitCount(group, hands.0, hands.1, hands.2);
  }

  lemma ClockFaceLitCount(group: seq<Light>, hourIndex: int, minuteIndex: int, secondIndex: int)
    requires 0 <= hourIndex < |group| && 0 <= minuteIndex < |group| && 0 <= secondIndex < |group|
    ensures Count([GetLights] + ClockFace(group, hourIndex, minuteIndex, secondIndex), AnyOn)
      == |{hourIndex, minuteIndex, secondIndex}|
    ensures 1 <= |{hourIndex, minuteIndex, secondIndex}| <= 3
  {
    var face := ClockFace(group, hourIndex, minuteIndex, secondIndex);
    CountAppend([GetLights], face, AnyOn);
    assert [GetLights][1..] == [];
    ClockFaceOnCount(group, hourIndex, minuteIndex, secondIndex);
    HandPositions(hourIndex, minuteIndex, secondIndex);
  }

  lemma ClockFaceOnCount(group: seq<Light>, hourIndex: int, minuteIndex: int, secondIndex: int)
    requires 0 <= hourIndex < |group| && 0 <= minuteIndex < |group| && 0 <= secondIndex < |group|
    ensures Count(ClockFace(group, hourIndex, minuteIndex, secondIndex), AnyOn)
      == |{hourIndex, minuteIndex, secondIndex}|
  {
    var face := ClockFace(group, hourIndex, minuteIndex, secondIndex);
    ClockFaceOnPositions(group, hourIndex, minuteIndex, secondIndex);
    CountOnPositions(face, {hourIndex, minuteIndex, secondIndex});
    BelowHands(hourIndex, minuteIndex, secondIndex, |group|);
  }

  lemma ClockFaceOnPositions(group: seq<Light>, hourIndex: int, minuteIndex: int, secondIndex: int)
    ensures var face := ClockFace(group, hourIndex, minuteIndex, secondIndex);
      forall i :: 0 <= i < |face| ==> face[i].SetLight? && (face[i].on <==> i in {hourIndex, minuteIndex, secondIndex})
  {
  }

  lemma BelowHands(h: int, m: int, s: int, n: int)
    requires 0 <= h < n && 0 <= m < n && 0 <= s < n
    ensures Below({h, m, s}, n) == {h, m, s}
  {
  }

  lemma HandPositions(h: int, m: int, s: int)
    ensures 1 <= |{h, m, s}| <= 3
  {
    if h == m {
      assert {h, m, s} == {h, s};
    }
  }

  // ---------------------------------------------------------------- scenarios

  /** Eight grouped LEDs 20..27 in order, as the clock tests set up. */
  predicate TestRing(lights: seq<Light>)
  {
    |lights| == 8 && forall i :: 0 <= i < 8 ==> lights[i].id == 20 + i && InGroup(lights[i])
  }

  /** On the test ring every light is grouped, so the face covers all eight LEDs. */
  lemma ShowTimeOnTestRing(hours: int, minutes: int, seconds: int, lights: seq<Light>)
    requires TestRing(lights)
    ensures var hands := Hands(hours, minutes, seconds, 8);
      && ShowTime(hours, minutes, seconds, Response(Some(lights))).result == Ok(())
      && ShowTime(hours, minutes, seconds, Response(Some(lights))).trace == [GetLights] + ClockFace(lights, hands.0, hands.1, hands.2)
  {
    FilterGroupAllGrouped(lights);
    ShowTimeSucceeds(hours, minutes, seconds, Response(Some(lights)));
    ShowTimeFace(hours, minutes, seconds, Response(Some(lights)));
  }

  /** On the test ring, position i is LED 20 + i. */
  lemma TestRingCall(lights: seq<Light>, hourIndex: int, minuteIndex: int, secondIndex: int, i: int)
    requires TestRing(lights) && 0 <= i < 8
    ensures ClockFace(lights, hourIndex, minuteIndex, secondIndex)[i]
      == SetLight(20 + i, MixColors(i == hourIndex, i == minuteIndex, i == secondIndex),
                  i == hourIndex || i == minuteIndex || i == secondIndex)
  {
  }

  /** The calls the test expects at 03:00:00: LED 20 cyan (minute and second), LED 22 red (hour), the rest off. */
  const ThreeOClockCalls: seq<Event> := [
    SetLight(20, "#00ffff", true),
    SetLight(21, Black, false),
    SetLight(22, "#ff0000", true),
    SetLight(23, Black, false),
    SetLight(24, Black, false),
    SetLight(25, Black, false),
    SetLight(26, Black, false),
    SetLight(27, Black, false)]

  /** The calls the test expects at 00:00:00: all hands on LED 20, which is white; the rest off. */
  const MidnightCalls: seq<Event> := [
    SetLight(20, "#ffffff", true),
    SetLight(21, Black, false),
    SetLight(22, Black, false),
    SetLight(23, Black, false),
    SetLight(24, Black, false),
    SetLight(25, Black, false),
    SetLight(26, Black, false),
    SetLight(27, Black, false)]

  lemma ThreeOClockFace(lights: seq<Light>)
    requires TestRing(lights)
    ensures ClockFace(lights, 2, 0, 0) == ThreeOClockCalls
  {
    var face := ClockFace(lights, 2, 0, 0);
    MixColorsExamples();
    forall i | 0 <= i < 8
      ensures face[i] == ThreeOClockCalls[i]
    {
      TestRingCall(lights, 2, 0, 0, i);
    }
  }

  /** 03:00:00 on the test ring: the hour hand on position 2, minute and second hands on position 0. */
  lemma ShowTimeThreeOClock(lights: seq<Light>)
    requires TestRing(lights)
    ensures ShowTime(3, 0, 0, Response(Some(lights))).result == Ok(())
    ensures ShowTime(3, 0, 0, Response(Some(lights))).trace == [GetLights] + ThreeOClockCalls
  {
    HourIndexAtThree();
    IndexAtZero();
    ShowTimeOnTestRing(3, 0, 0, lights);
    ThreeOClockFace(lights);
  }

  lemma MidnightFace(lights: seq<Light>)
    requires TestRing(lights)
    ensures ClockFace(lights, 0, 0, 0) == MidnightCalls
  {
    var face := ClockFace(lights, 0, 0, 0);
    MixColorsExamples();
    forall i | 0 <= i < 8
      ensures face[i] == MidnightCalls[i]
    {
      TestRingCall(lights, 0, 0, 0, i);
    }
  }

  /** 00:00:00 on the test ring: all three hands on position 0. */
  lemma ShowTimeMidnight(lights: seq<Light>)
    requires TestRing(lights)
    ensures ShowTime(0, 0, 0, Response(Some(lights))).result == Ok(())
    ensures ShowTime(0, 0, 0, Response(Some(lights))).trace == [GetLights] + MidnightCalls
  {
    HourIndexAtMidnight();
    IndexAtZero();
    ShowTimeOnTestRing(0, 0, 0, lights);
    MidnightFace(lights);
  }
}
