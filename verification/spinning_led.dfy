/**
 * The chase animation `spinningLed`: the shape of its trace, how often each
 * LED is switched on and off, how often it sleeps, and that at most one LED
 * of the ring is lit at any moment.
 */
module SpinningLedProofs {
  import opened Events
  import opened LedController
  import opened LedControllerImpl
  import opened TurnOffProofs

  // ---------------------------------------------------------------- shape

  /**
   * The k-th call (from 0) of the chase between the two off-sweeps, in
   * closed form. Step s (from 0) is a sleep, then LED 20 + s mod 8 off,
   * then LED 20 + (s + 1) mod 8 on.
   */
  function ChaseCallAt(color: string, sleepMillis: int, k: nat): Event
  {
    var s := k / 3;
    if k % 3 == 0 then Sleep(sleepMillis)
    else if k % 3 == 1 then SetLight(20 + s % 8, Black, false)
    else SetLight(20 + (s + 1) % 8, color, true)
  }

  /** `currentIndex = (currentIndex + 1) % 8` keeps `currentIndex == (step - 1) % 8`. */
  lemma NextIndex(step: nat)
    requires step >= 1
    ensures ((step - 1) % RingSize + 1) % RingSize == step % RingSize
  {
  }

  lemma DivMod3(q: nat, r: nat)
    requires r < 3
    ensures (3 * q + r) / 3 == q && (3 * q + r) % 3 == r
  {
  }

  /** The first calls of one step of the loop, in closed form. */
  lemma ChaseStepClosedForm(color: string, sleepMillis: int, total: nat, step: nat, current: nat)
    requires 1 <= step <= total
    requires current == (step - 1) % RingSize
    ensures var t := ChaseLoop(color, sleepMillis, total, step, current);
      && t[0] == ChaseCallAt(color, sleepMillis, 3 * (step - 1))
      && t[1] == ChaseCallAt(color, sleepMillis, 3 * (step - 1) + 1)
      && (step < total ==> t[2] == ChaseCallAt(color, sleepMillis, 3 * (step - 1) + 2))
  {
    GroupLedIdsAt(current);
    DivMod3(step - 1, 0);
    DivMod3(step - 1, 1);
    DivMod3(step - 1, 2);
    if step < total {
      NextIndex(step);
      GroupLedIdsAt((current + 1) % RingSize);
    }
  }

  lemma {:induction false} ChaseLoopClosedForm(color: string, sleepMillis: int, total: nat, step: nat, current: nat)
    requires 1 <= step <= total
    requires current == (step - 1) % RingSize
    ensures forall k :: 0 <= k < |ChaseLoop(color, sleepMillis, total, step, current)| ==>
      ChaseLoop(color, sleepMillis, total, step, current)[k] == ChaseCallAt(color, sleepMillis, 3 * (step - 1) + k)
    decreases total - step
  {
    var t := ChaseLoop(color, sleepMillis, total, step, current);
    ChaseStepClosedForm(color, sleepMillis, total, step, current);
    if step < total {
      var next := (current + 1) % RingSize;
      NextIndex(step);
      ChaseLoopClosedForm(color, sleepMillis, total, step + 1, next);
      ChaseLoopTail(color, sleepMillis, total, step, current);
    }
  }

  /** A step that is not the last is followed by the rest of the loop, three calls on. */
  lemma ChaseLoopTail(color: string, sleepMillis: int, total: nat, step: nat, current: nat)
    requires 1 <= step < total
    requires current < RingSize
    ensures var t := ChaseLoop(color, sleepMillis, total, step, current);
      var rest := ChaseLoop(color, sleepMillis, total, step + 1, (current + 1) % RingSize);
      |t| == |rest| + 3 && forall k :: 3 <= k < |t| ==> t[k] == rest[k - 3]
  {
  }

  /**
   * `spinningLed` with at least one turn: an off-sweep, LED 20 on, then the
   * chase step by step (the last step lights nothing), then an off-sweep.
   */
  lemma SpinningLedShape(color: string, turns: int, sleepMillis: int)
    requires turns >= 1
    ensures var t := SpinningLed(color, turns, sleepMillis);
      && |t| == 3 * turns * RingSize + 16
      && t[..8] == TurnOffAllLeds()
      && t[8] == SetLight(20, color, true)
      && (forall k :: 0 <= k < 3 * turns * RingSize - 1 ==> t[9 + k] == ChaseCallAt(color, sleepMillis, k))
      && t[|t| - 8..] == TurnOffAllLeds()
  {
    var total := turns * RingSize;
    var t := SpinningLed(color, turns, sleepMillis);
    var chase := ChaseLoop(color, sleepMillis, total, 1, 0);
    ChaseLoopClosedForm(color, sleepMillis, total, 1, 0);
    assert t == TurnOffAllLeds() + [SetLight(GroupLedIds[0], color, true)] + chase + TurnOffAllLeds();
    forall k | 0 <= k < 3 * total - 1
      ensures t[9 + k] == ChaseCallAt(color, sleepMillis, k)
    {
      assert t[9 + k] == chase[k];
    }
  }

  /** The one-turn run the tests spell out: LED i goes off and LED i + 1 on, 20..27 in order. */
  lemma SpinningLedOneTurn(color: string, sleepMillis: int)
    ensures var t := SpinningLed(color, 1, sleepMillis);
      && |t| == 40
      && t[8] == SetLight(20, color, true)
      && (forall i :: 0 <= i < 7 ==>
            t[9 + 3 * i] == Sleep(sleepMillis)
            && t[10 + 3 * i] == SetLight(20 + i, Black, false)
            && t[11 + 3 * i] == SetLight(21 + i, color, true))
      && t[30] == Sleep(sleepMillis)
      && t[31] == SetLight(27, Black, false)
  {
    var t := SpinningLed(color, 1, sleepMillis);
    SpinningLedShape(color, 1, sleepMillis);
    forall i | 0 <= i < 7
      ensures t[9 + 3 * i] == Sleep(sleepMillis)
      ensures t[10 + 3 * i] == SetLight(20 + i, Black, false)
      ensures t[11 + 3 * i] == SetLight(21 + i, color, true)
    {
      OneTurnStep(color, sleepMillis, i);
    }
    FirstTurnStep(color, sleepMillis, 7);
    assert t[30] == ChaseCallAt(color, sleepMillis, 21);
    assert t[31] == ChaseCallAt(color, sleepMillis, 22);
  }

  /** Step i of the one-turn run: LED 20 + i off, then LED 21 + i on. */
  lemma OneTurnStep(color: string, sleepMillis: int, i: nat)
    requires i < 7
    ensures var t := SpinningLed(color, 1, sleepMillis);
      && |t| == 40
      && t[9 + 3 * i] == Sleep(sleepMillis)
      && t[10 + 3 * i] == SetLight(20 + i, Black, false)
      && t[11 + 3 * i] == SetLight(21 + i, color, true)
  {
    var t := SpinningLed(color, 1, sleepMillis);
    SpinningLedShape(color, 1, sleepMillis);
    FirstTurnStep(color, sleepMillis, i);
    assert t[9 + 3 * i] == ChaseCallAt(color, sleepMillis, 3 * i);
    assert t[9 + (3 * i + 1)] == ChaseCallAt(color, sleepMillis, 3 * i + 1);
    assert t[9 + (3 * i + 2)] == ChaseCallAt(color, sleepMillis, 3 * i + 2);
  }

  lemma FirstTurnStep(color: string, sleepMillis: int, i: nat)
    requires i < RingSize
    ensures ChaseCallAt(color, sleepMillis, 3 * i) == Sleep(sleepMillis)
    ensures ChaseCallAt(color, sleepMillis, 3 * i + 1) == SetLight(20 + i, Black, false)
    ensures i < 7 ==> ChaseCallAt(color, sleepMillis, 3 * i + 2) == SetLight(21 + i, color, true)
  {
    DivMod3(i, 0);
    DivMod3(i, 1);
    DivMod3(i, 2);
  }

  // ---------------------------------------------------------------- counts

  /** How many s in [start, start + len) have s mod 8 == j: how often ring position j comes round. */
  function RingHits(start: nat, len: nat, j: int): nat
    decreases len
  {
    if len == 0 then 0 else (if start % RingSize == j then 1 else 0) + RingHits(start + 1, len - 1, j)
  }

  lemma {:induction false} RingHitsSplit(start: nat, a: nat, b: nat, j: int)
    ensures RingHits(start, a + b, j) == RingHits(start, a, j) + RingHits(start + a, b, j)
    decreases a
  {
    if a > 0 {
      RingHitsSplit(start + 1, a - 1, b, j);
    }
  }

  /** From a multiple of 8, the first `len <= 8` positions are 0 .. len - 1, each once. */
  lemma {:induction false} RingHitsWithinTurn(start: nat, len: nat, j: int)
    requires start % RingSize == 0 && len <= RingSize
    ensures RingHits(start, len, j) == if 0 <= j < len then 1 else 0
    decreases len
  {
    if len > 0 {
      RingHitsWithinTurn(start, len - 1, j);
      RingHitsSplit(start, len - 1, 1, j);
      ModOffset(start, len - 1);
    }
  }

  lemma ModOffset(start: nat, r: nat)
    requires start % RingSize == 0 && r < RingSize
    ensures (start + r) % RingSize == r
  {
    var q := start / RingSize;
    assert start == RingSize * q;
    assert start + r == RingSize * q + r;
  }

  /** Over `n` full turns every ring position comes round exactly `n` times. */
  lemma {:induction false} RingHitsTurns(n: nat, j: int)
    ensures RingHits(0, RingSize * n, j) == if 0 <= j < RingSize then n else 0
  {
    if n > 0 {
      RingHitsTurns(n - 1, j);
      RingHitsSplit(0, RingSize * (n - 1), RingSize, j);
      RingHitsWithinTurn(RingSize * (n - 1), RingSize, j);
    }
  }

  lemma CountSingle(e: Event, sel: Selector)
    ensures Count([e], sel) == if Matches(e, sel) then 1 else 0
  {
    assert [e][1..] == [];
  }

  lemma {:induction false} ChaseLoopCounts(color: string, sleepMillis: int, total: nat, step: nat, current: nat, x: int)
    requires 1 <= step <= total
    requires current == (step - 1) % RingSize
    ensures Count(ChaseLoop(color, sleepMillis, total, step, current), Sleeps) == total - step + 1
    ensures Count(ChaseLoop(color, sleepMillis, total, step, current), OnOf(x)) == RingHits(step, total - step, x - 20)
    ensures Count(ChaseLoop(color, sleepMillis, total, step, current), OffOf(x)) == RingHits(step - 1, total - step + 1, x - 20)
    decreases total - step
  {
    var sleepEvent := Sleep(sleepMillis);
    var offEvent := SetLight(GroupLedIds[current], Black, false);
    GroupLedIdsAt(current);
    forall sel: Selector ensures Count([sleepEvent, offEvent], sel) == Count([sleepEvent], sel) + Count([offEvent], sel) {
      CountAppend([sleepEvent], [offEvent], sel);
      assert [sleepEvent] + [offEvent] == [sleepEvent, offEvent];
    }
    CountSingle(sleepEvent, Sleeps);
    CountSingle(offEvent, Sleeps);
    CountSingle(sleepEvent, OnOf(x));
    CountSingle(offEvent, OnOf(x));
    CountSingle(sleepEvent, OffOf(x));
    CountSingle(offEvent, OffOf(x));
    if step < total {
      var next := (current + 1) % RingSize;
      NextIndex(step);
      GroupLedIdsAt(next);
      var onEvent := SetLight(GroupLedIds[next], color, true);
      var rest := ChaseLoop(color, sleepMillis, total, step + 1, next);
      ChaseLoopCounts(color, sleepMillis, total, step + 1, next, x);
      forall sel: Selector
        ensures Count(ChaseLoop(color, sleepMillis, total, step, current), sel)
          == Count([sleepEvent, offEvent], sel) + Count([onEvent], sel) + Count(rest, sel)
      {
        CountAppend([sleepEvent, offEvent], [onEvent], sel);
        CountAppend([sleepEvent, offEvent] + [onEvent], rest, sel);
      }
      CountSingle(onEvent, Sleeps);
      CountSingle(onEvent, OnOf(x));
      CountSingle(onEvent, OffOf(x));
    }
  }

  /**
   * The counts the tests check: `turns * 8` sleeps, and each ring LED
   * switched on `turns` times and off `turns + 2` times (once per turn in the
   * chase, plus the two sweeps). No other LED is touched.
   */
  lemma SpinningLedCounts(color: string, turns: int, sleepMillis: int, x: int)
    requires turns >= 1
    ensures Count(SpinningLed(color, turns, sleepMillis), Sleeps) == turns * RingSize
    ensures Count(SpinningLed(color, turns, sleepMillis), OnOf(x)) == if 20 <= x < 28 then turns else 0
    ensures Count(SpinningLed(color, turns, sleepMillis), OffOf(x)) == if 20 <= x < 28 then turns + 2 else 0
  {
    var total := turns * RingSize;
    var first := SetLight(GroupLedIds[0], color, true);
    SpinningLedCountSplit(color, turns, sleepMillis, Sleeps);
    SpinningLedCountSplit(color, turns, sleepMillis, OnOf(x));
    SpinningLedCountSplit(color, turns, sleepMillis, OffOf(x));
    TurnOffAllLedsCalls(x);
    CountSingle(first, Sleeps);
    CountSingle(first, OnOf(x));
    CountSingle(first, OffOf(x));
    ChaseLoopCounts(color, sleepMillis, total, 1, 0, x);
    RingHitsTurns(turns, x - 20);
    assert RingHits(0, total, x - 20) == (if x - 20 == 0 then 1 else 0) + RingHits(1, total - 1, x - 20);
  }

  /** A count over `spinningLed` is the sum of the counts over its four parts. */
  lemma SpinningLedCountSplit(color: string, turns: int, sleepMillis: int, sel: Selector)
    requires turns >= 1
    ensures var off := TurnOffAllLeds();
      var first := [SetLight(GroupLedIds[0], color, true)];
      var chase := ChaseLoop(color, sleepMillis, turns * RingSize, 1, 0);
      Count(SpinningLed(color, turns, sleepMillis), sel)
        == Count(off, sel) + Count(first, sel) + Count(chase, sel) + Count(off, sel)
  {
    var off := TurnOffAllLeds();
    var first := [SetLight(GroupLedIds[0], color, true)];
    var chase := ChaseLoop(color, sleepMillis, turns * RingSize, 1, 0);
    CountAppend(off, first, sel);
    CountAppend(off + first, chase, sel);
    CountAppend(off + first + chase, off, sel);
  }

  /** With no turns, `spinningLed` is just `turnOffAllLeds`: nothing lit, no sleep. */
  lemma SpinningLedNoTurns(color: string, turns: int, sleepMillis: int, x: int)
    requires turns <= 0
    ensures Count(SpinningLed(color, turns, sleepMillis), Sleeps) == 0
    ensures Count(SpinningLed(color, turns, sleepMillis), OnOf(x)) == 0
    ensures Count(SpinningLed(color, turns, sleepMillis), OffOf(x)) == if 20 <= x < 28 then 1 else 0
  {
    TurnOffAllLedsCalls(x);
  }

  // ---------------------------------------------------------------- one lit LED

  lemma {:induction false} ChaseLoopAtMostOneLit(b: Board, color: string, sleepMillis: int, total: nat, step: nat, current: nat)
    requires 1 <= step <= total && current < RingSize
    requires Lit(b) == {20 + current}
    ensures AtMostOneLitThroughout(b, ChaseLoop(color, sleepMillis, total, step, current))
    ensures Lit(Play(b, ChaseLoop(color, sleepMillis, total, step, current))) == {}
    decreases total - step
  {
    GroupLedIdsAt(current);
    var sleepEvent := Sleep(sleepMillis);
    var offEvent := SetLight(GroupLedIds[current], Black, false);
    var dark := Apply(b, offEvent);
    LitAfterOff(b, GroupLedIds[current], Black);
    var head := [sleepEvent, offEvent];
    assert head == [sleepEvent] + [offEvent];
    AtMostOneLitSingle(b, sleepEvent);
    PlaySingle(b, sleepEvent);
    AtMostOneLitSingle(b, offEvent);
    PlaySingle(b, offEvent);
    AtMostOneLitAppend(b, [sleepEvent], [offEvent]);
    PlayAppend(b, [sleepEvent], [offEvent]);
    assert Play(b, head) == dark && Lit(dark) == {};
    if step < total {
      var next := (current + 1) % RingSize;
      GroupLedIdsAt(next);
      var onEvent := SetLight(GroupLedIds[next], color, true);
      var lit := Apply(dark, onEvent);
      LitAfterOn(dark, GroupLedIds[next], color);
      AtMostOneLitSingle(dark, onEvent);
      PlaySingle(dark, onEvent);
      AtMostOneLitAppend(b, head, [onEvent]);
      PlayAppend(b, head, [onEvent]);
      var rest := ChaseLoop(color, sleepMillis, total, step + 1, next);
      ChaseLoopAtMostOneLit(lit, color, sleepMillis, total, step + 1, next);
      AtMostOneLitAppend(b, head + [onEvent], rest);
      PlayAppend(b, head + [onEvent], rest);
    }
  }

  /**
   * Starting from a board on which at most one LED is lit, and that one in
   * the ring, at most one LED is lit after every call of `spinningLed`.
   */
  lemma SpinningLedAtMostOneLit(b: Board, color: string, turns: int, sleepMillis: int)
    requires |Lit(b)| <= 1
    requires forall id :: id in Lit(b) ==> 20 <= id < 28
    ensures var t := SpinningLed(color, turns, sleepMillis);
      forall k :: 0 <= k <= |t| ==> |Lit(Play(b, t[..k]))| <= 1
  {
    var t := SpinningLed(color, turns, sleepMillis);
    if turns > 0 {
      SpinningLedAtMostOneLitTurns(b, color, turns, sleepMillis);
    } else {
      OffSweepAtMostOneLit(b, GroupLedIds);
    }
    AtMostOneLitPrefixes(b, t);
  }

  /** The off-sweep clears a board whose lit LEDs all lie in the ring. */
  lemma SweepClearsRing(b: Board)
    requires forall id :: id in Lit(b) ==> 20 <= id < 28
    ensures Lit(Play(b, TurnOffAllLeds())) == {}
  {
    OffSweepLit(b, GroupLedIds);
    forall id
      ensures id !in Lit(Play(b, TurnOffAllLeds()))
    {
      GroupLedIdsMembers(id);
    }
  }

  /** The opening of the chase: after the sweep and the first on call, LED 20 alone is lit. */
  lemma SpinningLedOpening(b: Board, color: string)
    requires |Lit(b)| <= 1
    requires forall id :: id in Lit(b) ==> 20 <= id < 28
    ensures AtMostOneLitThroughout(b, TurnOffAllLeds() + [SetLight(GroupLedIds[0], color, true)])
    ensures Lit(Play(b, TurnOffAllLeds() + [SetLight(GroupLedIds[0], color, true)])) == {20}
  {
    var off := TurnOffAllLeds();
    OffSweepAtMostOneLit(b, GroupLedIds);
    var cleared := Play(b, off);
    SweepClearsRing(b);
    var onEvent := SetLight(GroupLedIds[0], color, true);
    LitAfterOn(cleared, 20, color);
    AtMostOneLitSingle(cleared, onEvent);
    PlaySingle(cleared, onEvent);
    AtMostOneLitAppend(b, off, [onEvent]);
    PlayAppend(b, off, [onEvent]);
  }

  lemma SpinningLedAtMostOneLitTurns(b: Board, color: string, turns: int, sleepMillis: int)
    requires turns > 0
    requires |Lit(b)| <= 1
    requires forall id :: id in Lit(b) ==> 20 <= id < 28
    ensures AtMostOneLitThroughout(b, SpinningLed(color, turns, sleepMillis))
  {
    var opening := TurnOffAllLeds() + [SetLight(GroupLedIds[0], color, true)];
    SpinningLedOpening(b, color);
    var chase := ChaseLoop(color, sleepMillis, turns * RingSize, 1, 0);
    ChaseLoopAtMostOneLit(Play(b, opening), color, sleepMillis, turns * RingSize, 1, 0);
    AtMostOneLitAppend(b, opening, chase);
    PlayAppend(b, opening, chase);
    OffSweepAtMostOneLit(Play(b, opening + chase), GroupLedIds);
    AtMostOneLitAppend(b, opening + chase, TurnOffAllLeds());
  }

  /** Whatever the turns, `spinningLed` leaves every ring LED black and off. */
  lemma SpinningLedEndsDark(b: Board, color: string, turns: int, sleepMillis: int)
    ensures var end := Play(b, SpinningLed(color, turns, sleepMillis));
      forall id :: 20 <= id < 28 ==> id in end && end[id] == Lamp(Black, false)
  {
    var off := TurnOffAllLeds();
    if turns <= 0 {
      TurnOffAllLedsBoard(b);
    } else {
      var prefix := off + [SetLight(GroupLedIds[0], color, true)] + ChaseLoop(color, sleepMillis, turns * RingSize, 1, 0);
      PlayAppend(b, prefix, off);
      TurnOffAllLedsBoard(Play(b, prefix));
    }
  }
}
