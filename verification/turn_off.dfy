/** What `turnOffAllLeds` does to the calls it makes and to the board. */
module TurnOffProofs {
  import opened Events
  import opened LedController
  import opened LedControllerImpl

  /** The ids of the ring, as a set. */
  lemma GroupLedIdsMembers(id: int)
    ensures id in GroupLedIds <==> 20 <= id < 28
  {
    if 20 <= id < 28 {
      assert GroupLedIds[id - 20] == id;
    }
  }

  /** An off-sweep sets each of its ids off exactly as often as the id occurs, and nothing on, and never sleeps. */
  lemma {:induction false} OffSweepCounts(ids: seq<int>, x: int)
    ensures Count(OffSweep(ids), OffOf(x)) == multiset(ids)[x]
    ensures Count(OffSweep(ids), OnOf(x)) == 0
    ensures Count(OffSweep(ids), Sleeps) == 0
    ensures Count(OffSweep(ids), AnySet) == |ids|
    decreases |ids|
  {
    if ids != [] {
      OffSweepCounts(ids[1..], x);
      assert ids == [ids[0]] + ids[1..];
      assert OffSweep(ids)[1..] == OffSweep(ids[1..]);
    }
  }

  /** After an off-sweep every swept LED is black and off; every other LED is as it was. */
  lemma {:induction false} OffSweepBoard(b: Board, ids: seq<int>)
    ensures forall id :: id in ids ==> id in Play(b, OffSweep(ids)) && Play(b, OffSweep(ids))[id] == Lamp(Black, false)
    ensures forall id :: id !in ids ==> (id in Play(b, OffSweep(ids)) <==> id in b)
    ensures forall id :: id !in ids && id in b ==> Play(b, OffSweep(ids))[id] == b[id]
    decreases |ids|
  {
    if ids != [] {
      var t := OffSweep(ids);
      assert t[1..] == OffSweep(ids[1..]);
      OffSweepBoard(Apply(b, t[0]), ids[1..]);
      assert forall id :: id in ids <==> id == ids[0] || id in ids[1..];
    }
  }

  /** The LEDs lit after an off-sweep are those lit before that it did not touch. */
  lemma OffSweepLit(b: Board, ids: seq<int>)
    ensures forall id :: id in Lit(Play(b, OffSweep(ids))) <==> id in Lit(b) && id !in ids
  {
    OffSweepBoard(b, ids);
  }

  /** An off-sweep never lights anything, so one lit LED at most stays one lit LED at most. */
  lemma {:induction false} OffSweepAtMostOneLit(b: Board, ids: seq<int>)
    requires |Lit(b)| <= 1
    ensures AtMostOneLitThroughout(b, OffSweep(ids))
    decreases |ids|
  {
    if ids != [] {
      var t := OffSweep(ids);
      assert t[1..] == OffSweep(ids[1..]);
      LitAfterOff(b, ids[0], Black);
      assert Lit(Apply(b, t[0])) <= Lit(b);
      OffSweepAtMostOneLit(Apply(b, t[0]), ids[1..]);
    }
  }

  lemma GroupLedIdsMultiplicity(x: int)
    ensures multiset(GroupLedIds)[x] == if 20 <= x < 28 then 1 else 0
  {
    assert multiset(GroupLedIds) == multiset{20, 21, 22, 23, 24, 25, 26, 27};
  }

  /** `turnOffAllLeds` makes exactly one off call per ring LED, and no other call. */
  lemma TurnOffAllLedsCalls(x: int)
    ensures Count(TurnOffAllLeds(), OffOf(x)) == (if 20 <= x < 28 then 1 else 0)
    ensures Count(TurnOffAllLeds(), OnOf(x)) == 0
    ensures Count(TurnOffAllLeds(), Sleeps) == 0
    ensures Count(TurnOffAllLeds(), AnySet) == RingSize
  {
    OffSweepCounts(GroupLedIds, x);
    GroupLedIdsMultiplicity(x);
  }

  /** After `turnOffAllLeds` the whole ring is black and off, and every other LED is as it was. */
  lemma TurnOffAllLedsBoard(b: Board)
    ensures forall id :: 20 <= id < 28 ==> id in Play(b, TurnOffAllLeds()) && Play(b, TurnOffAllLeds())[id] == Lamp(Black, false)
    ensures forall id :: !(20 <= id < 28) ==> (id in Play(b, TurnOffAllLeds()) <==> id in b)
    ensures forall id :: !(20 <= id < 28) && id in b ==> Play(b, TurnOffAllLeds())[id] == b[id]
  {
    OffSweepBoard(b, GroupLedIds);
    forall id ensures id in GroupLedIds <==> 20 <= id < 28 {
      GroupLedIdsMembers(id);
    }
  }
}
