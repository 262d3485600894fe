/**
 * The calls the controller makes on its collaborators, recorded as a trace,
 * and the state of the LED board that a trace of `setLight` calls produces.
 */
module Events {
  import opened Results

  /** One call on `ApiService` or `Sleeper`. */
  datatype Event =
    | SetLight(id: int, color: string, on: bool)
    | Sleep(ms: int)
    | GetLights
    | GetLight(id: int)

  /** The exceptions the controller raises on its own account. */
  datatype Error =
    | LightsMissing          // the response has no "lights" array
    | NoLightFound(id: int)  // `getLight` received an empty "lights" array

  /** What one operation does: the calls it makes, then what it returns or throws. */
  datatype Run<+T> = Run(trace: seq<Event>, result: Result<T, Error>)

  /** Which events to count. */
  datatype Selector =
    | OnOf(id: int)    // setLight(id, _, true)
    | OffOf(id: int)   // setLight(id, _, false)
    | AnySet           // any setLight
    | AnyOn            // any setLight(_, _, true)
    | Sleeps           // any sleep

  predicate Matches(e: Event, sel: Selector)
  {
    match sel
    case OnOf(id) => e.SetLight? && e.id == id && e.on
    case OffOf(id) => e.SetLight? && e.id == id && !e.on
    case AnySet => e.SetLight?
    case AnyOn => e.SetLight? && e.on
    case Sleeps => e.Sleep?
  }

  /** The number of events of `t` that `sel` selects. */
  function Count(t: seq<Event>, sel: Selector): nat
  {
    if t == [] then 0 else (if Matches(t[0], sel) then 1 else 0) + Count(t[1..], sel)
  }

  lemma {:induction false} CountAppend(a: seq<Event>, b: seq<Event>, sel: Selector)
    ensures Count(a + b, sel) == Count(a, sel) + Count(b, sel)
  {
    if a == [] {
      assert a + b == b;
    } else {
      assert (a + b)[1..] == a[1..] + b;
      CountAppend(a[1..], b, sel);
    }
  }

  /** What the light service last accepted for one LED. */
  datatype Lamp = Lamp(color: string, on: bool)

  /** The LEDs a trace has set so far; an LED never set is absent. */
  type Board = map<int, Lamp>

  /** A `setLight` call overwrites its LED; every other call leaves the board alone. */
  function Apply(b: Board, e: Event): Board
  {
    if e.SetLight? then b[e.id := Lamp(e.color, e.on)] else b
  }

  /** The board after every event of `t`, in order. */
  function Play(b: Board, t: seq<Event>): Board
    decreases |t|
  {
    if t == [] then b else Play(Apply(b, t[0]), t[1..])
  }

  /** The LEDs of `b` that are powered on. */
  function Lit(b: Board): set<int>
  {
    set id | id in b && b[id].on
  }

  /** At most one LED is lit in `b` and after every prefix of `t` applied to `b`. */
  predicate AtMostOneLitThroughout(b: Board, t: seq<Event>)
    decreases |t|
  {
    |Lit(b)| <= 1 && (t == [] || AtMostOneLitThroughout(Apply(b, t[0]), t[1..]))
  }

  lemma LitAfterOn(b: Board, id: int, c: string)
    ensures Lit(b[id := Lamp(c, true)]) == Lit(b) + {id}
  {
  }

  lemma LitAfterOff(b: Board, id: int, c: string)
    ensures Lit(b[id := Lamp(c, false)]) == Lit(b) - {id}
  {
  }

  lemma PlaySingle(b: Board, e: Event)
    ensures Play(b, [e]) == Apply(b, e)
  {
    assert [e][1..] == [];
  }

  /** A single call keeps at most one LED lit when the boards before and after it have at most one lit. */
  lemma AtMostOneLitSingle(b: Board, e: Event)
    requires |Lit(b)| <= 1 && |Lit(Apply(b, e))| <= 1
    ensures AtMostOneLitThroughout(b, [e])
  {
    assert [e][1..] == [];
    assert AtMostOneLitThroughout(Apply(b, e), []);
  }

  lemma {:induction false} PlayAppend(b: Board, x: seq<Event>, y: seq<Event>)
    ensures Play(b, x + y) == Play(Play(b, x), y)
    decreases |x|
  {
    if x == [] {
      assert x + y == y;
    } else {
      assert (x + y)[1..] == x[1..] + y;
      PlayAppend(Apply(b, x[0]), x[1..], y);
    }
  }

  lemma {:induction false} AtMostOneLitAppend(b: Board, x: seq<Event>, y: seq<Event>)
    requires AtMostOneLitThroughout(b, x)
    requires AtMostOneLitThroughout(Play(b, x), y)
    ensures AtMostOneLitThroughout(b, x + y)
    decreases |x|
  {
    if x == [] {
      assert x + y == y;
    } else {
      assert (x + y)[1..] == x[1..] + y;
      AtMostOneLitAppend(Apply(b, x[0]), x[1..], y);
    }
  }

  /** The recursive predicate says what it promises: the board of every prefix has at most one LED lit. */
  lemma {:induction false} AtMostOneLitPrefixes(b: Board, t: seq<Event>)
    requires AtMostOneLitThroughout(b, t)
    ensures forall k :: 0 <= k <= |t| ==> |Lit(Play(b, t[..k]))| <= 1
    decreases |t|
  {
    forall k | 0 <= k <= |t|
      ensures |Lit(Play(b, t[..k]))| <= 1
    {
      if k > 0 {
        AtMostOneLitPrefixes(Apply(b, t[0]), t[1..]);
        assert t[..k][1..] == t[1..][..k - 1];
      }
    }
  }
}
