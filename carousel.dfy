/** The index state of the activity carousel: `goToNext`, `goToPrev` and `goToIndex`, the
    3-second pause after a jump, the autoplay interval that runs only while autoplay is on
    and the pointer is away, and the arrow-key handler. */
module Carousel {

  /** A JavaScript number as the carousel sees it: an integer, or `NaN`. */
  datatype Num = Int(v: int) | NaN

  /** JavaScript's `a % b` on integers: the remainder truncated toward zero, `NaN` for `b == 0`. */
  function JsRem(a: int, b: nat): (r: Num)
    ensures b == 0 <==> r.NaN?
    ensures r.Int? ==> (a >= 0 ==> 0 <= r.v < b) && (a < 0 ==> -(b as int) < r.v <= 0)
  {
    if b == 0 then NaN
    else if a >= 0 then Int(a % b)
    else Int(-((-a) % b))
  }

  /** The updater of `goToNext`: `(prev + 1) % totalItems`. */
  function Next(i: Num, total: nat): Num {
    match i
    case NaN => NaN
    case Int(v) => JsRem(v + 1, total)
  }

  /** The updater of `goToPrev`: `(prev - 1 + totalItems) % totalItems`. */
  function Prev(i: Num, total: nat): Num {
    match i
    case NaN => NaN
    case Int(v) => JsRem(v - 1 + total, total)
  }

  predicate InRange(i: Num, total: nat) {
    i.Int? && 0 <= i.v < total
  }

  /** From an index in range, next is the index after it, wrapping to 0, and again in range. */
  lemma {:induction false} NextInRange(i: int, total: nat)
    requires 0 <= i < total
    ensures Next(Int(i), total) == Int(if i + 1 == total then 0 else i + 1)
    ensures InRange(Next(Int(i), total), total)
  {
  }

  /** From an index in range, prev is the index before it, wrapping to the last, and again in range. */
  lemma {:induction false} PrevInRange(i: int, total: nat)
    requires 0 <= i < total
    ensures Prev(Int(i), total) == Int(if i == 0 then total - 1 else i - 1)
    ensures InRange(Prev(Int(i), total), total)
  {
  }

  /** Prev undoes next and next undoes prev. */
  lemma {:induction false} PrevNextInverse(i: int, total: nat)
    requires 0 <= i < total
    ensures Prev(Next(Int(i), total), total) == Int(i)
    ensures Next(Prev(Int(i), total), total) == Int(i)
  {
    NextInRange(i, total);
    PrevInRange(i, total);
    var n := Next(Int(i), total).v;
    var p := Prev(Int(i), total).v;
    PrevInRange(n, total);
    NextInRange(p, total);
  }

  /** `goToNext` applied `k` times. */
  function NextTimes(i: Num, total: nat, k: nat): Num {
    if k == 0 then i else Next(NextTimes(i, total, k - 1), total)
  }

  /** Up to `total` steps forward from `i` land on `i + k`, wrapped once past the end. */
  lemma {:induction false} NextTimesIsShift(i: int, total: nat, k: nat)
    requires 0 <= i < total && k <= total
    ensures NextTimes(Int(i), total, k) == Int(if i + k < total then i + k else i + k - total)
  {
    if k > 0 {
      NextTimesIsShift(i, total, k - 1);
      var j := if i + k - 1 < total then i + k - 1 else i + k - 1 - total;
      NextInRange(j, total);
    }
  }

  /** Going forward `total` times returns to the starting index. */
  lemma {:induction false} FullCycle(i: int, total: nat)
    requires 0 <= i < total
    ensures NextTimes(Int(i), total, total) == Int(i)
  {
    NextTimesIsShift(i, total, total);
  }

  /** With no activity at all, next and prev give `NaN`, and it stays `NaN`. */
  lemma {:induction false} EmptyCarousel(i: Num)
    ensures Next(i, 0) == NaN && Prev(i, 0) == NaN
    ensures Next(NaN, 0) == NaN
  {
  }

  /** The component's state. `interval` is whether `autoPlayRef` holds a running interval;
      `resumes` counts the pending 3-second timeouts of `goToIndex`. */
  datatype State = State(index: Num, autoPlaying: bool, hovering: bool, interval: bool, resumes: nat)

  const Initial := State(Int(0), true, false, true, 0)

  /** The condition of the autoplay effect: an interval runs exactly when it holds. */
  predicate AutoPlayOn(autoPlaying: bool, hovering: bool) {
    autoPlaying && !hovering
  }

  datatype Event =
    | Tick                  // the 4-second autoplay interval
    | KeyDown(key: string)  // the window's `keydown` handler
    | GoTo(k: int)          // `goToIndex(k)`, from a dot's click or hover
    | Resume                // the 3-second timeout `goToIndex` sets
    | MouseEnter
    | MouseLeave

  /** The arrow-key mapping of `handleKeyDown`. */
  function OnKey(i: Num, total: nat, key: string): Num {
    if key == "ArrowLeft" then Prev(i, total)
    else if key == "ArrowRight" then Next(i, total)
    else i
  }

  /** The effect on `[isAutoPlaying, isHovering]`, run after every change of either: clear the
      interval when autoplay is off or the pointer is over, install one otherwise. */
  function Sync(s: State): State {
    s.(interval := AutoPlayOn(s.autoPlaying, s.hovering))
  }

  function Step(s: State, e: Event, total: nat): State {
    match e
    case Tick => if s.interval then s.(index := Next(s.index, total)) else s
    case KeyDown(key) => s.(index := OnKey(s.index, total, key))
    case GoTo(k) => Sync(s.(index := Int(k), autoPlaying := false, resumes := s.resumes + 1))
    case Resume => if s.resumes == 0 then s else Sync(s.(autoPlaying := true, resumes := s.resumes - 1))
    case MouseEnter => Sync(s.(hovering := true))
    case MouseLeave => Sync(s.(hovering := false))
  }

  function Run(s: State, evs: seq<Event>, total: nat): State
    decreases |evs|
  {
    if evs == [] then s else Run(Step(s, evs[0], total), evs[1..], total)
  }

  /** The interval runs exactly when autoplay is on and the pointer is away. */
  ghost predicate Valid(s: State) {
    s.interval == AutoPlayOn(s.autoPlaying, s.hovering)
  }

  /** Every event keeps the interval in line with the autoplay condition. */
  lemma {:induction false} RunValid(s: State, evs: seq<Event>, total: nat)
    requires Valid(s)
    ensures Valid(Run(s, evs, total))
    decreases |evs|
  {
    if evs != [] {
      RunValid(Step(s, evs[0], total), evs[1..], total);
    }
  }

  /** A dot events may name: one of the `total` activities. */
  predicate DotEvent(e: Event, total: nat) {
    e.GoTo? ==> 0 <= e.k < total
  }

  /** Starting in range, with jumps only to existing dots, the index stays in range. */
  lemma {:induction false} RunInRange(s: State, evs: seq<Event>, total: nat)
    requires InRange(s.index, total)
    requires forall i :: 0 <= i < |evs| ==> DotEvent(evs[i], total)
    ensures InRange(Run(s, evs, total).index, total)
    decreases |evs|
  {
    if evs != [] {
      var i := s.index.v;
      NextInRange(i, total);
      PrevInRange(i, total);
      assert DotEvent(evs[0], total);
      RunInRange(Step(s, evs[0], total), evs[1..], total);
    }
  }

  /** `goToIndex(k)` sets the index to exactly `k`, pauses autoplay and stops the interval. */
  lemma {:induction false} GoToPauses(s: State, k: int, total: nat)
    ensures var t := Step(s, GoTo(k), total);
      t.index == Int(k) && !t.autoPlaying && !t.interval && t.resumes == s.resumes + 1
  {
  }

  /** The timeout a jump set turns autoplay back on, and the interval with it unless the
      pointer is over the carousel. */
  lemma {:induction false} ResumeAfterGoTo(s: State, k: int, total: nat)
    ensures var t := Step(Step(s, GoTo(k), total), Resume, total);
      t.index == Int(k) && t.autoPlaying && t.interval == !s.hovering && t.resumes == s.resumes
  {
  }

  /** A tick moves the index only while the interval runs. */
  lemma {:induction false} TickOnlyWhenPlaying(s: State, total: nat)
    requires Valid(s)
    ensures !AutoPlayOn(s.autoPlaying, s.hovering) ==> Step(s, Tick, total) == s
    ensures AutoPlayOn(s.autoPlaying, s.hovering) ==> Step(s, Tick, total).index == Next(s.index, total)
  {
  }

  /** The left arrow goes back, the right arrow forward, any other key does nothing. */
  lemma {:induction false} ArrowKeys(s: State, total: nat, key: string)
    ensures key == "ArrowLeft" ==> Step(s, KeyDown(key), total).index == Prev(s.index, total)
    ensures key == "ArrowRight" ==> Step(s, KeyDown(key), total).index == Next(s.index, total)
    ensures key != "ArrowLeft" && key != "ArrowRight" ==> Step(s, KeyDown(key), total) == s
    ensures Step(s, KeyDown(key), total).(index := s.index) == s
  {
  }

  /** The component, with its React state and the interval handle as fields. */
  class ActivitySection {
    const total: nat
    var currentIndex: Num
    var isAutoPlaying: bool
    var isHovering: bool
    var interval: bool
    var resumes: nat

    ghost function Snapshot(): State
      reads this
    {
      State(currentIndex, isAutoPlaying, isHovering, interval, resumes)
    }

    constructor (totalItems: nat)
      ensures total == totalItems && Snapshot() == Initial
    {
      total := totalItems;
      currentIndex, isAutoPlaying, isHovering, interval, resumes := Int(0), true, false, true, 0;
    }

    /** The autoplay effect. */
    method SyncAutoPlay()
      modifies this
      ensures Snapshot() == Sync(old(Snapshot()))
    {
      if !isAutoPlaying || isHovering {
        interval := false;
        return;
      }
      interval := true;
    }

    method GoToNext()
      modifies this
      ensures Snapshot() == old(Snapshot()).(index := Next(old(currentIndex), total))
    {
      currentIndex := Next(currentIndex, total);
    }

    method GoToPrev()
      modifies this
      ensures Snapshot() == old(Snapshot()).(index := Prev(old(currentIndex), total))
    {
      currentIndex := Prev(currentIndex, total);
    }

    method OnTick()
      modifies this
      ensures Snapshot() == Step(old(Snapshot()), Tick, total)
    {
      if interval {
        GoToNext();
      }
    }

    method GoToIndex(k: int)
      modifies this
      ensures Snapshot() == Step(old(Snapshot()), GoTo(k), total)
    {
      currentIndex := Int(k);
      isAutoPlaying := false;
      resumes := resumes + 1;
      SyncAutoPlay();
    }

    method OnResume()
      modifies this
      ensures Snapshot() == Step(old(Snapshot()), Resume, total)
    {
      if resumes > 0 {
        resumes := resumes - 1;
        isAutoPlaying := true;
        SyncAutoPlay();
      }
    }

    method HandleKeyDown(key: string)
      modifies this
      ensures Snapshot() == Step(old(Snapshot()), KeyDown(key), total)
    {
      if key == "ArrowLeft" {
        GoToPrev();
      } else if key == "ArrowRight" {
        GoToNext();
      }
    }

    method OnMouseEnter()
      modifies this
      ensures Snapshot() == Step(old(Snapshot()), MouseEnter, total)
    {
      isHovering := true;
      SyncAutoPlay();
    }

    method OnMouseLeave()
      modifies this
      ensures Snapshot() == Step(old(Snapshot()), MouseLeave, total)
    {
      isHovering := false;
      SyncAutoPlay();
    }
  }
}
