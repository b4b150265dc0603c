/** The quote carousel's index logic (src/components/QuoteCarousel.tsx):
    the auto-rotate step, the swipe gesture and the dot buttons. Each
    computes the index the carousel hands to its `onIndexChange` callback,
    or nothing. */
module QuoteCarousel {
  import opened Wrappers
  import opened Arith

  /** A swipe must travel more than this many pixels. */
  const MIN_SWIPE_DISTANCE: real := 50.0

  /** The quote after `index` on a ring of `length` quotes. */
  function Next(index: int, length: int): int
    requires length >= 1
  {
    (index + 1) % length
  }

  /** The quote before `index` on a ring of `length` quotes. */
  function Previous(index: int, length: int): int
    requires length >= 1
  {
    (index - 1) % length
  }

  /** On the ring, one step forward and one back cancel out, and both stay
      on the ring. */
  lemma NextPreviousCancel(index: int, length: int)
    ensures length >= 1 && 0 <= index < length ==>
      && 0 <= Next(index, length) < length && 0 <= Previous(index, length) < length
      && Previous(Next(index, length), length) == index
      && Next(Previous(index, length), length) == index
      && Next(index, length) == (if index == length - 1 then 0 else index + 1)
      && Previous(index, length) == (if index == 0 then length - 1 else index - 1)
  {
    if length >= 1 && 0 <= index < length {
      if index == length - 1 {
        DivModUnique(index + 1, length, 1, 0);
      } else {
        DivModUnique(index + 1, length, 0, index + 1);
      }
      if index == 0 {
        DivModUnique(index - 1, length, -1, length - 1);
      } else {
        DivModUnique(index - 1, length, 0, index - 1);
      }
      DivModUnique(index, length, 0, index);
    }
  }

  /** The step of the 10-second auto-rotate timer. No timer runs with one
      quote or none. */
  function AutoRotate(index: int, length: int): (next: Option<int>)
    ensures next.None? <==> length <= 1
    ensures length > 1 && 0 <= index < length ==> next == Some(Next(index, length))
  {
    if length <= 1 then None else Some(TruncRem(index + 1, length))
  }

  /** The x coordinates the carousel remembers of the current touch. */
  datatype TouchState = TouchState(start: Option<real>, end: Option<real>)

  /** A finger comes down at `x`: the old end point is forgotten. */
  function OnTouchStart(s: TouchState, x: real): (s': TouchState)
    ensures s'.start == Some(x) && s'.end.None?
  {
    TouchState(Some(x), None)
  }

  /** The finger moves to `x`. */
  function OnTouchMove(s: TouchState, x: real): (s': TouchState)
    ensures s'.start == s.start && s'.end == Some(x)
  {
    s.(end := Some(x))
  }

  /** JavaScript falsiness of a remembered coordinate: `null` or 0. */
  predicate Falsy(x: Option<real>) {
    x.None? || x.value == 0.0
  }

  /** The gesture counts: both coordinates truthy. */
  predicate Armed(s: TouchState) {
    !Falsy(s.start) && !Falsy(s.end)
  }

  /** A swipe to the left (the finger ended more than 50 px left of where
      it started), which asks for the next quote. */
  predicate LeftSwipe(s: TouchState) {
    Armed(s) && s.start.value - s.end.value > MIN_SWIPE_DISTANCE
  }

  /** A swipe to the right, which asks for the previous quote. */
  predicate RightSwipe(s: TouchState) {
    Armed(s) && s.start.value - s.end.value < -MIN_SWIPE_DISTANCE
  }

  /** The finger lifts: a long enough swipe moves one quote along the ring,
      wrapping at either end. */
  function OnTouchEnd(s: TouchState, index: int, length: int): (emitted: Option<int>)
    ensures emitted.Some? ==> LeftSwipe(s) || RightSwipe(s)
    ensures length >= 1 && 0 <= index < length && LeftSwipe(s) ==>
      emitted == Some(Next(index, length))
    ensures length >= 1 && 0 <= index < length && RightSwipe(s) ==>
      emitted == Some(Previous(index, length))
  {
    if Falsy(s.start) || Falsy(s.end) then None
    else
      var distance := s.start.value - s.end.value;
      var isLeftSwipe := distance > MIN_SWIPE_DISTANCE;
      var isRightSwipe := distance < -MIN_SWIPE_DISTANCE;
      NextPreviousCancel(index, length);
      if isLeftSwipe && index < length - 1 then Some(index + 1)
      else if isRightSwipe && index > 0 then Some(index - 1)
      else if isLeftSwipe && index == length - 1 then Some(0)
      else if isRightSwipe && index == 0 then Some(length - 1)
      else None
  }

  /** The dot buttons, shown only with two quotes or more: dot `dot`
      selects quote `dot`. */
  function DotClick(length: int, dot: int): (emitted: Option<int>)
    ensures emitted.Some? <==> length > 1 && 0 <= dot < length
    ensures emitted.Some? ==> emitted.value == dot
  {
    if length > 1 && 0 <= dot < length then Some(dot) else None
  }

  /** What can move the carousel. */
  datatype Event = Rotate | Release(touch: TouchState) | Dot(dot: int)

  /** The index the carousel asks for on `e`, if any. */
  function Emit(e: Event, index: int, length: int): Option<int> {
    match e
    case Rotate => AutoRotate(index, length)
    case Release(touch) => OnTouchEnd(touch, index, length)
    case Dot(dot) => DotClick(length, dot)
  }

  /** The index after a run of events, each emitted index taken as the new
      current one. */
  function Run(index: int, length: int, events: seq<Event>): int
    decreases |events|
  {
    if |events| == 0 then index
    else Run(Emit(events[0], index, length).GetOr(index), length, events[1..])
  }

  /** With at least one quote and an index on the ring, every index the
      carousel emits is on the ring. */
  lemma EmittedIndexInRange(e: Event, index: int, length: int)
    requires length >= 1 && 0 <= index < length
    ensures Emit(e, index, length).Some? ==> 0 <= Emit(e, index, length).value < length
  {
    NextPreviousCancel(index, length);
  }

  /** Any run of events from an index on the ring stays on the ring. */
  lemma {:induction false} RunStaysInRange(index: int, length: int, events: seq<Event>)
    requires length >= 1 && 0 <= index < length
    ensures 0 <= Run(index, length, events) < length
    decreases |events|
  {
    if |events| > 0 {
      EmittedIndexInRange(events[0], index, length);
      RunStaysInRange(Emit(events[0], index, length).GetOr(index), length, events[1..]);
    }
  }

  /** A left swipe followed by a right swipe comes back to the same quote. */
  lemma SwipeBackReturns(index: int, length: int, left: TouchState, right: TouchState)
    requires length >= 1 && 0 <= index < length
    requires LeftSwipe(left) && RightSwipe(right)
    ensures OnTouchEnd(left, index, length).Some?
    ensures OnTouchEnd(right, OnTouchEnd(left, index, length).value, length) == Some(index)
  {
    NextPreviousCancel(index, length);
  }

  /** A touch that never moves emits nothing: touching down forgets the end
      point. */
  lemma TapEmitsNothing(s: TouchState, x: real, index: int, length: int)
    ensures OnTouchEnd(OnTouchStart(s, x), index, length).None?
  {
  }

  /** A touch starting at x = 0 is ignored however far it travels. */
  lemma TouchAtZeroIgnored(s: TouchState, x: real, index: int, length: int)
    ensures OnTouchEnd(OnTouchMove(OnTouchStart(s, 0.0), x), index, length).None?
  {
  }

  /** With no quotes, a right swipe asks for index -1, off the ring; a left
      swipe asks for nothing. */
  lemma RightSwipeOnEmptyLeavesRing(right: TouchState, left: TouchState)
    requires RightSwipe(right) && LeftSwipe(left)
    ensures OnTouchEnd(right, 0, 0) == Some(-1)
    ensures OnTouchEnd(left, 0, 0).None?
  {
  }
}
