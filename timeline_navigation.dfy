/**
 * The day offset of the activity timeline: a count of back clicks that the
 * back, next and calendar buttons change, and whose negation is the day
 * offset the timeline fetches.  Keeping the count non-negative is what
 * keeps the timeline from ever asking for a future day.
 */
module TimelineNavigation {

  datatype Click = BackClick | NextClick | CalendarClick

  /** The count after one click: back adds one, next takes one away only
      while the count is positive, calendar resets it. */
  function CountAfter(count: int, click: Click): int {
    match click
    case BackClick => count + 1
    case NextClick => if count > 0 then count - 1 else count
    case CalendarClick => 0
  }

  /** The offset the click handler passes to `fetchData`. */
  function OffsetAfter(count: int, click: Click): int {
    match click
    case CalendarClick => 0
    case _ => -CountAfter(count, click)
  }

  /** The count after a sequence of clicks. */
  function FinalCount(count: int, clicks: seq<Click>): int
    decreases clicks
  {
    if clicks == [] then count else FinalCount(CountAfter(count, clicks[0]), clicks[1..])
  }

  /** The offsets fetched along a sequence of clicks. */
  function Offsets(count: int, clicks: seq<Click>): (offsets: seq<int>)
    ensures |offsets| == |clicks|
    decreases clicks
  {
    if clicks == [] then []
    else [OffsetAfter(count, clicks[0])] + Offsets(CountAfter(count, clicks[0]), clicks[1..])
  }

  /** The day `fetchData` asks for: today moved by the offset. */
  function TargetDay(today: int, daysOffset: int): int {
    today + daysOffset
  }

  /** From a non-negative count, no sequence of clicks makes the count
      negative or fetches a positive offset. */
  lemma {:induction false} CountStaysNonNegative(count: int, clicks: seq<Click>)
    requires count >= 0
    ensures FinalCount(count, clicks) >= 0
    ensures forall i :: 0 <= i < |clicks| ==> Offsets(count, clicks)[i] <= 0
    decreases clicks
  {
    if clicks != [] {
      var next := CountAfter(count, clicks[0]);
      CountStaysNonNegative(next, clicks[1..]);
      var offsets := Offsets(count, clicks);
      assert offsets == [OffsetAfter(count, clicks[0])] + Offsets(next, clicks[1..]);
      forall i | 1 <= i < |clicks| ensures offsets[i] <= 0 {
        assert offsets[i] == Offsets(next, clicks[1..])[i - 1];
      }
    }
  }

  /** Starting from the initial count of 0, the timeline never asks for a
      day after today. */
  lemma NeverAFutureDay(today: int, clicks: seq<Click>)
    ensures forall o :: o in Offsets(0, clicks) ==> TargetDay(today, o) <= today
  {
    CountStaysNonNegative(0, clicks);
  }

  /** Back immediately followed by next restores a non-negative count. */
  lemma BackThenNextRestores(count: int)
    requires count >= 0
    ensures CountAfter(CountAfter(count, BackClick), NextClick) == count
  {
  }

  /** Next at a count of 0 keeps it at 0 and fetches today again. */
  lemma NextAtZeroStays()
    ensures CountAfter(0, NextClick) == 0 && OffsetAfter(0, NextClick) == 0
  {
  }

  /** The `backClickCount` closure variable and its click handlers. */
  class TimelineNavigator {
    var backClickCount: int

    ghost predicate Valid()
      reads this
    {
      backClickCount >= 0
    }

    constructor ()
      ensures Valid() && backClickCount == 0
    {
      backClickCount := 0;
    }

    method ClickBack() returns (daysOffset: int)
      requires Valid()
      modifies this
      ensures Valid()
      ensures backClickCount == CountAfter(old(backClickCount), BackClick)
      ensures daysOffset == OffsetAfter(old(backClickCount), BackClick)
      ensures daysOffset == -backClickCount && daysOffset < 0
    {
      backClickCount := backClickCount + 1;
      daysOffset := -backClickCount;
    }

    method ClickNext() returns (daysOffset: int)
      requires Valid()
      modifies this
      ensures Valid()
      ensures backClickCount == CountAfter(old(backClickCount), NextClick)
      ensures daysOffset == OffsetAfter(old(backClickCount), NextClick)
      ensures daysOffset == -backClickCount && daysOffset <= 0
    {
      if backClickCount > 0 {
        backClickCount := backClickCount - 1;
      }
      daysOffset := -backClickCount;
    }

    method ClickCalendar() returns (daysOffset: int)
      requires Valid()
      modifies this
      ensures Valid()
      ensures backClickCount == CountAfter(old(backClickCount), CalendarClick)
      ensures daysOffset == 0
    {
      backClickCount := 0;
      daysOffset := 0;
    }
  }
}
