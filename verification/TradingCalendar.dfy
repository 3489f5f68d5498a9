/**
 The trading calendar: open dates as ascending day numbers (day 0 is a Monday) within a covered
 range, looked up by binary search.
 */
module TradingCalendar {
  import opened Outcomes
  import opened Sorting

  datatype Calendar = Calendar(from: int, to: int, openDates: seq<int>, provenance: bool)

  datatype CalendarError = Invalid | NotCovered | OutsideCoverage | Reversed

  predicate Weekend(day: int) {
    day % 7 == 5 || day % 7 == 6
  }

  predicate DateFits(c: Calendar, day: int) {
    c.from <= day <= c.to && !Weekend(day)
  }

  predicate Valid(c: Calendar) {
    && c.from <= c.to && c.provenance && c.openDates != []
    && StrictlyAscending(c.openDates) && forall i :: 0 <= i < |c.openDates| ==> DateFits(c, c.openDates[i])
  }

  predicate Covers(c: Calendar, day: int) {
    Valid(c) && c.from <= day <= c.to
  }

  /** The plain number of open dates after `from`, up to and including `to`. */
  function OpenBetween(dates: seq<int>, from: int, to: int): nat {
    if dates == [] then 0
    else OpenBetween(dates[..|dates| - 1], from, to) + if from < dates[|dates| - 1] <= to then 1 else 0
  }

  /** `i` splits the dates into those up to `day` and those after it. */
  predicate SplitsAt(dates: seq<int>, day: int, i: nat) {
    && i <= |dates|
    && (forall k :: 0 <= k < i ==> dates[k] <= day)
    && (forall k :: i <= k < |dates| ==> dates[k] > day)
  }

  lemma {:induction false} NoneBetween(dates: seq<int>, from: int, to: int)
    requires forall k :: 0 <= k < |dates| ==> !(from < dates[k] <= to)
    ensures OpenBetween(dates, from, to) == 0
  {
    if dates != [] {
      NoneBetween(dates[..|dates| - 1], from, to);
    }
  }

  lemma SplitsOrdered(dates: seq<int>, from: int, to: int, first: nat, last: nat)
    requires from <= to && SplitsAt(dates, from, first) && SplitsAt(dates, to, last)
    ensures first <= last
  {
    assert last < |dates| ==> dates[last] > to;
  }

  /** The difference of two split points is the plain count between the days. */
  lemma {:induction false} CountBySplits(dates: seq<int>, from: int, to: int, first: nat, last: nat)
    requires from <= to && SplitsAt(dates, from, first) && SplitsAt(dates, to, last)
    ensures first <= last && OpenBetween(dates, from, to) == last - first
  {
    if dates != [] {
      var front := dates[..|dates| - 1];
      if last == |dates| {
        if first == |dates| {
          NoneBetween(dates, from, to);
        } else {
          assert dates[|dates| - 1] > from;
          CountBySplits(front, from, to, first, last - 1);
        }
      } else {
        SplitsOrdered(dates, from, to, first, last);
        CountBySplits(front, from, to, first, last);
      }
    }
  }

  /** Elapsed days add up over any day in between. */
  lemma {:induction false} OpenBetweenAdds(dates: seq<int>, a: int, b: int, c: int)
    requires a <= b <= c
    ensures OpenBetween(dates, a, b) + OpenBetween(dates, b, c) == OpenBetween(dates, a, c)
  {
    if dates != [] {
      OpenBetweenAdds(dates[..|dates| - 1], a, b, c);
    }
  }

  // ----- what the operations answer -----

  ghost predicate IsNext(c: Calendar, day: int, next: int) {
    next in c.openDates && next > day && forall k :: 0 <= k < |c.openDates| && c.openDates[k] > day ==>
        next <= c.openDates[k]
  }

  predicate IsPlace(dates: seq<int>, day: int, offset: int, r: int, i: nat) {
    SplitsAt(dates, day - 1, i) && 0 <= i - offset < |dates| && dates[i - offset] == r
  }

  /** `r` is the open date `offset` places before the first one not earlier than `day`. */
  ghost predicate IsPrevious(c: Calendar, day: int, offset: int, r: int) {
    exists i: nat :: IsPlace(c.openDates, day, offset, r, i)
  }

  lemma SplitUnique(dates: seq<int>, day: int, i: nat, j: nat)
    requires SplitsAt(dates, day, i) && SplitsAt(dates, day, j)
    ensures i == j
  {
    SplitsOrdered(dates, day, day, i, j);
    SplitsOrdered(dates, day, day, j, i);
  }

  lemma SplitAtIndex(dates: seq<int>, i: nat)
    requires StrictlyAscending(dates) && i < |dates|
    ensures SplitsAt(dates, dates[i] - 1, i) && SplitsAt(dates, dates[i], i + 1)
  {
  }

  /** One trading day elapses up to the next open date. */
  lemma NextElapsesOne(c: Calendar, day: int, next: int)
    requires Covers(c, day) && IsNext(c, day, next)
    ensures OpenBetween(c.openDates, day, next) == 1
  {
    var i :| 0 <= i < |c.openDates| && c.openDates[i] == next;
    SplitAtIndex(c.openDates, i);
    assert SplitsAt(c.openDates, day, i);
    CountBySplits(c.openDates, day, next, i, i + 1);
  }

  /** The next date after an open date leads back to it. */
  lemma PreviousOfNext(c: Calendar, day: int, next: int)
    requires Covers(c, day) && day in c.openDates && IsNext(c, day, next)
    ensures IsPrevious(c, next, 1, day)
    ensures forall r :: IsPrevious(c, next, 1, r) ==> r == day
  {
    var i :| 0 <= i < |c.openDates| && c.openDates[i] == next;
    var j :| 0 <= j < |c.openDates| && c.openDates[j] == day;
    SplitAtIndex(c.openDates, i);
    SplitAtIndex(c.openDates, j);
    assert SplitsAt(c.openDates, day, i);
    SplitUnique(c.openDates, day, j + 1, i);
    assert IsPlace(c.openDates, next, 1, day, i);
    forall r | IsPrevious(c, next, 1, r) ensures r == day {
      var k: nat :| IsPlace(c.openDates, next, 1, r, k);
      SplitUnique(c.openDates, next - 1, k, i);
    }
  }

  /** Going back k open dates from an open date, k trading days elapse to return. */
  lemma ElapsedOfPrevious(c: Calendar, at: int, k: nat, r: int)
    requires Covers(c, at) && at in c.openDates && IsPrevious(c, at, k, r)
    ensures Covers(c, r) && r <= at && OpenBetween(c.openDates, r, at) == k
  {
    var i: nat :| IsPlace(c.openDates, at, k, r, i);
    var j :| 0 <= j < |c.openDates| && c.openDates[j] == at;
    SplitAtIndex(c.openDates, j);
    SplitUnique(c.openDates, at - 1, i, j);
    SplitAtIndex(c.openDates, i - k);
    CountBySplits(c.openDates, r, at, i - k + 1, i + 1);
  }

  // ----- the operations -----

  method Validate(c: Calendar) returns (ok: bool)
    ensures ok == Valid(c)
    ensures ok <==>
              && c.from <= c.to && c.provenance && c.openDates != []
              && (forall i, j :: 0 <= i < j < |c.openDates| ==> c.openDates[i] < c.openDates[j])
              && (forall i :: 0 <= i < |c.openDates| ==> c.from <= c.openDates[i] <= c.to && c.openDates[i] % 7 < 5)
  {
    if c.to < c.from || !c.provenance || |c.openDates| == 0 {
      return false;
    }
    var previous: Option<int> := None;
    for i := 0 to |c.openDates|
      invariant previous == if i == 0 then None else Some(c.openDates[i - 1])
      invariant StrictlyAscending(c.openDates[..i])
      invariant forall k :: 0 <= k < i ==> DateFits(c, c.openDates[k])
    {
      var day := c.openDates[i];
      if day < c.from || day > c.to || (previous.Some? && day <= previous.value) || Weekend(day) {
        return false;
      }
      previous := Some(day);
    }
    assert c.openDates[..|c.openDates|] == c.openDates;
    return true;
  }

  /** Binary search for the first date after `day`. */
  method Search(dates: seq<int>, day: int) returns (i: nat)
    requires StrictlyAscending(dates)
    ensures SplitsAt(dates, day, i)
  {
    i := 0;
    var j := |dates|;
    while i < j
      invariant 0 <= i <= j <= |dates|
      invariant forall k :: 0 <= k < i ==> dates[k] <= day
      invariant forall k :: j <= k < |dates| ==> dates[k] > day
    {
      var middle := (i + j) / 2;
      if dates[middle] <= day {
        i := middle + 1;
      } else {
        j := middle;
      }
    }
  }

  method IsOpen(c: Calendar, day: int) returns (r: Result<bool, CalendarError>)
    ensures r.Err? <==> !Covers(c, day)
    ensures r.Ok? ==> (r.value <==> day in c.openDates)
  {
    var valid := Validate(c);
    if !valid {
      return Err(Invalid);
    }
    if day < c.from || day > c.to {
      return Err(NotCovered);
    }
    var i := Search(c.openDates, day - 1);
    return Ok(i < |c.openDates| && c.openDates[i] == day);
  }

  method Next(c: Calendar, day: int) returns (r: Result<int, CalendarError>)
    ensures r.Ok? ==> Covers(c, day) && IsNext(c, day, r.value)
    ensures r.Err? ==> !Covers(c, day) || forall k :: 0 <= k < |c.openDates| ==> c.openDates[k] <= day
  {
    var open := IsOpen(c, day);
    if open.Err? {
      return Err(open.error);
    }
    var i := Search(c.openDates, day);
    if i == |c.openDates| {
      return Err(OutsideCoverage);
    }
    return Ok(c.openDates[i]);
  }

  /** Excludes the entry date and includes the as-of date. */
  method Elapsed(c: Calendar, entry: int, asOf: int) returns (r: Result<int, CalendarError>)
    ensures r.Err? <==> !Covers(c, entry) || !Covers(c, asOf) || asOf < entry
    ensures r.Ok? ==> r.value == OpenBetween(c.openDates, entry, asOf)
  {
    var open := IsOpen(c, entry);
    if open.Err? {
      return Err(open.error);
    }
    open := IsOpen(c, asOf);
    if open.Err? {
      return Err(open.error);
    }
    if asOf < entry {
      return Err(Reversed);
    }
    var first := Search(c.openDates, entry);
    var last := Search(c.openDates, asOf);
    CountBySplits(c.openDates, entry, asOf, first, last);
    return Ok(last - first);
  }

  method Previous(c: Calendar, at: int, offset: int) returns (r: Result<int, CalendarError>)
    ensures r.Ok? ==> Covers(c, at) && IsPrevious(c, at, offset, r.value)
    ensures r.Err? ==> !Covers(c, at) || forall d :: !IsPrevious(c, at, offset, d)
  {
    var open := IsOpen(c, at);
    if open.Err? {
      return Err(open.error);
    }
    var found := Search(c.openDates, at - 1);
    var i := found - offset;
    if i < 0 || i >= |c.openDates| {
      forall d, j: nat | IsPlace(c.openDates, at, offset, d, j) ensures j == found {
        SplitUnique(c.openDates, at - 1, j, found);
      }
      return Err(OutsideCoverage);
    }
    assert IsPlace(c.openDates, at, offset, c.openDates[i], found);
    return Ok(c.openDates[i]);
  }
}
