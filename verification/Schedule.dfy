/**
 Access schedules: weekly windows in local wall-clock time, which may cross midnight.

 Instants are integers in one fixed unit (the code works in microseconds).  A local instant counts
 from the start of day 0 of the proleptic calendar, so its date is its quotient by DAY; day 1 is
 0001-01-01, a Monday, as in Python's date.toordinal().
 */
module Schedule {
  import opened Options

  const DAY: int := 86_400_000_000

  /** datetime.time: an offset within a day. */
  type TimeOfDay = t: int | 0 <= t < 86_400_000_000 witness 0

  datatype Window = Window(isoDay: int, startLocal: TimeOfDay, endLocal: TimeOfDay, crossesMidnight: bool)

  datatype Decision =
    | Granted(until: int)
    | ScheduleMissing
    | OutsideAllowedTime

  function DateOf(local: int): int { local / DAY }

  function IsoWeekday(day: int): int { (day - 1) % 7 + 1 }

  function Start(day: int, w: Window): int { day * DAY + w.startLocal }

  function End(day: int, w: Window): int {
    (if w.crossesMidnight then day + 1 else day) * DAY + w.endLocal
  }

  /** The half-open interval that w opens on the given day contains the local instant. */
  predicate Contains(day: int, w: Window, local: int) {
    Start(day, w) <= local < End(day, w)
  }

  /** The weekly calendar, unbounded in both directions: w is open at the local instant. */
  ghost predicate OpenOn(day: int, w: Window, local: int) {
    w.isoDay == IsoWeekday(day) && Contains(day, w, local)
  }

  ghost predicate OpenOnSomeDay(windows: seq<Window>, local: int) {
    exists day, w :: w in windows && OpenOn(day, w, local)
  }

  /** Index of the first window of the list that is open on that day, or |windows|. */
  function FirstOpen(windows: seq<Window>, day: int, local: int): (k: nat)
    ensures k <= |windows|
    ensures k < |windows| ==> OpenOn(day, windows[k], local)
    ensures forall j :: 0 <= j < k ==> !OpenOn(day, windows[j], local)
  {
    if windows == [] || (windows[0].isoDay == IsoWeekday(day) && Contains(day, windows[0], local)) then 0
    else
      assert forall j :: 1 <= j < |windows| ==> windows[j] == windows[1..][j - 1];
      1 + FirstOpen(windows[1..], day, local)
  }

  /** Which local end the search returns: today's windows come first, then yesterday's. */
  function LocalEnd(windows: seq<Window>, local: int): Option<int> {
    var today := DateOf(local);
    var k := FirstOpen(windows, today, local);
    var j := FirstOpen(windows, today - 1, local);
    if k < |windows| then Some(End(today, windows[k]))
    else if j < |windows| then Some(End(today - 1, windows[j]))
    else None
  }

  function Evaluate(now: int, offset: int, windows: seq<Window>, override: Option<int>): Decision {
    if override.Some? && now < override.value then Granted(override.value)
    else if windows == [] then ScheduleMissing
    else
      match LocalEnd(windows, now + offset)
      case Some(end) => Granted(end - offset)
      case None => OutsideAllowedTime
  }

  /**
   The search itself: candidate days today and yesterday, each against every window, first hit wins.
   `offset` is the zone's distance from UTC and `override` an optional UTC instant.
   */
  method EvaluateSchedule(now: int, offset: int, windows: seq<Window>, override: Option<int>)
    returns (d: Decision)
    ensures d == Evaluate(now, offset, windows, override)
  {
    if override.Some? && now < override.value {
      return Granted(override.value);
    }
    if windows == [] {
      return ScheduleMissing;
    }
    hide FirstOpen;
    var local := now + offset;
    var candidates := [DateOf(local), DateOf(local) - 1];
    for c := 0 to 2
      invariant forall e :: 0 <= e < c ==> FirstOpen(windows, candidates[e], local) == |windows|
    {
      var day := candidates[c];
      var iso := IsoWeekday(day);
      for i := 0 to |windows|
        invariant forall j :: 0 <= j < i ==> !OpenOn(day, windows[j], local)
      {
        if windows[i].isoDay != iso { continue; }
        var start, end := Start(day, windows[i]), End(day, windows[i]);
        if start <= local < end {
          assert OpenOn(day, windows[i], local);
          assert FirstOpen(windows, day, local) == i;
          assert c == 1 ==> FirstOpen(windows, candidates[0], local) == |windows|;
          return Granted(end - offset);
        }
      }
    }
    assert FirstOpen(windows, candidates[0], local) == FirstOpen(windows, candidates[1], local) == |windows|;
    return OutsideAllowedTime;
  }

  // ---------------------------------------------------------------------------------------------
  // The two-day search sees the whole calendar
  // ---------------------------------------------------------------------------------------------

  /** A window that contains a local instant was opened on that instant's date or the day before. */
  lemma OpenTodayOrYesterday(day: int, w: Window, local: int)
    requires Contains(day, w, local)
    ensures day == DateOf(local) || day == DateOf(local) - 1
  {
    assert local == DateOf(local) * DAY + local % DAY;
  }

  lemma OpenWindowIsFound(windows: seq<Window>, local: int, day: int, w: Window)
    requires w in windows && OpenOn(day, w, local)
    ensures LocalEnd(windows, local).Some?
  {
    OpenTodayOrYesterday(day, w, local);
    hide OpenOn, FirstOpen;
    var i :| 0 <= i < |windows| && windows[i] == w;
    assert FirstOpen(windows, day, local) <= i;
  }

  /** Window k opens on that day, no earlier one of the list does, and today's windows come before yesterday's. */
  ghost predicate FirstHit(windows: seq<Window>, local: int, day: int, k: int) {
    && 0 <= k < |windows| && OpenOn(day, windows[k], local)
    && (forall j :: 0 <= j < k ==> !OpenOn(day, windows[j], local))
    && (day == DateOf(local) || forall w :: w in windows ==> !OpenOn(DateOf(local), w, local))
  }

  lemma FoundWindowIsOpen(windows: seq<Window>, local: int) returns (day: int, k: int)
    requires LocalEnd(windows, local).Some?
    ensures FirstHit(windows, local, day, k) && LocalEnd(windows, local).value == End(day, windows[k])
  {
    hide OpenOn, FirstOpen, End;
    day, k := DateOf(local), FirstOpen(windows, DateOf(local), local);
    if k == |windows| {
      day, k := DateOf(local) - 1, FirstOpen(windows, DateOf(local) - 1, local);
    }
  }

  /** Without an active override access is granted exactly when some day of the unbounded calendar is open. */
  lemma TwoDaySearchIsComplete(now: int, offset: int, windows: seq<Window>, override: Option<int>)
    requires !(override.Some? && now < override.value)
    ensures Evaluate(now, offset, windows, override).Granted? <==> OpenOnSomeDay(windows, now + offset)
    ensures Evaluate(now, offset, windows, override).ScheduleMissing? <==> windows == []
  {
    var local := now + offset;
    hide LocalEnd, OpenOn;
    if day, w :| w in windows && OpenOn(day, w, local) {
      OpenWindowIsFound(windows, local, day, w);
    }
    if LocalEnd(windows, local).Some? {
      var day, k := FoundWindowIsOpen(windows, local);
      assert windows[k] in windows;
    }
  }

  /** An active override grants until its own end, whatever the windows. */
  lemma OverrideGrants(now: int, offset: int, windows: seq<Window>, override: Option<int>)
    ensures override.Some? && now < override.value ==>
              Evaluate(now, offset, windows, override) == Granted(override.value)
    ensures !(override.Some? && now < override.value) ==>
              Evaluate(now, offset, windows, override) == Evaluate(now, offset, windows, None)
  {
    hide LocalEnd;
  }

  /** Otherwise the granted end is the end of the first window that is open now, today's before yesterday's. */
  lemma GrantEndsAnOpenWindow(now: int, offset: int, windows: seq<Window>, override: Option<int>)
      returns (day: int, k: int)
    requires !(override.Some? && now < override.value) && Evaluate(now, offset, windows, override).Granted?
    ensures FirstHit(windows, now + offset, day, k)
    ensures Evaluate(now, offset, windows, override).until == End(day, windows[k]) - offset
  {
    day, k := FoundWindowIsOpen(windows, now + offset);
    hide LocalEnd, OpenOn;
  }

  /**
   In a zone with a fixed offset a grant is stable: it reaches strictly past now, and the same
   windows and override grant access at every instant before its end.
   */
  lemma GrantIsStable(now: int, offset: int, windows: seq<Window>, override: Option<int>, later: int)
    requires Evaluate(now, offset, windows, override).Granted?
    ensures now < Evaluate(now, offset, windows, override).until
    ensures now <= later < Evaluate(now, offset, windows, override).until ==>
              Evaluate(later, offset, windows, override).Granted?
  {
    if !(override.Some? && now < override.value) {
      var day, k := GrantEndsAnOpenWindow(now, offset, windows, override);
      if now <= later < Evaluate(now, offset, windows, override).until {
        assert windows[k] in windows && OpenOn(day, windows[k], later + offset);
        TwoDaySearchIsComplete(later, offset, windows, override);
      }
    }
  }

  /**
   w is open at this time of a day with this ISO number, having been opened on it or, past midnight, the day
   before.
   */
  predicate OpenAt(w: Window, iso: int, time: TimeOfDay) {
    || (w.isoDay == iso && w.startLocal <= time && (w.crossesMidnight || time < w.endLocal))
    || (w.crossesMidnight && w.isoDay == (if iso == 1 then 7 else iso - 1) && time < w.endLocal)
  }

  /** The calendar by weekday and time of day; day 1 is a Monday. */
  lemma OpenByTimeOfDay(windows: seq<Window>, day: int, time: TimeOfDay)
    ensures OpenOnSomeDay(windows, day * DAY + time) <==> exists w :: w in windows && OpenAt(w, (day - 1) % 7 + 1, time)
  {
    var local := day * DAY + time;
    assert DateOf(local) == day;
    assert (day - 2) % 7 + 1 == if (day - 1) % 7 == 0 then 7 else (day - 1) % 7;
    if d, w :| w in windows && OpenOn(d, w, local) {
      OpenTodayOrYesterday(d, w, local);
      assert OpenAt(w, (day - 1) % 7 + 1, time);
    }
    if w :| w in windows && OpenAt(w, (day - 1) % 7 + 1, time) {
      assert OpenOn(day, w, local) || OpenOn(day - 1, w, local);
    }
  }

  /** Moving now and every boundary by whole weeks changes nothing: the calendar is weekly. */
  lemma CalendarIsWeekly(windows: seq<Window>, local: int, weeks: int)
    ensures OpenOnSomeDay(windows, local + weeks * 7 * DAY) <==> OpenOnSomeDay(windows, local)
  {
    if day, w :| w in windows && OpenOn(day, w, local) {
      WeekShift(day, w, local, weeks);
      assert OpenOn(day + 7 * weeks, w, local + weeks * 7 * DAY);
    }
    var shifted := local + weeks * 7 * DAY;
    if day, w :| w in windows && OpenOn(day, w, shifted) {
      WeekShift(day, w, shifted, -weeks);
      assert OpenOn(day - 7 * weeks, w, local);
    }
  }

  lemma WeekShift(day: int, w: Window, local: int, weeks: int)
    ensures OpenOn(day + 7 * weeks, w, local + weeks * 7 * DAY) <==> OpenOn(day, w, local)
  {
    assert (day + 7 * weeks - 1) % 7 == (day - 1) % 7;
  }
}
