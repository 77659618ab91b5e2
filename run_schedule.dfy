/** Which scheduled run the current moment belongs to, and when its file is
    expected (Processo_3.py, `parse_hhmm_on` and `previous_run_schedule`). */
module RunSchedule {
  import opened Text
  import opened Calendar

  /** `h, m = map(int, hhmm.split(":"))` followed by `datetime(..., h, m, 0)`:
      two colon-separated fields of ASCII digits, an hour 0..23 and a minute
      0..59, give the minute of the day. Every other string is None here, the
      ValueError of `int()` or `datetime()`; the forms `int()` also reads
      (surrounding blanks, a sign, `_` between digits, other scripts' digits)
      are not modelled. */
  function ParseHHMM(hhmm: string): (r: Option<nat>)
    ensures r.Some? ==> r.value < MinutesPerDay
  {
    var parts := SplitOn(hhmm, ':');
    if |parts| != 2 || parts[0] == [] || parts[1] == []
       || !AllDigits(parts[0]) || !AllDigits(parts[1]) then None
    else
      var h, m := DigitsValue(parts[0]), DigitsValue(parts[1]);
      if h <= 23 && m <= 59 then Some(h * 60 + m) else None
  }

  /** The "HH:MM" text of a minute of the day, as the configuration writes it. */
  function FormatHHMM(minute: nat): string
    requires minute < MinutesPerDay
  {
    TwoDigits(minute / 60) + ":" + TwoDigits(minute % 60)
  }

  /** Every minute of the day written as "HH:MM" parses back to itself. */
  lemma ParseFormatRoundTrip(minute: nat)
    requires minute < MinutesPerDay
    ensures ParseHHMM(FormatHHMM(minute)) == Some(minute)
  {
    var hh, mm := TwoDigits(minute / 60), TwoDigits(minute % 60);
    var s := hh + ":" + mm;
    assert ':' !in hh && ':' !in mm;
    SplitOnAt(hh, mm, ':');
    SplitOnNone(mm, ':');
    assert s == hh + [':'] + mm;
  }

  /** A five-character "DD:DD" string parses to the hour and minute its digits
      spell, when they are in range. */
  lemma ParseFiveChars(s: string)
    requires |s| == 5 && s[2] == ':' && IsDigit(s[0]) && IsDigit(s[1]) && IsDigit(s[3]) && IsDigit(s[4])
    ensures var h := (s[0] as int - '0' as int) * 10 + (s[1] as int - '0' as int);
            var m := (s[3] as int - '0' as int) * 10 + (s[4] as int - '0' as int);
            ParseHHMM(s) == if h <= 23 && m <= 59 then Some(h * 60 + m) else None
  {
    var hh, mm := s[..2], s[3..];
    assert ':' !in hh && ':' !in mm;
    SplitOnAt(hh, mm, ':');
    SplitOnNone(mm, ':');
    assert s == hh + [':'] + mm;
    assert DigitsValue(hh) == DigitsValue([s[0]]) * 10 + (s[1] as int - '0' as int) by {
      assert hh[..1] == [s[0]];
    }
    assert DigitsValue(mm) == DigitsValue([s[3]]) * 10 + (s[4] as int - '0' as int) by {
      assert mm[..1] == [s[3]];
    }
    assert DigitsValue([s[0]]) == s[0] as int - '0' as int by { assert [s[0]][..0] == []; }
    assert DigitsValue([s[3]]) == s[3] as int - '0' as int by { assert [s[3]][..0] == []; }
  }

  predicate AllSlots(slots: seq<nat>) {
    forall i :: 0 <= i < |slots| ==> slots[i] < MinutesPerDay
  }

  /** Parses every configured slot, in order; one bad slot makes the whole
      list fail, as the list comprehension in the source raises. */
  function ParseAll(schedules: seq<string>): (r: Option<seq<nat>>)
    ensures r.Some? ==> |r.value| == |schedules| && AllSlots(r.value)
  {
    if schedules == [] then Some([])
    else match (ParseHHMM(schedules[0]), ParseAll(schedules[1..]))
      case (Some(x), Some(xs)) => Some([x] + xs)
      case (None, _) => None
      case (_, None) => None
  }

  /** The parsed list holds each slot's own parse, and the list fails exactly
      when some slot does not parse. */
  lemma {:induction false} ParseAllMeaning(schedules: seq<string>)
    ensures ParseAll(schedules).Some? ==>
              forall i :: 0 <= i < |schedules| ==> ParseHHMM(schedules[i]) == Some(ParseAll(schedules).value[i])
    ensures ParseAll(schedules).None? <==> exists i :: 0 <= i < |schedules| && ParseHHMM(schedules[i]).None?
  {
    if schedules != [] {
      ParseAllMeaning(schedules[1..]);
      if ParseAll(schedules[1..]).None? {
        var i :| 0 <= i < |schedules[1..]| && ParseHHMM(schedules[1..][i]).None?;
        assert ParseHHMM(schedules[i + 1]).None?;
      }
      if ParseAll(schedules).None? && ParseHHMM(schedules[0]).Some? {
        var i :| 0 <= i < |schedules[1..]| && ParseHHMM(schedules[1..][i]).None?;
        assert ParseHHMM(schedules[i + 1]).None?;
      }
      if ParseAll(schedules).Some? {
        forall i | 0 <= i < |schedules|
          ensures ParseHHMM(schedules[i]) == Some(ParseAll(schedules).value[i])
        {
          if i > 0 {
            assert schedules[i] == schedules[1..][i - 1];
          }
        }
      } else {
        assert ParseAll(schedules[1..]).None? || ParseHHMM(schedules[0]).None?;
      }
    }
  }

  /** The moments of the given slots on day ordinal `day`. */
  function SlotMoments(day: nat, slots: seq<nat>): (ms: seq<nat>)
    ensures |ms| == |slots|
    ensures forall i :: 0 <= i < |slots| ==> ms[i] == At(day, slots[i])
  {
    seq(|slots|, i requires 0 <= i < |slots| => At(day, slots[i]))
  }

  /** The moments of `ms` that are at or before `now`, in order. */
  function NotAfter(ms: seq<nat>, now: nat): (r: seq<nat>)
    ensures forall x :: x in r <==> x in ms && x <= now
  {
    if ms == [] then []
    else (if ms[0] <= now then [ms[0]] else []) + NotAfter(ms[1..], now)
  }

  /** `sorted(ms)[-1]`: the greatest element. */
  function Latest(ms: seq<nat>): (m: nat)
    requires ms != []
    ensures m in ms
    ensures forall x :: x in ms ==> x <= m
  {
    if |ms| == 1 then ms[0]
    else
      var rest := Latest(ms[1..]);
      assert forall x :: x in ms ==> x == ms[0] || x in ms[1..];
      if ms[0] >= rest then ms[0] else rest
  }

  lemma {:induction false} ParseAllCons(x: string, xs: seq<string>)
    ensures ParseAll([x] + xs)
            == if ParseHHMM(x).Some? && ParseAll(xs).Some? then Some([ParseHHMM(x).value] + ParseAll(xs).value) else None
  {
    assert ([x] + xs)[0] == x;
    assert ([x] + xs)[1..] == xs;
  }

  datatype WindowError =
    | BadSlot          // a slot string that int() or datetime() rejects (ValueError)
    | DateOutOfRange   // a moment before 0001-01-01 (OverflowError)
    | EmptySchedule    // `sorted([])[-1]` (IndexError)

  /** The chosen run and the moment its file is expected: `expected = run - lag`. */
  datatype Window = Window(run: nat, expected: nat)

  /** A moment on an earlier day comes before every moment of a later day. */
  lemma EarlierDayEarlier(d1: nat, m1: nat, d2: nat, m2: nat)
    requires m1 < MinutesPerDay && d1 < d2
    ensures At(d1, m1) < At(d2, m2)
  {
    assert (d1 + 1) * SecondsPerDay <= d2 * SecondsPerDay;
  }

  lemma DayOfBounds(t: nat)
    ensures DayOf(t) * SecondsPerDay <= t < DayOf(t) * SecondsPerDay + SecondsPerDay
  {
  }

  /** The run for `now` given the parsed slots: the latest of today's slot
      moments at or before `now`, else the latest of yesterday's. */
  function ChosenRun(now: nat, slots: seq<nat>): (r: Result<nat, WindowError>)
    requires AllSlots(slots)
    ensures r.Ok? ==> r.value <= now
  {
    var today := DayOf(now);
    var past := NotAfter(SlotMoments(today, slots), now);
    if past != [] then Ok(Latest(past))
    else if today == 0 then Err(DateOutOfRange)
    else if slots == [] then Err(EmptySchedule)
    else
      YesterdayBeforeNow(now, slots);
      Ok(Latest(SlotMoments(today - 1, slots)))
  }

  /** Every slot moment of yesterday comes before `now`. */
  lemma YesterdayBeforeNow(now: nat, slots: seq<nat>)
    requires AllSlots(slots) && slots != [] && DayOf(now) >= 1
    ensures Latest(SlotMoments(DayOf(now) - 1, slots)) < now
  {
    var yesterday := SlotMoments(DayOf(now) - 1, slots);
    var i :| 0 <= i < |slots| && Latest(yesterday) == yesterday[i];
    EarlierDayEarlier(DayOf(now) - 1, slots[i], DayOf(now), 0);
    DayOfBounds(now);
  }

  /** The window of the run chosen for `now`: `expected = run - lag`, which
      fails below the first moment of the calendar. */
  function WindowFor(now: nat, slots: seq<nat>, lagMinutes: nat): (r: Result<Window, WindowError>)
    requires AllSlots(slots)
    ensures r.Ok? ==> r.value.run <= now
    ensures r.Ok? ==> r.value.expected + 60 * lagMinutes == r.value.run
  {
    match ChosenRun(now, slots)
    case Err(e) => Err(e)
    case Ok(run) =>
      if run < 60 * lagMinutes then Err(DateOutOfRange)
      else Ok(Window(run, run - 60 * lagMinutes))
  }

  /** `previous_run_schedule(now)`: the run chosen for `now`, and the moment
      `lagMinutes` minutes before it when its file is expected. */
  function PreviousRunSchedule(now: nat, schedules: seq<string>, lagMinutes: nat): (r: Result<Window, WindowError>)
    ensures r.Ok? ==> r.value.run <= now
    ensures r.Ok? ==> r.value.expected + 60 * lagMinutes == r.value.run
  {
    match ParseAll(schedules)
    case None => Err(BadSlot)
    case Some(slots) => WindowFor(now, slots, lagMinutes)
  }

  /** Every scheduled moment at or before `now` lies on today or an earlier day. */
  lemma NoFutureDay(now: nat, day: nat, m: nat)
    requires At(day, m) <= now
    ensures day <= DayOf(now)
  {
    DayOfBounds(now);
  }

  /** The chosen run is a scheduled moment, and no scheduled moment of any day
      that is at or before `now` comes after it. */
  lemma ChosenRunIsLatest(now: nat, slots: seq<nat>)
    requires AllSlots(slots) && ChosenRun(now, slots).Ok?
    ensures var run := ChosenRun(now, slots).value;
            && (exists day: nat, i :: 0 <= i < |slots| && run == At(day, slots[i]))
            && (forall day: nat, i :: 0 <= i < |slots| && At(day, slots[i]) <= now ==> At(day, slots[i]) <= run)
  {
    var run := ChosenRun(now, slots).value;
    var today := DayOf(now);
    var todays := SlotMoments(today, slots);
    var past := NotAfter(todays, now);
    var runDay: nat := if past != [] then today else today - 1;
    var i :| 0 <= i < |slots| && run == At(runDay, slots[i]);
    forall day: nat, j | 0 <= j < |slots| && At(day, slots[j]) <= now
      ensures At(day, slots[j]) <= run
    {
      NoFutureDay(now, day, slots[j]);
      if day < runDay {
        EarlierDayEarlier(day, slots[j], runDay, slots[i]);
      } else if day == today {
        assert todays[j] in past;
      } else {
        assert day == today - 1 && SlotMoments(today - 1, slots)[j] in SlotMoments(today - 1, slots);
      }
    }
  }

  /** A window exists only for well-formed slots, and its run is the chosen run. */
  lemma PreviousRunIsChosen(now: nat, schedules: seq<string>, lagMinutes: nat)
    requires PreviousRunSchedule(now, schedules, lagMinutes).Ok?
    ensures ParseAll(schedules).Some? && AllSlots(ParseAll(schedules).value)
    ensures ChosenRun(now, ParseAll(schedules).value) == Ok(PreviousRunSchedule(now, schedules, lagMinutes).value.run)
  {
  }

  /** Conversely, well-formed slots whose chosen run is at least the lag
      give the window of that run. */
  lemma WindowOfChosen(now: nat, schedules: seq<string>, lagMinutes: nat, slots: seq<nat>, run: nat)
    requires ParseAll(schedules) == Some(slots) && AllSlots(slots)
    requires ChosenRun(now, slots) == Ok(run) && run >= 60 * lagMinutes
    ensures PreviousRunSchedule(now, schedules, lagMinutes) == Ok(Window(run, run - 60 * lagMinutes))
  {
    assert PreviousRunSchedule(now, schedules, lagMinutes) == WindowFor(now, slots, lagMinutes);
    assert WindowFor(now, slots, lagMinutes) == Ok(Window(run, run - 60 * lagMinutes));
  }

  /** The chosen run is the latest scheduled moment of any day that is not
      after `now`. */
  lemma RunIsLatestScheduledMoment(now: nat, schedules: seq<string>, lagMinutes: nat)
    requires PreviousRunSchedule(now, schedules, lagMinutes).Ok?
    ensures ParseAll(schedules).Some?
    ensures var run := PreviousRunSchedule(now, schedules, lagMinutes).value.run;
            var slots := ParseAll(schedules).value;
            && (exists day: nat, i :: 0 <= i < |slots| && run == At(day, slots[i]))
            && (forall day: nat, i :: 0 <= i < |slots| && At(day, slots[i]) <= now ==> At(day, slots[i]) <= run)
  {
    PreviousRunIsChosen(now, schedules, lagMinutes);
    ChosenRunIsLatest(now, ParseAll(schedules).value);
  }

  /** A scheduled moment at or before `now` that no other such moment exceeds
      is the run chosen for `now`. */
  lemma ChosenRunUnique(now: nat, slots: seq<nat>, day: nat, i: nat)
    requires AllSlots(slots) && i < |slots| && At(day, slots[i]) <= now
    requires forall d: nat, j :: 0 <= j < |slots| && At(d, slots[j]) <= now ==> At(d, slots[j]) <= At(day, slots[i])
    requires DayOf(now) == day || DayOf(now) == day + 1
    ensures ChosenRun(now, slots) == Ok(At(day, slots[i]))
  {
    var today := DayOf(now);
    if today == day {
      assert SlotMoments(today, slots)[i] in NotAfter(SlotMoments(today, slots), now);
    }
    assert ChosenRun(now, slots).Ok?;
    ChosenRunIsLatest(now, slots);
  }

  /** Away from the lower end of the calendar, a well-formed non-empty
      schedule always yields a window: the fallback to yesterday's last slot
      means there is no moment without a run. */
  lemma ScheduleIsTotal(now: nat, schedules: seq<string>, lagMinutes: nat)
    requires ParseAll(schedules).Some? && schedules != []
    requires now >= 2 * SecondsPerDay + 60 * lagMinutes
    ensures PreviousRunSchedule(now, schedules, lagMinutes).Ok?
  {
    var slots := ParseAll(schedules).value;
    var today := DayOf(now);
    var past := NotAfter(SlotMoments(today, slots), now);
    DayOfBounds(now);
    if past != [] {
      var i :| 0 <= i < |slots| && Latest(past) == SlotMoments(today, slots)[i];
    } else {
      var yesterday := SlotMoments(today - 1, slots);
      var i :| 0 <= i < |slots| && Latest(yesterday) == yesterday[i];
      assert (today - 1) * SecondsPerDay >= 60 * lagMinutes;
    }
  }

  /** A schedule with no slots never yields a window. */
  lemma EmptyScheduleFails(now: nat, lagMinutes: nat)
    ensures PreviousRunSchedule(now, [], lagMinutes).Err?
  {
    assert ParseAll([]) == Some([]);
  }

  /** The configured schedule: 07:40, 11:40, 15:40 and 19:40. */
  const Schedules: seq<string> := ["07:40", "11:40", "15:40", "19:40"]

  lemma Slot0740() ensures ParseHHMM("07:40") == Some(460) { ParseFiveChars("07:40"); }
  lemma Slot1140() ensures ParseHHMM("11:40") == Some(700) { ParseFiveChars("11:40"); }
  lemma Slot1540() ensures ParseHHMM("15:40") == Some(940) { ParseFiveChars("15:40"); }
  lemma Slot1940() ensures ParseHHMM("19:40") == Some(1180) { ParseFiveChars("19:40"); }

  lemma ParseConsSome(x: string, xs: seq<string>, v: nat, vs: seq<nat>)
    requires ParseHHMM(x) == Some(v) && ParseAll(xs) == Some(vs)
    ensures ParseAll([x] + xs) == Some([v] + vs)
  {
    ParseAllCons(x, xs);
  }

  /** A four-slot schedule parses slot by slot. */
  lemma ParseFour(a: string, b: string, c: string, d: string, x: nat, y: nat, z: nat, w: nat)
    requires ParseHHMM(a) == Some(x) && ParseHHMM(b) == Some(y)
    requires ParseHHMM(c) == Some(z) && ParseHHMM(d) == Some(w)
    ensures ParseAll([a, b, c, d]) == Some([x, y, z, w])
  {
    assert ParseAll([]) == Some([]);
    ParseConsSome(d, [], w, []);
    assert [d] + [] == [d] && [w] + [] == [w];
    ParseConsSome(c, [d], z, [w]);
    assert [c] + [d] == [c, d] && [z] + [w] == [z, w];
    ParseConsSome(b, [c, d], y, [z, w]);
    assert [b] + [c, d] == [b, c, d] && [y] + [z, w] == [y, z, w];
    ParseConsSome(a, [b, c, d], x, [y, z, w]);
    assert [a] + [b, c, d] == [a, b, c, d] && [x] + [y, z, w] == [x, y, z, w];
  }

  lemma ConfiguredSlots()
    ensures ParseAll(Schedules) == Some(ConfiguredMinutes)
  {
    Slot0740();
    Slot1140();
    Slot1540();
    Slot1940();
    ParseFour("07:40", "11:40", "15:40", "19:40", 460, 700, 940, 1180);
  }

  predicate Ascending(slots: seq<nat>) {
    forall a, b :: 0 <= a < b < |slots| ==> slots[a] < slots[b]
  }

  /** With ascending slots, the run is today's last slot that has passed. */
  lemma ChosenToday(now: nat, slots: seq<nat>, i: nat)
    requires AllSlots(slots) && Ascending(slots) && i < |slots|
    requires At(DayOf(now), slots[i]) <= now
    requires i + 1 < |slots| ==> now < At(DayOf(now), slots[i + 1])
    ensures ChosenRun(now, slots) == Ok(At(DayOf(now), slots[i]))
  {
    var today := DayOf(now);
    forall d: nat, j | 0 <= j < |slots| && At(d, slots[j]) <= now
      ensures At(d, slots[j]) <= At(today, slots[i])
    {
      NoFutureDay(now, d, slots[j]);
      if d < today {
        EarlierDayEarlier(d, slots[j], today, slots[i]);
      }
    }
    ChosenRunUnique(now, slots, today, i);
  }

  /** With ascending slots, before today's first slot the run is yesterday's last. */
  lemma ChosenYesterday(now: nat, slots: seq<nat>)
    requires AllSlots(slots) && Ascending(slots) && slots != [] && DayOf(now) >= 1
    requires now < At(DayOf(now), slots[0])
    ensures ChosenRun(now, slots) == Ok(At(DayOf(now) - 1, slots[|slots| - 1]))
  {
    var today := DayOf(now);
    var last := |slots| - 1;
    forall d: nat, j | 0 <= j < |slots| && At(d, slots[j]) <= now
      ensures At(d, slots[j]) <= At(today - 1, slots[last])
    {
      NoFutureDay(now, d, slots[j]);
      if d < today - 1 {
        EarlierDayEarlier(d, slots[j], today - 1, slots[last]);
      }
    }
    EarlierDayEarlier(today - 1, slots[last], today, 0);
    DayOfBounds(now);
    ChosenRunUnique(now, slots, today - 1, last);
  }

  const ConfiguredMinutes: seq<nat> := [460, 700, 940, 1180]

  lemma AfternoonRun(day: nat)
    ensures AllSlots(ConfiguredMinutes)
    ensures ChosenRun(At(day, 945), ConfiguredMinutes) == Ok(At(day, 940))
  {
    AtSameDay(day, 945);
    ChosenToday(At(day, 945), ConfiguredMinutes, 2);
  }

  lemma EarlyMorningRun(day: nat)
    requires day >= 1
    ensures AllSlots(ConfiguredMinutes)
    ensures ChosenRun(At(day, 180), ConfiguredMinutes) == Ok(At(day - 1, 1180))
  {
    AtSameDay(day, 180);
    ChosenYesterday(At(day, 180), ConfiguredMinutes);
  }

  /** At 15:45 with a lag of 9 minutes the run is 15:40 and the file is
      expected at 15:31 the same day. */
  lemma AfternoonExample(day: nat)
    ensures PreviousRunSchedule(At(day, 945), Schedules, 9) == Ok(Window(At(day, 940), At(day, 931)))
  {
    ConfiguredSlots();
    AfternoonRun(day);
    assert At(day, 940) - 60 * 9 == At(day, 931);
    WindowOfChosen(At(day, 945), Schedules, 9, ConfiguredMinutes, At(day, 940));
  }

  /** At 03:00 no slot of today has passed, so the run is yesterday's 19:40
      and the file was expected yesterday at 19:31. */
  lemma EarlyMorningExample(day: nat)
    requires day >= 1
    ensures PreviousRunSchedule(At(day, 180), Schedules, 9)
            == Ok(Window(At(day - 1, 1180), At(day - 1, 1171)))
  {
    ConfiguredSlots();
    EarlyMorningRun(day);
    assert At(day - 1, 1180) - 60 * 9 == At(day - 1, 1171);
    WindowOfChosen(At(day, 180), Schedules, 9, ConfiguredMinutes, At(day - 1, 1180));
  }

  /** The lag may carry the expected moment back over midnight without error:
      a 00:05 run with a lag of 9 minutes expects its file at 23:56 the day before. */
  lemma LagCrossesMidnight(day: nat)
    requires day >= 1
    ensures PreviousRunSchedule(At(day, 10), ["00:05"], 9) == Ok(Window(At(day, 5), At(day - 1, 1436)))
  {
    ParseFiveChars("00:05");
    assert ParseAll([]) == Some([]);
    ParseConsSome("00:05", [], 5, []);
    assert ["00:05"] + [] == ["00:05"] && [5] + [] == [5];
    MidnightRun(day);
    assert At(day, 5) - 60 * 9 == At(day - 1, 1436);
    WindowOfChosen(At(day, 10), ["00:05"], 9, [5], At(day, 5));
  }

  lemma MidnightRun(day: nat)
    ensures AllSlots([5])
    ensures ChosenRun(At(day, 10), [5]) == Ok(At(day, 5))
  {
    AtSameDay(day, 10);
    ChosenToday(At(day, 10), [5], 0);
  }
}
