/** The dashboard's "Upcoming Logistics" card: the next working days and the
    sample events that fall on each of them. */
module LogisticsTimeline {
  import opened Seqs
  import opened Calendar
  import opened Records

  /** The specification of `getWorkingDays(days)`: the first `days` working days
      among the fifteen calendar days starting today, fewer if those fifteen
      days hold fewer: working days only, strictly increasing, none before
      today nor past the fifteenth day, and at most `days` of them. */
  function WorkingDaysFrom(today: Day, days: int): (r: seq<Day>)
    ensures |r| <= if days < 0 then 0 else days
    ensures forall i :: 0 <= i < |r| ==> IsWorkingDay(r[i]) && today <= r[i] < today + 15
    ensures forall i, j :: 0 <= i < j < |r| ==> r[i] < r[j]
  {
    var all := WorkingDaysIn(today, 15);
    WorkingDaysInProperties(today, 15);
    var n := if days <= 0 then 0 else if days < |all| then days else |all|;
    assert forall i :: 0 <= i < n ==> all[..n][i] == all[i];
    all[..n]
  }

  /** Exactly `days` working days are listed whenever at most ten are asked for. */
  lemma WorkingDaysFromProperties(today: Day, days: int)
    ensures 0 <= days <= 10 ==> |WorkingDaysFrom(today, days)| == days
  {
    TenWorkingDaysPerFortnight(today);
    WorkingDaysPrefix(today, 14, 15);
  }

  /** The six working days the card shows. */
  lemma SixDaysShown(today: Day)
    ensures |WorkingDaysFrom(today, 6)| == 6
  {
    WorkingDaysFromProperties(today, 6);
  }

  /** When today is a working day it comes first. */
  lemma TodayFirstWhenWorking(today: Day, days: int)
    requires IsWorkingDay(today) && days > 0
    ensures WorkingDaysFrom(today, days) != [] && WorkingDaysFrom(today, days)[0] == today
  {
    FirstOfThreeDays(today);
    WorkingDaysPrefix(today, 3, 15);
    var all := WorkingDaysIn(today, 15);
    assert all[0] == today;
    assert WorkingDaysFrom(today, days)[0] == all[0];
  }

  /** `getWorkingDays(days)`: steps a date forward from `today`, collecting the
      working days, until `days` are collected or the fifteenth day has been
      examined. */
  method GetWorkingDays(today: Day, days: int) returns (result: seq<Day>)
    ensures result == WorkingDaysFrom(today, days)
  {
    result := [];
    var count := 0;
    var current := today;
    while |result| < days
      invariant 0 <= count <= 14
      invariant current == today + count
      invariant result == WorkingDaysIn(today, count)
      invariant count > 0 ==> |result| <= days
      decreases 14 - count
    {
      ghost var before := result;
      if IsWorkingDay(current) {
        result := result + [current];
      }
      assert |result| <= |before| + 1;
      assert result == WorkingDaysIn(today, count + 1);
      current := current + 1;
      count := count + 1;
      if count > 14 {
        break;
      }
    }
    StoppedEarlyOrExhausted(today, days, count);
  }

  /** The loop stops either with `days` collected or after the fifteenth day; in
      both cases it has collected what the specification lists. */
  lemma StoppedEarlyOrExhausted(today: Day, days: int, count: nat)
    requires count <= 15
    requires days <= |WorkingDaysIn(today, count)| || count == 15
    requires count > 0 ==> |WorkingDaysIn(today, count)| <= days
    requires count == 0 ==> days <= 0
    ensures WorkingDaysIn(today, count) == WorkingDaysFrom(today, days)
  {
    WorkingDaysPrefix(today, count, 15);
  }

  function OnDay(day: Day): LogisticsEvent -> bool
  {
    (e: LogisticsEvent) => e.date == day
  }

  /** `events.filter(event => event.date.toDateString() === day.toDateString())`. */
  function DayEvents(events: seq<LogisticsEvent>, day: Day): (r: seq<LogisticsEvent>)
    ensures forall i :: 0 <= i < |r| ==> r[i].date == day
  {
    Filter(events, OnDay(day))
  }

  /** A day's list is exactly the events on that day, in input order, each as
      often as in the input. */
  lemma DayEventsProperties(events: seq<LogisticsEvent>, day: Day)
    ensures forall e :: e in DayEvents(events, day) <==> e in events && e.date == day
    ensures IsSubsequence(DayEvents(events, day), events)
    ensures forall e: LogisticsEvent :: e.date == day ==> multiset(DayEvents(events, day))[e] == multiset(events)[e]
  {
    forall e ensures e in DayEvents(events, day) <==> e in events && e.date == day {
      FilterMembership(events, OnDay(day), e);
    }
    forall e: LogisticsEvent | e.date == day ensures multiset(DayEvents(events, day))[e] == multiset(events)[e] {
      FilterMultiplicity(events, OnDay(day), e);
    }
    FilterIsSubsequence(events, OnDay(day));
  }

  /** The heading of a day's section. */
  datatype DayLabel = Today | Dated(day: Day)

  /** The heading as written: the first working day in the list is called "Today". */
  function DayLabelAsWritten(index: nat, day: Day): (l: DayLabel)
    ensures l == Today <==> index == 0
    ensures l.Dated? ==> l.day == day
  {
    if index == 0 then Today else Dated(day)
  }

  /** When today falls on a weekend the first listed day is the next Monday, and
      it is still headed "Today": day 2 (3 January 1970) was a Saturday. */
  lemma WeekendMondayHeadedToday()
    ensures Weekday(2) == Saturday
    ensures WorkingDaysFrom(2, 6)[0] == 4
    ensures DayLabelAsWritten(0, WorkingDaysFrom(2, 6)[0]) == Today
  {
    assert WorkingDaysIn(2, 1) == [];
    assert WorkingDaysIn(2, 2) == [];
    assert WorkingDaysIn(2, 3) == [4];
    WorkingDaysPrefix(2, 3, 15);
  }

  /** The heading as intended: "Today" for today's date and no other. */
  function DayLabelFor(today: Day, day: Day): (l: DayLabel)
    ensures l == Today <==> day == today
    ensures l.Dated? ==> l.day == day
  {
    if day == today then Today else Dated(day)
  }

  /** On a working day the two headings agree for every listed day. */
  lemma DayLabelsAgreeOnWorkingDays(today: Day, days: int, index: nat)
    requires IsWorkingDay(today)
    requires index < |WorkingDaysFrom(today, days)|
    ensures DayLabelFor(today, WorkingDaysFrom(today, days)[index]) == DayLabelAsWritten(index, WorkingDaysFrom(today, days)[index])
  {
    TodayFirstWhenWorking(today, days);
    WorkingDaysFromProperties(today, days);
  }

  /** One rendered section: the heading and the day's events. */
  datatype DaySection = DaySection(heading: DayLabel, day: Day, events: seq<LogisticsEvent>)

  /** The days of a list of sections, in order. */
  function SectionDays(r: seq<DaySection>): (days: seq<Day>)
    ensures |days| == |r|
    ensures forall i :: 0 <= i < |r| ==> days[i] == r[i].day
  {
    seq(|r|, i requires 0 <= i < |r| => r[i].day)
  }

  /** The sections the card renders as written, for the days `workingDays` that
      start at position `index` of the list: one per day with events, in order,
      headed "Today" at position 0 and by its date elsewhere. */
  function SectionsAsWritten(events: seq<LogisticsEvent>, workingDays: seq<Day>, index: nat): (r: seq<DaySection>)
    ensures |r| <= |workingDays|
    ensures forall i :: 0 <= i < |r| ==>
      r[i].events != [] && r[i].events == DayEvents(events, r[i].day) && r[i].day in workingDays
    ensures forall i :: 0 <= i < |r| && r[i].heading == Today ==> index == 0 && i == 0 && r[i].day == workingDays[0]
    ensures forall i :: 0 <= i < |r| && r[i].heading.Dated? ==> r[i].heading.day == r[i].day
    ensures index == 0 && workingDays != [] && DayEvents(events, workingDays[0]) != [] ==> r != [] && r[0].heading == Today
    decreases |workingDays|
  {
    if workingDays == [] then []
    else
      var day := workingDays[0];
      var dayEvents := DayEvents(events, day);
      (if dayEvents == [] then [] else [DaySection(DayLabelAsWritten(index, day), day, dayEvents)])
        + SectionsAsWritten(events, workingDays[1..], index + 1)
  }

  /** The sections with the intended headings: "Today" for today's date only. */
  function Sections(today: Day, events: seq<LogisticsEvent>, workingDays: seq<Day>): (r: seq<DaySection>)
    ensures |r| <= |workingDays|
    ensures forall i :: 0 <= i < |r| ==>
      r[i].events != [] && r[i].events == DayEvents(events, r[i].day) && r[i].day in workingDays
      && r[i].heading == DayLabelFor(today, r[i].day)
    decreases |workingDays|
  {
    if workingDays == [] then []
    else
      var day := workingDays[0];
      var dayEvents := DayEvents(events, day);
      (if dayEvents == [] then [] else [DaySection(DayLabelFor(today, day), day, dayEvents)])
        + Sections(today, events, workingDays[1..])
  }

  /** Each section without its heading: its day and its events. */
  function Bodies(r: seq<DaySection>): (b: seq<(Day, seq<LogisticsEvent>)>)
    ensures |b| == |r|
    ensures forall i :: 0 <= i < |r| ==> b[i] == (r[i].day, r[i].events)
  {
    seq(|r|, i requires 0 <= i < |r| => (r[i].day, r[i].events))
  }

  /** The two renderings list the same days with the same events, in the same
      order; they differ at most in the headings. */
  lemma {:induction false} SectionsDifferOnlyInHeadings(today: Day, events: seq<LogisticsEvent>, workingDays: seq<Day>, index: nat)
    ensures Bodies(SectionsAsWritten(events, workingDays, index)) == Bodies(Sections(today, events, workingDays))
    decreases |workingDays|
  {
    if workingDays != [] {
      var day := workingDays[0];
      var dayEvents := DayEvents(events, day);
      var a := SectionsAsWritten(events, workingDays[1..], index + 1);
      var b := Sections(today, events, workingDays[1..]);
      SectionsDifferOnlyInHeadings(today, events, workingDays[1..], index + 1);
      if dayEvents != [] {
        BodiesCons(DaySection(DayLabelAsWritten(index, day), day, dayEvents), a);
        BodiesCons(DaySection(DayLabelFor(today, day), day, dayEvents), b);
      }
    }
  }

  lemma BodiesCons(s: DaySection, r: seq<DaySection>)
    ensures Bodies([s] + r) == [(s.day, s.events)] + Bodies(r)
  {
    assert forall i :: 1 <= i < |r| + 1 ==> ([s] + r)[i] == r[i - 1];
  }

  /** Where today's date is exactly the day at position 0, the written headings
      are the intended ones. */
  lemma {:induction false} SectionsAgree(today: Day, events: seq<LogisticsEvent>, workingDays: seq<Day>, index: nat)
    requires forall k :: 0 <= k < |workingDays| ==> (workingDays[k] == today <==> index + k == 0)
    ensures SectionsAsWritten(events, workingDays, index) == Sections(today, events, workingDays)
    decreases |workingDays|
  {
    if workingDays != [] {
      assert forall k :: 0 <= k < |workingDays| - 1 ==> workingDays[1..][k] == workingDays[k + 1];
      SectionsAgree(today, events, workingDays[1..], index + 1);
    }
  }

  /** On a working day the card renders exactly the intended sections. */
  lemma SectionsAgreeOnWorkingDays(today: Day, events: seq<LogisticsEvent>, days: int)
    requires IsWorkingDay(today)
    ensures SectionsAsWritten(events, WorkingDaysFrom(today, days), 0) == Sections(today, events, WorkingDaysFrom(today, days))
  {
    var wd := WorkingDaysFrom(today, days);
    WorkingDaysFromProperties(today, days);
    if wd != [] {
      TodayFirstWhenWorking(today, days);
    }
    SectionsAgree(today, events, wd, 0);
  }

  /** On a weekend the list opens with the following Monday. */
  lemma WeekendListsMondayFirst(today: Day)
    requires !IsWorkingDay(today)
    ensures |WorkingDaysFrom(today, 6)| == 6 && WorkingDaysFrom(today, 6)[0] == NextWorkingDay(today)
  {
    SixDaysShown(today);
    FirstOfThreeDays(today);
    WorkingDaysPrefix(today, 3, 15);
  }

  /** Any three consecutive days hold a working day, the first of which is
      `NextWorkingDay` of the first day. */
  lemma FirstOfThreeDays(today: Day)
    ensures WorkingDaysIn(today, 3) != [] && WorkingDaysIn(today, 3)[0] == NextWorkingDay(today)
  {
    WeekdayOfNext(today);
    WeekdayOfNext(today + 1);
    assert WorkingDaysIn(today, 3) == WorkingDaysIn(today, 2) + (if IsWorkingDay(today + 2) then [today + 2] else []);
    assert WorkingDaysIn(today, 2) == WorkingDaysIn(today, 1) + (if IsWorkingDay(today + 1) then [today + 1] else []);
    assert WorkingDaysIn(today, 1) == if IsWorkingDay(today) then [today] else [];
  }

  /** When today is a weekend day and the following Monday has events, the card
      heads the Monday's section "Today"; the intended heading is its date. */
  lemma WeekendSectionHeadedToday(today: Day, events: seq<LogisticsEvent>)
    requires !IsWorkingDay(today) && DayEvents(events, NextWorkingDay(today)) != []
    ensures SectionsAsWritten(events, WorkingDaysFrom(today, 6), 0) != []
      && SectionsAsWritten(events, WorkingDaysFrom(today, 6), 0)[0]
      == DaySection(Today, NextWorkingDay(today), DayEvents(events, NextWorkingDay(today)))
    ensures Sections(today, events, WorkingDaysFrom(today, 6)) != []
      && Sections(today, events, WorkingDaysFrom(today, 6))[0]
      == DaySection(Dated(NextWorkingDay(today)), NextWorkingDay(today), DayEvents(events, NextWorkingDay(today)))
  {
    var monday := NextWorkingDay(today);
    var wd := WorkingDaysFrom(today, 6);
    WeekendListsMondayFirst(today);
    assert monday != today;
    FirstSection(today, events, wd, monday);
  }

  /** The first listed day, when it has events, opens both renderings. */
  lemma FirstSection(today: Day, events: seq<LogisticsEvent>, workingDays: seq<Day>, first: Day)
    requires workingDays != [] && workingDays[0] == first && DayEvents(events, first) != []
    ensures SectionsAsWritten(events, workingDays, 0) != []
      && SectionsAsWritten(events, workingDays, 0)[0] == DaySection(Today, first, DayEvents(events, first))
    ensures Sections(today, events, workingDays) != []
      && Sections(today, events, workingDays)[0] == DaySection(DayLabelFor(today, first), first, DayEvents(events, first))
  {
  }

  /** The sections keep the order of the listed days. */
  lemma {:induction false} SectionsInOrder(today: Day, events: seq<LogisticsEvent>, workingDays: seq<Day>)
    ensures IsSubsequence(SectionDays(Sections(today, events, workingDays)), workingDays)
    decreases |workingDays|
  {
    if workingDays != [] {
      SectionsInOrder(today, events, workingDays[1..]);
      var r := Sections(today, events, workingDays);
      var rest := Sections(today, events, workingDays[1..]);
      if DayEvents(events, workingDays[0]) == [] {
        assert r == rest;
      } else {
        assert r == [DaySection(DayLabelFor(today, workingDays[0]), workingDays[0], DayEvents(events, workingDays[0]))] + rest;
        assert SectionDays(r)[1..] == SectionDays(rest);
      }
    }
  }

  /** A listed day with events gets a section (and, by the contract of
      `Sections`, a day without events gets none). */
  lemma {:induction false} SectionsCoverBusyDays(today: Day, events: seq<LogisticsEvent>, workingDays: seq<Day>, day: Day)
    requires day in workingDays && DayEvents(events, day) != []
    ensures exists i :: 0 <= i < |Sections(today, events, workingDays)| && Sections(today, events, workingDays)[i].day == day
    decreases |workingDays|
  {
    var r := Sections(today, events, workingDays);
    var first := workingDays[0];
    var head := if DayEvents(events, first) == [] then [] else [DaySection(DayLabelFor(today, first), first, DayEvents(events, first))];
    var rest := Sections(today, events, workingDays[1..]);
    assert r == head + rest;
    if day == first {
      assert r[0].day == day;
    } else {
      assert day in workingDays[1..];
      SectionsCoverBusyDays(today, events, workingDays[1..], day);
      var i :| 0 <= i < |rest| && rest[i].day == day;
      assert r[|head| + i].day == day;
    }
  }
}
