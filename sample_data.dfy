/** The dashboard's built-in sample data: nine active projects and nine logistics
    events dated relative to today. */
module SampleData {
  import opened Options
  import opened Calendar
  import opened Records

  /** `getDateFromToday(days)`: the date `days` after today, moved forward to
      Monday when it falls on a weekend. */
  method GetDateFromToday(today: Day, days: int) returns (date: Day)
    ensures date == NextWorkingDay(today + days)
    ensures IsWorkingDay(date)
    ensures today + days <= date <= today + days + 2
    ensures Weekday(today + days) == Sunday ==> date == today + days + 1
    ensures Weekday(today + days) == Saturday ==> date == today + days + 2
    ensures IsWorkingDay(today + days) ==> date == today + days
    ensures !IsWorkingDay(today + days) ==> Weekday(date) == Monday
  {
    date := today + days;
    var dayOfWeek := Weekday(date);
    if dayOfWeek == Sunday {
      date := date + 1;
    } else if dayOfWeek == Saturday {
      date := date + 2;
    }
  }

  function SampleProject(id: string, name: string, progress: int): Project
  {
    Project(id, name, None, Some("active"), Some(progress), None, None, None, None, None, None, None)
  }

  const Projects: seq<Project> := [
    SampleProject("PRJ-2024-001", "City Center Office Building", 35),
    SampleProject("PRJ-2024-002", "Metro Station Renovation", 68),
    SampleProject("PRJ-2024-003", "Riverside Apartments", 12),
    SampleProject("PRJ-2024-004", "Tech Park Phase II", 89),
    SampleProject("PRJ-2024-005", "Harbor View Hotel", 24),
    SampleProject("PRJ-2024-006", "Green Valley Residential", 56),
    SampleProject("PRJ-2024-007", "Community Health Center", 42),
    SampleProject("PRJ-2024-008", "Sports Complex Extension", 18),
    SampleProject("PRJ-2024-009", "University Science Building", 75)
  ]

  function Event(kind: EventType, date: Day, projectNumber: string, projectName: string, location: string, time: string): LogisticsEvent
  {
    LogisticsEvent(kind, date, projectNumber, projectName, Some(location), Some(time))
  }

  /** `logisticsEvents`, for the given clock reading: the first two are dated
      today as it is, the others `getDateFromToday(k)` days ahead. */
  function LogisticsEvents(today: Day): (es: seq<LogisticsEvent>)
    ensures |es| == 9
  {
    [
      Event(Delivery, today, "PRJ-2024-001", "City Center Office Building", "123 Main St, Downtown", "09:30 AM"),
      Event(Pickup, today, "PRJ-2024-003", "Riverside Apartments", "456 River Rd, Eastside", "02:15 PM"),
      Event(Delivery, NextWorkingDay(today + 1), "PRJ-2024-002", "Metro Station Renovation", "789 Transit Way, Downtown", "10:00 AM"),
      Event(Pickup, NextWorkingDay(today + 2), "PRJ-2024-005", "Harbor View Hotel", "321 Harbor Dr, Waterfront", "08:45 AM"),
      Event(Delivery, NextWorkingDay(today + 2), "PRJ-2024-007", "Community Health Center", "555 Wellness Ave, Northside", "11:30 AM"),
      Event(Delivery, NextWorkingDay(today + 3), "PRJ-2024-004", "Tech Park Phase II", "888 Innovation Blvd, Tech District", "09:00 AM"),
      Event(Pickup, NextWorkingDay(today + 4), "PRJ-2024-008", "Sports Complex Extension", "777 Athletic Dr, Westside", "03:30 PM"),
      Event(Delivery, NextWorkingDay(today + 5), "PRJ-2024-009", "University Science Building", "101 Campus Dr, University District", "10:45 AM"),
      Event(Pickup, NextWorkingDay(today + 5), "PRJ-2024-006", "Green Valley Residential", "222 Valley Rd, Southside", "01:15 PM")
    ]
  }

  /** The sample project ids are pairwise distinct and every sample progress is a
      percentage. */
  lemma ProjectsWellFormed()
    ensures forall i, j :: 0 <= i < j < |Projects| ==> Projects[i].id != Projects[j].id
    ensures forall i :: 0 <= i < |Projects| ==>
      Projects[i].status == Some("active") && Projects[i].progress.Some? && 0 <= Projects[i].progress.value <= 100
  {
    forall i, j | 0 <= i < j < |Projects| ensures Projects[i].id != Projects[j].id {
      assert Projects[i].id[11] == "123456789"[i];
      assert Projects[j].id[11] == "123456789"[j];
    }
  }

  /** Which sample project each sample event is for. */
  const EventProject: seq<nat> := [0, 2, 1, 4, 6, 3, 7, 8, 5]

  /** `e` names a sample project by its id, with that project's name. */
  predicate RefersToProject(e: LogisticsEvent)
  {
    exists k :: 0 <= k < |Projects| && Projects[k].id == e.projectNumber && Projects[k].name == e.projectName
  }

  /** Every sample event names a sample project by its id, with that project's name. */
  lemma EventsReferToProjects(today: Day)
    ensures forall i :: 0 <= i < |LogisticsEvents(today)| ==> RefersToProject(LogisticsEvents(today)[i])
  {
    forall i | 0 <= i < |LogisticsEvents(today)| ensures RefersToProject(LogisticsEvents(today)[i]) {
      var k := EventProject[i];
      assert Projects[k].id == LogisticsEvents(today)[i].projectNumber && Projects[k].name == LogisticsEvents(today)[i].projectName;
    }
  }

  /** The first two events are today; every later one falls on a working day no
      earlier than tomorrow and at most a week ahead. */
  lemma EventDates(today: Day)
    ensures LogisticsEvents(today)[0].date == today && LogisticsEvents(today)[1].date == today
    ensures forall i :: 2 <= i < |LogisticsEvents(today)| ==>
      IsWorkingDay(LogisticsEvents(today)[i].date) && today < LogisticsEvents(today)[i].date <= today + 7
  {
    var es := LogisticsEvents(today);
    assert es[2].date == NextWorkingDay(today + 1);
    assert es[3].date == es[4].date == NextWorkingDay(today + 2);
    assert es[5].date == NextWorkingDay(today + 3);
    assert es[6].date == NextWorkingDay(today + 4);
    assert es[7].date == es[8].date == NextWorkingDay(today + 5);
  }

  /** The events run in date order. */
  lemma EventsInDateOrder(today: Day)
    ensures forall i, j :: 0 <= i < j < |LogisticsEvents(today)| ==> LogisticsEvents(today)[i].date <= LogisticsEvents(today)[j].date
  {
    NextWorkingDayMonotonic(today + 1, today + 2);
    NextWorkingDayMonotonic(today + 2, today + 3);
    NextWorkingDayMonotonic(today + 3, today + 4);
    NextWorkingDayMonotonic(today + 4, today + 5);
  }

  lemma NextWorkingDayMonotonic(d: Day, e: Day)
    requires d <= e
    ensures NextWorkingDay(d) <= NextWorkingDay(e)
  {
  }
}
