/** The two-week view shared by the deliveries carousel and the deliveries
    timeline: both declare the same `getNext14Days`, `getDeliveriesByDate`,
    today check and project colour lookup, defined once here. */
module DeliveryDays {
  import opened Options
  import opened Seqs
  import opened Calendar
  import opened Records
  import Js
  import Palette

  /** The length of the window, in days. */
  const WindowLength := 14

  /** `getNext14Days()`: today and the thirteen days after it. */
  method Next14Days(today: Day) returns (days: seq<Day>)
    ensures days == Window(today, WindowLength)
    ensures |days| == 14 && days[0] == today
    ensures forall i :: 0 < i < |days| ==> days[i] == days[i - 1] + 1
  {
    days := [];
    for i := 0 to 14
      invariant days == Window(today, i)
    {
      days := days + [today + i];
    }
  }

  function OnDate(day: Day): DeliveryRecord -> bool
  {
    (d: DeliveryRecord) => d.date == day
  }

  /** `getDeliveriesByDate(date)`: the deliveries on that calendar day. */
  function DeliveriesByDate(ds: seq<DeliveryRecord>, day: Day): (r: seq<DeliveryRecord>)
    ensures forall i :: 0 <= i < |r| ==> r[i].date == day
    ensures |r| <= |ds|
  {
    Filter(ds, OnDate(day))
  }

  /** A day's bucket is exactly the deliveries on that day, in input order, each
      as often as in the input. */
  lemma DeliveriesByDateProperties(ds: seq<DeliveryRecord>, day: Day)
    ensures forall d :: d in DeliveriesByDate(ds, day) <==> d in ds && d.date == day
    ensures IsSubsequence(DeliveriesByDate(ds, day), ds)
    ensures forall d: DeliveryRecord :: d.date == day ==> multiset(DeliveriesByDate(ds, day))[d] == multiset(ds)[d]
  {
    forall d ensures d in DeliveriesByDate(ds, day) <==> d in ds && d.date == day {
      FilterMembership(ds, OnDate(day), d);
    }
    forall d: DeliveryRecord | d.date == day ensures multiset(DeliveriesByDate(ds, day))[d] == multiset(ds)[d] {
      FilterMultiplicity(ds, OnDate(day), d);
    }
    FilterIsSubsequence(ds, OnDate(day));
  }

  /** A delivery inside the window lies in the bucket of exactly one of its days;
      one outside the window lies in none. */
  lemma DeliveryInExactlyOneBucket(today: Day, ds: seq<DeliveryRecord>, d: DeliveryRecord)
    requires d in ds
    ensures today <= d.date < today + WindowLength ==>
      d in DeliveriesByDate(ds, Window(today, WindowLength)[d.date - today])
    ensures forall i :: 0 <= i < WindowLength && d in DeliveriesByDate(ds, Window(today, WindowLength)[i]) ==> i == d.date - today
  {
    DeliveriesByDateProperties(ds, d.date);
    forall i | 0 <= i < WindowLength && d in DeliveriesByDate(ds, Window(today, WindowLength)[i])
      ensures i == d.date - today
    {
      DeliveriesByDateProperties(ds, today + i);
    }
  }

  /** `isToday(date)`, given the clock's day. */
  predicate IsToday(today: Day, day: Day)
  {
    day == today
  }

  /** In the fourteen-day window exactly the first day is headed "Today". */
  lemma TodayHeadsFirstDayOnly(today: Day)
    ensures forall i :: 0 <= i < WindowLength ==> (IsToday(today, Window(today, WindowLength)[i]) <==> i == 0)
  {
  }

  function HasId(id: string): Project -> bool
  {
    (p: Project) => p.id == id
  }

  /** `projects.indexOf(projects.find(p => p.id === delivery.projectNumber)) % 6`:
      the position of the first project with the delivery's project number,
      under JavaScript's remainder; -1 when there is none. */
  function ColorIndex(projects: seq<Project>, d: DeliveryRecord): (k: int)
    ensures -1 <= k < 6
    ensures k == -1 <==> forall j :: 0 <= j < |projects| ==> projects[j].id != d.projectNumber
  {
    var position := FirstIndex(projects, HasId(d.projectNumber));
    Js.RemOfNonNegative(if position < 0 then 1 else position, 6);
    Js.Rem(position, 6)
  }

  /** The colour badge of a delivery: `getProjectColor(colorIndex)`. */
  function DeliveryColor(projects: seq<Project>, d: DeliveryRecord): (c: Option<string>)
    ensures c.None? <==> forall j :: 0 <= j < |projects| ==> projects[j].id != d.projectNumber
    ensures c.Some? ==> c.value in Palette.Colors
  {
    Palette.ProjectColor(ColorIndex(projects, d))
  }

  /** A delivery of the project first listed at position `p` gets palette entry
      `p mod 6`; one whose project is not listed gets index -1 and hence no
      colour. */
  lemma DeliveryColorByPosition(projects: seq<Project>, d: DeliveryRecord, p: nat)
    requires p < |projects| && projects[p].id == d.projectNumber
    requires forall j :: 0 <= j < p ==> projects[j].id != d.projectNumber
    ensures ColorIndex(projects, d) == p % 6
    ensures DeliveryColor(projects, d) == Some(Palette.Colors[p % 6])
  {
    assert FirstIndex(projects, HasId(d.projectNumber)) == p;
    Js.RemOfNonNegative(p, 6);
  }

  lemma DeliveryColorOfUnknownProject(projects: seq<Project>, d: DeliveryRecord)
    requires forall j :: 0 <= j < |projects| ==> projects[j].id != d.projectNumber
    ensures ColorIndex(projects, d) == -1
    ensures DeliveryColor(projects, d) == None
  {
  }
}
