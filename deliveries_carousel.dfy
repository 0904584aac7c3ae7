/** The projects page's delivery carousel: one slide per day of the next two
    weeks that has deliveries. */
module DeliveriesCarousel {
  import opened Seqs
  import opened Calendar
  import opened Records
  import opened DeliveryDays

  function HasDeliveries(ds: seq<DeliveryRecord>): Day -> bool
  {
    (day: Day) => |DeliveriesByDate(ds, day)| > 0
  }

  /** `next14Days.filter(day => getDeliveriesByDate(day).length > 0)`. */
  function DaysWithDeliveries(ds: seq<DeliveryRecord>, days: seq<Day>): (r: seq<Day>)
    ensures |r| <= |days|
    ensures forall i :: 0 <= i < |r| ==> DeliveriesByDate(ds, r[i]) != []
  {
    Filter(days, HasDeliveries(ds))
  }

  /** The slides are the days of the window whose bucket is non-empty, in order. */
  lemma DaysWithDeliveriesProperties(ds: seq<DeliveryRecord>, days: seq<Day>)
    ensures forall day :: day in DaysWithDeliveries(ds, days) <==> day in days && DeliveriesByDate(ds, day) != []
    ensures IsSubsequence(DaysWithDeliveries(ds, days), days)
  {
    forall day ensures day in DaysWithDeliveries(ds, days) <==> day in days && DeliveriesByDate(ds, day) != [] {
      FilterMembership(days, HasDeliveries(ds), day);
    }
    FilterIsSubsequence(days, HasDeliveries(ds));
  }

  /** Some delivery is dated within the fourteen days starting today. */
  predicate AnyDeliveryInWindow(today: Day, ds: seq<DeliveryRecord>)
  {
    exists i :: 0 <= i < |ds| && today <= ds[i].date < today + WindowLength
  }

  /** Some day of the window has a non-empty bucket exactly when some delivery
      falls within the window. */
  lemma BusyDayIffDeliveryInWindow(today: Day, ds: seq<DeliveryRecord>)
    ensures (exists i :: 0 <= i < WindowLength && DeliveriesByDate(ds, Window(today, WindowLength)[i]) != [])
      <==> AnyDeliveryInWindow(today, ds)
  {
    if exists i :: 0 <= i < WindowLength && DeliveriesByDate(ds, Window(today, WindowLength)[i]) != [] {
      var i :| 0 <= i < WindowLength && DeliveriesByDate(ds, Window(today, WindowLength)[i]) != [];
      BusyDayHasDelivery(today, ds, i);
    }
    if AnyDeliveryInWindow(today, ds) {
      var j :| 0 <= j < |ds| && today <= ds[j].date < today + WindowLength;
      DeliveryInExactlyOneBucket(today, ds, ds[j]);
    }
  }

  /** A non-empty bucket of the window holds a delivery dated within the window. */
  lemma BusyDayHasDelivery(today: Day, ds: seq<DeliveryRecord>, i: nat)
    requires i < WindowLength && DeliveriesByDate(ds, Window(today, WindowLength)[i]) != []
    ensures AnyDeliveryInWindow(today, ds)
  {
    var day := Window(today, WindowLength)[i];
    var d := DeliveriesByDate(ds, day)[0];
    DeliveriesByDateProperties(ds, day);
    var j :| 0 <= j < |ds| && ds[j] == d;
    assert today <= ds[j].date < today + WindowLength;
  }

  /** The "No deliveries scheduled for the next 2 weeks" message shows exactly
      when no delivery falls within the window. */
  lemma EmptyMessageIffNoDeliveryInWindow(today: Day, ds: seq<DeliveryRecord>)
    ensures |DaysWithDeliveries(ds, Window(today, WindowLength))| == 0 <==> !AnyDeliveryInWindow(today, ds)
  {
    var days := Window(today, WindowLength);
    DaysWithDeliveriesProperties(ds, days);
    BusyDayIffDeliveryInWindow(today, ds);
    if |DaysWithDeliveries(ds, days)| != 0 {
      var day := DaysWithDeliveries(ds, days)[0];
      assert day in days;
      var i :| 0 <= i < WindowLength && days[i] == day;
    }
    if exists i :: 0 <= i < WindowLength && DeliveriesByDate(ds, days[i]) != [] {
      var i :| 0 <= i < WindowLength && DeliveriesByDate(ds, days[i]) != [];
      assert days[i] in DaysWithDeliveries(ds, days);
    }
  }

  /** A delivery dated outside the window is on no slide. */
  lemma OutOfWindowDeliveryNotShown(today: Day, ds: seq<DeliveryRecord>, d: DeliveryRecord)
    requires !(today <= d.date < today + WindowLength)
    ensures forall day :: day in DaysWithDeliveries(ds, Window(today, WindowLength)) ==> d !in DeliveriesByDate(ds, day)
  {
    var days := Window(today, WindowLength);
    DaysWithDeliveriesProperties(ds, days);
  }
}
