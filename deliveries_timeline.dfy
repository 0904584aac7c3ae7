/** The projects page's delivery timeline: the next two weeks listed day by day,
    skipping days without deliveries. */
module DeliveriesTimeline {
  import opened Seqs
  import opened Calendar
  import opened Records
  import opened DeliveryDays
  import DeliveriesCarousel

  /** `next14Days.map(day => bucket empty ? null : section)`: the days that render
      a section, in window order. */
  function RenderedDays(ds: seq<DeliveryRecord>, days: seq<Day>): (r: seq<Day>)
    ensures |r| <= |days|
    ensures forall i :: 0 <= i < |r| ==> r[i] in days && DeliveriesByDate(ds, r[i]) != []
    ensures r == [] <==> forall i :: 0 <= i < |days| ==> DeliveriesByDate(ds, days[i]) == []
    decreases |days|
  {
    if days == [] then []
    else (if |DeliveriesByDate(ds, days[0])| == 0 then [] else [days[0]]) + RenderedDays(ds, days[1..])
  }

  /** `next14Days.every(day => getDeliveriesByDate(day).length === 0)`. */
  predicate AllBucketsEmpty(ds: seq<DeliveryRecord>, days: seq<Day>)
    ensures AllBucketsEmpty(ds, days) <==> RenderedDays(ds, days) == []
  {
    forall i :: 0 <= i < |days| ==> |DeliveriesByDate(ds, days[i])| == 0
  }

  /** The timeline renders exactly the days the carousel makes slides of. */
  lemma {:induction false} RenderedDaysAgreeWithCarousel(ds: seq<DeliveryRecord>, days: seq<Day>)
    ensures RenderedDays(ds, days) == DeliveriesCarousel.DaysWithDeliveries(ds, days)
    decreases |days|
  {
    if days != [] {
      RenderedDaysAgreeWithCarousel(ds, days[1..]);
    }
  }

  /** A day renders a section exactly when its bucket is non-empty. */
  lemma RenderedDaysAreBusyDays(ds: seq<DeliveryRecord>, days: seq<Day>)
    ensures forall day :: day in RenderedDays(ds, days) <==> day in days && DeliveriesByDate(ds, day) != []
    ensures IsSubsequence(RenderedDays(ds, days), days)
  {
    RenderedDaysAgreeWithCarousel(ds, days);
    DeliveriesCarousel.DaysWithDeliveriesProperties(ds, days);
  }

  /** The empty message shows exactly when no delivery falls within the window,
      which is exactly when the timeline renders no section. */
  lemma EmptyMessageIffNoDeliveryInWindow(today: Day, ds: seq<DeliveryRecord>)
    ensures AllBucketsEmpty(ds, Window(today, WindowLength)) <==> !DeliveriesCarousel.AnyDeliveryInWindow(today, ds)
    ensures AllBucketsEmpty(ds, Window(today, WindowLength)) <==> RenderedDays(ds, Window(today, WindowLength)) == []
  {
    DeliveriesCarousel.BusyDayIffDeliveryInWindow(today, ds);
    DeliveriesCarousel.EmptyMessageIffNoDeliveryInWindow(today, ds);
    RenderedDaysAgreeWithCarousel(ds, Window(today, WindowLength));
  }
}
