/** Calendar dates as day numbers. The components compare dates only by calendar
    day (`toDateString`) and step them one day at a time (`setDate(getDate() + 1)`),
    so a date is the number of days since 1 January 1970, which was a Thursday. */
module Calendar {

  type Day = int

  /** `Date.prototype.getDay`: 0 is Sunday, 1 Monday, ..., 6 Saturday. */
  function Weekday(d: Day): (w: int)
    ensures 0 <= w < 7
  {
    (d + 4) % 7
  }

  const Sunday := 0
  const Monday := 1
  const Saturday := 6

  /** Monday to Friday. */
  predicate IsWorkingDay(d: Day)
  {
    Weekday(d) != Sunday && Weekday(d) != Saturday
  }

  /** The weekday advances by one, cyclically, from one day to the next. */
  lemma WeekdayOfNext(d: Day)
    ensures Weekday(d + 1) == (Weekday(d) + 1) % 7
  {
  }

  /** The `n` consecutive days starting at `from`. */
  function Window(from: Day, n: nat): (days: seq<Day>)
    ensures |days| == n
    ensures forall i :: 0 <= i < n ==> days[i] == from + i
  {
    seq(n, i => from + i)
  }

  /** The working days among the `n` consecutive days starting at `from`, in order. */
  function WorkingDaysIn(from: Day, n: nat): (days: seq<Day>)
    ensures |days| <= n
    decreases n
  {
    if n == 0 then []
    else WorkingDaysIn(from, n - 1) + (if IsWorkingDay(from + n - 1) then [from + n - 1] else [])
  }

  /** `WorkingDaysIn` lists exactly the working days of the window, strictly increasing. */
  lemma {:induction false} WorkingDaysInProperties(from: Day, n: nat)
    ensures forall i :: 0 <= i < |WorkingDaysIn(from, n)| ==>
      IsWorkingDay(WorkingDaysIn(from, n)[i]) && from <= WorkingDaysIn(from, n)[i] < from + n
    ensures forall i, j :: 0 <= i < j < |WorkingDaysIn(from, n)| ==>
      WorkingDaysIn(from, n)[i] < WorkingDaysIn(from, n)[j]
    ensures forall d :: from <= d < from + n && IsWorkingDay(d) ==> d in WorkingDaysIn(from, n)
    decreases n
  {
    if n > 0 {
      WorkingDaysInProperties(from, n - 1);
    }
  }

  /** A window splits into two consecutive windows. */
  lemma {:induction false} WorkingDaysSplit(from: Day, a: nat, b: nat)
    ensures WorkingDaysIn(from, a + b) == WorkingDaysIn(from, a) + WorkingDaysIn(from + a, b)
    decreases b
  {
    if b > 0 {
      WorkingDaysSplit(from, a, b - 1);
      assert from + (a + b) - 1 == (from + a) + b - 1;
    }
  }

  /** Whether weekday `w` is Monday to Friday, as a count. */
  function WorkingWeekday(w: int): nat
  {
    if w % 7 != Sunday && w % 7 != Saturday then 1 else 0
  }

  /** The working days of the window starting at `from`, counted by weekday. */
  lemma {:induction false} WorkingDaysCount(from: Day, n: nat)
    ensures |WorkingDaysIn(from, n)| == if n == 0 then 0 else |WorkingDaysIn(from, n - 1)| + WorkingWeekday(Weekday(from) + n - 1)
  {
    if n > 0 {
      assert Weekday(from + n - 1) == (Weekday(from) + n - 1) % 7;
    }
  }

  /** Every seven consecutive days hold exactly five working days: whichever
      weekday the window starts on, it meets each weekday once. */
  lemma FiveWorkingDaysPerWeek(from: Day)
    ensures |WorkingDaysIn(from, 7)| == 5
  {
    WorkingDaysCount(from, 1);
    WorkingDaysCount(from, 2);
    WorkingDaysCount(from, 3);
    WorkingDaysCount(from, 4);
    WorkingDaysCount(from, 5);
    WorkingDaysCount(from, 6);
    WorkingDaysCount(from, 7);
    FiveOfSeven(Weekday(from));
  }

  /** Seven consecutive weekdays include five of Monday to Friday. */
  lemma FiveOfSeven(w: int)
    requires 0 <= w < 7
    ensures WorkingWeekday(w) + WorkingWeekday(w + 1) + WorkingWeekday(w + 2) + WorkingWeekday(w + 3)
      + WorkingWeekday(w + 4) + WorkingWeekday(w + 5) + WorkingWeekday(w + 6) == 5
  {
    if w == 0 {
    } else if w == 1 {
    } else if w == 2 {
    } else if w == 3 {
    } else if w == 4 {
    } else if w == 5 {
    } else {
      assert w == 6;
    }
  }

  /** Every fourteen consecutive days hold exactly ten working days. */
  lemma TenWorkingDaysPerFortnight(from: Day)
    ensures |WorkingDaysIn(from, 14)| == 10
  {
    WorkingDaysSplit(from, 7, 7);
    FiveWorkingDaysPerWeek(from);
    FiveWorkingDaysPerWeek(from + 7);
  }

  /** `WorkingDaysIn(from, n)` is a prefix of every longer window's list. */
  lemma WorkingDaysPrefix(from: Day, n: nat, m: nat)
    requires n <= m
    ensures |WorkingDaysIn(from, n)| <= |WorkingDaysIn(from, m)|
    ensures WorkingDaysIn(from, m)[..|WorkingDaysIn(from, n)|] == WorkingDaysIn(from, n)
  {
    WorkingDaysSplit(from, n, m - n);
  }

  /** The first working day on or after `d`: a weekend day moves to the
      following Monday. It is the least working day that is not before `d`. */
  function NextWorkingDay(d: Day): (n: Day)
    ensures IsWorkingDay(n)
    ensures d <= n <= d + 2
    ensures forall e :: d <= e < n ==> !IsWorkingDay(e)
    ensures !IsWorkingDay(d) ==> Weekday(n) == Monday
  {
    if Weekday(d) == Sunday then d + 1
    else if Weekday(d) == Saturday then d + 2
    else d
  }
}
