/**
 * The dashboard's derived figures: the four progress percentages, the
 * countdown to the wedding, and the short previews of the lists.
 */
module Dashboard {
  import opened Wrappers
  import opened Seqs
  import opened JsNumbers
  import opened Schema
  import opened Guests
  import opened Vendors
  import opened Budget

  /** `task.isCompleted` as a condition: only a stored `true` counts. */
  predicate IsCompleted(t: Task)
  {
    t.fields.isCompleted == Some(true)
  }

  /** Share of guests whose RSVP is "confirmed", rounded; 0 with no guests. */
  function GuestProgress(guests: seq<Guest>): (r: int)
    ensures 0 <= r <= 100
    ensures guests == [] ==> r == 0
  {
    ProgressPercent(Count(guests, IsConfirmed), |guests|)
  }

  /** Share of completed tasks, rounded; 0 with no tasks. */
  function TaskProgress(tasks: seq<Task>): (r: int)
    ensures 0 <= r <= 100
    ensures tasks == [] ==> r == 0
  {
    ProgressPercent(Count(tasks, IsCompleted), |tasks|)
  }

  /** Share of booked vendors, rounded; 0 with no vendors. */
  function VendorProgress(vendors: seq<Vendor>): (r: int)
    ensures 0 <= r <= 100
    ensures vendors == [] ==> r == 0
  {
    ProgressPercent(Count(vendors, IsBooked), |vendors|)
  }

  /** Every task completed gives 100, none gives 0. */
  lemma TaskProgressExtremes(tasks: seq<Task>)
    requires tasks != []
    ensures (forall i :: 0 <= i < |tasks| ==> IsCompleted(tasks[i])) ==> TaskProgress(tasks) == 100
    ensures (forall i :: 0 <= i < |tasks| ==> !IsCompleted(tasks[i])) ==> TaskProgress(tasks) == 0
  {
    if forall i :: 0 <= i < |tasks| ==> IsCompleted(tasks[i]) {
      FilterAll(tasks, IsCompleted);
    }
    if forall i :: 0 <= i < |tasks| ==> !IsCompleted(tasks[i]) {
      assert Filter(tasks, IsCompleted) == [];
    }
  }

  /**
   * `totalBudget > 0 ? Math.round(spent / totalBudget * 100) : 0`. There is no
   * cap: spending more than the budget gives more than 100.
   */
  function BudgetProgress(items: seq<BudgetItem>): (r: int)
    ensures TotalBudget(items) <= 0 ==> r == 0
    ensures TotalBudget(items) > 0 && 0 <= TotalSpent(items) <= TotalBudget(items) ==> 0 <= r <= 100
  {
    var total := TotalBudget(items);
    if total > 0 then
      var spent := TotalSpent(items);
      if 0 <= spent <= total then RoundedPercentBounds(spent, total); RoundedPercent(spent, total)
      else RoundedPercent(spent, total)
    else 0
  }

  /**
   * `budgetProgress` as written: `spentBudget` adds `parseFloat(actualAmount)`,
   * so one item without an actual amount makes the figure NaN (None here)
   * whenever the budget is positive. Otherwise it agrees with `BudgetProgress`.
   */
  function BudgetProgressAsWritten(items: seq<BudgetItem>): (r: Option<int>)
    ensures r.None? <==> TotalBudget(items) > 0 && exists i :: 0 <= i < |items| && items[i].fields.actualAmount.None?
    ensures r.Some? ==> r.value == BudgetProgress(items)
  {
    SpentAsWrittenAgrees(items);
    var total := TotalBudget(items);
    if total > 0 then
      match SpentAsWritten(items)
      case Some(spent) => Some(RoundedPercent(spent, total))
      case None => None
    else Some(0)
  }

  /** The dashboard shows NaN for a budget of 5000.00 with one item not yet paid; the corrected figure is 0. */
  lemma BudgetProgressAsWrittenNaN()
    ensures var items := [WithId(2, InsertBudgetItem("venue", "Deposit", 500000, None, None, None))];
      BudgetProgressAsWritten(items) == None && BudgetProgress(items) == 0
  {
    var items := [WithId(2, InsertBudgetItem("venue", "Deposit", 500000, None, None, None))];
    SpentAsWrittenNaN();
    assert items[0].fields.actualAmount.None?;
  }

  /** Once spending passes the budget by half a percent, the progress figure exceeds 100. */
  lemma BudgetProgressUncapped(items: seq<BudgetItem>)
    requires TotalBudget(items) > 0
    requires 200 * TotalSpent(items) >= 201 * TotalBudget(items)
    ensures BudgetProgress(items) > 100
  {
    var spent, total := TotalSpent(items), TotalBudget(items);
    var r := RoundedPercent(spent, total);
    assert 2 * total * 101 <= 200 * spent + total;
    assert 2 * total * 101 < 2 * total * (r + 1);
    CancelFactor(2 * total, 101, r + 1);
  }

  /** Milliseconds in a day, an hour and a minute. */
  const DayMs := 86400000
  const HourMs := 3600000
  const MinuteMs := 60000

  /** The countdown shown; `Unreadable` is the days, hours and minutes all NaN. */
  datatype Countdown = Countdown(days: int, hours: int, minutes: int) | Unreadable

  /**
   * `getCountdown()`: all zero without a wedding date (absent or empty) or once
   * the date has passed; otherwise whole days, hours and minutes left.
   * `weddingMs` is `new Date(weddingDate).getTime()`, None when the text is
   * not a date `Date` can read (NaN), and `nowMs` the clock. A NaN difference
   * fails `diff <= 0`, so every part of the countdown is NaN.
   */
  function GetCountdown(weddingDate: Option<string>, weddingMs: Option<int>, nowMs: int): (c: Countdown)
    ensures weddingDate.None? || weddingDate == Some("") ==> c == Countdown(0, 0, 0)
    ensures weddingMs.Some? && weddingMs.value <= nowMs ==> c == Countdown(0, 0, 0)
    ensures c.Unreadable? <==> weddingDate.Some? && weddingDate.value != "" && weddingMs.None?
  {
    if weddingDate.None? || weddingDate.value == "" then Countdown(0, 0, 0)
    else match weddingMs
      case None => Unreadable
      case Some(ms) =>
        var diff := ms - nowMs;
        if diff <= 0 then Countdown(0, 0, 0)
        else Countdown(diff / DayMs, (diff % DayMs) / HourMs, (diff % HourMs) / MinuteMs)
  }

  /**
   * The countdown is the time left, rounded down to a whole minute: hours and
   * minutes are in range, and the three parts add up to within a minute of it.
   */
  lemma CountdownDecomposes(weddingDate: string, weddingMs: int, nowMs: int)
    requires weddingDate != "" && weddingMs > nowMs
    ensures var c := GetCountdown(Some(weddingDate), Some(weddingMs), nowMs);
      var left := weddingMs - nowMs;
      0 <= c.days && 0 <= c.hours < 24 && 0 <= c.minutes < 60 &&
      c.days * DayMs + c.hours * HourMs + c.minutes * MinuteMs <= left <
      c.days * DayMs + c.hours * HourMs + c.minutes * MinuteMs + MinuteMs
  {
    var diff := weddingMs - nowMs;
    var days, dayRest := diff / DayMs, diff % DayMs;
    assert diff == days * DayMs + dayRest && 0 <= dayRest < DayMs;
    var hours, hourRest := dayRest / HourMs, dayRest % HourMs;
    assert dayRest == hours * HourMs + hourRest && 0 <= hourRest < HourMs;
    assert hours < 24;
    SameHourRemainder(diff, days, dayRest);
    var minutes := hourRest / MinuteMs;
    assert hourRest == minutes * MinuteMs + hourRest % MinuteMs;
  }

  /** Whole days are whole hours, so the remainder by an hour is the same before and after removing them. */
  lemma SameHourRemainder(diff: int, days: int, dayRest: int)
    requires diff == days * DayMs + dayRest && 0 <= dayRest
    ensures diff % HourMs == (dayRest % HourMs)
  {
    var q := dayRest / HourMs;
    assert dayRest == q * HourMs + dayRest % HourMs;
    assert diff == (days * 24 + q) * HourMs + dayRest % HourMs;
  }

  /** `xs.slice(0, n)`: the first `n` rows, or all of them when there are fewer. */
  function Preview<T>(xs: seq<T>, n: nat): (r: seq<T>)
    ensures |r| == if |xs| < n then |xs| else n
    ensures forall i :: 0 <= i < |r| ==> r[i] == xs[i]
  {
    if |xs| < n then xs else xs[..n]
  }

  /** The guests, tasks and vendors the dashboard lists: the first 5, 5 and 3, in store order. */
  function Previews(guests: seq<Guest>, tasks: seq<Task>, vendors: seq<Vendor>): (seq<Guest>, seq<Task>, seq<Vendor>)
  {
    (Preview(guests, 5), Preview(tasks, 5), Preview(vendors, 3))
  }
}
