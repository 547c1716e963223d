/**
 * The daily sales trend: one entry per day of the last `days` days ending
 * today, with the day's summed sale totals, or zero on a day without sales.
 * Dates are day numbers (consecutive integers); today is a parameter in
 * place of the clock, and the per-day totals the database groups and sums
 * are given as a map from day to amount.
 */
module Analytics {
  import opened Money

  /** One point of the trend: a day and what was sold on it. */
  datatype TrendItem = TrendItem(date: int, salesAmount: Cents)

  /** The first day of a trend of `days` days ending on endDate. */
  function StartDate(endDate: int, days: int): (start: int)
    ensures days >= 1 ==> start <= endDate && endDate - start == days - 1
    ensures days <= 0 ==> start > endDate
  {
    endDate - (days - 1)
  }

  /** The amount for a day: its total if it had sales, else zero. */
  function AmountOn(totals: map<int, Cents>, date: int): (amount: Cents)
    ensures date in totals ==> amount == totals[date]
    ensures date !in totals ==> amount == 0
  {
    if date in totals then totals[date] else 0
  }

  /** The trend from first to last inclusive, one entry per day. */
  function Trend(totals: map<int, Cents>, first: int, last: int): (t: seq<TrendItem>)
    decreases last - first
    ensures |t| == if first > last then 0 else last - first + 1
    ensures first <= last ==> t[0].date == first && t[|t| - 1].date == last
  {
    if first > last then [] else [TrendItem(first, AmountOn(totals, first))] + Trend(totals, first + 1, last)
  }

  /**
   * Entry k of the trend from first to last is day first + k with its
   * amount, and there is one entry per day of the range (none when the
   * range is empty).
   */
  lemma {:induction false} TrendAt(totals: map<int, Cents>, first: int, last: int)
    decreases last - first
    ensures |Trend(totals, first, last)| == if first > last then 0 else last - first + 1
    ensures forall k :: 0 <= k < |Trend(totals, first, last)| ==>
      Trend(totals, first, last)[k] == TrendItem(first + k, AmountOn(totals, first + k))
  {
    if first <= last {
      TrendAt(totals, first + 1, last);
      var t := Trend(totals, first, last);
      forall k | 0 <= k < |t|
        ensures t[k] == TrendItem(first + k, AmountOn(totals, first + k))
      {
        if k > 0 {
          assert t[k] == Trend(totals, first + 1, last)[k - 1];
        }
      }
    }
  }

  /**
   * For days >= 1 the trend has exactly `days` entries, on consecutive
   * ascending days, the last of them endDate; for days <= 0 it is empty.
   */
  lemma TrendShape(totals: map<int, Cents>, endDate: int, days: int)
    ensures var t := Trend(totals, StartDate(endDate, days), endDate);
      |t| == Max(0, days) &&
      (forall k :: 0 <= k < |t| - 1 ==> t[k + 1].date == t[k].date + 1) &&
      (days >= 1 ==> t[0].date == StartDate(endDate, days) && t[|t| - 1].date == endDate)
  {
    TrendAt(totals, StartDate(endDate, days), endDate);
  }

  /**
   * get_sales_trend's fill loop: walks from the start date to endDate,
   * appending each day with its total, or zero when it had no sales.
   */
  method SalesTrend(totals: map<int, Cents>, endDate: int, days: int) returns (trend: seq<TrendItem>)
    ensures trend == Trend(totals, StartDate(endDate, days), endDate)
    ensures |trend| == Max(0, days)
    ensures forall k :: 0 <= k < |trend| ==>
      trend[k].date == StartDate(endDate, days) + k && trend[k].salesAmount == AmountOn(totals, trend[k].date)
  {
    var startDate := endDate - (days - 1);
    trend := [];
    var current := startDate;
    while current <= endDate
      invariant startDate <= current <= Max(startDate, endDate + 1)
      invariant |trend| == current - startDate
      invariant forall k :: 0 <= k < |trend| ==> trend[k] == TrendItem(startDate + k, AmountOn(totals, startDate + k))
      decreases endDate - current
    {
      trend := trend + [TrendItem(current, if current in totals then totals[current] else 0)];
      current := current + 1;
    }
    TrendAt(totals, startDate, endDate);
  }
}
