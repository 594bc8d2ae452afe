/** The watch-history presentation helpers of backend/server.js: the
    "time ago" labels and the pagination figures of `/api/user-history`.
    The current time is not read: callers pass the elapsed milliseconds. */
module History {
  import Decimal

  datatype TimeUnit = Minute | Hour | Day

  /** Milliseconds in one unit. */
  function UnitMs(u: TimeUnit): nat {
    match u
    case Minute => 60000
    case Hour => 3600000
    case Day => 86400000
  }

  /** A relative-time label before rendering. */
  datatype Ago = JustNow | Ago(count: nat, unit: TimeUnit)

  /** The label as text: "Just now", or "<n> <unit>[s] ago" with the plural
      `s` exactly when n > 1. */
  function Render(a: Ago): string {
    match a
    case JustNow => "Just now"
    case Ago(n, u) => Decimal.NatToString(n) + " " + UnitName(u) + (if n > 1 then "s" else "") + " ago"
  }

  function UnitName(u: TimeUnit): string {
    match u
    case Minute => "minute"
    case Hour => "hour"
    case Day => "day"
  }

  /** `getTimeAgo`: the largest unit of which at least one whole unit has
      elapsed, with the whole number of such units; "Just now" below one
      minute, including for times in the future. */
  function TimeAgo(diffMs: int): (a: Ago)
    ensures a.JustNow? <==> diffMs < 60000
    ensures a.Ago? ==> a.count >= 1 && a.count * UnitMs(a.unit) <= diffMs < (a.count + 1) * UnitMs(a.unit)
    ensures a.Ago? ==> (a.unit == Day <==> diffMs >= 86400000)
    ensures a.Ago? ==> (a.unit == Minute <==> diffMs < 3600000)
  {
    var days := diffMs / 86400000;
    var hours := diffMs / 3600000;
    var minutes := diffMs / 60000;
    if days > 0 then Ago(days, Day)
    else if hours > 0 then Ago(hours, Hour)
    else if minutes > 0 then Ago(minutes, Minute)
    else JustNow
  }

  /** `getTimeAgo` as text. */
  function GetTimeAgo(diffMs: int): string {
    Render(TimeAgo(diffMs))
  }

  /** The label the reachable `/api/user-history` handler computes inline:
      a relative label, or the calendar date after 30 days. */
  datatype Watched = Relative(ago: Ago) | CalendarDate

  /** The inline `watchedAgo`: "Just now" up to two minutes, then minutes
      below an hour, hours below a day, days below 30 days. */
  function WatchedAgo(diffMs: int): (w: Watched)
    ensures w == Relative(JustNow) <==> diffMs < 120000
    ensures w == CalendarDate <==> diffMs >= 30 * 86400000
    ensures w.Relative? && w.ago.Ago? ==> WholeUnits(w.ago, diffMs)
  {
    var minutes := diffMs / 60000;
    var hours := diffMs / 3600000;
    var days := diffMs / 86400000;
    if minutes < 60 then
      (if minutes <= 1 then Relative(JustNow) else Relative(Ago(minutes, Minute)))
    else if hours < 24 then Relative(Ago(hours, Hour))
    else if days < 30 then Relative(Ago(days, Day))
    else CalendarDate
  }

  /** A label's count is the whole number of its units elapsed. */
  predicate WholeUnits(a: Ago, diffMs: int)
    requires a.Ago?
  {
    a.count * UnitMs(a.unit) <= diffMs < (a.count + 1) * UnitMs(a.unit)
  }

  /** Between two minutes and 30 days the inline label and `getTimeAgo`
      agree; between one and two minutes `getTimeAgo` already says
      "1 minute ago" while the inline label still says "Just now". */
  lemma WatchedAgoAgreesWithTimeAgo(diffMs: int)
    ensures 120000 <= diffMs < 30 * 86400000 ==> WatchedAgo(diffMs) == Relative(TimeAgo(diffMs))
    ensures 60000 <= diffMs < 120000 ==>
      TimeAgo(diffMs) == Ago(1, Minute) && WatchedAgo(diffMs) == Relative(JustNow)
  {
  }

  /** The figures of the history page. */
  datatype Page = Page(hasMore: bool, currentPage: int, totalPages: int)

  /** `hasMore`, `currentPage` and `totalPages` for a page of `limit`
      entries starting at `offset` out of `total`: the page holding `offset`
      (counted from 1), and the fewest pages that hold `total` entries. */
  function Paginate(offset: int, limit: int, total: nat): (p: Page)
    requires limit > 0
    ensures p.hasMore <==> offset + limit < total
    ensures (p.currentPage - 1) * limit <= offset < p.currentPage * limit
    ensures p.totalPages >= 0
    ensures p.totalPages * limit >= total && (p.totalPages - 1) * limit < total
  {
    Page(offset + limit < total, offset / limit + 1, (total + limit - 1) / limit)
  }

  /** Whole multiples compare as their factors do. */
  lemma FactorsOrdered(a: int, b: int, limit: int)
    requires limit > 0 && a * limit < b * limit
    ensures a < b
  {
  }

  lemma MultiplesOrdered(a: int, b: int, limit: int)
    requires limit > 0 && a <= b
    ensures a * limit <= b * limit
  {
  }

  /** When there is more, the current page is not the last; for an offset on
      a page boundary the converse holds as well. */
  lemma HasMoreMeansLaterPage(offset: int, limit: int, total: nat)
    requires limit > 0
    ensures var p := Paginate(offset, limit, total);
      p.hasMore ==> p.currentPage < p.totalPages
    ensures var p := Paginate(offset, limit, total);
      (offset >= 0 && offset % limit == 0 && p.currentPage < p.totalPages) ==> p.hasMore
  {
    var p := Paginate(offset, limit, total);
    var cp, tp := p.currentPage, p.totalPages;
    assert cp * limit == (cp - 1) * limit + limit;
    if p.hasMore {
      assert cp * limit < tp * limit;
      FactorsOrdered(cp, tp, limit);
    }
    if offset >= 0 && offset % limit == 0 && cp < tp {
      assert offset == (offset / limit) * limit;
      assert offset == (cp - 1) * limit;
      MultiplesOrdered(cp, tp - 1, limit);
      assert offset + limit == cp * limit;
    }
  }
}
