/** Display helpers: the relative timestamp shown on posts, comments and
    notifications (`formatTime`), and the icon chosen for a notification. */
module Formatting {

  const MsPerMinute := 60000
  const MsPerHour := 3600000
  const MsPerDay := 86400000

  /** The label `formatTime` produces. `CalendarDate` stands for the
      locale-dependent `toLocaleDateString()` text of the timestamp. */
  datatype TimeLabel = JustNow | MinutesAgo(n: int) | HoursAgo(n: int) | DaysAgo(n: int) | CalendarDate
  {
    /** Position of the bucket, from the most recent to the oldest. */
    function Rank(): nat
    {
      match this
      case JustNow => 0
      case MinutesAgo(_) => 1
      case HoursAgo(_) => 2
      case DaysAgo(_) => 3
      case CalendarDate => 4
    }

    /** The text shown: "Just now", or the count in decimal followed by the
        unit letter and " ago" ("5m ago", "3h ago", "2d ago"); the digits read
        back as the count. */
    function Text(): (s: string)
      requires !CalendarDate?
      requires JustNow? || n >= 0
      ensures JustNow? ==> s == "Just now"
      ensures !JustNow? ==> |s| > 5 && (forall i :: 0 <= i < |s| - 5 ==> '0' <= s[i] <= '9')
                            && DigitsValue(s[..|s| - 5]) == n
      ensures !JustNow? && |s| > 6 ==> s[0] != '0'
      ensures MinutesAgo? ==> s[|s| - 5..] == "m ago"
      ensures HoursAgo? ==> s[|s| - 5..] == "h ago"
      ensures DaysAgo? ==> s[|s| - 5..] == "d ago"
    {
      if JustNow? then "Just now"
      else
        var unit := if MinutesAgo? then "m ago" else if HoursAgo? then "h ago" else "d ago";
        var digits := Decimal(n);
        DecimalRoundTrip(n);
        var s := digits + unit;
        assert s[..|s| - 5] == digits && s[|s| - 5..] == unit;
        s
    }
  }

  /** `formatTime` on the elapsed time `diffMs = now - date` in milliseconds.
      Each count is the floor of the elapsed time in its unit; `/` on `int`
      with a positive divisor is exactly `Math.floor` of the quotient, also
      for a negative difference (a timestamp in the future). */
  function FormatTime(diffMs: int): (r: TimeLabel)
    ensures r == JustNow <==> diffMs < MsPerMinute
    ensures r.MinutesAgo? <==> MsPerMinute <= diffMs < MsPerHour
    ensures r.HoursAgo? <==> MsPerHour <= diffMs < MsPerDay
    ensures r.DaysAgo? <==> MsPerDay <= diffMs < 7 * MsPerDay
    ensures r == CalendarDate <==> diffMs >= 7 * MsPerDay
    ensures r.MinutesAgo? ==> 1 <= r.n < 60 && r.n * MsPerMinute <= diffMs < (r.n + 1) * MsPerMinute
    ensures r.HoursAgo? ==> 1 <= r.n < 24 && r.n * MsPerHour <= diffMs < (r.n + 1) * MsPerHour
    ensures r.DaysAgo? ==> 1 <= r.n < 7 && r.n * MsPerDay <= diffMs < (r.n + 1) * MsPerDay
  {
    var diffMins := diffMs / MsPerMinute;
    var diffHours := diffMs / MsPerHour;
    var diffDays := diffMs / MsPerDay;
    if diffMins < 1 then JustNow
    else if diffMins < 60 then MinutesAgo(diffMins)
    else if diffHours < 24 then HoursAgo(diffHours)
    else if diffDays < 7 then DaysAgo(diffDays)
    else CalendarDate
  }

  /** An older timestamp never gets a more recent label: the bucket is
      monotone in the elapsed time, and so is the count inside a bucket. */
  lemma FormatTimeMonotone(a: int, b: int)
    requires a <= b
    ensures FormatTime(a).Rank() <= FormatTime(b).Rank()
    ensures (FormatTime(a).Rank() == FormatTime(b).Rank() && !FormatTime(a).JustNow?
             && !FormatTime(a).CalendarDate?) ==> FormatTime(a).n <= FormatTime(b).n
  {
    var la, lb := FormatTime(a), FormatTime(b);
    if la.Rank() == lb.Rank() && la.MinutesAgo? {
      assert la.n * MsPerMinute <= a <= b < (lb.n + 1) * MsPerMinute;
    } else if la.Rank() == lb.Rank() && la.HoursAgo? {
      assert la.n * MsPerHour <= a <= b < (lb.n + 1) * MsPerHour;
    } else if la.Rank() == lb.Rank() && la.DaysAgo? {
      assert la.n * MsPerDay <= a <= b < (lb.n + 1) * MsPerDay;
    }
  }

  /** The decimal digits of `n`, as a template literal prints an integer. */
  function Decimal(n: nat): (s: string)
    ensures |s| >= 1
    ensures forall i :: 0 <= i < |s| ==> '0' <= s[i] <= '9'
    ensures |s| > 1 ==> s[0] != '0'
    decreases n
  {
    if n < 10 then [Digit(n)] else Decimal(n / 10) + [Digit(n % 10)]
  }

  function Digit(d: nat): (c: char)
    requires d < 10
    ensures '0' <= c <= '9'
    ensures c as int - '0' as int == d
  {
    ('0' as int + d) as char
  }

  /** The value the digits of `s` denote. */
  function DigitsValue(s: string): nat
    requires forall i :: 0 <= i < |s| ==> '0' <= s[i] <= '9'
  {
    if s == [] then 0 else 10 * DigitsValue(s[..|s| - 1]) + (s[|s| - 1] as int - '0' as int)
  }

  /** Reading the printed count back gives the count. */
  lemma {:induction false} DecimalRoundTrip(n: nat)
    ensures DigitsValue(Decimal(n)) == n
  {
    if n >= 10 {
      DecimalRoundTrip(n / 10);
      var s := Decimal(n);
      assert s[..|s| - 1] == Decimal(n / 10);
      assert s[|s| - 1] == Digit(n % 10);
      calc {
        DigitsValue(s);
        10 * DigitsValue(Decimal(n / 10)) + n % 10;
        10 * (n / 10) + n % 10;
      }
    }
  }

  /** Two labels with a count print the same text only if they are equal. */
  lemma TextInjective(x: TimeLabel, y: TimeLabel)
    requires !x.CalendarDate? && (x.JustNow? || x.n >= 0)
    requires !y.CalendarDate? && (y.JustNow? || y.n >= 0)
    requires x.Text() == y.Text()
    ensures x == y
  {
    assert x.JustNow? <==> x.Text()[|x.Text()| - 3] == 'n';
    assert y.JustNow? <==> y.Text()[|y.Text()| - 3] == 'n';
    if !x.JustNow? && !y.JustNow? {
      var dx, dy := Decimal(x.n), Decimal(y.n);
      assert x.Text()[|x.Text()| - 5] == y.Text()[|y.Text()| - 5];
      assert x.Text()[..|dx|] == dx && x.Text()[|dx|..] == x.Text()[|x.Text()| - 5..];
      assert |dx| == |dy|;
      assert dx == x.Text()[..|dx|] == y.Text()[..|dy|] == dy;
      DecimalRoundTrip(x.n);
      DecimalRoundTrip(y.n);
    }
  }

  /** `getNotificationIcon`: the icon of each known notification type; every
      other type falls back to the bell. */
  function NotificationIcon(kind: string): (icon: string)
    ensures kind == "friend_request" <==> icon == "user-plus"
    ensures kind == "friend_accept" <==> icon == "user-check"
    ensures kind == "like" <==> icon == "heart"
    ensures kind == "comment" <==> icon == "comment"
    ensures kind == "mention" <==> icon == "at"
    ensures icon == "bell" <==> kind !in KnownKinds()
  {
    match kind
    case "friend_request" => "user-plus"
    case "friend_accept" => "user-check"
    case "like" => "heart"
    case "comment" => "comment"
    case "mention" => "at"
    case _ => "bell"
  }

  /** The notification types the backend creates. */
  function KnownKinds(): set<string>
  {
    {"friend_request", "friend_accept", "like", "comment", "mention"}
  }
}
