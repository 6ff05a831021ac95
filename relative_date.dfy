/** `window.madin.relativeDate`: the short English phrase for how long ago
    something happened. The clock is not read here: the elapsed time is the
    whole number of seconds `diff` that `main.js` obtains by rounding
    `(now - date) / 1000`. */
module RelativeTime {
  import opened Decimal

  // The calendar-naive units of `main.js`, in seconds, defined as it defines
  // them: a month is 30 days and a year is 12 such months (360 days).
  const Minute: int := 60
  const Hour: int := Minute * 60
  const Day: int := Hour * 24
  const Week: int := Day * 7
  const Month: int := Day * 30
  const Year: int := Month * 12

  /** The values the products come to; the year is 31104000 seconds, not the
      31536000 of a 365-day year. */
  lemma UnitsAsDefined()
    ensures Minute == 60 && Hour == 3600 && Day == 86400 && Week == 604800
    ensures Month == 2592000 && Year == 31104000
  {
  }

  // One predicate per branch of the threshold chain, each stated as the
  // range of elapsed seconds that reaches that branch.
  predicate IsComingSoon(diff: int) { diff < 0 }
  predicate IsJustNow(diff: int)    { 0 <= diff < 30 }
  predicate IsSeconds(diff: int)    { 30 <= diff < Minute }
  predicate IsAMinute(diff: int)    { Minute <= diff < 2 * Minute }
  predicate IsMinutes(diff: int)    { 2 * Minute <= diff < Hour }
  predicate IsOneHour(diff: int)    { Hour <= diff < 2 * Hour }
  predicate IsHours(diff: int)      { 2 * Hour <= diff < Day }
  predicate IsYesterday(diff: int)  { Day <= diff < 2 * Day }
  predicate IsDays(diff: int)       { 2 * Day <= diff < Week }
  predicate IsWeeks(diff: int)      { Week <= diff < Month }
  predicate IsMonths(diff: int)     { Month <= diff < Year }
  predicate IsYears(diff: int)      { Year <= diff }

  /** The branches, in the order the chain tries them. */
  datatype Bucket =
    | ComingSoon | JustNow | Seconds | AMinute | Minutes | OneHour
    | Hours | Yesterday | Days | Weeks | Months | Years

  predicate InBucket(b: Bucket, diff: int) {
    match b
    case ComingSoon => IsComingSoon(diff)
    case JustNow => IsJustNow(diff)
    case Seconds => IsSeconds(diff)
    case AMinute => IsAMinute(diff)
    case Minutes => IsMinutes(diff)
    case OneHour => IsOneHour(diff)
    case Hours => IsHours(diff)
    case Yesterday => IsYesterday(diff)
    case Days => IsDays(diff)
    case Weeks => IsWeeks(diff)
    case Months => IsMonths(diff)
    case Years => IsYears(diff)
  }

  /** Position of a branch in the chain. */
  function Rank(b: Bucket): nat {
    match b
    case ComingSoon => 0
    case JustNow => 1
    case Seconds => 2
    case AMinute => 3
    case Minutes => 4
    case OneHour => 5
    case Hours => 6
    case Yesterday => 7
    case Days => 8
    case Weeks => 9
    case Months => 10
    case Years => 11
  }

  /** The bucket whose range holds `diff`; every integer has one. */
  function BucketOf(diff: int): (b: Bucket)
    ensures InBucket(b, diff)
  {
    if diff < 0 then ComingSoon
    else if diff < 30 then JustNow
    else if diff < Minute then Seconds
    else if diff < 2 * Minute then AMinute
    else if diff < Hour then Minutes
    else if diff < 2 * Hour then OneHour
    else if diff < Day then Hours
    else if diff < 2 * Day then Yesterday
    else if diff < Week then Days
    else if diff < Month then Weeks
    else if diff < Year then Months
    else Years
  }

  /** The ranges do not overlap: `diff` lies in no bucket but `BucketOf(diff)`. */
  lemma BucketsDisjoint(b: Bucket, diff: int)
    requires InBucket(b, diff)
    ensures b == BucketOf(diff)
  {
  }

  /** A larger elapsed time never lands in an earlier branch. */
  lemma BucketMonotone(d1: int, d2: int)
    requires d1 <= d2
    ensures Rank(BucketOf(d1)) <= Rank(BucketOf(d2))
  {
  }

  /** The chain of `main.js`, first match wins. The one-hour test is written
      as the script writes it, `floor(diff / hour) == 1`; all divisions are by a
      positive unit, where Dafny's `/` is the floor division of `Math.floor`. */
  function RelativeDate(diff: int): (r: string)
    ensures IsComingSoon(diff) ==> r == "coming soon"
    ensures IsJustNow(diff) ==> r == "just now"
    ensures IsSeconds(diff) ==> r == NatToString(diff) + " seconds ago"
    ensures IsAMinute(diff) ==> r == "a minute ago"
    ensures IsMinutes(diff) ==>
      2 <= diff / Minute <= 59 && r == NatToString(diff / Minute) + " minutes ago"
    ensures IsOneHour(diff) ==> r == "1 hour ago"
    ensures IsHours(diff) ==>
      2 <= diff / Hour <= 23 && r == NatToString(diff / Hour) + " hours ago"
    ensures IsYesterday(diff) ==> r == "yesterday"
    ensures IsDays(diff) ==>
      2 <= diff / Day <= 6 && r == NatToString(diff / Day) + " days ago"
    ensures IsWeeks(diff) ==>
      1 <= diff / Week <= 4 && r == NatToString(diff / Week) + " weeks ago"
    ensures IsMonths(diff) ==>
      1 <= diff / Month <= 11 && r == NatToString(diff / Month) + " months ago"
    ensures IsYears(diff) ==>
      1 <= diff / Year && r == NatToString(diff / Year) + " years ago"
  {
    UnitsAsDefined();
    if diff < 0 then "coming soon"
    else if diff < 30 then "just now"
    else if diff < Minute then NatToString(diff) + " seconds ago"
    else if diff < 2 * Minute then "a minute ago"
    else if diff < Hour then NatToString(diff / Minute) + " minutes ago"
    else if diff / Hour == 1 then "1 hour ago"
    else if diff < Day then NatToString(diff / Hour) + " hours ago"
    else if diff < Day * 2 then "yesterday"
    else if diff < Week then NatToString(diff / Day) + " days ago"
    else if diff < Month then NatToString(diff / Week) + " weeks ago"
    else if diff < Year then NatToString(diff / Month) + " months ago"
    else NatToString(diff / Year) + " years ago"
  }

  /** Once `diff < hour` has failed, the floor test of the one-hour branch
      is the same as `diff < 2 * hour`. */
  lemma OneHourTest(diff: int)
    requires Hour <= diff
    ensures diff / Hour == 1 <==> diff < 2 * Hour
  {
  }

  /** Sample values below a minute, at and around the edges of the branches. */
  lemma SecondSpans()
    ensures RelativeDate(-5) == "coming soon"
    ensures RelativeDate(0) == "just now"
    ensures RelativeDate(29) == "just now"
    ensures RelativeDate(45) == "45 seconds ago"
  {
    assert NatToString(45) == NatToString(4) + "5";
  }

  /** Sample values from a minute to a day. */
  lemma MinuteAndHourSpans()
    ensures RelativeDate(90) == "a minute ago"
    ensures RelativeDate(125) == "2 minutes ago"
    ensures RelativeDate(3600) == "1 hour ago"
    ensures RelativeDate(7200) == "2 hours ago"
  {
    UnitsAsDefined();
    assert NatToString(2) == "2";
    assert RelativeDate(90) == "a minute ago";
    assert IsMinutes(125) && 125 / Minute == 2;
    assert RelativeDate(125) == "2 minutes ago";
    assert RelativeDate(3600) == "1 hour ago";
    assert IsHours(7200) && 7200 / Hour == 2;
  }

  /** Sample values of a day and a week, including the unpluralised
      "1 weeks ago" at the lower edge of the weeks. */
  lemma DayAndWeekSpans()
    ensures RelativeDate(90000) == "yesterday"
    ensures RelativeDate(Week) == "1 weeks ago"
  {
    UnitsAsDefined();
    assert NatToString(1) == "1";
  }

  /** Sample values around the 360-day year: its last second is
      "11 months ago", its first "1 years ago" (unpluralised), and one second
      short of 365 days is already "1 years ago". */
  lemma YearSpans()
    ensures RelativeDate(Year - 1) == "11 months ago"
    ensures RelativeDate(Year) == "1 years ago"
    ensures RelativeDate(365 * Day - 1) == "1 years ago"
  {
    UnitsAsDefined();
    assert NatToString(1) == "1";
    assert NatToString(11) == NatToString(1) + "1";
    assert IsMonths(31103999) && 31103999 / 2592000 == 11;
    assert IsYears(31104000) && 31104000 / 31104000 == 1;
    assert IsYears(31535999) && 31535999 / 31104000 == 1;
  }
}
