/** builder.py's text helpers: `cost_string`, `duration_string`, `to_time`
    on "HH:MM" text, `to_money`, and the opening hours `load_activities`
    derives with `to_time`. Each formatter is paired with a parser it
    round-trips with. */
module Formatting {
  import opened Options
  import opened Decimal
  import opened Meals
  import opened Specs
  import opened Tours

  // ---------------------------------------------------------------- cost

  /** The yen sign followed by a left-to-right mark, as `cost_string` writes
      it before the amount. */
  const YenPrefix: string := "\U{00A5}\U{200E}"

  /** `cost_string`: "free" for nothing, otherwise the marked yen amount. */
  function CostString(cost: int): (s: string)
  {
    if cost == 0 then "free" else YenPrefix + IntToString(cost)
  }

  /** Reads a cost back from the text `cost_string` writes. */
  function ParseCost(s: string): (r: Option<int>)
  {
    if s == "free" then Some(0)
    else if |s| >= 2 && s[..2] == YenPrefix then ParseInt(s[2..])
    else None
  }

  /** Every cost survives `cost_string`, and "free" means exactly zero. */
  lemma CostStringRoundTrip(cost: int)
    ensures ParseCost(CostString(cost)) == Some(cost)
    ensures CostString(cost) == "free" <==> cost == 0
  {
    if cost != 0 {
      var s := CostString(cost);
      assert s[..2] == YenPrefix && s[2..] == IntToString(cost);
      assert s[0] != 'f';
      IntToStringRoundTrip(cost);
    }
  }

  // ------------------------------------------------------------ duration

  /** `duration.seconds`: a timedelta keeps the seconds within the day
      apart from whole (possibly negative) days. */
  function DaySeconds(d: int): (r: int)
    ensures 0 <= r < 86400
    ensures (d - r) % 86400 == 0
  {
    d % 86400
  }

  /** `duration_string`: whole hours and minutes of the seconds within the
      day; the hours are left out when zero, the minutes when the hours are
      shown and the minutes are zero. */
  function DurationString(d: int): (s: string)
  {
    var seconds := DaySeconds(d);
    var hours := seconds / 3600;
    var minutes := (seconds % 3600) / 60;
    if hours > 0 then
      if minutes > 0 then NatToString(hours) + "h " + NatToString(minutes) + "m"
      else NatToString(hours) + "h"
    else NatToString(minutes) + "m"
  }

  /** The index of the first occurrence of c in s. */
  function FirstIndex(s: string, c: char): (r: Option<nat>)
    ensures r.Some? ==> r.value < |s| && s[r.value] == c
  {
    if s == [] then None
    else if s[0] == c then Some(0)
    else match FirstIndex(s[1..], c)
      case None => None
      case Some(k) => Some(k + 1)
  }

  /** Reads "<h>h <m>m", "<h>h" or "<m>m" back as seconds. */
  function ParseDuration(s: string): (r: Option<int>)
  {
    if |s| < 2 then None
    else
      var body := s[..|s| - 1];
      if s[|s| - 1] == 'h' then
        if AllDigits(body) then Some(DigitsValue(body) * 3600) else None
      else if s[|s| - 1] == 'm' then
        if AllDigits(body) then Some(DigitsValue(body) * 60) else ParseHoursMinutes(body)
      else None
  }

  /** Reads "<h>h <m>" back as seconds. */
  function ParseHoursMinutes(body: string): (r: Option<int>)
  {
    match FirstIndex(body, 'h')
    case None => None
    case Some(k) =>
      if 0 < k && k + 2 < |body| && body[k + 1] == ' ' && AllDigits(body[..k]) && AllDigits(body[k + 2..])
      then Some(DigitsValue(body[..k]) * 3600 + DigitsValue(body[k + 2..]) * 60)
      else None
  }

  /** A character that is not a digit is found right after a run of digits. */
  lemma {:induction false} FirstIndexAfterDigits(digits: string, c: char, rest: string)
    requires AllDigits(digits) && !IsDigit(c)
    ensures FirstIndex(digits + [c] + rest, c) == Some(|digits|)
  {
    if digits != [] {
      assert (digits + [c] + rest)[1..] == digits[1..] + [c] + rest;
      FirstIndexAfterDigits(digits[1..], c, rest);
    }
  }

  /** The seconds within the day, less the odd seconds, are the whole hours
      and minutes `duration_string` shows. */
  lemma SplitSeconds(seconds: int)
    requires 0 <= seconds
    ensures (seconds / 3600) * 3600 + ((seconds % 3600) / 60) * 60 == seconds - seconds % 60
  {
    var q := seconds / 3600;
    var r := seconds % 3600;
    var m := r / 60;
    var x := r % 60;
    assert seconds == q * 3600 + r;
    assert r == m * 60 + x;
    var k := q * 60 + m;
    assert seconds == k * 60 + x;
    assert seconds % 60 == x;
  }

  /** `duration_string` keeps the whole minutes of the seconds within the
      day: reading the text back gives them, and drops only the seconds. */
  lemma DurationStringRoundTrip(d: int)
    ensures ParseDuration(DurationString(d)) == Some(DaySeconds(d) - DaySeconds(d) % 60)
  {
    var seconds := DaySeconds(d);
    var hours := seconds / 3600;
    var minutes := (seconds % 3600) / 60;
    var whole := seconds - seconds % 60;
    assert hours * 3600 + minutes * 60 == whole by {
      SplitSeconds(seconds);
    }
    if hours > 0 && minutes > 0 {
      assert DurationString(d) == NatToString(hours) + "h " + NatToString(minutes) + "m";
      HoursAndMinutesRoundTrip(hours, minutes);
    } else if hours > 0 {
      assert DurationString(d) == NatToString(hours) + ['h'];
      SingleUnitRoundTrip(hours, 'h');
      assert hours * 3600 == whole;
    } else {
      assert DurationString(d) == NatToString(minutes) + ['m'];
      SingleUnitRoundTrip(minutes, 'm');
      assert minutes * 60 == whole;
    }
  }

  /** "<n>h" and "<n>m" read back as n hours and n minutes. */
  lemma SingleUnitRoundTrip(n: nat, unit: char)
    requires unit == 'h' || unit == 'm'
    ensures ParseDuration(NatToString(n) + [unit]) == Some(n * if unit == 'h' then 3600 else 60)
  {
    var s := NatToString(n) + [unit];
    assert s[..|s| - 1] == NatToString(n);
  }

  lemma HoursAndMinutesRoundTrip(hours: nat, minutes: nat)
    ensures ParseDuration(NatToString(hours) + "h " + NatToString(minutes) + "m") == Some(hours * 3600 + minutes * 60)
  {
    var hs := NatToString(hours);
    var ms := NatToString(minutes);
    Regroup(hs, 'h', ' ', ms, 'm');
    SliceParts(hs, 'h', ' ', ms);
    ParseHoursMinutesAfterDigits(hs, ms);
  }

  /** a + [x, y] + b + [z] is a + [x] + ([y] + b) with z after it. */
  lemma Regroup<T>(a: seq<T>, x: T, y: T, b: seq<T>, z: T)
    ensures var s := a + [x, y] + b + [z];
      s == (a + [x] + ([y] + b)) + [z] && s[..|s| - 1] == a + [x] + ([y] + b)
  {
  }

  lemma ParseHoursMinutesAfterDigits(hs: string, ms: string)
    requires AllDigits(hs) && AllDigits(ms) && |hs| > 0 && |ms| > 0
    ensures ParseHoursMinutes(hs + ['h'] + ([' '] + ms)) == Some(DigitsValue(hs) * 3600 + DigitsValue(ms) * 60)
  {
    var body := hs + ['h'] + ([' '] + ms);
    assert FirstIndex(body, 'h') == Some(|hs|) by {
      FirstIndexAfterDigits(hs, 'h', [' '] + ms);
    }
    assert |body| == |hs| + 2 + |ms| && body[..|hs|] == hs && body[|hs| + 1] == ' ' && body[|hs| + 2..] == ms by {
      SliceParts(hs, 'h', ' ', ms);
    }
    ParseHoursMinutesOf(body, hs, ms);
  }

  /** ParseHoursMinutes once the pieces around the 'h' are known. */
  lemma ParseHoursMinutesOf(body: string, hs: string, ms: string)
    requires AllDigits(hs) && AllDigits(ms) && |hs| > 0 && |ms| > 0
    requires FirstIndex(body, 'h') == Some(|hs|) && |body| == |hs| + 2 + |ms|
    requires body[..|hs|] == hs && body[|hs| + 1] == ' ' && body[|hs| + 2..] == ms
    ensures ParseHoursMinutes(body) == Some(DigitsValue(hs) * 3600 + DigitsValue(ms) * 60)
  {
    ParseHoursMinutesAt(body, |hs|, DigitsValue(hs), DigitsValue(ms));
  }

  /** ParseHoursMinutes once the 'h' has been found at k and the digits
      around it are known to read h and m. */
  lemma ParseHoursMinutesAt(body: string, k: nat, h: nat, m: nat)
    requires FirstIndex(body, 'h') == Some(k) && 0 < k && k + 2 < |body| && body[k + 1] == ' '
    requires AllDigits(body[..k]) && AllDigits(body[k + 2..])
    requires DigitsValue(body[..k]) == h && DigitsValue(body[k + 2..]) == m
    ensures ParseHoursMinutes(body) == Some(h * 3600 + m * 60)
  {
  }

  /** The pieces of a + [x] + ([y] + b). */
  lemma SliceParts<T>(a: seq<T>, x: T, y: T, b: seq<T>)
    ensures var s := a + [x] + ([y] + b);
      s[..|a|] == a && s[|a|] == x && s[|a| + 1] == y && s[|a| + 2..] == b
  {
  }

  // ---------------------------------------------------------------- time

  /** One or two ASCII decimal digits. */
  predicate OneOrTwoDigits(s: string) {
    1 <= |s| <= 2 && AllDigits(s)
  }

  /** `to_time` on text: "" gives the default; "H:M" with one or two ASCII
      digits each, hours up to 23 and minutes up to 59, gives that clock
      time of the reference day; any other text is None. */
  function ToTime(input: string, default: int): (r: Option<int>)
  {
    if input == "" then Some(default)
    else match FirstIndex(input, ':')
      case None => None
      case Some(k) =>
        var hh := input[..k];
        var mm := input[k + 1..];
        if OneOrTwoDigits(hh) && OneOrTwoDigits(mm) && DigitsValue(hh) <= 23 && DigitsValue(mm) <= 59
        then Some(Clock(DigitsValue(hh), DigitsValue(mm), 0))
        else None
  }

  /** `strftime("%H:%M")`: the clock time as two two-digit fields. */
  function ClockText(hours: nat, minutes: nat): (s: string)
    requires hours < 24 && minutes < 60
  {
    Pad2(hours) + ":" + Pad2(minutes)
  }

  /** Every time of day written as "HH:MM" reads back to itself; what
      `to_time` accepts is a clock time within the day. */
  lemma ToTimeRoundTrip(hours: nat, minutes: nat, default: int)
    requires hours < 24 && minutes < 60
    ensures ToTime(ClockText(hours, minutes), default) == Some(Clock(hours, minutes, 0))
  {
    var s := ClockText(hours, minutes);
    assert s[2] == ':' && s[..2] == Pad2(hours) && s[3..] == Pad2(minutes);
    assert s == Pad2(hours) + [':'] + Pad2(minutes);
    FirstIndexAfterDigits(Pad2(hours), ':', Pad2(minutes));
  }

  /** What `to_time` accepts lies within the day. */
  lemma ToTimeWithinDay(input: string, default: int)
    requires input != "" && ToTime(input, default).Some?
    ensures DayStart <= ToTime(input, default).value <= DayEnd
    ensures ToTime(input, default).value % 60 == 0
  {
    var k :| FirstIndex(input, ':') == Some(k);
    var h, m := DigitsValue(input[..k]), DigitsValue(input[k + 1..]);
    assert h <= 23 && m <= 59 && ToTime(input, default).value == Clock(h, m, 0);
    ClockWithinDay(h, m);
  }

  /** A clock time of hours up to 23 and minutes up to 59 is a whole minute
      of the day. */
  lemma ClockWithinDay(h: nat, m: nat)
    requires h <= 23 && m <= 59
    ensures DayStart <= Clock(h, m, 0) <= DayEnd && Clock(h, m, 0) % 60 == 0
  {
    assert Clock(h, m, 0) == (h * 60 + m) * 60;
  }

  /** The opening hours `load_activities` reads: both fields go through
      `to_time` with its default of midnight, so an empty "Closes" field
      closes the activity at 00:00. */
  function OpeningHours(opens: string, closes: string): (r: Option<(int, int)>)
  {
    match (ToTime(opens, DayStart), ToTime(closes, DayStart))
    case (Some(from), Some(until)) => Some((from, until))
    case _ => None
  }

  /** An activity whose "Closes" field is empty is never admitted when it
      takes any time, whatever the tour: it closes at midnight, and the
      tour's clock never runs before the day starts. */
  lemma EmptyClosesNeverAdmitted(specs: Specifications, routes: RouteTable, t: TourState, a: Activity, opens: string)
    requires OpeningHours(opens, "").Some?
    requires a.availableUntil == OpeningHours(opens, "").value.1
    requires a.duration > 0 && t.endTime >= DayStart
    requires CanResolve(routes, t, a)
    ensures !Admit(specs, routes, t, a).ok
  {
    AdmitDecision(specs, routes, t, a);
  }

  // --------------------------------------------------------------- money

  /** The values `to_money` is given: an int, nothing, or text. */
  datatype MoneyInput = Amount(value: int) | Missing | Text(text: string)

  /** `to_money`: an int is kept, a missing value gives the default, text
      of an optional sign and ASCII digits goes through int(), and any other
      text is None. */
  function ToMoney(input: MoneyInput, default: int): (r: Option<int>)
  {
    match input
    case Amount(v) => Some(v)
    case Missing => Some(default)
    case Text(s) => ParseInt(s)
  }

  /** Every amount reaches `to_money` unchanged, whether as an int or as the
      text str() writes for it. */
  lemma ToMoneyRoundTrip(amount: int, default: int)
    ensures ToMoney(Amount(amount), default) == Some(amount)
    ensures ToMoney(Text(IntToString(amount)), default) == Some(amount)
  {
    IntToStringRoundTrip(amount);
  }
}
