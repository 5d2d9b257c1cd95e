/** generate_database_fixtures.py: the Django fixture records built from the
    transit database's station and route rows and from the fixed list of
    activity types, the opening-hours text of an activity record, and the
    order in which `main` puts the records together. The database rows are
    inputs; the JSON file written at the end is the returned list. */
module Fixtures {
  import opened Options
  import opened Decimal
  import opened Meals
  import opened Formatting

  /** A row of `SELECT english, station_id FROM stations`. */
  datatype StationRow = StationRow(english: string, stationId: int)

  /** A row of `SELECT from_id, to_id, mins, cost, transfers FROM routes`. */
  datatype RouteRow = RouteRow(fromId: int, toId: int, mins: int, cost: int, transfers: int)

  /** The `fields` of a fixture record, one shape per model. */
  datatype Fields =
    | StationFields(stationId: int)
    | LocationFields(name: string)
    | TrainRideFields(fromStation: int, toStation: int, duration: string, cost: int, transfers: int)
    | ActivityTypeFields(title: string, description: string)

  /** A fixture record: `{'model': ..., 'pk': ..., 'fields': ...}`. */
  datatype Fixture = Fixture(model: string, pk: int, fields: Fields)

  /** The app name `main` passes to every generator. */
  const AppName: string := "tourbuilder"

  // ------------------------------------------------------ duration text

  /** The word `str(timedelta)` writes after the whole days. */
  function DayUnit(days: int): string {
    if days == 1 || days == -1 then "day, " else "days, "
  }

  /** `str(datetime.timedelta(minutes=m))`: "H:MM:SS" within a day, with
      "<d> day, " or "<d> days, " in front when the whole days (rounded
      down, so negative for a negative duration) are not zero. */
  function TimedeltaText(minutes: int): string {
    var days := minutes / 1440;
    var clock := ClockOfDay(minutes % 1440);
    if days == 0 then clock
    else IntToString(days) + " " + DayUnit(days) + clock
  }

  /** The "H:MM:SS" part of `str(timedelta)` for whole minutes within a day. */
  function ClockOfDay(minutes: int): string
    requires 0 <= minutes
  {
    NatToString(minutes / 60) + ":" + Pad2(minutes % 60) + ":00"
  }

  /** Reads "H:MM:00" back as minutes. */
  function ParseClockMinutes(s: string): (r: Option<int>)
  {
    match FirstIndex(s, ':')
    case None => None
    case Some(k) =>
      var hours := s[..k];
      var rest := s[k + 1..];
      if |hours| >= 1 && AllDigits(hours) && |rest| == 5 && AllDigits(rest[..2]) && rest[2..] == ":00"
      then Some(DigitsValue(hours) * 60 + DigitsValue(rest[..2]))
      else None
  }

  /** What follows "day, " or "days, " at the start of s. */
  function AfterDayUnit(s: string): (r: Option<string>)
  {
    if |s| >= 5 && s[..5] == "day, " then Some(s[5..])
    else if |s| >= 6 && s[..6] == "days, " then Some(s[6..])
    else None
  }

  /** Reads the text `str(timedelta)` writes for whole minutes back. */
  function ParseTimedeltaMinutes(s: string): (r: Option<int>)
  {
    match FirstIndex(s, ' ')
    case None => ParseClockMinutes(s)
    case Some(k) =>
      match (ParseInt(s[..k]), AfterDayUnit(s[k + 1..]))
      case (Some(days), Some(c)) =>
        (match ParseClockMinutes(c)
         case Some(m) => Some(days * 1440 + m)
         case None => None)
      case _ => None
  }

  /** The first c in prefix + [c] + rest is the one after prefix. */
  lemma {:induction false} FirstIndexAfter(prefix: string, c: char, rest: string)
    requires c !in prefix
    ensures FirstIndex(prefix + [c] + rest, c) == Some(|prefix|)
  {
    if prefix != [] {
      assert (prefix + [c] + rest)[1..] == prefix[1..] + [c] + rest;
      FirstIndexAfter(prefix[1..], c, rest);
    }
  }

  /** The clock part reads back as the minutes it shows. */
  lemma ClockMinutesRoundTrip(hours: nat, minutes: nat)
    requires minutes < 60
    ensures ParseClockMinutes(NatToString(hours) + ":" + Pad2(minutes) + ":00") == Some(hours * 60 + minutes)
  {
    var hs := NatToString(hours);
    var tail := Pad2(minutes) + ":00";
    var s := hs + ":" + Pad2(minutes) + ":00";
    assert s == hs + [':'] + tail;
    assert ':' !in hs;
    FirstIndexAfter(hs, ':', tail);
    assert s[..|hs|] == hs;
    assert s[|hs| + 1..] == tail;
    assert tail[..2] == Pad2(minutes) && tail[2..] == ":00";
  }

  /** `str(timedelta(minutes=m))` keeps every whole number of minutes,
      negative ones and those beyond a day included. */
  lemma TimedeltaTextRoundTrip(minutes: int)
    ensures ParseTimedeltaMinutes(TimedeltaText(minutes)) == Some(minutes)
  {
    var days := minutes / 1440;
    var rest := minutes % 1440;
    var clock := ClockOfDay(rest);
    ClockOfDayRoundTrip(rest);
    assert days * 1440 + rest == minutes;
    if days == 0 {
      assert TimedeltaText(minutes) == clock;
      ParseTimedeltaNoSpace(clock);
    } else {
      var text := IntToString(days) + " " + DayUnit(days) + clock;
      assert TimedeltaText(minutes) == text;
      DaysRoundTrip(days, clock, rest, minutes);
    }
  }

  /** The clock part reads back as its minutes and holds no space. */
  lemma ClockOfDayRoundTrip(minutes: int)
    requires 0 <= minutes
    ensures ParseClockMinutes(ClockOfDay(minutes)) == Some(minutes)
    ensures FirstIndex(ClockOfDay(minutes), ' ') == None
  {
    ClockMinutesRoundTrip(minutes / 60, minutes % 60);
    NoSpaceInClock(minutes / 60, minutes % 60);
    FirstIndexNone(ClockOfDay(minutes), ' ');
  }

  /** Text with no space is read as a clock alone. */
  lemma ParseTimedeltaNoSpace(s: string)
    requires FirstIndex(s, ' ') == None
    ensures ParseTimedeltaMinutes(s) == ParseClockMinutes(s)
  {
  }

  lemma NoSpaceInClock(hours: nat, minutes: nat)
    requires minutes < 60
    ensures ' ' !in NatToString(hours) + ":" + Pad2(minutes) + ":00"
  {
  }

  lemma NoSpaceInNumber(i: int)
    ensures ' ' !in IntToString(i)
  {
    if i < 0 {
      assert IntToString(i) == ['-'] + NatToString(-i);
    }
  }

  /** "<d> day, <clock>" and "<d> days, <clock>" read back as d days and
      the clock's minutes. */
  lemma DaysRoundTrip(days: int, clock: string, m: int, total: int)
    requires ParseClockMinutes(clock) == Some(m) && total == days * 1440 + m
    ensures ParseTimedeltaMinutes(IntToString(days) + " " + DayUnit(days) + clock) == Some(total)
  {
    var ds := IntToString(days);
    var tail := DayUnit(days) + clock;
    var s := ds + [' '] + tail;
    assert ds + " " + DayUnit(days) + clock == s;
    assert FirstIndex(s, ' ') == Some(|ds|) by {
      NoSpaceInNumber(days);
      FirstIndexAfter(ds, ' ', tail);
    }
    SplitAround(ds, ' ', tail);
    assert ParseInt(ds) == Some(days) by { IntToStringRoundTrip(days); }
    assert AfterDayUnit(tail) == Some(clock) by { AfterDayUnitReads(days, clock); }
    ParseTimedeltaParts(s, |ds|, days, clock, m, total);
  }

  /** Text around one character splits back into its two sides. */
  lemma SplitAround(a: string, c: char, b: string)
    ensures (a + [c] + b)[..|a|] == a && (a + [c] + b)[|a| + 1..] == b
  {
  }

  /** ParseTimedeltaMinutes from its parts: the number before the first
      space, the day word after it, and the clock. */
  lemma ParseTimedeltaParts(s: string, k: nat, days: int, clock: string, m: int, total: int)
    requires FirstIndex(s, ' ') == Some(k)
    requires ParseInt(s[..k]) == Some(days)
    requires AfterDayUnit(s[k + 1..]) == Some(clock)
    requires ParseClockMinutes(clock) == Some(m) && total == days * 1440 + m
    ensures ParseTimedeltaMinutes(s) == Some(total)
  {
  }

  /** The day word is read past, leaving the clock. */
  lemma AfterDayUnitReads(days: int, clock: string)
    ensures AfterDayUnit(DayUnit(days) + clock) == Some(clock)
  {
    var unit := DayUnit(days);
    var t := unit + clock;
    if unit == "day, " {
      assert t[..5] == unit && t[5..] == clock;
    } else {
      assert t[3] == 's';
      assert t[..6] == unit && t[6..] == clock;
    }
  }

  /** No c found where there is none. */
  lemma {:induction false} FirstIndexNone(s: string, c: char)
    requires c !in s
    ensures FirstIndex(s, c) == None
  {
    if s != [] {
      FirstIndexNone(s[1..], c);
    }
  }

  // ------------------------------------------------- opening-hours text

  /** The `available_from` text of an activity record: midnight when the
      "Opens" field is empty, otherwise the field with zero seconds added. */
  function AvailableFromText(opens: string): string {
    if opens == "" then "00:00:00" else opens + ":00"
  }

  /** The `available_until` text: the last second of the day when the
      "Closes" field is empty, otherwise the field with zero seconds added. */
  function AvailableUntilText(closes: string): string {
    if closes == "" then "23:59:59" else closes + ":00"
  }

  /** Reads "H:M:S", one or two digits each, hours up to 23, minutes and
      seconds up to 59, as seconds of the day. */
  function ParseTimeOfDay(s: string): (r: Option<int>)
  {
    match FirstIndex(s, ':')
    case None => None
    case Some(k) =>
      var hh := s[..k];
      var rest := s[k + 1..];
      match FirstIndex(rest, ':')
      case None => None
      case Some(k2) =>
        var mm := rest[..k2];
        var ss := rest[k2 + 1..];
        if OneOrTwoDigits(hh) && OneOrTwoDigits(mm) && OneOrTwoDigits(ss)
           && DigitsValue(hh) <= 23 && DigitsValue(mm) <= 59 && DigitsValue(ss) <= 59
        then Some(Clock(DigitsValue(hh), DigitsValue(mm), DigitsValue(ss)))
        else None
  }

  /** A c found in x is found at the same place in x + y. */
  lemma {:induction false} FirstIndexPrefix(x: string, y: string, c: char)
    requires FirstIndex(x, c).Some?
    ensures FirstIndex(x + y, c) == FirstIndex(x, c)
  {
    if x[0] != c {
      assert (x + y)[1..] == x[1..] + y;
      FirstIndexPrefix(x[1..], y, c);
    }
  }

  /** The fixture's opening hours read back as the times builder.py's
      `to_time` gives for the same non-empty field. */
  lemma FixtureHoursAgreeWithToTime(field: string)
    requires field != "" && ToTime(field, DayStart).Some?
    ensures ParseTimeOfDay(AvailableFromText(field)) == ToTime(field, DayStart)
    ensures ParseTimeOfDay(AvailableUntilText(field)) == ToTime(field, DayStart)
  {
    ExtendedFieldReadsBack(field);
  }

  /** For empty fields the two disagree: the fixture closes at the end of
      the day, `to_time` at midnight; both open at midnight. */
  lemma EmptyFieldsDefaults()
    ensures ParseTimeOfDay(AvailableFromText("")) == Some(DayStart) == ToTime("", DayStart)
    ensures ParseTimeOfDay(AvailableUntilText("")) == Some(DayEnd) != ToTime("", DayStart)
  {
    MidnightText();
    LastSecondText();
  }

  lemma MidnightText()
    ensures ParseTimeOfDay("00:00:00") == Some(DayStart)
  {
    assert DigitsValue("00") == 0 by { assert "00"[..1] == "0"; assert "0"[..0] == []; }
    var s := "00:00:00";
    assert s[..2] == "00" && s[3..5] == "00" && s[6..] == "00";
    TimeOfDayLiteral(s);
  }

  lemma LastSecondText()
    ensures ParseTimeOfDay("23:59:59") == Some(DayEnd)
  {
    assert DigitsValue("23") == 23 by { assert "23"[..1] == "2"; assert "2"[..0] == []; }
    assert DigitsValue("59") == 59 by { assert "59"[..1] == "5"; assert "5"[..0] == []; }
    var s := "23:59:59";
    assert s[..2] == "23" && s[3..5] == "59" && s[6..] == "59";
    TimeOfDayLiteral(s);
  }

  /** The seconds added to a field `to_time` accepts change nothing. */
  lemma ExtendedFieldReadsBack(field: string)
    requires field != "" && ToTime(field, DayStart).Some?
    ensures ParseTimeOfDay(field + ":00") == ToTime(field, DayStart)
  {
    var k := FirstIndex(field, ':').value;
    var hh := field[..k];
    var mm := field[k + 1..];
    assert OneOrTwoDigits(hh) && OneOrTwoDigits(mm) && DigitsValue(hh) <= 23 && DigitsValue(mm) <= 59;
    assert ToTime(field, DayStart) == Some(Clock(DigitsValue(hh), DigitsValue(mm), 0));
    var s := field + ":00";
    var rest := mm + [':'] + "00";
    assert FirstIndex(s, ':') == Some(k) by {
      FirstIndexPrefix(field, ":00", ':');
    }
    assert s[..k] == hh && s[k + 1..] == rest;
    assert FirstIndex(rest, ':') == Some(|mm|) by {
      FirstIndexAfterDigits(mm, ':', "00");
    }
    assert rest[..|mm|] == mm && rest[|mm| + 1..] == "00";
    assert OneOrTwoDigits("00") && DigitsValue("00") == 0 by {
      assert "00"[..1] == "0";
      assert "0"[..0] == [];
    }
    ParseTimeOfDayOf(s, hh, rest, mm, "00");
  }

  /** ParseTimeOfDay once both colons have been found and the three fields
      around them are known. */
  lemma ParseTimeOfDayOf(s: string, hh: string, rest: string, mm: string, ss: string)
    requires FirstIndex(s, ':') == Some(|hh|) && s[..|hh|] == hh && s[|hh| + 1..] == rest
    requires FirstIndex(rest, ':') == Some(|mm|) && rest[..|mm|] == mm && rest[|mm| + 1..] == ss
    requires OneOrTwoDigits(hh) && OneOrTwoDigits(mm) && OneOrTwoDigits(ss)
    requires DigitsValue(hh) <= 23 && DigitsValue(mm) <= 59 && DigitsValue(ss) <= 59
    ensures ParseTimeOfDay(s) == Some(Clock(DigitsValue(hh), DigitsValue(mm), DigitsValue(ss)))
  {
    ParseTimeOfDayAt(s, |hh|, |mm|, DigitsValue(hh), DigitsValue(mm), DigitsValue(ss));
  }

  /** ParseTimeOfDay with the colons at k and k + 1 + k2 and the fields
      reading h, m and sec. */
  lemma ParseTimeOfDayAt(s: string, k: nat, k2: nat, h: nat, m: nat, sec: nat)
    requires FirstIndex(s, ':') == Some(k) && FirstIndex(s[k + 1..], ':') == Some(k2)
    requires OneOrTwoDigits(s[..k]) && OneOrTwoDigits(s[k + 1..][..k2]) && OneOrTwoDigits(s[k + 1..][k2 + 1..])
    requires DigitsValue(s[..k]) == h && DigitsValue(s[k + 1..][..k2]) == m && DigitsValue(s[k + 1..][k2 + 1..]) == sec
    requires h <= 23 && m <= 59 && sec <= 59
    ensures ParseTimeOfDay(s) == Some(Clock(h, m, sec))
  {
  }

  /** "hh:mm:ss" with two digits each reads back as that time. */
  lemma TimeOfDayLiteral(s: string)
    requires |s| == 8 && s[2] == ':' && s[5] == ':'
    requires AllDigits(s[..2]) && AllDigits(s[3..5]) && AllDigits(s[6..])
    requires DigitsValue(s[..2]) <= 23 && DigitsValue(s[3..5]) <= 59 && DigitsValue(s[6..]) <= 59
    ensures ParseTimeOfDay(s) == Some(Clock(DigitsValue(s[..2]), DigitsValue(s[3..5]), DigitsValue(s[6..])))
  {
    var rest := s[3..];
    assert s == s[..2] + [':'] + rest;
    FirstIndexAfterDigits(s[..2], ':', rest);
    assert rest == s[3..5] + [':'] + s[6..];
    FirstIndexAfterDigits(s[3..5], ':', s[6..]);
    assert rest[..2] == s[3..5] && rest[3..] == s[6..];
  }

  // ------------------------------------------------------------ stations

  /** What `gen_station_fixtures` has built after some rows: the records
      and the two global lookups it fills. */
  datatype StationPass = StationPass(out: seq<Fixture>, idPks: map<int, int>, namePks: map<string, int>)

  /** The two records of a kept station row: a station and a location
      sharing its pk. */
  function StationRecords(basename: string, pk: int, row: StationRow): seq<Fixture> {
    [Fixture(basename + ".station", pk, StationFields(row.stationId)),
     Fixture(basename + ".location", pk, LocationFields(row.english))]
  }

  /** `gen_station_fixtures` over the first n rows: the row at index i gets
      pk i + 1, and a row whose station id has been seen adds nothing. */
  function StationsUpTo(basename: string, rows: seq<StationRow>, n: nat,
                        idPks0: map<int, int>, namePks0: map<string, int>): StationPass
    requires n <= |rows|
  {
    if n == 0 then StationPass([], idPks0, namePks0)
    else
      var st := StationsUpTo(basename, rows, n - 1, idPks0, namePks0);
      var row := rows[n - 1];
      if row.stationId in st.idPks then st
      else StationPass(st.out + StationRecords(basename, n, row), st.idPks[row.stationId := n], st.namePks[row.english := n])
  }

  /** The stations of a first run, which starts from the empty lookups. */
  function FirstStations(basename: string, rows: seq<StationRow>, n: nat): StationPass
    requires n <= |rows|
  {
    StationsUpTo(basename, rows, n, map[], map[])
  }

  /** pk is the pk of the first row with station id `id`. */
  predicate FirstRowOf(rows: seq<StationRow>, id: int, pk: int) {
    && 1 <= pk <= |rows|
    && rows[pk - 1].stationId == id
    && forall j :: 0 <= j < pk - 1 ==> rows[j].stationId != id
  }

  /** The row with pk was kept: its station id maps to it. */
  predicate Kept(rows: seq<StationRow>, idPks: map<int, int>, pk: int)
    requires 1 <= pk <= |rows|
  {
    rows[pk - 1].stationId in idPks && idPks[rows[pk - 1].stationId] == pk
  }

  /** Every station id of the rows is looked up to the pk of the first row
      that has it, so later rows with the same id add nothing. */
  lemma {:induction false} StationIdsFirstWins(basename: string, rows: seq<StationRow>, n: nat)
    requires n <= |rows|
    ensures forall i :: 0 <= i < n ==> rows[i].stationId in FirstStations(basename, rows, n).idPks
    ensures forall id :: id in FirstStations(basename, rows, n).idPks ==>
              FirstRowOf(rows, id, FirstStations(basename, rows, n).idPks[id])
              && FirstStations(basename, rows, n).idPks[id] <= n
  {
    if n > 0 {
      StationIdsFirstWins(basename, rows, n - 1);
      var st := FirstStations(basename, rows, n - 1);
      var row := rows[n - 1];
      if row.stationId !in st.idPks {
        var now := FirstStations(basename, rows, n);
        forall id | id in now.idPks
          ensures FirstRowOf(rows, id, now.idPks[id]) && now.idPks[id] <= n
        {
          if id == row.stationId {
            forall j | 0 <= j < n - 1
              ensures rows[j].stationId != id
            {
              assert rows[j].stationId in st.idPks;
            }
          }
        }
      }
    }
  }

  /** pk is the pk of the last kept row among the first n named `name`. */
  predicate LastKeptNamed(rows: seq<StationRow>, idPks: map<int, int>, name: string, pk: int, n: nat)
    requires n <= |rows|
  {
    && 1 <= pk <= n
    && rows[pk - 1].english == name
    && Kept(rows, idPks, pk)
    && forall j :: pk <= j < n && rows[j].english == name ==> !Kept(rows, idPks, j + 1)
  }

  /** A station name is looked up to the pk of the last kept row with that
      name. */
  lemma {:induction false} StationNamesLastWins(basename: string, rows: seq<StationRow>, n: nat)
    requires n <= |rows|
    ensures forall name :: name in FirstStations(basename, rows, n).namePks ==>
              LastKeptNamed(rows, FirstStations(basename, rows, n).idPks, name,
                            FirstStations(basename, rows, n).namePks[name], n)
  {
    if n > 0 {
      StationNamesLastWins(basename, rows, n - 1);
      StationIdsFirstWins(basename, rows, n - 1);
      var st := FirstStations(basename, rows, n - 1);
      var row := rows[n - 1];
      var now := FirstStations(basename, rows, n);
      if row.stationId in st.idPks {
        assert now == st;
        assert !Kept(rows, st.idPks, n);
        NamesSkipStep(rows, n, st.idPks, st.namePks);
      } else {
        assert now.idPks == st.idPks[row.stationId := n] && now.namePks == st.namePks[row.english := n];
        NamesKeepStep(rows, n, st.idPks, st.namePks, now.idPks, now.namePks);
      }
    }
  }

  /** A row that is not kept leaves every name's last kept row as it was. */
  lemma NamesSkipStep(rows: seq<StationRow>, n: nat, idPks: map<int, int>, namePks: map<string, int>)
    requires 1 <= n <= |rows|
    requires !Kept(rows, idPks, n)
    requires forall name :: name in namePks ==> LastKeptNamed(rows, idPks, name, namePks[name], n - 1)
    ensures forall name :: name in namePks ==> LastKeptNamed(rows, idPks, name, namePks[name], n)
  {
  }

  /** A kept row becomes the last kept row of its name; the other names keep
      theirs, since the rows before it are all looked up already. */
  lemma NamesKeepStep(rows: seq<StationRow>, n: nat, idPks: map<int, int>, namePks: map<string, int>,
                      idPks': map<int, int>, namePks': map<string, int>)
    requires 1 <= n <= |rows|
    requires rows[n - 1].stationId !in idPks
    requires idPks' == idPks[rows[n - 1].stationId := n] && namePks' == namePks[rows[n - 1].english := n]
    requires forall i :: 0 <= i < n - 1 ==> rows[i].stationId in idPks
    requires forall name :: name in namePks ==> LastKeptNamed(rows, idPks, name, namePks[name], n - 1)
    ensures forall name :: name in namePks' ==> LastKeptNamed(rows, idPks', name, namePks'[name], n)
  {
    forall name | name in namePks'
      ensures LastKeptNamed(rows, idPks', name, namePks'[name], n)
    {
      if name != rows[n - 1].english {
        var pk := namePks[name];
        assert Kept(rows, idPks', pk);
        forall j | pk <= j < n && rows[j].english == name
          ensures !Kept(rows, idPks', j + 1)
        {
          assert j < n - 1;
          assert rows[j].stationId in idPks;
        }
      }
    }
  }

  /** The records of a first run come in (station, location) pairs: both
      carry the pk of a kept row and that row's id and name. */
  predicate StationPair(basename: string, rows: seq<StationRow>, idPks: map<int, int>, a: Fixture, b: Fixture) {
    && 1 <= a.pk <= |rows|
    && Kept(rows, idPks, a.pk)
    && [a, b] == StationRecords(basename, a.pk, rows[a.pk - 1])
  }

  /** The records at j and j + 1 of out are a pair with a pk up to bound. */
  predicate StationPairAt(basename: string, rows: seq<StationRow>, idPks: map<int, int>, out: seq<Fixture>, j: int, bound: int) {
    0 <= j && j + 1 < |out| && StationPair(basename, rows, idPks, out[j], out[j + 1]) && out[j].pk <= bound
  }

  /** out is a run of pairs, one per station id of idPks. */
  predicate StationsPaired(basename: string, rows: seq<StationRow>, idPks: map<int, int>, out: seq<Fixture>, bound: int) {
    && |out| == 2 * |idPks|
    && forall j :: 0 <= j < |out| && j % 2 == 0 ==> StationPairAt(basename, rows, idPks, out, j, bound)
  }

  /** The station records come in pairs, one pair per station id. */
  lemma {:induction false} StationRecordsPaired(basename: string, rows: seq<StationRow>, n: nat)
    requires n <= |rows|
    ensures StationsPaired(basename, rows, FirstStations(basename, rows, n).idPks, FirstStations(basename, rows, n).out, n)
  {
    if n > 0 {
      StationRecordsPaired(basename, rows, n - 1);
      var st := FirstStations(basename, rows, n - 1);
      var row := rows[n - 1];
      if row.stationId !in st.idPks {
        var now := FirstStations(basename, rows, n);
        assert now.out == st.out + StationRecords(basename, n, row);
        assert now.idPks == st.idPks[row.stationId := n];
        StationPairsGrow(basename, rows, n, st.out, st.idPks, now.out, now.idPks);
      } else {
        StationsPairedWeaken(basename, rows, st.idPks, st.out, n - 1, n);
      }
    }
  }

  /** One kept row more: the earlier pairs stay pairs, and its own pair
      follows them. */
  lemma StationPairsGrow(basename: string, rows: seq<StationRow>, n: nat,
                         out: seq<Fixture>, idPks: map<int, int>, out': seq<Fixture>, idPks': map<int, int>)
    requires 1 <= n <= |rows|
    requires rows[n - 1].stationId !in idPks
    requires out' == out + StationRecords(basename, n, rows[n - 1])
    requires idPks' == idPks[rows[n - 1].stationId := n]
    requires StationsPaired(basename, rows, idPks, out, n - 1)
    ensures StationsPaired(basename, rows, idPks', out', n)
  {
    assert |idPks'| == |idPks| + 1 by {
      assert idPks'.Keys == idPks.Keys + {rows[n - 1].stationId};
    }
    forall j | 0 <= j < |out'| && j % 2 == 0
      ensures StationPairAt(basename, rows, idPks', out', j, n)
    {
      if j < |out| {
        OldStationPairAt(basename, rows, n, out, idPks, out', idPks', j);
      } else {
        NewStationPairAt(basename, rows, n, out, idPks, out', idPks');
      }
    }
  }

  /** A pair of out is still a pair of out' once the new row is kept. */
  lemma OldStationPairAt(basename: string, rows: seq<StationRow>, n: nat,
                         out: seq<Fixture>, idPks: map<int, int>, out': seq<Fixture>, idPks': map<int, int>, j: int)
    requires 1 <= n <= |rows|
    requires rows[n - 1].stationId !in idPks
    requires out' == out + StationRecords(basename, n, rows[n - 1])
    requires idPks' == idPks[rows[n - 1].stationId := n]
    requires StationPairAt(basename, rows, idPks, out, j, n - 1)
    ensures StationPairAt(basename, rows, idPks', out', j, n)
  {
    assert out'[j] == out[j] && out'[j + 1] == out[j + 1];
    StationPairStays(basename, rows, idPks, rows[n - 1].stationId, n, out[j], out[j + 1]);
  }

  /** The pair of the new row closes out'. */
  lemma NewStationPairAt(basename: string, rows: seq<StationRow>, n: nat,
                         out: seq<Fixture>, idPks: map<int, int>, out': seq<Fixture>, idPks': map<int, int>)
    requires 1 <= n <= |rows|
    requires out' == out + StationRecords(basename, n, rows[n - 1])
    requires idPks' == idPks[rows[n - 1].stationId := n]
    ensures StationPairAt(basename, rows, idPks', out', |out|, n)
  {
    var recs := StationRecords(basename, n, rows[n - 1]);
    assert out'[|out|] == recs[0] && out'[|out| + 1] == recs[1];
  }

  /** A run of pairs with pks up to one bound has pks up to any larger one. */
  lemma StationsPairedWeaken(basename: string, rows: seq<StationRow>, idPks: map<int, int>, out: seq<Fixture>, bound: int, bound': int)
    requires StationsPaired(basename, rows, idPks, out, bound) && bound <= bound'
    ensures StationsPaired(basename, rows, idPks, out, bound')
  {
    forall j | 0 <= j < |out| && j % 2 == 0
      ensures StationPairAt(basename, rows, idPks, out, j, bound')
    {
      assert StationPairAt(basename, rows, idPks, out, j, bound);
    }
  }

  /** A pair stays a pair when a station id it does not use is added. */
  lemma StationPairStays(basename: string, rows: seq<StationRow>, idPks: map<int, int>, id: int, pk: int, a: Fixture, b: Fixture)
    requires StationPair(basename, rows, idPks, a, b) && id !in idPks
    ensures StationPair(basename, rows, idPks[id := pk], a, b)
  {
  }

  /** The station records are in increasing pk order. */
  lemma {:induction false} StationPksIncrease(basename: string, rows: seq<StationRow>, n: nat)
    requires n <= |rows|
    ensures forall j1, j2 :: 0 <= j1 < j2 < |FirstStations(basename, rows, n).out| && j1 % 2 == 0 && j2 % 2 == 0 ==>
              FirstStations(basename, rows, n).out[j1].pk < FirstStations(basename, rows, n).out[j2].pk
  {
    if n > 0 {
      StationPksIncrease(basename, rows, n - 1);
      StationRecordsPaired(basename, rows, n - 1);
      var st := FirstStations(basename, rows, n - 1);
      var now := FirstStations(basename, rows, n);
      if rows[n - 1].stationId !in st.idPks {
        var recs := StationRecords(basename, n, rows[n - 1]);
        assert now.out == st.out + recs;
        forall j1, j2 | 0 <= j1 < j2 < |now.out| && j1 % 2 == 0 && j2 % 2 == 0
          ensures now.out[j1].pk < now.out[j2].pk
        {
          assert StationPairAt(basename, rows, st.idPks, st.out, j1, n - 1);
          if j2 < |st.out| {
            assert now.out[j1] == st.out[j1] && now.out[j2] == st.out[j2];
          } else {
            assert now.out[j1] == st.out[j1] && now.out[j2] == recs[0];
          }
        }
      }
    }
  }

  /** Every station id looked up has its station record. */
  lemma {:induction false} StationRecordsCover(basename: string, rows: seq<StationRow>, n: nat)
    requires n <= |rows|
    ensures forall id :: id in FirstStations(basename, rows, n).idPks ==>
              Fixture(basename + ".station", FirstStations(basename, rows, n).idPks[id], StationFields(id))
              in FirstStations(basename, rows, n).out
  {
    if n > 0 {
      StationRecordsCover(basename, rows, n - 1);
      var st := FirstStations(basename, rows, n - 1);
      var row := rows[n - 1];
      if row.stationId !in st.idPks {
        var now := FirstStations(basename, rows, n);
        var recs := StationRecords(basename, n, row);
        assert now.out == st.out + recs;
        forall id | id in now.idPks
          ensures Fixture(basename + ".station", now.idPks[id], StationFields(id)) in now.out
        {
          if id == row.stationId {
            assert now.out[|st.out|] == recs[0];
          } else {
            assert Fixture(basename + ".station", st.idPks[id], StationFields(id)) in st.out;
          }
        }
      }
    }
  }

  // ----------------------------------------------------------- transport

  /** Both ends of the route are stations that were added. */
  predicate Known(idPks: map<int, int>, row: RouteRow) {
    row.fromId in idPks && row.toId in idPks
  }

  /** The two trainride records of a kept route: one each way, with the
      same pk, duration, cost and transfers. */
  function RidePair(basename: string, idPks: map<int, int>, row: RouteRow, pk: int): seq<Fixture>
    requires Known(idPks, row)
  {
    var from := idPks[row.fromId];
    var to := idPks[row.toId];
    var duration := TimedeltaText(row.mins);
    [Fixture(basename + ".trainride", pk, TrainRideFields(from, to, duration, row.cost, row.transfers)),
     Fixture(basename + ".trainride", pk, TrainRideFields(to, from, duration, row.cost, row.transfers))]
  }

  /** `gen_transport_fixtures` over the first n routes: the route at index
      i gets pk i + 1, and a route with an unknown end adds nothing. */
  function TransportUpTo(basename: string, rows: seq<RouteRow>, idPks: map<int, int>, n: nat): seq<Fixture>
    requires n <= |rows|
  {
    if n == 0 then []
    else
      TransportUpTo(basename, rows, idPks, n - 1)
      + if Known(idPks, rows[n - 1]) then RidePair(basename, idPks, rows[n - 1], n) else []
  }

  /** How many of the first n routes have both ends known. */
  function KnownCount(rows: seq<RouteRow>, idPks: map<int, int>, n: nat): nat
    requires n <= |rows|
  {
    if n == 0 then 0 else KnownCount(rows, idPks, n - 1) + if Known(idPks, rows[n - 1]) then 1 else 0
  }

  /** A pair of records for the route with pk a.pk, each way. */
  predicate RoutePair(basename: string, rows: seq<RouteRow>, idPks: map<int, int>, a: Fixture, b: Fixture) {
    && 1 <= a.pk <= |rows|
    && Known(idPks, rows[a.pk - 1])
    && [a, b] == RidePair(basename, idPks, rows[a.pk - 1], a.pk)
  }

  /** r is a run of route pairs, each with a pk no larger than n. */
  predicate PairedUpTo(basename: string, rows: seq<RouteRow>, idPks: map<int, int>, r: seq<Fixture>, n: int) {
    forall j :: 0 <= j < |r| && j % 2 == 0 ==>
      j + 1 < |r| && RoutePair(basename, rows, idPks, r[j], r[j + 1]) && r[j].pk <= n
  }

  /** The trainride records: one pair per route with known ends, each
      carrying a pk no larger than the number of routes read. */
  lemma {:induction false} TransportShape(basename: string, rows: seq<RouteRow>, idPks: map<int, int>, n: nat)
    requires n <= |rows|
    ensures var r := TransportUpTo(basename, rows, idPks, n);
      && |r| == 2 * KnownCount(rows, idPks, n)
      && PairedUpTo(basename, rows, idPks, r, n)
  {
    if n > 0 {
      TransportShape(basename, rows, idPks, n - 1);
      var prev := TransportUpTo(basename, rows, idPks, n - 1);
      var r := TransportUpTo(basename, rows, idPks, n);
      if Known(idPks, rows[n - 1]) {
        assert r == prev + RidePair(basename, idPks, rows[n - 1], n);
        TransportPairsGrow(basename, rows, idPks, prev, r, n);
      } else {
        assert r == prev;
        PairedWeaken(basename, rows, idPks, prev, n - 1, n);
      }
    }
  }

  /** One route with known ends more: the earlier pairs stay pairs, and its
      own pair follows them. */
  lemma TransportPairsGrow(basename: string, rows: seq<RouteRow>, idPks: map<int, int>, prev: seq<Fixture>,
                           r: seq<Fixture>, n: nat)
    requires 1 <= n <= |rows| && Known(idPks, rows[n - 1])
    requires |prev| % 2 == 0 && PairedUpTo(basename, rows, idPks, prev, n - 1)
    requires r == prev + RidePair(basename, idPks, rows[n - 1], n)
    ensures |r| == |prev| + 2 && PairedUpTo(basename, rows, idPks, r, n)
  {
    var pair := RidePair(basename, idPks, rows[n - 1], n);
    forall j | 0 <= j < |r| && j % 2 == 0
      ensures j + 1 < |r| && RoutePair(basename, rows, idPks, r[j], r[j + 1]) && r[j].pk <= n
    {
      if j < |prev| {
        assert r[j] == prev[j] && r[j + 1] == prev[j + 1];
      } else {
        assert r[j] == pair[0] && r[j + 1] == pair[1];
      }
    }
  }

  /** A bound on the pks can be raised. */
  lemma PairedWeaken(basename: string, rows: seq<RouteRow>, idPks: map<int, int>, r: seq<Fixture>, m: int, n: int)
    requires m <= n && PairedUpTo(basename, rows, idPks, r, m)
    ensures PairedUpTo(basename, rows, idPks, r, n)
  {
  }

  /** The trainride pairs are in increasing pk order. */
  lemma {:induction false} TransportPksIncrease(basename: string, rows: seq<RouteRow>, idPks: map<int, int>, n: nat)
    requires n <= |rows|
    ensures PairPksIncrease(TransportUpTo(basename, rows, idPks, n))
  {
    if n > 0 {
      TransportPksIncrease(basename, rows, idPks, n - 1);
      TransportPksAtMost(basename, rows, idPks, n - 1);
      var prev := TransportUpTo(basename, rows, idPks, n - 1);
      var r := TransportUpTo(basename, rows, idPks, n);
      if Known(idPks, rows[n - 1]) {
        var pair := RidePair(basename, idPks, rows[n - 1], n);
        assert r == prev + pair;
        PairPksGrow(prev, pair, r, n);
      } else {
        assert r == prev;
      }
    }
  }

  /** Along r the first records of the pairs have increasing pks. */
  predicate PairPksIncrease(r: seq<Fixture>) {
    forall j1, j2 :: 0 <= j1 < j2 < |r| && j1 % 2 == 0 && j2 % 2 == 0 ==> r[j1].pk < r[j2].pk
  }

  /** No record of r has a pk above n. */
  predicate PksAtMost(r: seq<Fixture>, n: int) {
    forall j :: 0 <= j < |r| ==> r[j].pk <= n
  }

  /** Two records with pk n after records of lower pks keep the pks of the
      pairs increasing. */
  lemma PairPksGrow(prev: seq<Fixture>, pair: seq<Fixture>, r: seq<Fixture>, n: int)
    requires PairPksIncrease(prev) && PksAtMost(prev, n - 1)
    requires |pair| == 2 && pair[0].pk == n && pair[1].pk == n && r == prev + pair
    ensures PairPksIncrease(r)
  {
    forall j1, j2 | 0 <= j1 < j2 < |r| && j1 % 2 == 0 && j2 % 2 == 0
      ensures r[j1].pk < r[j2].pk
    {
      assert r[j1] == prev[j1];
      if j2 < |prev| {
        assert r[j2] == prev[j2];
      } else {
        assert r[j2] == pair[j2 - |prev|];
      }
    }
  }

  /** The trainride records of the first n routes carry pks up to n. */
  lemma {:induction false} TransportPksAtMost(basename: string, rows: seq<RouteRow>, idPks: map<int, int>, n: nat)
    requires n <= |rows|
    ensures PksAtMost(TransportUpTo(basename, rows, idPks, n), n)
  {
    if n > 0 {
      TransportPksAtMost(basename, rows, idPks, n - 1);
      var prev := TransportUpTo(basename, rows, idPks, n - 1);
      var r := TransportUpTo(basename, rows, idPks, n);
      if Known(idPks, rows[n - 1]) {
        var pair := RidePair(basename, idPks, rows[n - 1], n);
        assert r == prev + pair;
        PksAtMostGrow(prev, pair, r, n);
      } else {
        assert r == prev;
        PksAtMostGrow(prev, [], r, n);
      }
    }
  }

  /** Records of pks below n followed by records of pk n have pks at most n. */
  lemma PksAtMostGrow(prev: seq<Fixture>, extra: seq<Fixture>, r: seq<Fixture>, n: int)
    requires PksAtMost(prev, n - 1) && PksAtMost(extra, n) && r == prev + extra
    ensures PksAtMost(r, n)
  {
    forall j | 0 <= j < |r|
      ensures r[j].pk <= n
    {
      if j < |prev| {
        assert r[j] == prev[j];
      } else {
        assert r[j] == extra[j - |prev|];
      }
    }
  }

  /** Each pair is the same trip both ways: same pk, ends swapped, and the
      route's minutes, cost and transfers on both. */
  lemma RidePairMirrors(basename: string, idPks: map<int, int>, row: RouteRow, pk: int)
    requires Known(idPks, row)
    ensures var p := RidePair(basename, idPks, row, pk);
      && p[0].pk == p[1].pk == pk
      && p[0].fields.fromStation == p[1].fields.toStation == idPks[row.fromId]
      && p[0].fields.toStation == p[1].fields.fromStation == idPks[row.toId]
      && p[0].fields.duration == p[1].fields.duration
      && ParseTimedeltaMinutes(p[0].fields.duration) == Some(row.mins)
      && p[0].fields.cost == p[1].fields.cost == row.cost
      && p[0].fields.transfers == p[1].fields.transfers == row.transfers
  {
    TimedeltaTextRoundTrip(row.mins);
  }

  // ------------------------------------------------------ activity types

  /** The activity types `gen_activitytype_fixtures` lists: title and
      description. */
  const Categories: seq<(string, string)> := [
    ("food", "Anywhere you can eat (except maid, cat, robot restaurants)"),
    ("coffee", "Somewhere you primarily drink"),
    ("cultural", "e.g. Temples, Shrines"),
    ("anime", "Anything popular with anime fans"),
    ("observatory", "e.g. Tall buildings you can see the city/scenery from"),
    ("park", "e.g. Hibiya Park, Shinjuku Park (except theme-parks)"),
    ("shopping", "Shopping centres"),
    ("museum", "Any type of museum"),
    ("zoo", "Any type of animal park"),
    ("theme-food", "E.g. maid-cafe, cat-cafe, robot-restaurant etc."),
    ("theme-park", "e.g. fujiQ highland, universial studios")
  ]

  datatype TypePass = TypePass(out: seq<Fixture>, pks: map<string, int>)

  /** `gen_activitytype_fixtures` over the first n categories: the one at
      index i gets pk i + 1, and its title is looked up to that pk. */
  function ActivityTypesUpTo(basename: string, n: nat, pks0: map<string, int>): TypePass
    requires n <= |Categories|
  {
    if n == 0 then TypePass([], pks0)
    else
      var st := ActivityTypesUpTo(basename, n - 1, pks0);
      var c := Categories[n - 1];
      TypePass(st.out + [Fixture(basename + ".activitytype", n, ActivityTypeFields(c.0, c.1))], st.pks[c.0 := n])
  }

  /** No two categories share a title. */
  lemma CategoryTitlesDistinct()
    ensures forall i, j :: 0 <= i < j < |Categories| ==> Categories[i].0 != Categories[j].0
  {
    forall i, j | 0 <= i < j < |Categories|
      ensures Categories[i].0 != Categories[j].0
    {
      var a := Categories[i].0;
      var b := Categories[j].0;
      if a[0] == b[0] {
        if a[0] == 'c' {
          assert a[1] != b[1];
        } else {
          assert a[6] != b[6];
        }
      }
    }
  }

  /** The activity-type records: the category at index i as the record
      with pk i + 1, and its title looked up to that pk. */
  lemma {:induction false} ActivityTypesShape(basename: string, n: nat, pks0: map<string, int>)
    requires n <= |Categories|
    ensures |ActivityTypesUpTo(basename, n, pks0).out| == n
    ensures forall i :: 0 <= i < n ==>
              ActivityTypesUpTo(basename, n, pks0).out[i] == TypeRecord(basename, i + 1)
    ensures forall i :: 0 <= i < n ==>
              Categories[i].0 in ActivityTypesUpTo(basename, n, pks0).pks
              && ActivityTypesUpTo(basename, n, pks0).pks[Categories[i].0] == i + 1
  {
    if n > 0 {
      ActivityTypesShape(basename, n - 1, pks0);
      var prev := ActivityTypesUpTo(basename, n - 1, pks0);
      var now := ActivityTypesUpTo(basename, n, pks0);
      assert now.out == prev.out + [TypeRecord(basename, n)];
      assert now.pks == prev.pks[Categories[n - 1].0 := n];
      TypesStep(basename, n, prev.out, prev.pks, now.out, now.pks);
    }
  }

  /** The record of the category at index n - 1. */
  function TypeRecord(basename: string, n: nat): Fixture
    requires 1 <= n <= |Categories|
  {
    Fixture(basename + ".activitytype", n, ActivityTypeFields(Categories[n - 1].0, Categories[n - 1].1))
  }

  /** One category more: its record goes last and its title maps to its
      pk; the earlier titles keep theirs, since no two titles are equal. */
  lemma TypesStep(basename: string, n: nat, out: seq<Fixture>, pks: map<string, int>,
                  out': seq<Fixture>, pks': map<string, int>)
    requires 1 <= n <= |Categories|
    requires out' == out + [TypeRecord(basename, n)] && pks' == pks[Categories[n - 1].0 := n]
    requires |out| == n - 1
    requires forall i :: 0 <= i < n - 1 ==> out[i] == TypeRecord(basename, i + 1)
    requires forall i :: 0 <= i < n - 1 ==> Categories[i].0 in pks && pks[Categories[i].0] == i + 1
    ensures forall i :: 0 <= i < n ==> out'[i] == TypeRecord(basename, i + 1)
    ensures forall i :: 0 <= i < n ==> Categories[i].0 in pks' && pks'[Categories[i].0] == i + 1
  {
    forall i | 0 <= i < n - 1
      ensures Categories[i].0 in pks' && pks'[Categories[i].0] == i + 1
    {
      assert Categories[i].0 != Categories[n - 1].0 by {
        CategoryTitlesDistinct();
      }
    }
  }

  // ----------------------------------------------------------- generator

  /** The module's global lookups, filled as the generators run. */
  class FixtureGenerator {
    var stationIdPks: map<int, int>
    var stationNamePks: map<string, int>
    var activityTypePks: map<string, int>

    constructor()
      ensures stationIdPks == map[] && stationNamePks == map[] && activityTypePks == map[]
    {
      stationIdPks := map[];
      stationNamePks := map[];
      activityTypePks := map[];
    }

    /** `gen_station_fixtures`. */
    method GenStationFixtures(basename: string, rows: seq<StationRow>) returns (out: seq<Fixture>)
      modifies this
      ensures StationPass(out, stationIdPks, stationNamePks)
              == StationsUpTo(basename, rows, |rows|, old(stationIdPks), old(stationNamePks))
      ensures activityTypePks == old(activityTypePks)
    {
      out := [];
      for index := 0 to |rows|
        invariant StationPass(out, stationIdPks, stationNamePks)
                  == StationsUpTo(basename, rows, index, old(stationIdPks), old(stationNamePks))
        invariant activityTypePks == old(activityTypePks)
      {
        var pk := index + 1;
        var row := rows[index];
        if row.stationId in stationIdPks {
          continue;
        }
        out := out + [Fixture(basename + ".station", pk, StationFields(row.stationId)),
                      Fixture(basename + ".location", pk, LocationFields(row.english))];
        stationIdPks := stationIdPks[row.stationId := pk];
        stationNamePks := stationNamePks[row.english := pk];
      }
    }

    /** `gen_transport_fixtures`: reads the station lookup, changes nothing. */
    method GenTransportFixtures(basename: string, rows: seq<RouteRow>) returns (out: seq<Fixture>)
      ensures out == TransportUpTo(basename, rows, stationIdPks, |rows|)
    {
      out := [];
      for index := 0 to |rows|
        invariant out == TransportUpTo(basename, rows, stationIdPks, index)
      {
        var pk := index + 1;
        var row := rows[index];
        if row.fromId !in stationIdPks || row.toId !in stationIdPks {
          continue;
        }
        var fromStationPk := stationIdPks[row.fromId];
        var toStationPk := stationIdPks[row.toId];
        var durationStr := TimedeltaText(row.mins);
        out := out + [Fixture(basename + ".trainride", pk, TrainRideFields(fromStationPk, toStationPk, durationStr, row.cost, row.transfers))];
        out := out + [Fixture(basename + ".trainride", pk, TrainRideFields(toStationPk, fromStationPk, durationStr, row.cost, row.transfers))];
      }
    }

    /** `gen_activitytype_fixtures`. */
    method GenActivityTypeFixtures(basename: string) returns (out: seq<Fixture>)
      modifies this
      ensures TypePass(out, activityTypePks) == ActivityTypesUpTo(basename, |Categories|, old(activityTypePks))
      ensures stationIdPks == old(stationIdPks) && stationNamePks == old(stationNamePks)
    {
      out := [];
      for index := 0 to |Categories|
        invariant TypePass(out, activityTypePks) == ActivityTypesUpTo(basename, index, old(activityTypePks))
        invariant stationIdPks == old(stationIdPks) && stationNamePks == old(stationNamePks)
      {
        var pk := index + 1;
        var category := Categories[index];
        out := out + [Fixture(basename + ".activitytype", pk, ActivityTypeFields(category.0, category.1))];
        activityTypePks := activityTypePks[category.0 := pk];
      }
    }
  }

  // ---------------------------------------------------------------- main

  /** What `main` writes: the station records, then the trainride records
      built with the station lookup the first pass filled. */
  function GeneratedFixtures(stationRows: seq<StationRow>, routeRows: seq<RouteRow>): seq<Fixture> {
    var st := FirstStations(AppName, stationRows, |stationRows|);
    st.out + TransportUpTo(AppName, routeRows, st.idPks, |routeRows|)
  }

  /** `main`, up to the JSON file: the activity-type records are built but
      not written. */
  method GenerateFixtures(stationRows: seq<StationRow>, routeRows: seq<RouteRow>) returns (out: seq<Fixture>)
    ensures out == GeneratedFixtures(stationRows, routeRows)
  {
    var generator := new FixtureGenerator();
    var stationFixtures := generator.GenStationFixtures(AppName, stationRows);
    var transportFixtures := generator.GenTransportFixtures(AppName, routeRows);
    var activityTypeFixtures := generator.GenActivityTypeFixtures(AppName);
    out := [];
    out := out + stationFixtures;
    out := out + transportFixtures;
  }

  /** The record list holds a station record with this pk. */
  ghost predicate HasStation(out: seq<Fixture>, basename: string, pk: int) {
    exists id :: Fixture(basename + ".station", pk, StationFields(id)) in out
  }

  /** Both ends of a trainride are pks the station lookup gives. */
  ghost predicate EndsLookedUp(idPks: map<int, int>, f: Fields) {
    && f.TrainRideFields?
    && (exists a :: a in idPks && idPks[a] == f.fromStation)
    && (exists b :: b in idPks && idPks[b] == f.toStation)
  }

  /** Every trainride record leads between pks of the lookup it was built
      with. */
  lemma {:induction false} TransportEnds(basename: string, rows: seq<RouteRow>, idPks: map<int, int>, n: nat)
    requires n <= |rows|
    ensures forall i :: 0 <= i < |TransportUpTo(basename, rows, idPks, n)| ==>
              EndsLookedUp(idPks, TransportUpTo(basename, rows, idPks, n)[i].fields)
  {
    if n > 0 {
      TransportEnds(basename, rows, idPks, n - 1);
      var prev := TransportUpTo(basename, rows, idPks, n - 1);
      var r := TransportUpTo(basename, rows, idPks, n);
      if Known(idPks, rows[n - 1]) {
        var row := rows[n - 1];
        var pair := RidePair(basename, idPks, row, n);
        assert r == prev + pair;
        forall i | 0 <= i < |r|
          ensures EndsLookedUp(idPks, r[i].fields)
        {
          if i < |prev| {
            assert r[i] == prev[i];
          } else {
            assert idPks[row.fromId] == idPks[row.fromId] && idPks[row.toId] == idPks[row.toId];
          }
        }
      } else {
        assert r == prev;
      }
    }
  }

  /** The station pass writes no trainride. */
  lemma {:induction false} StationsWriteNoRides(basename: string, rows: seq<StationRow>, n: nat)
    requires n <= |rows|
    ensures forall j :: 0 <= j < |FirstStations(basename, rows, n).out| ==>
              !FirstStations(basename, rows, n).out[j].fields.TrainRideFields?
  {
    if n > 0 {
      StationsWriteNoRides(basename, rows, n - 1);
      var st := FirstStations(basename, rows, n - 1);
      if rows[n - 1].stationId !in st.idPks {
        var now := FirstStations(basename, rows, n);
        var recs := StationRecords(basename, n, rows[n - 1]);
        assert now.out == st.out + recs;
        forall j | 0 <= j < |now.out|
          ensures !now.out[j].fields.TrainRideFields?
        {
          if j < |st.out| {
            assert now.out[j] == st.out[j];
          }
        }
      }
    }
  }

  /** Every trainride `main` writes leads from a station it writes to a
      station it writes, and the station records all come first. */
  lemma GeneratedFixturesResolve(stationRows: seq<StationRow>, routeRows: seq<RouteRow>)
    ensures var out := GeneratedFixtures(stationRows, routeRows);
      forall j :: 0 <= j < |out| && out[j].fields.TrainRideFields? ==>
        HasStation(out, AppName, out[j].fields.fromStation) && HasStation(out, AppName, out[j].fields.toStation)
    ensures var st := FirstStations(AppName, stationRows, |stationRows|);
      var out := GeneratedFixtures(stationRows, routeRows);
      forall j :: 0 <= j < |out| ==> (j < |st.out| <==> !out[j].fields.TrainRideFields?)
  {
    var st := FirstStations(AppName, stationRows, |stationRows|);
    var tr := TransportUpTo(AppName, routeRows, st.idPks, |routeRows|);
    var out := st.out + tr;
    StationRecordsCover(AppName, stationRows, |stationRows|);
    StationsWriteNoRides(AppName, stationRows, |stationRows|);
    TransportEnds(AppName, routeRows, st.idPks, |routeRows|);
    forall j | 0 <= j < |out|
      ensures out[j].fields.TrainRideFields? ==>
        HasStation(out, AppName, out[j].fields.fromStation) && HasStation(out, AppName, out[j].fields.toStation)
      ensures j < |st.out| <==> !out[j].fields.TrainRideFields?
    {
      if j < |st.out| {
        assert out[j] == st.out[j];
      } else {
        var f := tr[j - |st.out|].fields;
        assert out[j].fields == f;
        assert EndsLookedUp(st.idPks, f);
        var a :| a in st.idPks && st.idPks[a] == f.fromStation;
        var b :| b in st.idPks && st.idPks[b] == f.toStation;
        assert Fixture(AppName + ".station", st.idPks[a], StationFields(a)) in out;
        assert Fixture(AppName + ".station", st.idPks[b], StationFields(b)) in out;
      }
    }
  }
}
