/** The report: the current-conditions line followed by one line per displayed hour.
    Numbers and clock times are rendered by the formatting functions passed in
    (`num` for the "%.0f" verb, `clock` for the local "15:04" time of an epoch). */
module Presenter {
  import opened Outcomes
  import opened WeatherData
  import opened Colors

  /** A piece of output text and the colour it is printed in. */
  datatype Segment = Segment(text: string, color: Color)

  /** One printed line. */
  type Line = seq<Segment>

  /** The characters of a line with the colours removed. */
  function Text(line: Line): string
  {
    if line == [] then [] else line[0].text + Text(line[1..])
  }

  /** The formatted temperature token, e.g. "85F". */
  function TempToken(tempF: real, num: real -> string): Segment
  {
    Segment(num(tempF) + "F", TempColor(tempF))
  }

  /** The formatted rain token, e.g. "10%". */
  function RainToken(chance: real, num: real -> string): Segment
  {
    Segment(num(chance) + "%", RainColor(chance))
  }

  /** The current-conditions line, "%s, %s: %s, %s\n" filled with the name, the
      country, the temperature token and the condition text. */
  function CurrentLine(location: Location, current: Current, num: real -> string): Line
  {
    [Segment(location.name + ", " + location.country + ": ", Plain),
     TempToken(current.tempF, num),
     Segment(", " + current.conditionText + "\n", Plain)]
  }

  /** An hourly line, "%s - %s, %s, %s\n" filled with the clock time, the
      temperature token, the rain token and the condition text. */
  function HourLine(hour: Hour, num: real -> string, clock: Int64 -> string): Line
  {
    [Segment(clock(hour.timeEpoch) + " - ", Plain),
     TempToken(hour.tempF, num),
     Segment(", ", Plain),
     RainToken(hour.chanceOfRain, num),
     Segment(", " + hour.conditionText + "\n", Plain)]
  }

  /** The text of a three-segment line. */
  lemma TextOfThree(a: Segment, b: Segment, c: Segment)
    ensures Text([a, b, c]) == a.text + b.text + c.text
  {
    assert [a, b, c][1..] == [b, c];
    assert [b, c][1..] == [c];
    assert [c][1..] == [];
    assert Text([c]) == c.text + Text([]) == c.text;
    assert Text([b, c]) == b.text + Text([c]);
  }

  /** The text of a five-segment line. */
  lemma TextOfFive(a: Segment, b: Segment, c: Segment, d: Segment, e: Segment)
    ensures Text([a, b, c, d, e]) == a.text + b.text + c.text + d.text + e.text
  {
    assert [a, b, c, d, e][1..] == [b, c, d, e];
    assert [b, c, d, e][1..] == [c, d, e];
    TextOfThree(c, d, e);
  }

  /** Without its colours the current line reads "{name}, {country}: {temp}F, {condition}". */
  lemma CurrentLineText(location: Location, current: Current, num: real -> string)
    ensures Text(CurrentLine(location, current, num))
         == location.name + ", " + location.country + ": " + num(current.tempF) + "F" + ", "
            + current.conditionText + "\n"
  {
    var line := CurrentLine(location, current, num);
    TextOfThree(line[0], line[1], line[2]);
  }

  /** The temperature token is the only coloured part of the current line, and it
      carries the temperature rule's colour. */
  lemma CurrentLineColours(location: Location, current: Current, num: real -> string)
    ensures TempToken(current.tempF, num) in CurrentLine(location, current, num)
    ensures forall s :: s in CurrentLine(location, current, num) && s.color != Plain ==> s == TempToken(current.tempF, num)
  {
  }

  /** Without its colours an hourly line reads "{HH:MM} - {temp}F, {rain}%, {condition}". */
  lemma HourLineText(hour: Hour, num: real -> string, clock: Int64 -> string)
    ensures Text(HourLine(hour, num, clock))
         == clock(hour.timeEpoch) + " - " + num(hour.tempF) + "F" + ", " + num(hour.chanceOfRain) + "%" + ", "
            + hour.conditionText + "\n"
  {
    var line := HourLine(hour, num, clock);
    TextOfFive(line[0], line[1], line[2], line[3], line[4]);
  }

  /** The temperature and rain tokens are the only coloured parts of an hourly
      line; the temperature uses the same rule as the current line. */
  lemma HourLineColours(hour: Hour, num: real -> string, clock: Int64 -> string)
    ensures TempToken(hour.tempF, num) in HourLine(hour, num, clock)
    ensures RainToken(hour.chanceOfRain, num) in HourLine(hour, num, clock)
    ensures forall s :: s in HourLine(hour, num, clock) && s.color != Plain ==>
              s == TempToken(hour.tempF, num) || s == RainToken(hour.chanceOfRain, num)
  {
  }

  // ---------------------------------------------------------------------------
  // Which hours are displayed.

  /** Seconds from 1 January of year 1 to the Unix epoch: Go keeps a time as
      seconds since year 1. */
  const UnixToInternal: int := 62135596800

  /** The seconds Go stores for `time.Unix(epoch, 0)`: the epoch moved to year 1,
      by an int64 addition that wraps for epochs within `UnixToInternal` of the
      int64 maximum. The nanoseconds of such a time are 0. */
  function UnixTime(epoch: Int64): (t: Int64)
    ensures epoch as int < 0x8000_0000_0000_0000 - UnixToInternal ==> t as int == epoch as int + UnixToInternal
    ensures epoch as int >= 0x8000_0000_0000_0000 - UnixToInternal
            ==> t as int == epoch as int + UnixToInternal - 0x1_0000_0000_0000_0000
  {
    var t := Wrap64(epoch as int + UnixToInternal);
    if epoch as int >= 0x8000_0000_0000_0000 - UnixToInternal then
      WrapOnce(epoch as int + UnixToInternal, t as int);
      t
    else
      t
  }

  /** A value within one wrap above the int64 range wraps down exactly once. */
  lemma WrapOnce(x: int, r: int)
    requires 0x8000_0000_0000_0000 <= x < 0x8000_0000_0000_0000 + 0x1_0000_0000_0000_0000
    requires -0x8000_0000_0000_0000 <= r < 0x8000_0000_0000_0000
    requires (r - x) % 0x1_0000_0000_0000_0000 == 0
    ensures r == x - 0x1_0000_0000_0000_0000
  {
    var k := (r - x) / 0x1_0000_0000_0000_0000;
    assert r - x == 0x1_0000_0000_0000_0000 * k;
    if k >= 0 {
      assert false;
    } else if k < -1 {
      assert false;
    }
  }

  /** `date.After(now)` for a `date` whose nanoseconds are 0: Go compares the
      seconds since year 1, and on a tie the nanoseconds, which a date with none
      never wins. `now` is the current Unix time in seconds, fraction included:
      Go keeps its whole seconds, moved to year 1, and its nanoseconds apart. */
  predicate After(date: Int64, now: real)
  {
    date as int > now.Floor + UnixToInternal
  }

  /** An hour is displayed when all hours were asked for or when its time, as
      `time.Unix` gives it, lies after now. */
  predicate Displayed(hour: Hour, displayAll: bool, now: real)
  {
    displayAll || After(UnixTime(hour.timeEpoch), now)
  }

  /** The displayed hours, in forecast order. */
  function Shown(hours: seq<Hour>, displayAll: bool, now: real): seq<Hour>
  {
    if hours == [] then []
    else (if Displayed(hours[0], displayAll, now) then [hours[0]] else []) + Shown(hours[1..], displayAll, now)
  }

  /** Deciding one more hour extends the displayed hours by it or by nothing. */
  lemma {:induction false} ShownAppend(hours: seq<Hour>, hour: Hour, displayAll: bool, now: real)
    ensures Shown(hours + [hour], displayAll, now)
         == Shown(hours, displayAll, now) + (if Displayed(hour, displayAll, now) then [hour] else [])
    decreases |hours|
  {
    if hours == [] {
      assert [] + [hour] == [hour];
      assert [hour][1..] == [];
    } else {
      var head := if Displayed(hours[0], displayAll, now) then [hours[0]] else [];
      var tail := if Displayed(hour, displayAll, now) then [hour] else [];
      assert (hours + [hour])[0] == hours[0];
      assert (hours + [hour])[1..] == hours[1..] + [hour];
      ShownAppend(hours[1..], hour, displayAll, now);
      assert Shown(hours + [hour], displayAll, now) == head + (Shown(hours[1..], displayAll, now) + tail);
      assert Shown(hours, displayAll, now) == head + Shown(hours[1..], displayAll, now);
    }
  }

  /** With the all-hours flag every hour is displayed, in order, each once. */
  lemma {:induction false} ShownAllHours(hours: seq<Hour>, now: real)
    ensures Shown(hours, true, now) == hours
    decreases |hours|
  {
    if hours != [] {
      ShownAllHours(hours[1..], now);
      assert [hours[0]] + hours[1..] == hours;
    }
  }

  /** The displayed hours are the input at strictly increasing positions (so in
      order and none twice), and a position is among them exactly when its hour
      is displayed. */
  lemma {:induction false} ShownPositions(hours: seq<Hour>, displayAll: bool, now: real) returns (positions: seq<nat>)
    ensures |positions| == |Shown(hours, displayAll, now)|
    ensures forall k :: 0 <= k < |positions| ==>
              positions[k] < |hours| && Shown(hours, displayAll, now)[k] == hours[positions[k]]
    ensures forall k, l :: 0 <= k < l < |positions| ==> positions[k] < positions[l]
    ensures forall i :: 0 <= i < |hours| ==> (i in positions <==> Displayed(hours[i], displayAll, now))
    decreases |hours|
  {
    if hours == [] {
      positions := [];
    } else {
      var n := |hours| - 1;
      var init := hours[..n];
      assert hours == init + [hours[n]];
      var before := ShownPositions(init, displayAll, now);
      ShownAppend(init, hours[n], displayAll, now);
      positions := before + (if Displayed(hours[n], displayAll, now) then [n] else []);
    }
  }

  /** Every displayed hour comes from the forecast and is displayed by the rule;
      every hour the rule displays is there. */
  lemma ShownMembers(hours: seq<Hour>, displayAll: bool, now: real)
    ensures forall h :: h in Shown(hours, displayAll, now) ==> h in hours && Displayed(h, displayAll, now)
    ensures forall h :: h in hours && Displayed(h, displayAll, now) ==> h in Shown(hours, displayAll, now)
  {
    var positions := ShownPositions(hours, displayAll, now);
    forall h | h in hours && Displayed(h, displayAll, now)
      ensures h in Shown(hours, displayAll, now)
    {
      var i :| 0 <= i < |hours| && hours[i] == h;
      assert i in positions;
      var k :| 0 <= k < |positions| && positions[k] == i;
      assert Shown(hours, displayAll, now)[k] == h;
    }
    forall h | h in Shown(hours, displayAll, now)
      ensures h in hours && Displayed(h, displayAll, now)
    {
      var k :| 0 <= k < |Shown(hours, displayAll, now)| && Shown(hours, displayAll, now)[k] == h;
      assert positions[k] in positions;
    }
  }

  /** For every epoch without the wrap, an hour is displayed without the flag
      exactly when its epoch lies strictly after now, fraction included. */
  lemma AfterNowInRange(hour: Hour, now: real)
    requires hour.timeEpoch as int < 0x8000_0000_0000_0000 - UnixToInternal
    ensures Displayed(hour, false, now) <==> hour.timeEpoch as real > now
  {
    var epoch := hour.timeEpoch as int;
    assert UnixTime(hour.timeEpoch) as int == epoch + UnixToInternal;
    assert now.Floor as real <= now < now.Floor as real + 1.0;
    if epoch > now.Floor {
      assert epoch >= now.Floor + 1;
      assert epoch as real >= (now.Floor + 1) as real;
    }
  }

  /** An epoch so late that `time.Unix` wraps it lands far before year 1, so
      without the flag its hour is never displayed at any now after 1970. */
  lemma WrappedEpochDropped(hour: Hour, now: real)
    requires hour.timeEpoch as int >= 0x8000_0000_0000_0000 - UnixToInternal
    requires now >= 0.0
    ensures !Displayed(hour, false, now)
    ensures Displayed(hour, true, now)
  {
    assert UnixTime(hour.timeEpoch) as int < 0;
  }

  /** Without the flag, an hour exactly at now is dropped and an hour one second
      later is kept. */
  lemma DisplayedBoundary(hour: Hour, now: int)
    requires 0 <= now < 0x7000_0000_0000_0000
    ensures hour.timeEpoch as int == now ==> !Displayed(hour, false, now as real)
    ensures hour.timeEpoch as int == now + 1 ==> Displayed(hour, false, now as real)
  {
    if hour.timeEpoch as int == now || hour.timeEpoch as int == now + 1 {
      AfterNowInRange(hour, now as real);
    }
  }

  // ---------------------------------------------------------------------------
  // The report.

  /** One line per hour, in the same order. */
  function HourLines(hours: seq<Hour>, num: real -> string, clock: Int64 -> string): (lines: seq<Line>)
    ensures |lines| == |hours|
    ensures forall k :: 0 <= k < |hours| ==> lines[k] == HourLine(hours[k], num, clock)
  {
    if hours == [] then [] else [HourLine(hours[0], num, clock)] + HourLines(hours[1..], num, clock)
  }

  /** One more hour adds its line at the end. */
  lemma HourLinesAppend(hours: seq<Hour>, hour: Hour, num: real -> string, clock: Int64 -> string)
    ensures HourLines(hours + [hour], num, clock) == HourLines(hours, num, clock) + [HourLine(hour, num, clock)]
  {
    var a := HourLines(hours + [hour], num, clock);
    var b := HourLines(hours, num, clock) + [HourLine(hour, num, clock)];
    assert |a| == |b|;
    forall k | 0 <= k < |a| ensures a[k] == b[k] {
      assert (hours + [hour])[k] == if k < |hours| then hours[k] else hour;
    }
  }

  /** The whole report for a decoded response: nothing but a failure when the
      forecast has no day (day 0 is indexed before anything is printed), else
      the current line followed by a line for each displayed hour of day 0. */
  function Report(weather: Weather, displayAll: bool, now: real, num: real -> string, clock: Int64 -> string)
    : (r: Result<seq<Line>>)
    ensures r.Err? <==> weather.forecastDays == []
    ensures r.Err? ==> r.failure == NoForecastDay
    ensures r.Ok? ==>
      var shown := Shown(weather.forecastDays[0].hours, displayAll, now);
      |r.value| == 1 + |shown| && r.value[0] == CurrentLine(weather.location, weather.current, num) &&
      forall k :: 0 <= k < |shown| ==> r.value[k + 1] == HourLine(shown[k], num, clock)
  {
    if weather.forecastDays == [] then Err(NoForecastDay)
    else
      var hourLines := HourLines(Shown(weather.forecastDays[0].hours, displayAll, now), num, clock);
      assert forall k :: 0 <= k < |hourLines| ==> ([CurrentLine(weather.location, weather.current, num)] + hourLines)[k + 1] == hourLines[k];
      Ok([CurrentLine(weather.location, weather.current, num)] + hourLines)
  }

  /** Walks the hours and emits a line for each one displayed. */
  method DisplayHours(hours: seq<Hour>, displayAll: bool, now: real, num: real -> string, clock: Int64 -> string)
    returns (lines: seq<Line>)
    ensures lines == HourLines(Shown(hours, displayAll, now), num, clock)
  {
    lines := [];
    ghost var shown: seq<Hour> := [];
    for i := 0 to |hours|
      invariant shown == Shown(hours[..i], displayAll, now)
      invariant lines == HourLines(shown, num, clock)
    {
      var hour := hours[i];
      assert hours[..i + 1] == hours[..i] + [hour];
      ShownAppend(hours[..i], hour, displayAll, now);
      var date := UnixTime(hour.timeEpoch);
      if displayAll || After(date, now) {
        HourLinesAppend(shown, hour, num, clock);
        shown := shown + [hour];
        lines := lines + [HourLine(hour, num, clock)];
      }
    }
    assert hours[..|hours|] == hours;
  }

  /** Takes the hours of day 0 (failing when there is no day), then prints the
      current line followed by the displayed hours. */
  method Present(weather: Weather, displayAll: bool, now: real, num: real -> string, clock: Int64 -> string)
    returns (r: Result<seq<Line>>)
    ensures r == Report(weather, displayAll, now, num, clock)
  {
    if |weather.forecastDays| == 0 {
      return Err(NoForecastDay);
    }
    var hours := weather.forecastDays[0].hours;
    var current := CurrentLine(weather.location, weather.current, num);
    var lines := DisplayHours(hours, displayAll, now, num, clock);
    r := Ok([current] + lines);
  }
}
