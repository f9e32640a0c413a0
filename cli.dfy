/** The program's main function: choose the query, build the URL, make the one
    request, check and decode the reply, and print the report. The environment,
    the network, the clock and number and time formatting are parameters. */
module Cli {
  import opened Outcomes
  import opened WeatherData
  import opened Colors
  import opened Request
  import opened Presenter

  /** The process environment once the .env file was loaded, or the failure to load it. */
  datatype Environment = EnvFileMissing | Loaded(vars: map<string, string>)

  /** Go's os.Getenv: the variable's value, or empty when it is unset. */
  function Getenv(vars: map<string, string>, name: string): string
  {
    if name in vars then vars[name] else ""
  }

  /** What flag.Parse made of the arguments: it exits on `-h`, on an undefined
      flag and on a malformed value, and otherwise sets the all-hours flag. */
  datatype Flags = HelpRequested | Unparsable | Parsed(displayAll: bool)

  /** What reading and decoding the response body gave. */
  datatype Body = ReadFailure | Malformed | Decoded(weather: Weather)

  /** What the single GET request gave. */
  datatype Reply = TransportFailure | Response(status: int, body: Body)

  /** Runs the program once. `request` is the URL fetched (none when the
      configuration failed first); `report` is the printed lines or the failure
      that ended the process. Every failure ends the run with no line printed. */
  method Run(args: seq<string>, env: Environment, flags: Flags, fetch: string -> Reply,
             now: real, num: real -> string, clock: Int64 -> string)
    returns (request: Option<string>, report: Result<seq<Line>>)
    ensures env.EnvFileMissing? ==> request == None && report == Err(ConfigMissing)
    ensures env.Loaded? && flags == HelpRequested ==> request == None && report == Err(HelpShown)
    ensures env.Loaded? && flags == Unparsable ==> request == None && report == Err(BadFlag)
    ensures env.Loaded? && flags.Parsed? ==> request == Some(RequestUrl(Getenv(env.vars, "API_KEY"),
                                                                      SelectedQuery(args, Getenv(env.vars, "DEFAULT_CITY")),
                                                                      flags.displayAll))
    ensures request.Some? && fetch(request.value).TransportFailure? ==> report == Err(NetworkError)
    ensures (request.Some? && fetch(request.value).Response? && fetch(request.value).status != 200)
      ==> report == Err(Unavailable)
    ensures request.Some? && fetch(request.value) == Response(200, ReadFailure) ==> report == Err(ReadError)
    ensures request.Some? && fetch(request.value) == Response(200, Malformed) ==> report == Err(DecodeError)
    ensures (request.Some? && fetch(request.value).Response? && fetch(request.value).status == 200
             && fetch(request.value).body.Decoded?)
      ==> flags.Parsed? && report == Report(fetch(request.value).body.weather, flags.displayAll, now, num, clock)
  {
    if env.EnvFileMissing? {
      return None, Err(ConfigMissing);
    }
    var key := Getenv(env.vars, "API_KEY");
    if !flags.Parsed? {
      return None, if flags == HelpRequested then Err(HelpShown) else Err(BadFlag);
    }
    var displayAll := flags.displayAll;
    var q := ChooseQuery(args, Getenv(env.vars, "DEFAULT_CITY"));
    var url := BuildUrl(key, q, displayAll);
    request := Some(url);
    var reply := fetch(url);
    if reply.TransportFailure? {
      return request, Err(NetworkError);
    }
    if reply.status != 200 {
      return request, Err(Unavailable);
    }
    match reply.body
    case ReadFailure =>
      report := Err(ReadError);
    case Malformed =>
      report := Err(DecodeError);
    case Decoded(weather) =>
      report := Present(weather, displayAll, now, num, clock);
  }

  /** The current line for Austin starts with its name and country. */
  lemma AustinPrefix(rest: string)
    ensures |"Austin" + ", " + "USA" + ": " + rest| >= 11
    ensures ("Austin" + ", " + "USA" + ": " + rest)[..11] == "Austin, USA"
  {
  }

  /** A response for Austin at 85F with one hour an hour ahead at 90F and 10%
      rain: the current temperature and the hour's temperature are red, the rain
      chance uncoloured. */
  lemma AustinExample(now: int, num: real -> string, clock: Int64 -> string)
    requires 0 <= now < 0x7000_0000_0000_0000
    ensures
      var hour := Hour((now + 3600) as Int64, 90.0, "Clear", 10.0);
      var weather := Weather(Location("Austin", "USA"), Current(85.0, "Sunny"), [ForecastDay([hour])]);
      var r := Report(weather, false, now as real, num, clock);
      r.Ok? && |r.value| == 2
      && |Text(r.value[0])| >= 11 && Text(r.value[0])[..11] == "Austin, USA"
      && Segment(num(85.0) + "F", Red) in r.value[0]
      && Segment(num(90.0) + "F", Red) in r.value[1]
      && Segment(num(10.0) + "%", Plain) in r.value[1]
  {
    var hour := Hour((now + 3600) as Int64, 90.0, "Clear", 10.0);
    var location, current := Location("Austin", "USA"), Current(85.0, "Sunny");
    assert Shown([hour], false, now as real) == [hour];
    CurrentLineText(location, current, num);
    AustinPrefix(num(85.0) + "F, Sunny\n");
  }
}
