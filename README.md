# Weather-CLI, modelled in Dafny

Weather-CLI is a small command-line program. It asks weatherapi.com for a
one-day forecast and prints two things:

- one line with the current conditions;
- one line for each hourly entry of the first forecast day that lies ahead of
  now, or for every hour when `-a` is given.

Temperatures above 80F are printed red and below 32F blue. A chance of rain
above 40% is printed red.

The model covers the whole of `main` in `main.go`:

- choosing the location query, from the first argument unless it looks like a
  flag, otherwise from `DEFAULT_CITY`;
- building the request URL;
- the failure exits;
- the two colour rules;
- the hour filter;
- the shapes of both kinds of printed line.

The modules follow the order of `main`:

| module | what it holds |
|---|---|
| `Outcomes` | `Option`, `Result` and the eight ways the program stops early (`Failure`) |
| `WeatherData` | the record the JSON response decodes into, and Go's `int64` with its wrap-around (`Int64`, `Wrap64`) |
| `Request` | query selection (`SelectedQuery`, `ChooseQuery`) and the URL builder (`RequestUrl`, `BuildUrl`) |
| `QueryStrings` | a reader that turns a URL back into its `name=value` parameters; it is the partner the URL builder is proved against |
| `RequestContents` | what the built URL carries, read back with that reader |
| `Colors` | the temperature and rain colour rules |
| `Presenter` | printed lines as coloured segments, the hour filter, and the report loop (`DisplayHours`, `Present`) |
| `Cli` | `Run`, the whole of `main`, with the environment, the network, the clock and number/time formatting as parameters |

Where the source reassigns a variable, the model is a method:

- `q` is set to the default and then overwritten, so `ChooseQuery` is a method;
- `url` is built and then extended with `+=`, so `BuildUrl` is a method;
- the `for … range hours` loop is `DisplayHours`, a method with a loop.

Each of these methods is proved equal to a specification function:
`SelectedQuery`, `RequestUrl`, and `HourLines` of `Shown`. The lemmas state
their properties in terms of those functions.

The record of `main.go:18-42` becomes one datatype per nested struct:

| datatype | source | fields |
|---|---|---|
| `Weather` | main.go:18-42 | `location`, `current`, and `forecastDays` for `Forecast.Forecastday` |
| `Location` | main.go:19-22 | `name`, `country` |
| `Current` | main.go:23-29 | `tempF`, and `conditionText` for `Condition.Text` |
| `ForecastDay` | main.go:31-41 | `hours` |
| `Hour` | main.go:32-40 | `timeEpoch` as `Int64`, `tempF`, `conditionText`, `chanceOfRain` |

The commented-out `FeelsLike` field is not part of the record.

A printed line is a sequence of `Segment`s, each holding text and a `Color`.
`Text` drops the colours. So the colour of each token and the printed
characters are stated separately. Formatting a number with `%.0f` and a time
with `15:04` are function parameters (`num`, `clock`).

## Model

| member | source | states |
|---|---|---|
| Colors.TempColor | main.go:116-122 | red exactly above 80F, blue exactly below 32F, uncoloured exactly on 32..80 inclusive |
| Colors.TempColorMonotone | main.go:116-122 | a warmer temperature never gets a colder colour (blue, then uncoloured, then red) |
| Colors.RainColor | main.go:151-155 | red exactly above 40%, uncoloured exactly at 40% or below, never blue |
| Colors.RainColorMonotone | main.go:151-155 | a higher chance of rain is red whenever a lower one is |
| Request.SelectedQuery | main.go:59-66 | the default city, replaced by the first argument when there is one and `strings.HasPrefix(arg, "-")` is false |
| Request.ChooseQuery | main.go:59-66 | the query is the first argument when there is one that is empty or does not start with `-`, otherwise the default city; it equals `SelectedQuery` |
| Request.EmptyArgumentOverridesDefault | main.go:64-66 | an empty first argument is not a flag, so it replaces the default city and the query is empty |
| Request.RequestUrl | main.go:68-77 | the URL as a value: with a query, key, `q`, the fixed parameters and `&a=1` when all hours are asked for; without one, key and the fixed parameters only |
| Request.BuildUrl | main.go:68-77 | the three URL shapes: no `q` and no marker for an empty query; `&q=` and the fixed parameters otherwise; `&a=1` appended only with a query and the all-hours flag; it equals `RequestUrl` |
| RequestContents.RequestParams | main.go:68-77 | read back, the URL carries `key`, then `q` exactly when the query is non-empty, then `days=1`, `aqi=no`, `alerts=no`, then `a=1` exactly when the query is non-empty and all hours were asked for |
| RequestContents.NoLocationNoMarker | main.go:75-77 | with an empty query the URL has no `q` and no `a` parameter, and the flag does not change it |
| RequestContents.LocationAndMarker | main.go:70-74 | with a query the URL carries `q` with that value and no other `q`, and carries `a=1` exactly when all hours were asked for |
| RequestContents.BaseUrlHasNoQuery | main.go:53 | the endpoint holds no `?`, so the query string starts after the one the builder adds |
| QueryStrings.SplitJoin | main.go:70-76 | splitting at `&` undoes joining with `&` when no field holds `&`; the URL's `&`-joined fields come back whole |
| QueryStrings.ReadBackFields | main.go:70-76 | a path without `?`, followed by `?` and `name=value` fields joined with `&`, reads back as exactly those parameters in order |
| WeatherData.Wrap64 | main.go:33 | the one int64 congruent to its argument modulo 2^64, and the argument itself when it fits |
| Presenter.UnixTime | main.go:135 | `time.Unix(epoch, 0)` as Go stores it: the epoch plus 62135596800 seconds, minus 2^64 when that sum passes the int64 maximum |
| Presenter.After | main.go:138 | `date.After(time.Now())` for a date with no nanoseconds: its seconds since year 1 exceed those of now |
| Presenter.Displayed | main.go:138 | an hour is displayed when all hours were asked for or its `time.Unix` time is after now |
| Presenter.Shown | main.go:134-138 | the displayed hours, in forecast order |
| Presenter.ShownPositions | main.go:134-138 | the displayed hours are the forecast's hours at strictly increasing positions, and a position is among them exactly when its hour passes `Displayed` |
| Presenter.ShownMembers | main.go:134-138 | every displayed hour is a forecast hour that passes the rule, and every forecast hour that passes the rule is displayed |
| Presenter.ShownAllHours | main.go:138 | with the all-hours flag every hour is displayed, in order |
| Presenter.ShownAppend | main.go:134-138 | one more hour adds itself to the displayed hours when it passes the rule, and nothing otherwise |
| Presenter.AfterNowInRange | main.go:135-138 | for every epoch below 2^63 - 62135596800, an hour is displayed without the flag exactly when its epoch is strictly after now, fraction of a second included |
| Presenter.WrappedEpochDropped | main.go:135-138 | for every epoch from 2^63 - 62135596800 up, `time.Unix` wraps to before year 1, so at any now after 1970 the hour is dropped without the flag and shown with it |
| Presenter.DisplayedBoundary | main.go:135-138 | without the flag, an hour exactly at now is dropped and one a second later is kept |
| Presenter.TempToken | main.go:129 | the temperature formatted with `%.0f`, then `F`, in the temperature rule's colour (also main.go:161) |
| Presenter.RainToken | main.go:151-155 | the rain chance formatted with `%.0f`, then `%`, in the rain rule's colour |
| Presenter.CurrentLine | main.go:125-131 | `name, country: `, the temperature token, then `, condition` and a newline |
| Presenter.HourLine | main.go:158-164 | the `15:04` clock time and ` - `, the temperature token, `, `, the rain token, then `, condition` and a newline |
| Presenter.CurrentLineText | main.go:124-131 | without colours the current line is `name, country: <temp>F, condition` and a newline |
| Presenter.CurrentLineColours | main.go:116-131 | the temperature token is on the current line with the temperature rule's colour, and it is the only coloured part |
| Presenter.HourLineText | main.go:158-164 | without colours an hourly line is `<HH:MM> - <temp>F, <rain>%, condition` and a newline |
| Presenter.HourLineColours | main.go:141-164 | the temperature token (coloured by the same rule as the current line) and the rain token are on the hourly line, and they are its only coloured parts |
| Presenter.HourLines | main.go:134-168 | one line per displayed hour, in the same order |
| Presenter.HourLinesAppend | main.go:134-168 | one more displayed hour adds its line at the end |
| Presenter.Report | main.go:112-168 | no forecast day gives only the `NoForecastDay` failure; otherwise the current line comes first, then one line per displayed hour of day 0 in order |
| Presenter.DisplayHours | main.go:134-168 | the loop emits exactly `HourLines` of the displayed hours |
| Presenter.Present | main.go:112-168 | takes day 0, or fails when there is none, then the current line and the loop's lines; it equals `Report` |
| Cli.Getenv | main.go:52 | `os.Getenv`: the variable's value, or the empty string when it is unset (also main.go:60) |
| Cli.Run | main.go:44-112 | a missing .env file stops the run before any request, and so do `-h` and a flag `flag.Parse` rejects. Otherwise the one URL fetched is `RequestUrl` of `API_KEY`, the selected query and the parsed flag. A transport error, a status other than 200, an unreadable body and undecodable JSON each stop it with their own failure. A decoded body gives `Report` |
| Cli.AustinExample | main.go:112-168 | for an hour ahead of now: the current line starts `Austin, USA` and its 85F prints red; the hour's 90F prints red and its 10% uncoloured |

## Left out

- Loading `.env` and reading `os.Getenv`: the result of the load is the `Environment` parameter. `Getenv` is a map lookup that defaults to the empty string.
- Cli.Run: what `flag.Parse` makes of the arguments is the `flags` parameter: help, a rejected flag, or the value of `-a`. The model does not derive it from the arguments. So it does not capture Go's rules for flag syntax (`-a`, `--a`, `-a=false`, `--`). Nor does it capture that parsing stops at the first argument that is not a flag, so `go run main.go London -a` leaves the flag false.
- Cli.Run: a failure keeps which failure happened, not what the process writes or how it exits. `log.Fatal` writes its message to standard error and exits with status 1. Each `panic` writes its value (including the transport error's own text) and exits with status 2. `flag.Parse` writes the usage and exits with status 0 for `-h`, and with status 2 for a rejected flag. Nothing goes to standard output, because each failure happens before the first line.
- HTTP, reading the body and JSON decoding: these are the `fetch` parameter and its `Reply`/`Body` values. JSON field names and partial decoding (missing fields become zero) are not modelled.
- The lazy closing of the response body (`defer res.Body.Close()`): this has no visible effect on the output.
- Terminal colours: a coloured segment is its text plus a `Color`. The ANSI escape codes are not modelled, and neither is the colour library switching itself off on non-terminal output.
- `%.0f` rounding and the `15:04` local-time format: these are the `num` and `clock` parameters. The time zone is not modelled.
- Floating point: temperatures and rain chances are `real`. NaN and rounding are not modelled.
- `time.Now()` is read afresh for every hour. The model uses one instant `now` for the whole loop. `now` is a real number of Unix seconds. Its whole seconds are moved to year 1 without overflow, which holds for any clock reading Go can produce.
- RequestContents.RequestParams: this reads the URL string as the program builds it, not the request `http.Get` sends. It requires that neither the key nor the query contains `&`, because the program does not escape them. Sending is not modelled. `net/url` treats everything after a `#` as a fragment that is never sent. The receiving server decodes `%` escapes and `+` in what is sent. So a key or query holding `#`, `%` or `+` is sent or read differently from what this lemma reads back. The URL string itself is always exactly `RequestUrl`, as `Request.BuildUrl` states.
- RequestContents.LocationAndMarker and RequestContents.NoLocationNoMarker: these read the URL string the same way, and carry the same no-`&` requirement, for the same reason.
