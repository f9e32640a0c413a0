/** The record the JSON response is decoded into. */
module WeatherData {

  /** Go's int64, the type of the hour's epoch timestamp. */
  newtype Int64 = x: int | -0x8000_0000_0000_0000 <= x < 0x8000_0000_0000_0000

  /** Go's int64 arithmetic: the one int64 that equals `x` modulo 2^64. */
  function Wrap64(x: int): (r: Int64)
    ensures (r as int - x) % 0x1_0000_0000_0000_0000 == 0
    ensures -0x8000_0000_0000_0000 <= x < 0x8000_0000_0000_0000 ==> r as int == x
  {
    var m := (x + 0x8000_0000_0000_0000) % 0x1_0000_0000_0000_0000;
    assert (x + 0x8000_0000_0000_0000) - m == 0x1_0000_0000_0000_0000 * ((x + 0x8000_0000_0000_0000) / 0x1_0000_0000_0000_0000);
    (m - 0x8000_0000_0000_0000) as Int64
  }

  datatype Location = Location(name: string, country: string)

  /** Current conditions: temperature in Fahrenheit and the condition text. */
  datatype Current = Current(tempF: real, conditionText: string)

  /** One hourly forecast entry; `chanceOfRain` is a percentage. */
  datatype Hour = Hour(timeEpoch: Int64, tempF: real, conditionText: string, chanceOfRain: real)

  datatype ForecastDay = ForecastDay(hours: seq<Hour>)

  datatype Weather = Weather(location: Location, current: Current, forecastDays: seq<ForecastDay>)
}
