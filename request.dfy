/** Choosing the location query and building the forecast request URL. */
module Request {

  /** The fixed endpoint of the forecast API. */
  const BaseUrl: string := "http://api.weatherapi.com/v1/forecast.json"

  /** Go's strings.HasPrefix. */
  predicate HasPrefix(s: string, prefix: string)
  {
    |prefix| <= |s| && s[..|prefix|] == prefix
  }

  /** The query the program sends: the first argument when there is one and it
      does not look like a flag, otherwise the default city (which may be empty). */
  function SelectedQuery(args: seq<string>, defaultCity: string): string
  {
    if |args| >= 2 && !HasPrefix(args[1], "-") then args[1] else defaultCity
  }

  /** Starts from the default city and replaces it by the first argument. */
  method ChooseQuery(args: seq<string>, defaultCity: string) returns (q: string)
    ensures |args| >= 2 && (args[1] == [] || args[1][0] != '-') ==> q == args[1]
    ensures !(|args| >= 2 && (args[1] == [] || args[1][0] != '-')) ==> q == defaultCity
    ensures q == SelectedQuery(args, defaultCity)
  {
    q := defaultCity;
    if |args| >= 2 && !HasPrefix(args[1], "-") {
      q := args[1];
    }
  }

  /** An empty first argument is not a flag, so it replaces a non-empty default
      city and the request then carries no location at all. */
  lemma EmptyArgumentOverridesDefault(args: seq<string>, defaultCity: string)
    requires |args| >= 2 && args[1] == []
    ensures SelectedQuery(args, defaultCity) == []
  {
  }

  /** The request URL as the program builds it. */
  function RequestUrl(key: string, q: string, displayAll: bool): string
  {
    if q != "" then
      BaseUrl + "?key=" + key + "&q=" + q + "&days=1&aqi=no&alerts=no"
        + (if displayAll then "&a=1" else "")
    else
      BaseUrl + "?key=" + key + "&days=1&aqi=no&alerts=no"
  }

  /** Builds the URL by branching on the query, then appends the all-hours
      marker in the non-empty branch only. */
  method BuildUrl(key: string, q: string, displayAll: bool) returns (url: string)
    ensures q == "" ==> url == BaseUrl + "?key=" + key + "&days=1&aqi=no&alerts=no"
    ensures q != "" && !displayAll ==> url == BaseUrl + "?key=" + key + "&q=" + q + "&days=1&aqi=no&alerts=no"
    ensures q != "" && displayAll ==> url == BaseUrl + "?key=" + key + "&q=" + q + "&days=1&aqi=no&alerts=no&a=1"
    ensures url == RequestUrl(key, q, displayAll)
  {
    if q != "" {
      url := BaseUrl + "?key=" + key + "&q=" + q + "&days=1&aqi=no&alerts=no";
      if displayAll {
        url := url + "&a=1";
      }
    } else {
      url := BaseUrl + "?key=" + key + "&days=1&aqi=no&alerts=no";
    }
  }
}
