/** Success and failure values shared by the rest of the model. */
module Outcomes {

  datatype Option<+T> = None | Some(value: T)

  /** The ways the program stops before finishing its report. In the program
      each of these ends the process (log.Fatal, flag.Parse or panic); here it
      is a value. */
  datatype Failure =
    | ConfigMissing   // the .env file could not be loaded
    | HelpShown       // -h or -help: flag.Parse printed the usage and exited
    | BadFlag         // an undefined flag or a malformed -a value: flag.Parse exited
    | NetworkError    // http.Get returned an error
    | Unavailable     // the response status was not 200
    | ReadError       // the body could not be read
    | DecodeError     // the body is not valid JSON for the record shape
    | NoForecastDay   // the forecast holds no day, so indexing day 0 fails

  datatype Result<+T> = Ok(value: T) | Err(failure: Failure)
}
