/** The errors the model raises, and the exact text each one shows the client. */
module Faults {

  datatype Fault =
    // sanitize_get
    | GetMissingGroup
    | GetUnknownGroup
    | InvalidWindow
    // sanitize_post
    | MissingForm
    | PostMissingGroup
    | PostUnknownGroup
    | MissingSensor
    | UnauthorizedSensor
    | MissingDistance
    | InvalidDistance
    // Python's KeyError when a dictionary lacks `key`
    | MissingKey(key: string)
    // sqlite's OperationalError when the group's table was never created
    | NoSuchTable(table: string)

  /** `str(e)` of the exception raised for the fault. */
  function Message(f: Fault): string {
    match f
    case GetMissingGroup => "Expected group_id as part of the GET request"
    case GetUnknownGroup => "Expected given group_id to be registered. Please register your group"
    case InvalidWindow => "Expected given window size to be a non-negative int representing seconds"
    case MissingForm => "Expected urlencoded form with data in POST body"
    case PostMissingGroup => "Expected group_id as part of POST request body"
    case PostUnknownGroup => "Expected group_id to be a recognized group. Please register your group"
    case MissingSensor => "Expected sensor_id as part of POST request body"
    case UnauthorizedSensor => "Expected this sensor to be part of the given group"
    case MissingDistance => "Expected distance as part of POST request body"
    case InvalidDistance => "Expected distance to be a non-negative numeric quantity"
    case MissingKey(key) => "'" + key + "'"
    case NoSuchTable(table) => "no such table: " + table
  }

  /** The prefix `handle_get` and `handle_post` put before every error message. */
  const FailedPrefix: string := "\nFAILED:\n\t"

  /** Whether a reply text is a failure reply: it begins with `FailedPrefix`. */
  predicate StartsWithFailed(text: string) {
    |FailedPrefix| <= |text| && text[..|FailedPrefix|] == FailedPrefix
  }

  /** The reply text for a request that raised `f`. */
  function Failed(f: Fault): (text: string)
    ensures StartsWithFailed(text)
  {
    var m := Message(f);
    var text := FailedPrefix + m;
    assert text[..|FailedPrefix|] == FailedPrefix;
    text
  }
}
