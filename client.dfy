/**
 * The boundary to the external command executor. Running the command is not
 * modelled: a call simply produces a `Response`, either the text it printed or
 * the message of the error it raised.
 */
module Client {
  import opened Wrappers
  import opened CliStrings

  /** The outcome of one executor call: its output, or the error message. */
  type Response = Result<string, string>

  /** A sentinel matcher: does this output carry this sentinel? */
  type Matcher = (string, string) -> bool

  /** `run_with_sentinel`: the executor's outcome together with the matcher's verdict.
      An error propagates unchanged; a missing sentinel is a normal result, never an error.
      The matcher is a parameter so that what is proved about the callers holds whatever it
      decides; the worker always passes `CheckSentinelInOutput`. */
  function RunWithSentinel(response: Response, matcher: Matcher, sentinel: string)
    : (r: Result<(string, bool), string>)
    ensures r.Err? <==> response.Err?
    ensures r.Err? ==> r.error == response.error
    ensures r.Ok? ==> r.value.0 == response.value
    ensures r.Ok? ==> (r.value.1 <==> matcher(response.value, sentinel))
  {
    match response
    case Err(e) => Err(e)
    case Ok(output) => Ok((output, matcher(output, sentinel)))
  }
}
