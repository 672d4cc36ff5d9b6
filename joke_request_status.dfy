/** The status a request carries (JokeRequestStatus.java): convergence state and diagnostics. */
module Statuses {
  import opened Wrappers
  import opened Specs
  import opened JokeModels

  /** The states in declaration order; AlreadyPresent is declared but never produced. */
  datatype State = Created | AlreadyPresent | Processing | Error | Unknown

  datatype JokeRequestStatus = JokeRequestStatus(
    state: State,
    error: bool,
    message: Option<string>,
    appliedSpec: Option<JokeRequestSpec>,
    jokeId: Option<string>)

  /** `new JokeRequestStatus()`: state Unknown, no error, every reference unset. */
  const NewStatus: JokeRequestStatus := JokeRequestStatus(Unknown, false, None, None, None)

  /**
   * JokeRequestStatus.from: an error model gives an Error status whose message joins the
   * model's message and additional information; any other model gives Processing.
   */
  function StatusFrom(model: JokeModel): (s: JokeRequestStatus)
    ensures s.error == model.error
    ensures s.error <==> s.state == Error
    ensures s.state == Error || s.state == Processing
    ensures model.error ==> s.message == Some(model.message + ": " + model.additionalInfo)
    ensures !model.error ==> s.message == None
    ensures s.appliedSpec == None && s.jokeId == None
  {
    if model.error then
      NewStatus.(error := true, message := Some(model.message + ": " + model.additionalInfo), state := Error)
    else
      NewStatus.(error := false, state := Processing)
  }
}
