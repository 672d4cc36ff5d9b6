/**
 * The desired parameters of a joke request. JokeRequestSpec's own code is not modelled;
 * it is represented by its fields with structural equality.
 */
module Specs {

  /** One excluded topic; `name` is the enum constant's name that is sent to the service. */
  datatype ExcludedTopic = ExcludedTopic(name: string)

  datatype JokeRequestSpec = JokeRequestSpec(
    category: string,
    excluded: seq<ExcludedTopic>,
    safe: bool)
}
