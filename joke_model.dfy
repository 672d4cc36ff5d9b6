/**
 * The record the joke REST service answers with (jokerestclient/JokeModel.java).
 * It carries no logic; both the error payload and the success payload use it.
 */
module JokeModels {

  /** Java's 32-bit `int`. */
  newtype Int32 = x: int | -0x8000_0000 <= x < 0x8000_0000

  datatype JokeModel = JokeModel(
    error: bool,
    internalError: bool,
    message: string,
    causedBy: seq<string>,
    additionalInfo: string,
    category: string,
    joke: string,
    flags: map<string, bool>,
    id: Int32,
    safe: bool,
    lang: string)
}
