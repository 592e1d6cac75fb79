/** The Python exceptions RankFM raises, each with the message the library gives it. */
module Exceptions {

  datatype Error =
    | AssertionError(message: string)
    | KeyError(message: string)
    | ValueError(message: string)
}
