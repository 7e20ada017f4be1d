/** What becomes of the writes that a controller sends to the API server. */
module ApiServer {

  datatype ApiError = Conflict | NotFound | Failure

  /** A write is handled, refused, sent to something that is not there, or handled with its answer lost. */
  datatype Delivery = Handled | Refused | Missing | AnswerLost {

    /** The server acts on the write, whether or not its answer arrives. */
    predicate TakesEffect() {
      this == Handled || this == AnswerLost
    }
  }
}
