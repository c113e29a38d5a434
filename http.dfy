/** The outcome of a route handler's validation: an error response, or the value it goes on with. */
module Http {

  datatype Outcome<T> = Rejected(status: int, error: string) | Accepted(status: int, value: T)
}
