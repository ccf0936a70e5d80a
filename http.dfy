/** Facts about HTTP shared by the client and the relay. */
module Http {
  /** `response.ok`: a status in the 2xx range. */
  predicate IsOk(status: int) {
    200 <= status <= 299
  }
}
