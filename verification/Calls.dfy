/** Calls to a service that may fail: the two delivery protocols are cut at any of them. */
module Calls {

  /** `Lost` loses the request, `Unanswered` the reply of a request that took effect. */
  datatype Fault = Fine | Lost | Unanswered
}
