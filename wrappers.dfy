/** Option and Result values used wherever the Python code returns None or raises. */
module Wrappers {

  datatype Option<+T> = None | Some(value: T)

  datatype Result<+R, +E> = Success(value: R) | Failure(error: E)

  /** The exceptions the modelled code raises or lets through. */
  datatype Error =
    | NoLunchToken        // persistence.get_current_settings on a chat without a settings row
    | KeyError            // expectations.clear_expectation on a key that was never set
    | IndexError          // a list index past the end, as `data.split("_")[1]` on data without `_`
    | ValueError          // int() of a non-integer, min()/max() of an empty list, datetime.replace
    | ZeroDivisionError   // a budget of zero in build_budget_message
    | UnboundLocalError   // build_budget_message with no top-level category
    | UpstreamError       // any failure of the Lunch Money client
    | RevokedToken        // the Lunch Money API answering "Access token does not exist."
    | TransportError      // any failure of the Telegram bot API
    | NotModified         // Telegram's BadRequest "Message is not modified" on an edit that changes nothing
}
