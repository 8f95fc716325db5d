/** The `react-hot-toast` notifications the pages raise, as values the page
    handlers return instead of showing. */
module Toasts {
  datatype Toast =
    | Success(message: string)
    | Failure(message: string)
    | Loading(message: string)
}
