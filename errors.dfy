/** The webhook's failure vocabulary: `RouteError` and whatever else a step can throw. */
module Errors {
  import opened Wrappers

  /** `RouteError`: a classified failure with its code and HTTP status. The
      constructor's default status is 400. The message text is not modelled:
      no reply ever shows it. */
  datatype RouteError = RouteError(code: string, status: int)

  /** What a step can throw. `Raised` is a `RouteError`; `Axios` is an `AxiosError`
      with its `code` and `response?.status`; `Plain` is any other exception
      (a `TypeError` on a missing field, the `Error` of an unparsable time, a body
      that is not JSON). */
  datatype Thrown = Raised(error: RouteError) | Axios(code: Option<string>, responseStatus: Option<int>) | Plain

  const DefaultStatus: int := 400

  const InvalidOrigin: string := "INVALID_ORIGIN"
  const InvalidDestination: string := "INVALID_DESTINATION"
  const NoRoutes: string := "NO_ROUTES"
  const InvalidRequest: string := "INVALID_REQUEST"
  const InvalidResponse: string := "INVALID_RESPONSE"
  const Timeout: string := "TIMEOUT"
  const AuthError: string := "AUTH_ERROR"
  const InternalError: string := "INTERNAL_ERROR"
  const NoRouteContext: string := "NO_ROUTE_CONTEXT"
  const Unknown: string := "UNKNOWN"

  /** `new RouteError(message, code)` with the default status. */
  function Reject(code: string): Thrown {
    Raised(RouteError(code, DefaultStatus))
  }
}
