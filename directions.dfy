/** `fetchBusRoutes`: validation, time conversion, the routing preference, the
    provider's status checks, the reduction of its routes, and the `catch` that
    turns every failure into a `RouteError`. The HTTP request itself is the
    `provider` parameter. */
module Directions {
  import opened Wrappers
  import opened Text
  import opened Json
  import opened Errors
  import opened Validation
  import opened Reducer

  /** `legs[i]`: only its `steps` are read. */
  datatype Leg = Leg(steps: Option<seq<Step>>)

  /** `routes[i]`: only its first leg is read. */
  datatype Route = Route(legs: Option<seq<Leg>>)

  /** The provider's JSON body (`response.data`). */
  datatype DirectionsResponse = DirectionsResponse(status: string, routes: Option<seq<Route>>)

  /** The query parameters that vary between calls: the mode (`transit`), the transit
      mode (`bus`), `alternatives=true` and the key are the same on every call. */
  datatype DirectionsQuery = DirectionsQuery(origin: string, destination: string, arrivalTime: int, preference: string)

  /** What awaiting `axios.get` yields: the response, or the `AxiosError` it throws. */
  datatype Transport = Delivered(response: DirectionsResponse) | AxiosFailed(code: Option<string>, responseStatus: Option<int>)

  const FewerTransfers: string := "fewer_transfers"
  const LessWalking: string := "less_walking"

  /** `usedParam`: the `transit_routing_preference` sent; fewer transfers wins over less walking. */
  function RoutingPreference(lessWalking: bool, lessTransfers: bool): (p: string)
    ensures p == FewerTransfers <==> lessTransfers
    ensures p == LessWalking <==> !lessTransfers && lessWalking
    ensures p == "" <==> !lessTransfers && !lessWalking
  {
    if lessTransfers then FewerTransfers
    else if lessWalking then LessWalking
    else ""
  }

  /** `route?.legs?.[0]?.steps` */
  function RouteSteps(route: Route): Option<seq<Step>> {
    match route.legs
    case None => None
    case Some(legs) => if |legs| == 0 then None else legs[0].steps
  }

  /** `route.legs[0].steps` for every route; `None` when some route lacks them, where
      the reduction throws a `TypeError`. */
  function AllSteps(routes: seq<Route>): (r: Option<seq<seq<Step>>>)
    ensures r.Some? <==> forall k | 0 <= k < |routes| :: RouteSteps(routes[k]).Some?
    ensures r.Some? ==> |r.value| == |routes| && forall k | 0 <= k < |routes| :: r.value[k] == RouteSteps(routes[k]).value
  {
    if routes == [] then Some([])
    else
      match RouteSteps(routes[0])
      case None => None
      case Some(steps) =>
        var rest := AllSteps(routes[1..]);
        assert forall k | 1 <= k < |routes| :: routes[k] == routes[1..][k - 1];
        if rest.None? then None else Some([steps] + rest.value)
  }

  /** `!response.data.routes?.[0]?.legs?.[0]?.steps` */
  predicate MissingFirstSteps(resp: DirectionsResponse) {
    resp.routes.None? || |resp.routes.value| == 0 || RouteSteps(resp.routes.value[0]).None?
  }

  /** What follows a delivered response: the two status checks, the structure check,
      then the reduction of every route. */
  function ProcessResponse(resp: DirectionsResponse): (r: Result<seq<Itinerary>, Thrown>)
    ensures resp.status == "ZERO_RESULTS" ==> r == Failure(Reject(NoRoutes))
    ensures resp.status != "ZERO_RESULTS" && resp.status == "INVALID_REQUEST" ==> r == Failure(Reject(InvalidRequest))
    ensures resp.status != "ZERO_RESULTS" && resp.status != "INVALID_REQUEST" && MissingFirstSteps(resp) ==>
              r == Failure(Reject(InvalidResponse))
    ensures r.Success? ==>
              && resp.status != "ZERO_RESULTS" && resp.status != "INVALID_REQUEST" && !MissingFirstSteps(resp)
              && AllSteps(resp.routes.value).Some?
              && r.value == ReduceRoutes(AllSteps(resp.routes.value).value)
    ensures resp.status != "ZERO_RESULTS" && resp.status != "INVALID_REQUEST" && !MissingFirstSteps(resp)
            && AllSteps(resp.routes.value).Some? ==>
              r == Success(ReduceRoutes(AllSteps(resp.routes.value).value))
  {
    if resp.status == "ZERO_RESULTS" then Failure(Reject(NoRoutes))
    else if resp.status == "INVALID_REQUEST" then Failure(Reject(InvalidRequest))
    else if MissingFirstSteps(resp) then Failure(Reject(InvalidResponse))
    else
      match AllSteps(resp.routes.value)
      case None => Failure(Plain)
      case Some(stepLists) => Success(ReduceRoutes(stepLists))
  }

  /** The `catch` of `fetchBusRoutes`: a `RouteError` passes unchanged, an Axios
      `ECONNABORTED` is a timeout, an Axios response with status 403 is an
      authentication failure, and anything else is an internal error. */
  function Classify(t: Thrown): (e: RouteError)
    ensures t.Raised? ==> e == t.error
    ensures t.Axios? && t.code == Some("ECONNABORTED") ==> e == RouteError(Timeout, 504)
    ensures t.Axios? && t.code != Some("ECONNABORTED") && t.responseStatus == Some(403) ==> e == RouteError(AuthError, 403)
    ensures t.Plain? ==> e == RouteError(InternalError, 500)
    ensures t.Axios? && t.code != Some("ECONNABORTED") && t.responseStatus != Some(403) ==> e == RouteError(InternalError, 500)
  {
    match t
    case Raised(e) => e
    case Axios(code, status) =>
      if code == Some("ECONNABORTED") then RouteError(Timeout, 504)
      else if status == Some(403) then RouteError(AuthError, 403)
      else RouteError(InternalError, 500)
    case Plain => RouteError(InternalError, 500)
  }

  /** The query sent for validated inputs: `Math.floor(getTime() / 1000)` of the parsed
      instant (floor division by a positive divisor) and the routing preference. */
  function QueryFor(origin: string, destination: string, instantMillis: int, lessWalking: bool, lessTransfers: bool): DirectionsQuery {
    DirectionsQuery(origin, destination, instantMillis / 1000, RoutingPreference(lessWalking, lessTransfers))
  }

  /** The body of the `try` in `fetchBusRoutes`. `parseInstant` is `new Date(...).getTime()`
      (`None` for NaN); `provider` is the HTTP request. */
  function TryFetch(origin: Value, destination: Value, arrivalTime: Value, lessWalking: bool, lessTransfers: bool,
                    parseInstant: Value -> Option<int>, provider: DirectionsQuery -> Transport): (r: Result<seq<Itinerary>, Thrown>)
    ensures r.Failure? && r.error.Raised? ==>
              r.error.error.status == 400
              && r.error.error.code in {InvalidOrigin, InvalidDestination, NoRoutes, InvalidRequest, InvalidResponse}
    ensures r.Success? || (r.Failure? && r.error.Axios?) ==>
              && ValidateInput(origin, destination).Pass? && parseInstant(arrivalTime).Some?
              && var sent := provider(QueryFor(origin.s, destination.s, parseInstant(arrivalTime).value, lessWalking, lessTransfers));
              && (r.Success? ==> sent.Delivered? && r == ProcessResponse(sent.response))
              && (r.Failure? ==> sent == AxiosFailed(r.error.code, r.error.responseStatus))
    ensures ValidateInput(origin, destination).Pass? && parseInstant(arrivalTime).Some? ==>
              var sent := provider(QueryFor(origin.s, destination.s, parseInstant(arrivalTime).value, lessWalking, lessTransfers));
              && (sent.Delivered? ==> r == ProcessResponse(sent.response))
              && (sent.AxiosFailed? ==> r == Failure(Axios(sent.code, sent.responseStatus)))
  {
    match ValidateInput(origin, destination)
    case Fail(t) => Failure(t)
    case Pass =>
      match parseInstant(arrivalTime)
      case None => Failure(Plain)
      case Some(millis) =>
        match provider(QueryFor(origin.s, destination.s, millis, lessWalking, lessTransfers))
        case AxiosFailed(code, status) => Failure(Axios(code, status))
        case Delivered(resp) => ProcessResponse(resp)
  }

  /** The (code, status) pairs `fetchBusRoutes` can throw. */
  predicate IsFetchError(e: RouteError) {
    || e == RouteError(InvalidOrigin, 400)
    || e == RouteError(InvalidDestination, 400)
    || e == RouteError(NoRoutes, 400)
    || e == RouteError(InvalidRequest, 400)
    || e == RouteError(InvalidResponse, 400)
    || e == RouteError(Timeout, 504)
    || e == RouteError(AuthError, 403)
    || e == RouteError(InternalError, 500)
  }

  /** `fetchBusRoutes(origin, destination, arrivalTime, lessWalking, lessTransfers)`:
      the usable itineraries, or one of the fetch errors; no failure escapes
      unclassified, and no `INVALID_TIME` is ever raised. */
  function FetchBusRoutes(origin: Value, destination: Value, arrivalTime: Value, lessWalking: bool, lessTransfers: bool,
                          parseInstant: Value -> Option<int>, provider: DirectionsQuery -> Transport): (r: Result<seq<Itinerary>, RouteError>)
    ensures r.Failure? ==> IsFetchError(r.error) && r.error.code != "INVALID_TIME"
    ensures r.Success? ==> origin.Str? && !Blank(origin.s) && destination.Str? && !Blank(destination.s)
    ensures r.Success? ==> forall i | 0 <= i < |r.value| :: |r.value[i]| > 0
  {
    match TryFetch(origin, destination, arrivalTime, lessWalking, lessTransfers, parseInstant, provider)
    case Success(routes) => Success(routes)
    case Failure(t) => Failure(Classify(t))
  }

  /** Validation runs before anything else: a rejected origin or destination fails
      the same way whatever the clock parser and the provider would have said. */
  lemma ValidationComesFirst(origin: Value, destination: Value, arrivalTime: Value, lessWalking: bool, lessTransfers: bool,
                             parseInstant: Value -> Option<int>, provider: DirectionsQuery -> Transport,
                             parseInstant': Value -> Option<int>, provider': DirectionsQuery -> Transport)
    requires ValidateInput(origin, destination).Fail?
    ensures FetchBusRoutes(origin, destination, arrivalTime, lessWalking, lessTransfers, parseInstant, provider)
         == FetchBusRoutes(origin, destination, arrivalTime, lessWalking, lessTransfers, parseInstant', provider')
    ensures TrimsToNothing(origin) ==>
              FetchBusRoutes(origin, destination, arrivalTime, lessWalking, lessTransfers, parseInstant, provider)
                == Failure(RouteError(InvalidOrigin, 400))
    ensures origin.Str? && !Blank(origin.s) && TrimsToNothing(destination) ==>
              FetchBusRoutes(origin, destination, arrivalTime, lessWalking, lessTransfers, parseInstant, provider)
                == Failure(RouteError(InvalidDestination, 400))
  {
  }

  /** An arrival time that does not parse (the "No arrival time set" default among
      them, whenever the parser rejects it) is an internal error, not INVALID_TIME. */
  lemma UnparsableTimeIsInternal(origin: Value, destination: Value, arrivalTime: Value, lessWalking: bool, lessTransfers: bool,
                                 parseInstant: Value -> Option<int>, provider: DirectionsQuery -> Transport)
    requires ValidateInput(origin, destination).Pass?
    requires parseInstant(arrivalTime).None?
    ensures FetchBusRoutes(origin, destination, arrivalTime, lessWalking, lessTransfers, parseInstant, provider)
         == Failure(RouteError(InternalError, 500))
  {
  }

  /** A failed request is classified: ECONNABORTED is TIMEOUT/504, an HTTP 403 is
      AUTH_ERROR/403, anything else INTERNAL_ERROR/500. */
  lemma TransportFailureClassified(origin: Value, destination: Value, arrivalTime: Value, lessWalking: bool, lessTransfers: bool,
                                   parseInstant: Value -> Option<int>, provider: DirectionsQuery -> Transport)
    requires ValidateInput(origin, destination).Pass?
    requires parseInstant(arrivalTime).Some?
    requires provider(QueryFor(origin.s, destination.s, parseInstant(arrivalTime).value, lessWalking, lessTransfers)).AxiosFailed?
    ensures var sent := provider(QueryFor(origin.s, destination.s, parseInstant(arrivalTime).value, lessWalking, lessTransfers));
            var r := FetchBusRoutes(origin, destination, arrivalTime, lessWalking, lessTransfers, parseInstant, provider);
            && (sent.code == Some("ECONNABORTED") ==> r == Failure(RouteError(Timeout, 504)))
            && (sent.code != Some("ECONNABORTED") && sent.responseStatus == Some(403) ==> r == Failure(RouteError(AuthError, 403)))
            && (sent.code != Some("ECONNABORTED") && sent.responseStatus != Some(403) ==> r == Failure(RouteError(InternalError, 500)))
  {
  }

  /** A delivered response goes through the status checks, in order, before any
      route is reduced; provider statuses map to NO_ROUTES, INVALID_REQUEST and
      INVALID_RESPONSE, all with status 400. */
  lemma DeliveredResponseChecked(origin: Value, destination: Value, arrivalTime: Value, lessWalking: bool, lessTransfers: bool,
                                 parseInstant: Value -> Option<int>, provider: DirectionsQuery -> Transport)
    requires ValidateInput(origin, destination).Pass?
    requires parseInstant(arrivalTime).Some?
    requires provider(QueryFor(origin.s, destination.s, parseInstant(arrivalTime).value, lessWalking, lessTransfers)).Delivered?
    ensures var resp := provider(QueryFor(origin.s, destination.s, parseInstant(arrivalTime).value, lessWalking, lessTransfers)).response;
            var r := FetchBusRoutes(origin, destination, arrivalTime, lessWalking, lessTransfers, parseInstant, provider);
            && (resp.status == "ZERO_RESULTS" ==> r == Failure(RouteError(NoRoutes, 400)))
            && (resp.status == "INVALID_REQUEST" ==> r == Failure(RouteError(InvalidRequest, 400)))
            && (resp.status != "ZERO_RESULTS" && resp.status != "INVALID_REQUEST" && MissingFirstSteps(resp) ==>
                  r == Failure(RouteError(InvalidResponse, 400)))
            && (r.Success? ==> AllSteps(resp.routes.value).Some? && r.value == ReduceRoutes(AllSteps(resp.routes.value).value))
            && ((!MissingFirstSteps(resp) && resp.status != "ZERO_RESULTS" && resp.status != "INVALID_REQUEST"
                 && AllSteps(resp.routes.value).None?) ==> r == Failure(RouteError(InternalError, 500)))
            && ((!MissingFirstSteps(resp) && resp.status != "ZERO_RESULTS" && resp.status != "INVALID_REQUEST"
                 && AllSteps(resp.routes.value).Some?) ==> r == Success(ReduceRoutes(AllSteps(resp.routes.value).value)))
  {
  }

  /** One request is sent, carrying the preference chosen from the two flags: how
      the provider would answer any query with another preference makes no
      difference. */
  lemma OnlyChosenPreferenceConsulted(origin: Value, destination: Value, arrivalTime: Value, lessWalking: bool, lessTransfers: bool,
                                      parseInstant: Value -> Option<int>, provider: DirectionsQuery -> Transport,
                                      provider': DirectionsQuery -> Transport)
    requires forall q: DirectionsQuery | q.preference == RoutingPreference(lessWalking, lessTransfers) :: provider(q) == provider'(q)
    ensures FetchBusRoutes(origin, destination, arrivalTime, lessWalking, lessTransfers, parseInstant, provider)
         == FetchBusRoutes(origin, destination, arrivalTime, lessWalking, lessTransfers, parseInstant, provider')
  {
    if ValidateInput(origin, destination).Pass? && parseInstant(arrivalTime).Some? {
      var q := QueryFor(origin.s, destination.s, parseInstant(arrivalTime).value, lessWalking, lessTransfers);
      assert provider(q) == provider'(q);
    }
  }
}
