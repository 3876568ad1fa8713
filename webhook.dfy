/** `POST`: the Dialogflow fulfilment entry point. It dispatches on the intent name,
    runs the directions pipeline with fresh parameters or with those of the
    route_requested context, and turns any failure into a reply sentence and an
    HTTP status. */
module Webhook {
  import opened Wrappers
  import opened Text
  import opened Json
  import opened Errors
  import opened Validation
  import opened Reducer
  import opened Render
  import opened Directions

  /** An entry of `queryResult.outputContexts`. */
  datatype Context = Context(name: Option<string>, parameters: Option<map<string, Value>>)

  /** `body.queryResult`, with `intent.displayName` read as `intentName`. */
  datatype QueryResult = QueryResult(intentName: Option<string>, parameters: Option<map<string, Value>>,
                                     outputContexts: Option<seq<Context>>)

  /** The parsed request body. */
  datatype Body = Body(queryResult: Option<QueryResult>)

  /** The HTTP status and the single fulfilment text of the response. */
  datatype Reply = Reply(status: int, text: string)

  /** What the handler takes from outside: the current time as an ISO string, the
      date parser (epoch milliseconds, `None` for an invalid date) and the provider. */
  datatype Env = Env(now: string, parseInstant: Value -> Option<int>, provider: DirectionsQuery -> Transport)

  /** Origin, destination and arrival time as read from a parameter bag. */
  datatype Trip = Trip(origin: Value, destination: Value, arrivalTime: Value)

  /** A refinement's outcome: the inverted flag and the rendered routes. */
  datatype Adjustment = Adjustment(flag: bool, routeDetails: string)

  const GetRouteIntent: string := "GET_route"
  const AdjustWalkingIntent: string := "adjust-for-walking"
  const AdjustTransfersIntent: string := "adjust_for_transfers"
  const RouteRequestedSuffix: string := "/contexts/route_requested"
  const NoArrivalTime: string := "No arrival time set"
  const DefaultErrorMessage: string := "An unexpected error occurred. Please try again."

  /** The reply sentence for each error code that has one. */
  const ErrorMessages: map<string, string> := map[
    "INVALID_ORIGIN" := "Please provide a valid origin.",
    "INVALID_DESTINATION" := "Please provide a valid destination.",
    "INVALID_TIME" := "Please provide a valid arrival time.",
    "PAST_TIME" := "Please provide a future arrival time.",
    "NO_ROUTES" := "No routes found. Try a different time or destination.",
    "NO_TRANSIT" := "No bus routes available for this journey.",
    "TIMEOUT" := "Request timed out. Please try again.",
    "AUTH_ERROR" := "Service temporarily unavailable.",
    "INTERNAL_ERROR" := "An error occurred. Please try again later.",
    "UNKNOWN" := "An unexpected error occurred. Please try again."
  ]

  /** `errorMessages[code] || 'An unexpected error occurred. Please try again.'` */
  function ReplyMessage(code: string): (m: string)
    ensures m != ""
    ensures code in ErrorMessages ==> m == ErrorMessages[code]
    ensures code !in ErrorMessages ==> m == DefaultErrorMessage
  {
    if code in ErrorMessages && ErrorMessages[code] != "" then ErrorMessages[code] else DefaultErrorMessage
  }

  /** `(bag['time_preference'] || { date_time: now })?.date_time || "No arrival time set"` */
  function ArrivalTime(bag: map<string, Value>, now: string): (t: Value)
    ensures Truthy(t)
    ensures !Truthy(Get(bag, "time_preference")) && now != "" ==> t == Str(now)
    ensures Truthy(Get(bag, "time_preference")) && Truthy(Member(Get(bag, "time_preference"), "date_time")) ==>
              t == Member(Get(bag, "time_preference"), "date_time")
    ensures Truthy(Get(bag, "time_preference")) && !Truthy(Member(Get(bag, "time_preference"), "date_time")) ==>
              t == Str(NoArrivalTime)
  {
    var full := Or(Get(bag, "time_preference"), Obj(map["date_time" := Str(now)]));
    Or(Member(full, "date_time"), Str(NoArrivalTime))
  }

  /** `bag['origin'] || ''`, `bag['destination'] || ''` and the arrival time. */
  function TripFrom(bag: map<string, Value>, now: string): (trip: Trip)
    ensures trip.origin == (if Truthy(Get(bag, "origin")) then Get(bag, "origin") else Str(""))
    ensures trip.destination == (if Truthy(Get(bag, "destination")) then Get(bag, "destination") else Str(""))
    ensures !trip.origin.Null? && !trip.destination.Null?
    ensures trip.arrivalTime == ArrivalTime(bag, now)
  {
    Trip(Or(Get(bag, "origin"), Str("")), Or(Get(bag, "destination"), Str("")), ArrivalTime(bag, now))
  }

  /** `body.queryResult.outputContexts || []` */
  function ContextsOf(qr: QueryResult): seq<Context> {
    if qr.outputContexts.Some? then qr.outputContexts.value else []
  }

  function Fetch(trip: Trip, lessWalking: bool, lessTransfers: bool, env: Env): Result<seq<Itinerary>, RouteError> {
    FetchBusRoutes(trip.origin, trip.destination, trip.arrivalTime, lessWalking, lessTransfers, env.parseInstant, env.provider)
  }

  /** `context.name.endsWith('/contexts/route_requested')` holds. */
  predicate IsRouteContext(c: Context) {
    c.name.Some? && EndsWith(c.name.value, RouteRequestedSuffix)
  }

  /** `find` moves past `c`: it has a name, and the name does not match. */
  predicate PassedOver(c: Context) {
    c.name.Some? && !EndsWith(c.name.value, RouteRequestedSuffix)
  }

  /** `contexts[i]` is the first matching context. */
  predicate FirstRouteContextAt(contexts: seq<Context>, i: int) {
    0 <= i < |contexts| && IsRouteContext(contexts[i]) && forall j | 0 <= j < i :: PassedOver(contexts[j])
  }

  /** `contexts.find(context => context.name.endsWith('/contexts/route_requested'))`;
      a context without a name before the match makes `endsWith` throw. */
  function FindRouteContext(contexts: seq<Context>): (r: Result<Option<Context>, Thrown>)
    ensures r.Failure? <==> exists i | 0 <= i < |contexts| :: contexts[i].name.None? && forall j | 0 <= j < i :: PassedOver(contexts[j])
    ensures r.Failure? ==> r.error == Plain
    ensures r.Success? && r.value.Some? ==> exists i :: FirstRouteContextAt(contexts, i) && contexts[i] == r.value.value
    ensures r == Success(None) <==> forall i | 0 <= i < |contexts| :: PassedOver(contexts[i])
  {
    if contexts == [] then Success(None)
    else
      match contexts[0].name
      case None => Failure(Plain)
      case Some(n) =>
        if EndsWith(n, RouteRequestedSuffix) then
          assert FirstRouteContextAt(contexts, 0);
          Success(Some(contexts[0]))
        else
          var r := FindRouteContext(contexts[1..]);
          assert forall i | 1 <= i < |contexts| :: contexts[i] == contexts[1..][i - 1];
          assert r.Success? && r.value.Some? ==> exists i :: FirstRouteContextAt(contexts, i) && contexts[i] == r.value.value by {
            if r.Success? && r.value.Some? {
              var i :| FirstRouteContextAt(contexts[1..], i) && contexts[1..][i] == r.value.value;
              assert FirstRouteContextAt(contexts, i + 1);
            }
          }
          r
  }

  function FoundText(destination: string, routeDetails: string): string {
    "I found the following bus routes to " + destination + ":\n\n" + routeDetails
    + "\n\nWould you like to walk less/more or more/less transfers?"
  }

  function WalkingText(adj: Adjustment): string {
    "I've adjusted the route " + (if adj.flag then "to minimize walking" else "to maximise walking") + ":\n\n"
    + adj.routeDetails + "\n\nIs this route better for you?"
  }

  function TransfersText(adj: Adjustment): string {
    "I've adjusted the route " + (if adj.flag then "to maximse transfers" else "to minimize transfers") + ":\n\n"
    + adj.routeDetails + "\n\nIs this route better for you?"
  }

  /** The generic reply, echoing `intentName || 'unknown intent'`. */
  function FallbackText(intentName: Option<string>): string {
    var shown := if intentName.Some? && intentName.value != "" then intentName.value else "unknown intent";
    "I received your request but I'm not sure how to help with \"" + shown + "\". Could you please rephrase your question?"
  }

  /** The GET_route branch: `None` when no itinerary was found, so that control
      falls through to the generic reply. */
  function GetRoute(qr: QueryResult, env: Env): (r: Result<Option<string>, Thrown>)
    ensures r == Failure(Plain) <==> qr.parameters.None?
    ensures r.Failure? ==> r.error.Plain? || (r.error.Raised? && IsFetchError(r.error.error))
    ensures r == Success(None) <==>
              qr.parameters.Some? && Fetch(TripFrom(qr.parameters.value, env.now), false, false, env) == Success([])
  {
    match qr.parameters
    case None => Failure(Plain)
    case Some(bag) =>
      var trip := TripFrom(bag, env.now);
      match Fetch(trip, false, false, env)
      case Failure(e) => Failure(Raised(e))
      case Success(routes) =>
        if |routes| > 0 then Success(Some(FoundText(trip.destination.s, FormatRoutes(routes)))) else Success(None)
  }

  /** The shared body of the two refinement branches: the flag is `!bag[flagKey]`,
      the trip comes from the route_requested context, and BOTH branches pass the
      flag in the `lessWalking` position, leaving `lessTransfers` false. */
  function Adjust(qr: QueryResult, contexts: seq<Context>, flagKey: string, env: Env): (r: Result<Option<Adjustment>, Thrown>)
    ensures r == Failure(Reject(NoRouteContext)) <==>
              qr.parameters.Some? && FindRouteContext(contexts).Success?
              && (FindRouteContext(contexts).value.None? || FindRouteContext(contexts).value.value.parameters.None?)
    ensures r.Failure? ==> r.error.Plain? || (r.error.Raised? && IsDispatchError(r.error.error))
    ensures r.Success? ==>
              && qr.parameters.Some? && FindRouteContext(contexts).Success?
              && FindRouteContext(contexts).value.Some? && FindRouteContext(contexts).value.value.parameters.Some?
    ensures r.Success? && r.value.Some? ==> r.value.value.flag == !Truthy(Get(qr.parameters.value, flagKey))
    ensures qr.parameters.Some? && FindRouteContext(contexts).Success? && FindRouteContext(contexts).value.Some?
            && FindRouteContext(contexts).value.value.parameters.Some? ==>
              var flag := !Truthy(Get(qr.parameters.value, flagKey));
              var fetched := Fetch(TripFrom(FindRouteContext(contexts).value.value.parameters.value, env.now), flag, false, env);
              && (r == Success(None) <==> fetched == Success([]))
              && (fetched.Failure? ==> r == Failure(Raised(fetched.error)))
  {
    match qr.parameters
    case None => Failure(Plain)
    case Some(bag) =>
      var flag := !Truthy(Get(bag, flagKey));
      match FindRouteContext(contexts)
      case Failure(t) => Failure(t)
      case Success(found) =>
        if found.None? || found.value.parameters.None? then Failure(Reject(NoRouteContext))
        else
          var trip := TripFrom(found.value.parameters.value, env.now);
          match Fetch(trip, flag, false, env)
          case Failure(e) => Failure(Raised(e))
          case Success(routes) =>
            if |routes| > 0 then Success(Some(Adjustment(flag, FormatRoutes(routes)))) else Success(None)
  }

  function AdjustWalking(qr: QueryResult, contexts: seq<Context>, env: Env): Result<Option<string>, Thrown> {
    match Adjust(qr, contexts, "walking", env)
    case Failure(t) => Failure(t)
    case Success(adj) => Success(if adj.Some? then Some(WalkingText(adj.value)) else None)
  }

  function AdjustTransfers(qr: QueryResult, contexts: seq<Context>, env: Env): Result<Option<string>, Thrown> {
    match Adjust(qr, contexts, "boolean", env)
    case Failure(t) => Failure(t)
    case Success(adj) => Success(if adj.Some? then Some(TransfersText(adj.value)) else None)
  }

  /** A branch that returned nothing falls through to the generic reply: the
      intent names differ, so no later branch is taken. */
  function Settle(branch: Result<Option<string>, Thrown>, intentName: Option<string>): Result<string, Thrown> {
    match branch
    case Failure(t) => Failure(t)
    case Success(text) => Success(if text.Some? then text.value else FallbackText(intentName))
  }

  /** The codes the dispatcher can raise itself or receive from the fetch. */
  predicate IsDispatchError(e: RouteError) {
    IsFetchError(e) || e == RouteError(NoRouteContext, 400)
  }

  /** The `try` block of `POST`; `None` is a body that is not JSON. */
  function Run(request: Option<Body>, env: Env): (r: Result<string, Thrown>)
    ensures r.Failure? ==> r.error.Plain? || (r.error.Raised? && IsDispatchError(r.error.error))
  {
    match request
    case None => Failure(Plain)
    case Some(body) =>
      match body.queryResult
      case None => Failure(Plain)
      case Some(qr) =>
        var name := qr.intentName;
        var contexts := ContextsOf(qr);
        if name == Some(GetRouteIntent) then Settle(GetRoute(qr, env), name)
        else if name == Some(AdjustWalkingIntent) then Settle(AdjustWalking(qr, contexts, env), name)
        else if name == Some(AdjustTransfersIntent) then Settle(AdjustTransfers(qr, contexts, env), name)
        else Success(FallbackText(name))
  }

  /** `POST(request)`: a 200 reply with the text, or the error's own status with the
      sentence for its code; an exception that is not a `RouteError` is UNKNOWN/500.
      Every request gets a reply, and its status is one of five. */
  function Handle(request: Option<Body>, env: Env): (reply: Reply)
    ensures reply.status in {200, 400, 403, 500, 504}
    ensures reply.status == 200 <==> Run(request, env).Success?
    ensures Run(request, env).Success? ==> reply.text == Run(request, env).value
  {
    match Run(request, env)
    case Success(text) => Reply(200, text)
    case Failure(t) =>
      var e := if t.Raised? then t.error else RouteError(Unknown, 500);
      Reply(e.status, ReplyMessage(e.code))
  }

  /** Three codes the handler can raise have no sentence of their own and get the
      default one; the others get theirs. */
  lemma ErrorTableGaps()
    ensures ReplyMessage(InvalidRequest) == DefaultErrorMessage
    ensures ReplyMessage(InvalidResponse) == DefaultErrorMessage
    ensures ReplyMessage(NoRouteContext) == DefaultErrorMessage
    ensures ReplyMessage(InvalidOrigin) == "Please provide a valid origin."
    ensures ReplyMessage(InvalidDestination) == "Please provide a valid destination."
    ensures ReplyMessage(NoRoutes) == "No routes found. Try a different time or destination."
    ensures ReplyMessage(Timeout) == "Request timed out. Please try again."
    ensures ReplyMessage(AuthError) == "Service temporarily unavailable."
    ensures ReplyMessage(InternalError) == "An error occurred. Please try again later."
  {
  }

  /** On failure the reply keeps the error's status and carries the sentence for its
      code; anything that is not a `RouteError` is answered as UNKNOWN with 500. */
  lemma FailureReply(request: Option<Body>, env: Env)
    requires Run(request, env).Failure?
    ensures var t := Run(request, env).error;
            && (t.Raised? ==> Handle(request, env) == Reply(t.error.status, ReplyMessage(t.error.code)))
            && (!t.Raised? ==> Handle(request, env) == Reply(500, DefaultErrorMessage))
  {
  }

  /** A request whose intent is none of the three gets the generic reply, echoing the
      intent name, or "unknown intent" when there is none. */
  lemma UnknownIntentFallsBack(body: Body, env: Env)
    requires body.queryResult.Some?
    requires var name := body.queryResult.value.intentName;
             name != Some(GetRouteIntent) && name != Some(AdjustWalkingIntent) && name != Some(AdjustTransfersIntent)
    ensures Handle(Some(body), env) == Reply(200, FallbackText(body.queryResult.value.intentName))
  {
  }

  /** An initial query that finds no usable itinerary is not an error: it falls
      through to the generic reply, which names the intent. */
  lemma EmptyRoutesFallBack(body: Body, env: Env)
    requires body.queryResult.Some? && body.queryResult.value.intentName == Some(GetRouteIntent)
    requires body.queryResult.value.parameters.Some?
    requires Fetch(TripFrom(body.queryResult.value.parameters.value, env.now), false, false, env) == Success([])
    ensures Handle(Some(body), env) == Reply(200, FallbackText(Some(GetRouteIntent)))
  {
  }

  /** An initial query whose fetch fails is answered with the error, not with the
      generic reply. */
  lemma FailedQueryIsError(body: Body, env: Env)
    requires body.queryResult.Some? && body.queryResult.value.intentName == Some(GetRouteIntent)
    requires body.queryResult.value.parameters.Some?
    requires Fetch(TripFrom(body.queryResult.value.parameters.value, env.now), false, false, env).Failure?
    ensures var e := Fetch(TripFrom(body.queryResult.value.parameters.value, env.now), false, false, env).error;
            Handle(Some(body), env) == Reply(e.status, ReplyMessage(e.code))
  {
  }

  /** A refinement intent whose first route_requested context is missing, or has no
      parameters, fails with NO_ROUTE_CONTEXT/400, which has no sentence of its own. */
  lemma MissingRouteContext(body: Body, env: Env)
    requires body.queryResult.Some?
    requires var qr := body.queryResult.value;
             && (qr.intentName == Some(AdjustWalkingIntent) || qr.intentName == Some(AdjustTransfersIntent))
             && qr.parameters.Some?
    requires var found := FindRouteContext(ContextsOf(body.queryResult.value));
             found == Success(None) || (found.Success? && found.value.Some? && found.value.value.parameters.None?)
    ensures Handle(Some(body), env) == Reply(400, DefaultErrorMessage)
  {
    assert Run(Some(body), env) == Failure(Reject(NoRouteContext));
    ErrorTableGaps();
  }

  /** A GET_route that finds itineraries answers 200 with them rendered under the
      destination's name. */
  lemma FoundRoutesReply(body: Body, env: Env)
    requires body.queryResult.Some? && body.queryResult.value.intentName == Some(GetRouteIntent)
    requires body.queryResult.value.parameters.Some?
    requires var fetched := Fetch(TripFrom(body.queryResult.value.parameters.value, env.now), false, false, env);
             fetched.Success? && |fetched.value| > 0
    ensures var trip := TripFrom(body.queryResult.value.parameters.value, env.now);
            Handle(Some(body), env) == Reply(200, FoundText(trip.destination.s, FormatRoutes(Fetch(trip, false, false, env).value)))
  {
  }

  /** A refinement whose first route_requested context has parameters fetches with
      them, the inverted flag in the less-walking position, and keeps the rendered
      routes when there are any. */
  lemma AdjustFound(qr: QueryResult, contexts: seq<Context>, flagKey: string, env: Env, c: Context)
    requires qr.parameters.Some?
    requires FindRouteContext(contexts) == Success(Some(c)) && c.parameters.Some?
    requires var flag := !Truthy(Get(qr.parameters.value, flagKey));
             var fetched := Fetch(TripFrom(c.parameters.value, env.now), flag, false, env);
             fetched.Success? && |fetched.value| > 0
    ensures var flag := !Truthy(Get(qr.parameters.value, flagKey));
            var routes := Fetch(TripFrom(c.parameters.value, env.now), flag, false, env).value;
            Adjust(qr, contexts, flagKey, env) == Success(Some(Adjustment(flag, FormatRoutes(routes))))
  {
  }

  /** The walking refinement re-queries with the first route_requested context's
      parameters and answers 200, saying "to minimize walking" when `walking` is
      falsy and "to maximise walking" otherwise. */
  lemma WalkingAdjustedReply(body: Body, env: Env, c: Context)
    requires body.queryResult.Some? && body.queryResult.value.intentName == Some(AdjustWalkingIntent)
    requires body.queryResult.value.parameters.Some?
    requires FindRouteContext(ContextsOf(body.queryResult.value)) == Success(Some(c)) && c.parameters.Some?
    requires var flag := !Truthy(Get(body.queryResult.value.parameters.value, "walking"));
             var fetched := Fetch(TripFrom(c.parameters.value, env.now), flag, false, env);
             fetched.Success? && |fetched.value| > 0
    ensures var flag := !Truthy(Get(body.queryResult.value.parameters.value, "walking"));
            var routes := Fetch(TripFrom(c.parameters.value, env.now), flag, false, env).value;
            Handle(Some(body), env) == Reply(200, WalkingText(Adjustment(flag, FormatRoutes(routes))))
  {
    var qr := body.queryResult.value;
    var flag := !Truthy(Get(qr.parameters.value, "walking"));
    var text := WalkingText(Adjustment(flag, FormatRoutes(Fetch(TripFrom(c.parameters.value, env.now), flag, false, env).value)));
    AdjustFound(qr, ContextsOf(qr), "walking", env, c);
    assert AdjustWalking(qr, ContextsOf(qr), env) == Success(Some(text));
    assert Run(Some(body), env) == Success(text);
  }

  /** The transfers refinement re-queries with the first route_requested context's
      parameters, its flag in the less-walking position, and answers 200, saying "to
      maximse transfers" when `boolean` is falsy and "to minimize transfers" otherwise. */
  lemma TransfersAdjustedReply(body: Body, env: Env, c: Context)
    requires body.queryResult.Some? && body.queryResult.value.intentName == Some(AdjustTransfersIntent)
    requires body.queryResult.value.parameters.Some?
    requires FindRouteContext(ContextsOf(body.queryResult.value)) == Success(Some(c)) && c.parameters.Some?
    requires var flag := !Truthy(Get(body.queryResult.value.parameters.value, "boolean"));
             var fetched := Fetch(TripFrom(c.parameters.value, env.now), flag, false, env);
             fetched.Success? && |fetched.value| > 0
    ensures var flag := !Truthy(Get(body.queryResult.value.parameters.value, "boolean"));
            var routes := Fetch(TripFrom(c.parameters.value, env.now), flag, false, env).value;
            Handle(Some(body), env) == Reply(200, TransfersText(Adjustment(flag, FormatRoutes(routes))))
  {
    var qr := body.queryResult.value;
    var flag := !Truthy(Get(qr.parameters.value, "boolean"));
    var text := TransfersText(Adjustment(flag, FormatRoutes(Fetch(TripFrom(c.parameters.value, env.now), flag, false, env).value)));
    AdjustFound(qr, ContextsOf(qr), "boolean", env, c);
    assert AdjustTransfers(qr, ContextsOf(qr), env) == Success(Some(text));
    assert Run(Some(body), env) == Success(text);
  }

  /** The flag parameter a refinement intent reads: `walking` or `boolean`. */
  function FlagKey(intentName: Option<string>): string {
    if intentName == Some(AdjustWalkingIntent) then "walking" else "boolean"
  }

  /** A refinement dispatches through `Adjust` with its own flag key: an empty
      adjustment falls through to the generic reply, and a failure is passed on. */
  lemma RefinementDispatch(body: Body, env: Env)
    requires body.queryResult.Some?
    requires var name := body.queryResult.value.intentName;
             name == Some(AdjustWalkingIntent) || name == Some(AdjustTransfersIntent)
    ensures var qr := body.queryResult.value;
            var adj := Adjust(qr, ContextsOf(qr), FlagKey(qr.intentName), env);
            && (adj == Success(None) ==> Run(Some(body), env) == Success(FallbackText(qr.intentName)))
            && (adj.Failure? ==> Run(Some(body), env) == Failure(adj.error))
  {
  }

  /** A refinement whose fetch finds no usable itinerary is not an error: like the
      initial query, it falls through to the generic reply, which names the intent. */
  lemma EmptyRefinementFallsBack(body: Body, env: Env, c: Context)
    requires body.queryResult.Some?
    requires var name := body.queryResult.value.intentName;
             name == Some(AdjustWalkingIntent) || name == Some(AdjustTransfersIntent)
    requires body.queryResult.value.parameters.Some?
    requires FindRouteContext(ContextsOf(body.queryResult.value)) == Success(Some(c)) && c.parameters.Some?
    requires var qr := body.queryResult.value;
             Fetch(TripFrom(c.parameters.value, env.now), !Truthy(Get(qr.parameters.value, FlagKey(qr.intentName))), false, env)
               == Success([])
    ensures Handle(Some(body), env) == Reply(200, FallbackText(body.queryResult.value.intentName))
  {
    var qr := body.queryResult.value;
    assert Adjust(qr, ContextsOf(qr), FlagKey(qr.intentName), env) == Success(None);
    RefinementDispatch(body, env);
  }

  /** A refinement whose fetch fails is answered with that error's status and
      sentence. */
  lemma FailedRefinementIsError(body: Body, env: Env, c: Context)
    requires body.queryResult.Some?
    requires var name := body.queryResult.value.intentName;
             name == Some(AdjustWalkingIntent) || name == Some(AdjustTransfersIntent)
    requires body.queryResult.value.parameters.Some?
    requires FindRouteContext(ContextsOf(body.queryResult.value)) == Success(Some(c)) && c.parameters.Some?
    requires var qr := body.queryResult.value;
             Fetch(TripFrom(c.parameters.value, env.now), !Truthy(Get(qr.parameters.value, FlagKey(qr.intentName))), false, env)
               .Failure?
    ensures var qr := body.queryResult.value;
            var e := Fetch(TripFrom(c.parameters.value, env.now), !Truthy(Get(qr.parameters.value, FlagKey(qr.intentName))), false, env).error;
            Handle(Some(body), env) == Reply(e.status, ReplyMessage(e.code))
  {
    var qr := body.queryResult.value;
    var e := Fetch(TripFrom(c.parameters.value, env.now), !Truthy(Get(qr.parameters.value, FlagKey(qr.intentName))), false, env).error;
    assert Adjust(qr, ContextsOf(qr), FlagKey(qr.intentName), env) == Failure(Raised(e));
    RefinementDispatch(body, env);
  }

  /** The initial query asks for no routing preference: only the provider's answers
      to queries without one matter. */
  lemma InitialQueryHasNoPreference(body: Body, env: Env, provider': DirectionsQuery -> Transport)
    requires body.queryResult.Some? && body.queryResult.value.intentName == Some(GetRouteIntent)
    requires forall q: DirectionsQuery | q.preference == "" :: env.provider(q) == provider'(q)
    ensures Handle(Some(body), env) == Handle(Some(body), env.(provider := provider'))
  {
    var qr := body.queryResult.value;
    if qr.parameters.Some? {
      var trip := TripFrom(qr.parameters.value, env.now);
      OnlyChosenPreferenceConsulted(trip.origin, trip.destination, trip.arrivalTime, false, false,
                                    env.parseInstant, env.provider, provider');
    }
  }

  /** A refinement asks for "less_walking" when its flag parameter is falsy and for
      no preference otherwise. */
  lemma AdjustPreference(qr: QueryResult, contexts: seq<Context>, flagKey: string, env: Env, provider': DirectionsQuery -> Transport)
    requires qr.parameters.Some?
    requires var wanted := if Truthy(Get(qr.parameters.value, flagKey)) then "" else LessWalking;
             forall q: DirectionsQuery | q.preference == wanted :: env.provider(q) == provider'(q)
    ensures Adjust(qr, contexts, flagKey, env) == Adjust(qr, contexts, flagKey, env.(provider := provider'))
  {
    var found := FindRouteContext(contexts);
    if found.Success? && found.value.Some? && found.value.value.parameters.Some? {
      var trip := TripFrom(found.value.value.parameters.value, env.now);
      var flag := !Truthy(Get(qr.parameters.value, flagKey));
      OnlyChosenPreferenceConsulted(trip.origin, trip.destination, trip.arrivalTime, flag, false,
                                    env.parseInstant, env.provider, provider');
      assert Fetch(trip, flag, false, env) == Fetch(trip, flag, false, env.(provider := provider'));
    }
  }

  /** The walking refinement asks for "less_walking" exactly when `walking` is falsy,
      and for no preference otherwise. */
  lemma WalkingRefinementPreference(body: Body, env: Env, provider': DirectionsQuery -> Transport)
    requires body.queryResult.Some? && body.queryResult.value.intentName == Some(AdjustWalkingIntent)
    requires body.queryResult.value.parameters.Some?
    requires var wanted := if Truthy(Get(body.queryResult.value.parameters.value, "walking")) then "" else LessWalking;
             forall q: DirectionsQuery | q.preference == wanted :: env.provider(q) == provider'(q)
    ensures Handle(Some(body), env) == Handle(Some(body), env.(provider := provider'))
  {
    var qr := body.queryResult.value;
    var contexts := ContextsOf(qr);
    AdjustPreference(qr, contexts, "walking", env, provider');
    assert AdjustWalking(qr, contexts, env) == AdjustWalking(qr, contexts, env.(provider := provider'));
    assert Run(Some(body), env) == Run(Some(body), env.(provider := provider'));
  }

  /** The transfers refinement passes its flag where the walking flag goes: it asks
      for "less_walking" when `boolean` is falsy, and for no preference otherwise,
      never for "fewer_transfers". */
  lemma TransfersRefinementPreference(body: Body, env: Env, provider': DirectionsQuery -> Transport)
    requires body.queryResult.Some? && body.queryResult.value.intentName == Some(AdjustTransfersIntent)
    requires body.queryResult.value.parameters.Some?
    requires var wanted := if Truthy(Get(body.queryResult.value.parameters.value, "boolean")) then "" else LessWalking;
             forall q: DirectionsQuery | q.preference == wanted :: env.provider(q) == provider'(q)
    ensures Handle(Some(body), env) == Handle(Some(body), env.(provider := provider'))
  {
    var qr := body.queryResult.value;
    var contexts := ContextsOf(qr);
    AdjustPreference(qr, contexts, "boolean", env, provider');
    assert AdjustTransfers(qr, contexts, env) == AdjustTransfers(qr, contexts, env.(provider := provider'));
    assert Run(Some(body), env) == Run(Some(body), env.(provider := provider'));
  }

  /** No request ever asks the provider for "fewer_transfers": the reply never
      depends on how the provider would answer such a query. */
  lemma NeverFewerTransfers(request: Option<Body>, env: Env, provider': DirectionsQuery -> Transport)
    requires forall q: DirectionsQuery | q.preference != FewerTransfers :: env.provider(q) == provider'(q)
    ensures Handle(request, env) == Handle(request, env.(provider := provider'))
  {
    if request.Some? && request.value.queryResult.Some? {
      var body := request.value;
      var qr := body.queryResult.value;
      if qr.intentName == Some(GetRouteIntent) {
        InitialQueryHasNoPreference(body, env, provider');
      } else if qr.intentName == Some(AdjustWalkingIntent) && qr.parameters.Some? {
        WalkingRefinementPreference(body, env, provider');
      } else if qr.intentName == Some(AdjustTransfersIntent) && qr.parameters.Some? {
        TransfersRefinementPreference(body, env, provider');
      }
    }
  }

  /** A blank origin in an initial query is answered with 400 and the origin
      sentence, whatever the destination, the clock and the provider. */
  lemma BlankOriginReply(body: Body, env: Env)
    requires body.queryResult.Some? && body.queryResult.value.intentName == Some(GetRouteIntent)
    requires body.queryResult.value.parameters.Some?
    requires var origin := TripFrom(body.queryResult.value.parameters.value, env.now).origin;
             origin.Str? && Blank(origin.s)
    ensures Handle(Some(body), env) == Reply(400, "Please provide a valid origin.")
  {
    var trip := TripFrom(body.queryResult.value.parameters.value, env.now);
    ValidationComesFirst(trip.origin, trip.destination, trip.arrivalTime, false, false,
                         env.parseInstant, env.provider, env.parseInstant, env.provider);
    ErrorTableGaps();
  }

  /** When the provider times out, a well-formed initial query is answered with 504
      and the timeout sentence. */
  lemma ProviderTimeoutReply(body: Body, env: Env)
    requires body.queryResult.Some? && body.queryResult.value.intentName == Some(GetRouteIntent)
    requires body.queryResult.value.parameters.Some?
    requires var trip := TripFrom(body.queryResult.value.parameters.value, env.now);
             ValidateInput(trip.origin, trip.destination).Pass? && env.parseInstant(trip.arrivalTime).Some?
    requires forall q: DirectionsQuery | q.preference == "" :: env.provider(q).AxiosFailed? && env.provider(q).code == Some("ECONNABORTED")
    ensures Handle(Some(body), env) == Reply(504, "Request timed out. Please try again.")
  {
    ErrorTableGaps();
  }

  /** When the provider reports ZERO_RESULTS, a well-formed initial query is answered
      with 400 and the no-routes sentence. */
  lemma ZeroResultsReply(body: Body, env: Env)
    requires body.queryResult.Some? && body.queryResult.value.intentName == Some(GetRouteIntent)
    requires body.queryResult.value.parameters.Some?
    requires var trip := TripFrom(body.queryResult.value.parameters.value, env.now);
             ValidateInput(trip.origin, trip.destination).Pass? && env.parseInstant(trip.arrivalTime).Some?
    requires forall q: DirectionsQuery | q.preference == "" :: env.provider(q).Delivered? && env.provider(q).response.status == "ZERO_RESULTS"
    ensures Handle(Some(body), env) == Reply(400, "No routes found. Try a different time or destination.")
  {
    var trip := TripFrom(body.queryResult.value.parameters.value, env.now);
    DeliveredResponseChecked(trip.origin, trip.destination, trip.arrivalTime, false, false, env.parseInstant, env.provider);
    ErrorTableGaps();
  }
}
