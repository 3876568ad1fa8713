# Ljubljana transit webhook: a Dafny model

This project models the Dialogflow fulfilment webhook of the Ljubljana transit
assistant (`app/api/dialogflow/webhook/route.ts`). The webhook takes a Dialogflow
request and dispatches on its intent: `GET_route`, `adjust-for-walking` or
`adjust_for_transfers`. It checks the origin and destination and converts the
arrival time. It asks the Google Directions API for bus itineraries, reduces each
returned route to its bus segments with walking connectors, and renders them as
"Route Option N" text. On failure it replies with a fixed sentence per error code
and that error's HTTP status.

Everything in that file is pure logic over request-scoped values. It is modelled
as datatypes, functions and lemmas, one module per component:

- `Wrappers`: `Option`, `Result`, `Outcome`.
- `Text`: the JavaScript string operations used (`trim`, `endsWith`, `join`, and
  decimal rendering of a number).
- `Json`: parameter-bag values and JavaScript truthiness (`||`).
- `Errors`: `RouteError`, and `Thrown`, the three kinds of thing the code can throw.
- `Validation`: `validateInput`.
- `Reducer`: the step-to-segment reducer inside `fetchBusRoutes`.
- `Render`: `formatRoutes`.
- `Directions`: the rest of `fetchBusRoutes`. That is the routing preference, the
  provider status checks and the `catch` that classifies failures.
- `Webhook`: `POST`, the intent dispatcher and its error-message table.

Three things from outside are parameters, bundled in `Webhook.Env`:

- the HTTP request to the provider: `provider: DirectionsQuery -> Transport`,
  which yields a response or an `AxiosError`;
- JavaScript date parsing: `parseInstant: Value -> Option<int>`, in epoch
  milliseconds, with `None` for an invalid date;
- the current time as an ISO string: `now`.

Every `function` is deterministic, so rendering the same itineraries twice gives
the same text by construction.

The model follows the code as written, including these behaviours:

- An unparsable arrival time throws a plain `Error`. It surfaces as
  `INTERNAL_ERROR`/500, and `INVALID_TIME` is never raised
  (`Directions.UnparsableTimeIsInternal`, `Directions.FetchBusRoutes`).
- A `GET_route` whose fetch fails is answered with the error reply, not with the
  generic reply. Only an empty result falls through to the generic reply
  (`Webhook.FailedQueryIsError`, `Webhook.EmptyRoutesFallBack`). The two
  refinements behave the same way (`Webhook.FailedRefinementIsError`,
  `Webhook.EmptyRefinementFallsBack`).
- `adjust_for_transfers` passes its flag in the `lessWalking` position. So it asks
  for `less_walking` or for no preference, and no request ever asks for
  `fewer_transfers` (`Webhook.TransfersRefinementPreference`,
  `Webhook.NeverFewerTransfers`).
- Three codes have no sentence in the table and get the default sentence:
  `INVALID_REQUEST`, `INVALID_RESPONSE` and `NO_ROUTE_CONTEXT`
  (`Webhook.ErrorTableGaps`).
- The walk-to-stop connector goes on the segment built from the route's first
  TRANSIT step, and only when the walking step's text is non-empty. If that first
  step has no `transit_details`, no segment carries the connector. The
  walk-from-stop connector behaves the same way at the last TRANSIT step
  (`Reducer.ReduceStepsConnectors`).
- A refinement uses the first context whose name ends in
  `/contexts/route_requested`, and later matching contexts are never looked at.
  If that first match has no parameters, the refinement fails with
  `NO_ROUTE_CONTEXT` even when a later match has them
  (`Webhook.FindRouteContext`, `Webhook.MissingRouteContext`).
- `validateInput` rejects an undefined origin or destination with its own code,
  because `undefined?.trim()` short-circuits. `POST` never passes undefined, since
  it replaces a missing or falsy parameter with `''` (`Webhook.TripFrom`).

## Model

| member | source | states |
|---|---|---|
| `Validation.TrimCheck` | app/api/dialogflow/webhook/route.ts:80-86 | `!v?.trim()`: a string passes exactly when it is not all whitespace. Undefined or a blank string fails with the given code at status 400, exactly in those cases. A boolean, number or object throws a plain error (`trim` is not a function), exactly in those cases. |
| `Validation.ValidateInput` | app/api/dialogflow/webhook/route.ts:79-87 | It passes exactly when both values are non-blank strings. INVALID_ORIGIN/400 comes exactly when the origin is undefined or blank, whatever the destination. INVALID_DESTINATION/400 comes exactly when the origin passed and the destination is undefined or blank. A plain error comes exactly when the origin, or the destination after a passing origin, is a boolean, number or object. |
| `Text.TrimEmptyIffBlank` | app/api/dialogflow/webhook/route.ts:80-86 | `s.trim()` is empty exactly when every character of `s` is JavaScript whitespace. |
| `Text.JoinSnoc` | app/api/dialogflow/webhook/route.ts:214-217 | Joining one more part appends the separator and then that part. |
| `Text.NatToStringRoundTrip` | app/api/dialogflow/webhook/route.ts:204-215 | The decimal text of a route number parses back to that number. |
| `Reducer.FindPureWalking` | app/api/dialogflow/webhook/route.ts:149 | It returns the first WALKING step without transit details. It returns None exactly when there is no such step. |
| `Reducer.Reverse` | app/api/dialogflow/webhook/route.ts:151 | `[...steps].reverse()`: same length, and element k is element n-1-k of the input. |
| `Reducer.LastPureWalkingIsLast` | app/api/dialogflow/webhook/route.ts:151 | Finding in the reversed steps gives a pure-walking step that no later pure-walking step follows. It gives None exactly when there is no pure-walking step. |
| `Reducer.TransitSteps` | app/api/dialogflow/webhook/route.ts:150 | The filter keeps only TRANSIT steps and never grows the list. |
| `Reducer.TransitStepsKept` | app/api/dialogflow/webhook/route.ts:150 | Every TRANSIT step of the route is kept, and every kept step is one of the route's steps. The result is empty exactly when the route has no TRANSIT step. |
| `Reducer.TransitStepsFirst` | app/api/dialogflow/webhook/route.ts:150-171 | `transitSteps[0]` is the route's first TRANSIT step: no TRANSIT step comes before it. So index 0 in the map callback means the first TRANSIT step. |
| `Reducer.TransitStepsLast` | app/api/dialogflow/webhook/route.ts:150-174 | The last element of `transitSteps` is the route's last TRANSIT step: no TRANSIT step comes after it. So the last index in the map callback means the last TRANSIT step. |
| `Reducer.BoardableOfTransit` | app/api/dialogflow/webhook/route.ts:150-156 | Filtering on TRANSIT first loses no transit step that has details. |
| `Reducer.BuildSegmentsCarry` | app/api/dialogflow/webhook/route.ts:155-176 | After dropping nulls, the segments correspond one to one, in order, to the transit steps with details. Each segment copies its step's bus, headsign, stops, times, duration and stop count. |
| `Reducer.BuildSegmentsWalkTo` | app/api/dialogflow/webhook/route.ts:169-171 | Only the first segment can carry the walk to the stop, and only when it was built from transit index 0. Every other segment says "Stay at the same stop". |
| `Reducer.BuildSegmentsWalkFrom` | app/api/dialogflow/webhook/route.ts:172-174 | Only the last segment can carry the walk from the stop, and only when it was built from the last transit index. Such a step always yields a segment. |
| `Reducer.ReduceStepsSegments` | app/api/dialogflow/webhook/route.ts:146-178 | A route is kept exactly when some TRANSIT step has details. A kept route has one segment per such step, in step order. |
| `Reducer.ReduceStepsConnectors` | app/api/dialogflow/webhook/route.ts:149-174 | For every segment of a kept route, both connector values are given exactly: the first or last pure-walking step's non-empty duration text at the first or last TRANSIT position, "Stay at the same stop" everywhere else. |
| `Reducer.SingleTransitGetsBothConnectors` | app/api/dialogflow/webhook/route.ts:169-174 | A route with one TRANSIT step that has details gives one segment carrying both connectors. |
| `Reducer.ReduceSteps` | app/api/dialogflow/webhook/route.ts:146-178 | A route with no TRANSIT step reduces to null. A kept route has at least one segment. |
| `Reducer.ReduceRoutes` | app/api/dialogflow/webhook/route.ts:146-179 | Never more itineraries than routes, and every itinerary is non-empty. |
| `Reducer.ReduceRoutesAppend` | app/api/dialogflow/webhook/route.ts:146-179 | Reduction distributes over concatenation, so kept itineraries keep their routes' order. |
| `Reducer.ReduceRoutesEmptyIff` | app/api/dialogflow/webhook/route.ts:146-179 | The result is empty exactly when no route has a TRANSIT step with details. |
| `Reducer.WalkRideWalk` | app/api/dialogflow/webhook/route.ts:146-179 | [walk 5 mins, bus 12 with 3 stops, walk 2 mins] reduces to one segment with walk-to "5 mins", walk-from "2 mins" and 3 stops. |
| `Reducer.WalkingOnlyRouteDropped` | app/api/dialogflow/webhook/route.ts:153-179 | A walking-only route next to a kept route is dropped. |
| `Render.FormatSegments` | app/api/dialogflow/webhook/route.ts:205-213 | One text block per segment, in order. |
| `Render.OptionBlocks` | app/api/dialogflow/webhook/route.ts:202-216 | One block per itinerary. Block k is the itinerary's text under the header with number first+k. |
| `Render.FormatRoutes` | app/api/dialogflow/webhook/route.ts:201-218 | The text is empty exactly when there are no itineraries. Otherwise it opens with "Route Option 1:". |
| `Text.JoinStartsWithFirst` | app/api/dialogflow/webhook/route.ts:202-217 | A join of one or more parts opens with its first part. |
| `Render.FormatRoutesSmall` | app/api/dialogflow/webhook/route.ts:201-218 | No itineraries render as the empty text. One itinerary renders as "Route Option 1". |
| `Render.FormatRoutesSnoc` | app/api/dialogflow/webhook/route.ts:201-218 | Adding an itinerary appends "\n\n\n" and its block, numbered one past all earlier blocks. So the headers run 1..n in order. |
| `Render.OptionHeaderNumber` | app/api/dialogflow/webhook/route.ts:204-215 | Every block opens with its "Route Option k:" header, and k parses back from the header. |
| `Render.WalkingOnlyRouteNotRendered` | app/api/dialogflow/webhook/route.ts:201-218 | A riding route next to a walking-only route renders as exactly one option block. |
| `Directions.RoutingPreference` | app/api/dialogflow/webhook/route.ts:106-113 | "fewer_transfers" exactly when lessTransfers is set. "less_walking" exactly when only lessWalking is set. "" exactly when neither is set. |
| `Directions.AllSteps` | app/api/dialogflow/webhook/route.ts:146-147 | It gives every route's `legs[0].steps`, in order, exactly when every route has them. |
| `Directions.ProcessResponse` | app/api/dialogflow/webhook/route.ts:134-182 | ZERO_RESULTS gives NO_ROUTES. Otherwise INVALID_REQUEST gives INVALID_REQUEST. Otherwise missing first steps give INVALID_RESPONSE. A response that passes all three checks, with steps on every route, succeeds with the reduction of every route, and any success is that reduction. |
| `Directions.Classify` | app/api/dialogflow/webhook/route.ts:183-197 | A RouteError passes unchanged. ECONNABORTED gives TIMEOUT/504. A 403 response gives AUTH_ERROR/403. Anything else gives INTERNAL_ERROR/500. |
| `Directions.TryFetch` | app/api/dialogflow/webhook/route.ts:97-182 | Every RouteError raised inside the `try` is one of INVALID_ORIGIN, INVALID_DESTINATION, NO_ROUTES, INVALID_REQUEST or INVALID_RESPONSE, all at 400. After both inputs validate and the time parses, the one request is sent: a delivered response is processed, and a failed request is passed on as that Axios error. A success or an Axios error happens only on that path. |
| `Directions.FetchBusRoutes` | app/api/dialogflow/webhook/route.ts:90-198 | Every failure is one of eight classified (code, status) pairs and never INVALID_TIME. Success implies both inputs were non-blank strings, and every itinerary returned is non-empty. |
| `Directions.ValidationComesFirst` | app/api/dialogflow/webhook/route.ts:97-100 | A rejected input fails the same way whatever the parser and the provider would say: INVALID_ORIGIN/400 before INVALID_DESTINATION/400. |
| `Directions.UnparsableTimeIsInternal` | app/api/dialogflow/webhook/route.ts:69-77 | An arrival time the parser rejects gives INTERNAL_ERROR/500. |
| `Directions.TransportFailureClassified` | app/api/dialogflow/webhook/route.ts:183-197 | A failed request gives TIMEOUT/504, AUTH_ERROR/403 or INTERNAL_ERROR/500 depending on its code and status. |
| `Directions.DeliveredResponseChecked` | app/api/dialogflow/webhook/route.ts:134-182 | A delivered response goes through the status checks in order. When it passes them with steps on every route, the fetch succeeds with the reduction of every route, and any success is that reduction. A later route without steps gives INTERNAL_ERROR/500. |
| `Directions.OnlyChosenPreferenceConsulted` | app/api/dialogflow/webhook/route.ts:106-128 | The result depends only on the provider's answers to queries that carry the chosen preference. |
| `Webhook.ReplyMessage` | app/api/dialogflow/webhook/route.ts:350-369 | `errorMessages[code] \|\| default`: a code in the table gets its own sentence. Any other code gets the default sentence. The sentence is never empty. |
| `Webhook.ArrivalTime` | app/api/dialogflow/webhook/route.ts:230-231 | The arrival time is always truthy. Without a truthy `time_preference` it is the current time. With one, it is that object's truthy `date_time`, or "No arrival time set" when that is missing or falsy. |
| `Webhook.TripFrom` | app/api/dialogflow/webhook/route.ts:230-234 | Origin and destination are the bag's values when truthy and `''` otherwise, so neither is ever undefined. The arrival time is `ArrivalTime` of the same bag. |
| `Webhook.GetRoute` | app/api/dialogflow/webhook/route.ts:229-256 | It throws a plain error exactly when `parameters` is missing. Every other failure is a fetch error. It falls through with no text exactly when the fetch returned no itinerary. |
| `Webhook.Adjust` | app/api/dialogflow/webhook/route.ts:258-295 | NO_ROUTE_CONTEXT/400 comes exactly when the lookup succeeds but finds no context, or finds one without parameters. Every failure is a plain error or a dispatch error. A success used the first route_requested context's parameters, and its flag is `!parameters[flagKey]`. With that context, the fetch is made with its parameters and that flag: the result is empty exactly when the fetch returns no itinerary, and a failed fetch is passed on as its error. |
| `Webhook.FindRouteContext` | app/api/dialogflow/webhook/route.ts:264-266 | A found context is the first one whose name ends in `/contexts/route_requested`: every context before it is named and does not match. It gives None exactly when every context is named and none matches. It throws exactly when an unnamed context comes before any match. |
| `Webhook.Run` | app/api/dialogflow/webhook/route.ts:222-345 | Every failure is a plain exception or a RouteError whose (code, status) is a fetch error or NO_ROUTE_CONTEXT/400. |
| `Webhook.Handle` | app/api/dialogflow/webhook/route.ts:346-374 | Every request gets a reply with status 200, 400, 403, 500 or 504. The status is 200 exactly when the dispatch succeeded, and then the reply carries its text. |
| `Webhook.ErrorTableGaps` | app/api/dialogflow/webhook/route.ts:350-369 | INVALID_REQUEST, INVALID_RESPONSE and NO_ROUTE_CONTEXT get the default sentence. The other raised codes get their own sentence. |
| `Webhook.FailureReply` | app/api/dialogflow/webhook/route.ts:346-373 | A RouteError keeps its status and gets its code's sentence. Any other exception becomes UNKNOWN/500 with the default sentence. |
| `Webhook.UnknownIntentFallsBack` | app/api/dialogflow/webhook/route.ts:336-344 | An unrecognised or absent intent gets 200 and the generic reply echoing the intent name. |
| `Webhook.EmptyRoutesFallBack` | app/api/dialogflow/webhook/route.ts:241-256 | A GET_route that finds no itinerary falls through to the generic reply naming "GET_route". |
| `Webhook.FailedQueryIsError` | app/api/dialogflow/webhook/route.ts:241-256 | A GET_route whose fetch fails is answered with that error's status and sentence. |
| `Webhook.MissingRouteContext` | app/api/dialogflow/webhook/route.ts:264-270 | A refinement whose lookup finds no route_requested context, or whose first match has no parameters, gets 400 and the default sentence, whatever later contexts hold. |
| `Webhook.FoundRoutesReply` | app/api/dialogflow/webhook/route.ts:241-254 | A GET_route whose fetch returns itineraries is answered 200 with "I found the following bus routes to <destination>:", the rendered routes and the follow-up question. |
| `Webhook.AdjustFound` | app/api/dialogflow/webhook/route.ts:260-287 | A refinement whose first route_requested context has parameters fetches with them, `!parameters[flagKey]` in the less-walking position. When itineraries come back it keeps that flag and the rendered routes. |
| `Webhook.WalkingAdjustedReply` | app/api/dialogflow/webhook/route.ts:258-293 | adjust-for-walking with itineraries is answered 200, "to minimize walking" when `walking` is falsy and "to maximise walking" otherwise, over the routes fetched with that flag. |
| `Webhook.TransfersAdjustedReply` | app/api/dialogflow/webhook/route.ts:297-332 | adjust_for_transfers with itineraries is answered 200, "to maximse transfers" when `boolean` is falsy and "to minimize transfers" otherwise, over the routes fetched with that flag as lessWalking. |
| `Webhook.RefinementDispatch` | app/api/dialogflow/webhook/route.ts:258-344 | A refinement dispatches through `Adjust` with its own flag key. An empty adjustment falls through to the generic reply naming the intent, and a failure is passed on unchanged. |
| `Webhook.EmptyRefinementFallsBack` | app/api/dialogflow/webhook/route.ts:280-344 | A refinement whose fetch returns no itinerary falls through to 200 and the generic reply naming the intent. |
| `Webhook.FailedRefinementIsError` | app/api/dialogflow/webhook/route.ts:280-373 | A refinement whose fetch fails is answered with that error's status and sentence. |
| `Webhook.InitialQueryHasNoPreference` | app/api/dialogflow/webhook/route.ts:241 | GET_route only consults the provider on queries with no preference. |
| `Webhook.AdjustPreference` | app/api/dialogflow/webhook/route.ts:258-280 | A refinement only consults the provider on "less_walking" when its flag parameter is falsy, and on "" otherwise. |
| `Webhook.WalkingRefinementPreference` | app/api/dialogflow/webhook/route.ts:258-280 | adjust-for-walking asks for "less_walking" exactly when `walking` is falsy. |
| `Webhook.TransfersRefinementPreference` | app/api/dialogflow/webhook/route.ts:297-319 | adjust_for_transfers asks for "less_walking" when `boolean` is falsy, and for "" otherwise. It never asks for "fewer_transfers". |
| `Webhook.NeverFewerTransfers` | app/api/dialogflow/webhook/route.ts:222-334 | No reply depends on how the provider would answer a "fewer_transfers" query. |
| `Webhook.BlankOriginReply` | app/api/dialogflow/webhook/route.ts:229-241 | A GET_route with a blank origin gets 400 "Please provide a valid origin.", whatever else holds. |
| `Webhook.ProviderTimeoutReply` | app/api/dialogflow/webhook/route.ts:187-189 | When the provider times out on queries with no preference, a valid GET_route gets 504 "Request timed out. Please try again.". |
| `Webhook.ZeroResultsReply` | app/api/dialogflow/webhook/route.ts:134-136 | When the provider reports ZERO_RESULTS for queries with no preference, a valid GET_route gets 400 with the no-routes sentence. |

## Left out

- The HTTP request to the Directions API is not modelled: `axios.get`, its URL,
  its 5-second timeout, the constant parameters (`mode=transit`,
  `transit_mode=bus`, `alternatives=true`) and the API key read from the
  environment. The request is the `provider` parameter. `DirectionsQuery` carries
  only the parameters that vary between calls.
- JavaScript `Date` parsing is not modelled. `new Date(x).getTime()` is the
  `parseInstant` parameter. `Math.floor(ms / 1000)` becomes integer division
  by 1000, which floors because the divisor is positive.
- The wall clock is not modelled: `new Date().toISOString()` is the `now` string
  parameter.
- Logging is left out: `console.log` and `console.error` have no observable effect
  on the reply.
- The Next.js plumbing is left out: `NextRequest.json()` is an `Option<Body>`, with
  `None` for a body that is not JSON. `NextResponse.json` becomes `Reply(status,
  text)`, which holds the single fulfilment text.
- `RouteError` messages are not modelled, because no reply shows them.
- Provider fields that the reducer never reads are left out. These are stop
  locations, agencies, vehicle, time zones and numeric values, `duration.value`,
  `html_instructions`, and every leg but the first.
- JSON values are simplified. Numbers are integers, so NaN and fractions are
  absent. `null` and `undefined` are one value. A non-array where an array is
  expected (`routes`, `steps`, `outputContexts`) is not represented. Neither is a
  non-string intent name or context name.
- `num_stops` is a natural number.
- The provider fields the reducer reads are assumed present and well typed:
  `duration.text`, `transit_details.line.short_name`, `headsign`, `num_stops`, the
  departure and arrival stops' `name` and the times' `text`. In the code, a
  missing `duration` of the walk, `line`, stop or time object throws a
  `TypeError`, which becomes `INTERNAL_ERROR`/500. A missing `short_name`,
  `headsign` or `num_stops` is rendered as "undefined". Neither path is modelled.
- `Json.Value` has no array case. A list-valued parameter, for which `trim`
  throws a `TypeError`, is not represented.
- The rest of the repository is not part of this model: the map, chat and
  schedule UI components, the page, and the Dialogflow client.
