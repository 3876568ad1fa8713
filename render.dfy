/** `formatRoutes`: the reduced itineraries as "Route Option N" text. */
module Render {
  import opened Text
  import opened Reducer

  /** Separator between the blocks of two route options. */
  const OptionSeparator: string := "\n\n\n"

  /** The six-line block of one bus segment (the template literal's continuation
      lines are indented by eight spaces). */
  function FormatSegment(seg: Segment): string {
    "Bus " + seg.busNumber + " towards " + seg.headsign + ":\n"
    + "        - Walk to stop: " + seg.walkToStop + "\n"
    + "        - Departure: " + seg.departureStop + " at " + seg.departureTime + "\n"
    + "        - Arrival: " + seg.arrivalStop + " at " + seg.arrivalTime + "\n"
    + "        - Walk from stop: " + seg.walkFromStop + "\n"
    + "        - Duration: " + seg.duration + " (" + NatToString(seg.numStops) + " stops)"
  }

  /** `routeSegments.map(formatSegment)` */
  function FormatSegments(segs: seq<Segment>): (r: seq<string>)
    ensures |r| == |segs|
    ensures forall k | 0 <= k < |segs| :: r[k] == FormatSegment(segs[k])
  {
    if segs == [] then [] else [FormatSegment(segs[0])] + FormatSegments(segs[1..])
  }

  function Header(routeNumber: nat): string {
    "Route Option " + NatToString(routeNumber) + ":\n"
  }

  /** The block of one itinerary: its header, then its segments one per line. */
  function FormatOption(routeNumber: nat, segs: Itinerary): string {
    Header(routeNumber) + Join(FormatSegments(segs), "\n")
  }

  /** `routes.map((routeSegments, routeIndex) => ...)` with route numbers counted from `first`. */
  function OptionBlocks(routes: seq<Itinerary>, first: nat): (r: seq<string>)
    ensures |r| == |routes|
    ensures forall k | 0 <= k < |routes| :: r[k] == FormatOption(first + k, routes[k])
  {
    if routes == [] then [] else [FormatOption(first, routes[0])] + OptionBlocks(routes[1..], first + 1)
  }

  /** `formatRoutes(routes)` */
  function FormatRoutes(routes: seq<Itinerary>): (text: string)
    ensures text == "" <==> |routes| == 0
    ensures |routes| > 0 ==> Header(1) <= text
  {
    var blocks := OptionBlocks(routes, 1);
    if |blocks| > 0 then
      JoinStartsWithFirst(blocks, OptionSeparator);
      assert Header(1) <= blocks[0];
      Join(blocks, OptionSeparator)
    else
      Join(blocks, OptionSeparator)
  }

  /** No itinerary renders as empty text; one renders as its own block, numbered 1. */
  lemma FormatRoutesSmall(r: Itinerary)
    ensures FormatRoutes([]) == ""
    ensures FormatRoutes([r]) == FormatOption(1, r)
  {
  }

  /** One more itinerary appends the separator and one more block, numbered
      after all the earlier ones: the headers run 1, 2, ..., n in order. */
  lemma FormatRoutesSnoc(routes: seq<Itinerary>, r: Itinerary)
    requires |routes| > 0
    ensures FormatRoutes(routes + [r]) == FormatRoutes(routes) + OptionSeparator + FormatOption(|routes| + 1, r)
  {
    var blocks, last := OptionBlocks(routes, 1), FormatOption(|routes| + 1, r);
    var all := OptionBlocks(routes + [r], 1);
    assert |all| == |blocks + [last]|;
    forall k | 0 <= k < |all| ensures all[k] == (blocks + [last])[k] {
      if k < |routes| {
        assert (routes + [r])[k] == routes[k];
      }
    }
    assert all == blocks + [last];
    JoinSnoc(blocks, last, OptionSeparator);
  }

  /** Each block opens with its header, and the number in a header reads back as
      the block's position, so two blocks never share a number. */
  lemma OptionHeaderNumber(routeNumber: nat, segs: Itinerary)
    ensures |Header(routeNumber)| <= |FormatOption(routeNumber, segs)|
    ensures FormatOption(routeNumber, segs)[..|Header(routeNumber)|] == Header(routeNumber)
    ensures ParseDecimal(Header(routeNumber)[13..|Header(routeNumber)| - 2]) == routeNumber
  {
    var h := Header(routeNumber);
    assert h[13..|h| - 2] == NatToString(routeNumber);
    NatToStringRoundTrip(routeNumber);
  }

  /** A riding route beside a walking-only route renders as a single option block. */
  lemma WalkingOnlyRouteNotRendered(ride: seq<Step>, walk: seq<Step>)
    requires ReduceSteps(ride).Some?
    requires forall i | 0 <= i < |walk| :: walk[i].travelMode == "WALKING"
    ensures FormatRoutes(ReduceRoutes([ride, walk])) == FormatOption(1, ReduceSteps(ride).value)
  {
    WalkingOnlyRouteDropped(ride, walk);
    FormatRoutesSmall(ReduceSteps(ride).value);
  }
}
