/** The itinerary reducer: the body of `routes.map(...)` in `fetchBusRoutes`, which
    turns each provider route's steps into bus segments with walking connectors,
    and the `.filter(route => route !== null)` that drops routes without transit. */
module Reducer {
  import opened Wrappers

  /** The fields of a step's `transit_details` that a segment copies. */
  datatype TransitDetails = TransitDetails(
    lineShortName: string,
    headsign: string,
    departureStop: string,
    departureTime: string,
    arrivalStop: string,
    arrivalTime: string,
    numStops: nat)

  /** A provider step: `travel_mode`, `duration.text` and the optional `transit_details`. */
  datatype Step = Step(travelMode: string, durationText: string, transitDetails: Option<TransitDetails>)

  /** One boardable bus ride of an itinerary. */
  datatype Segment = Segment(
    busNumber: string,
    headsign: string,
    departureStop: string,
    departureTime: string,
    arrivalStop: string,
    arrivalTime: string,
    duration: string,
    numStops: nat,
    walkToStop: string,
    walkFromStop: string)

  type Itinerary = seq<Segment>

  /** The connector text of a segment that has no adjacent walk. */
  const StayAtStop: string := "Stay at the same stop"

  predicate IsTransit(step: Step) {
    step.travelMode == "TRANSIT"
  }

  /** `step.travel_mode === 'WALKING' && !step.transit_details` */
  predicate IsPureWalking(step: Step) {
    step.travelMode == "WALKING" && step.transitDetails.None?
  }

  /** A transit step that carries the details a segment is built from. */
  predicate IsBoardable(step: Step) {
    IsTransit(step) && step.transitDetails.Some?
  }

  /** `steps.find(isPureWalking)`: the first pure-walking step, if any. */
  function FindPureWalking(steps: seq<Step>): (r: Option<Step>)
    ensures r.None? <==> forall i | 0 <= i < |steps| :: !IsPureWalking(steps[i])
    ensures r.Some? ==> exists i | 0 <= i < |steps| :: steps[i] == r.value && IsPureWalking(r.value)
                          && forall j | 0 <= j < i :: !IsPureWalking(steps[j])
  {
    if steps == [] then None
    else if IsPureWalking(steps[0]) then Some(steps[0])
    else
      var r := FindPureWalking(steps[1..]);
      assert r.Some? ==> exists i | 0 <= i < |steps| :: steps[i] == r.value && IsPureWalking(r.value)
                           && forall j | 0 <= j < i :: !IsPureWalking(steps[j]) by {
        if r.Some? {
          var i :| 0 <= i < |steps| - 1 && steps[1..][i] == r.value && IsPureWalking(r.value)
                   && forall j | 0 <= j < i :: !IsPureWalking(steps[1..][j]);
          assert forall j | 0 <= j < i + 1 :: !IsPureWalking(steps[j]) by {
            forall j | 0 <= j < i + 1 ensures !IsPureWalking(steps[j]) {
              if j > 0 { assert steps[j] == steps[1..][j - 1]; }
            }
          }
        }
      }
      r
  }

  /** `[...steps].reverse()` */
  function Reverse(steps: seq<Step>): (r: seq<Step>)
    ensures |r| == |steps|
    ensures forall k | 0 <= k < |steps| :: r[k] == steps[|steps| - 1 - k]
  {
    if steps == [] then [] else Reverse(steps[1..]) + [steps[0]]
  }

  /** `[...steps].reverse().find(isPureWalking)`: the last pure-walking step, if any. */
  function FindLastPureWalking(steps: seq<Step>): Option<Step> {
    FindPureWalking(Reverse(steps))
  }

  lemma LastPureWalkingIsLast(steps: seq<Step>)
    ensures FindLastPureWalking(steps).None? <==> forall i | 0 <= i < |steps| :: !IsPureWalking(steps[i])
    ensures FindLastPureWalking(steps).Some? ==>
              exists i | 0 <= i < |steps| :: steps[i] == FindLastPureWalking(steps).value
                && IsPureWalking(steps[i]) && forall j | i < j < |steps| :: !IsPureWalking(steps[j])
  {
    var rev := Reverse(steps);
    var n := |steps|;
    assert forall i | 0 <= i < n :: steps[i] == rev[n - 1 - i];
    var r := FindPureWalking(rev);
    if r.Some? {
      var k :| 0 <= k < n && rev[k] == r.value && IsPureWalking(r.value)
               && forall j | 0 <= j < k :: !IsPureWalking(rev[j]);
      var i := n - 1 - k;
      assert steps[i] == r.value;
      forall j | i < j < n ensures !IsPureWalking(steps[j]) {
        assert steps[j] == rev[n - 1 - j];
      }
    }
  }

  /** `steps.filter(step => step.travel_mode === 'TRANSIT')` */
  function TransitSteps(steps: seq<Step>): (r: seq<Step>)
    ensures |r| <= |steps|
    ensures forall k | 0 <= k < |r| :: IsTransit(r[k])
  {
    if steps == [] then []
    else if IsTransit(steps[0]) then [steps[0]] + TransitSteps(steps[1..])
    else TransitSteps(steps[1..])
  }

  /** The filter keeps every TRANSIT step and nothing that is not one of the steps;
      it is empty exactly when the route has no TRANSIT step. */
  lemma {:induction false} TransitStepsKept(steps: seq<Step>)
    ensures forall k | 0 <= k < |TransitSteps(steps)| :: TransitSteps(steps)[k] in steps
    ensures forall i | 0 <= i < |steps| && IsTransit(steps[i]) :: steps[i] in TransitSteps(steps)
    ensures TransitSteps(steps) == [] <==> forall i | 0 <= i < |steps| :: !IsTransit(steps[i])
  {
    if steps != [] {
      TransitStepsKept(steps[1..]);
      assert forall i | 1 <= i < |steps| :: steps[i] == steps[1..][i - 1];
    }
  }

  /** `steps[i]` is the route's first TRANSIT step. */
  predicate FirstTransitAt(steps: seq<Step>, i: int) {
    0 <= i < |steps| && IsTransit(steps[i]) && forall j | 0 <= j < i :: !IsTransit(steps[j])
  }

  /** `steps[i]` is the route's last TRANSIT step. */
  predicate LastTransitAt(steps: seq<Step>, i: int) {
    0 <= i < |steps| && IsTransit(steps[i]) && forall j | i < j < |steps| :: !IsTransit(steps[j])
  }

  /** The filter keeps order at its front: `transitSteps[0]` is the first TRANSIT step. */
  lemma {:induction false} TransitStepsFirst(steps: seq<Step>)
    ensures var t := TransitSteps(steps);
            |t| > 0 ==> exists i :: FirstTransitAt(steps, i) && steps[i] == t[0]
  {
    if steps != [] && !IsTransit(steps[0]) {
      TransitStepsFirst(steps[1..]);
      var t := TransitSteps(steps[1..]);
      if |t| > 0 {
        var i :| FirstTransitAt(steps[1..], i) && steps[1..][i] == t[0];
        assert FirstTransitAt(steps, i + 1);
      }
    } else if steps != [] {
      assert FirstTransitAt(steps, 0);
    }
  }

  /** ... and at its back: the last element of `transitSteps` is the last TRANSIT step. */
  lemma {:induction false} TransitStepsLast(steps: seq<Step>)
    ensures var t := TransitSteps(steps);
            |t| > 0 ==> exists i :: LastTransitAt(steps, i) && steps[i] == t[|t| - 1]
  {
    if steps != [] {
      TransitStepsLast(steps[1..]);
      var rest := TransitSteps(steps[1..]);
      var t := TransitSteps(steps);
      assert t == (if IsTransit(steps[0]) then [steps[0]] else []) + rest;
      if |rest| > 0 {
        assert t[|t| - 1] == rest[|rest| - 1];
        var i :| LastTransitAt(steps[1..], i) && steps[1..][i] == rest[|rest| - 1];
        assert LastTransitAt(steps, i + 1);
      } else if IsTransit(steps[0]) {
        TransitStepsKept(steps[1..]);
        forall j | 0 < j < |steps| ensures !IsTransit(steps[j]) {
          assert steps[j] == steps[1..][j - 1];
        }
        assert LastTransitAt(steps, 0);
      }
    }
  }

  /** The transit steps that carry details, in order: what the segments are built from. */
  function Boardable(steps: seq<Step>): (r: seq<Step>)
    ensures forall k | 0 <= k < |r| :: IsBoardable(r[k])
  {
    if steps == [] then []
    else if IsBoardable(steps[0]) then [steps[0]] + Boardable(steps[1..])
    else Boardable(steps[1..])
  }

  /** `walk?.duration.text` when that text is truthy. */
  function ConnectorText(walk: Option<Step>): Option<string> {
    if walk.Some? && walk.value.durationText != "" then Some(walk.value.durationText) else None
  }

  /** The callback of `transitSteps.map((step, index) => ...)`: null for a step
      without details, otherwise the segment, with the walk to the stop only at
      index 0 and the walk from the stop only at the last index. */
  function SegmentAt(step: Step, index: nat, count: nat, walkTo: Option<string>, walkFrom: Option<string>): Option<Segment> {
    match step.transitDetails
    case None => None
    case Some(d) =>
      Some(Segment(
        d.lineShortName, d.headsign, d.departureStop, d.departureTime, d.arrivalStop, d.arrivalTime,
        step.durationText, d.numStops,
        if index == 0 && walkTo.Some? then walkTo.value else StayAtStop,
        if index == count - 1 && walkFrom.Some? then walkFrom.value else StayAtStop))
  }

  /** `transitSteps.map(SegmentAt).filter(segment => segment !== null)`, from index `start` on. */
  function BuildSegments(transit: seq<Step>, start: nat, walkTo: Option<string>, walkFrom: Option<string>): seq<Segment>
    requires start <= |transit|
    decreases |transit| - start
  {
    if start == |transit| then []
    else
      var here := SegmentAt(transit[start], start, |transit|, walkTo, walkFrom);
      (if here.Some? then [here.value] else []) + BuildSegments(transit, start + 1, walkTo, walkFrom)
  }

  lemma SegmentAtConnectors(step: Step, index: nat, count: nat, walkTo: Option<string>, walkFrom: Option<string>)
    ensures SegmentAt(step, index, count, walkTo, walkFrom).Some? <==> step.transitDetails.Some?
    ensures SegmentAt(step, index, count, walkTo, walkFrom).Some? ==>
              var seg := SegmentAt(step, index, count, walkTo, walkFrom).value;
              && seg.walkToStop == (if index == 0 && walkTo.Some? then walkTo.value else StayAtStop)
              && seg.walkFromStop == (if index == count - 1 && walkFrom.Some? then walkFrom.value else StayAtStop)
  {
  }

  /** The reduction of one route's steps: null when it has no transit step, or when
      none of its transit steps carries details. */
  function ReduceSteps(steps: seq<Step>): (r: Option<Itinerary>)
    ensures (forall i | 0 <= i < |steps| :: !IsTransit(steps[i])) ==> r.None?
    ensures r.Some? ==> |r.value| > 0
  {
    TransitStepsKept(steps);
    var walkTo := FindPureWalking(steps);
    var transit := TransitSteps(steps);
    var walkFrom := FindLastPureWalking(steps);
    if |transit| == 0 then None
    else
      var segments := BuildSegments(transit, 0, ConnectorText(walkTo), ConnectorText(walkFrom));
      if |segments| > 0 then Some(segments) else None
  }

  /** `routes.map(reduce).filter(route => route !== null)` over the routes' step lists. */
  function ReduceRoutes(routes: seq<seq<Step>>): (r: seq<Itinerary>)
    ensures |r| <= |routes|
    ensures forall i | 0 <= i < |r| :: |r[i]| > 0
  {
    if routes == [] then []
    else
      var head := ReduceSteps(routes[0]);
      (if head.Some? then [head.value] else []) + ReduceRoutes(routes[1..])
  }

  /** `seg` is the segment built from `step`: its bus, stops, times, duration and
      stop count are the step's. */
  predicate Carries(seg: Segment, step: Step) {
    && step.transitDetails.Some?
    && var d := step.transitDetails.value;
    && seg.busNumber == d.lineShortName
    && seg.headsign == d.headsign
    && seg.departureStop == d.departureStop
    && seg.departureTime == d.departureTime
    && seg.arrivalStop == d.arrivalStop
    && seg.arrivalTime == d.arrivalTime
    && seg.duration == step.durationText
    && seg.numStops == d.numStops
  }

  /** Filtering on TRANSIT first loses no boardable step. */
  lemma {:induction false} BoardableOfTransit(steps: seq<Step>)
    ensures Boardable(TransitSteps(steps)) == Boardable(steps)
  {
    if steps != [] {
      BoardableOfTransit(steps[1..]);
    }
  }

  lemma {:induction false} BoardableEmptyIffNone(steps: seq<Step>)
    ensures Boardable(steps) == [] <==> forall i | 0 <= i < |steps| :: !IsBoardable(steps[i])
  {
    if steps != [] {
      BoardableEmptyIffNone(steps[1..]);
      assert forall i | 1 <= i < |steps| :: steps[i] == steps[1..][i - 1];
    }
  }

  /** The segments built from `transit[start..]` are its boardable steps, in order. */
  lemma {:induction false} BuildSegmentsCarry(transit: seq<Step>, start: nat, walkTo: Option<string>, walkFrom: Option<string>)
    requires start <= |transit|
    requires forall k | 0 <= k < |transit| :: IsTransit(transit[k])
    decreases |transit| - start
    ensures var out := BuildSegments(transit, start, walkTo, walkFrom);
      && |out| == |Boardable(transit[start..])|
      && forall j | 0 <= j < |out| :: Carries(out[j], Boardable(transit[start..])[j])
  {
    if start < |transit| {
      BuildSegmentsCarry(transit, start + 1, walkTo, walkFrom);
      var here := SegmentAt(transit[start], start, |transit|, walkTo, walkFrom);
      var rest := BuildSegments(transit, start + 1, walkTo, walkFrom);
      var head := if here.Some? then [here.value] else [];
      var out := head + rest;
      assert out == BuildSegments(transit, start, walkTo, walkFrom);
      assert transit[start..] == [transit[start]] + transit[start + 1..];
      var bs := Boardable(transit[start..]);
      assert bs == (if IsBoardable(transit[start]) then [transit[start]] else []) + Boardable(transit[start + 1..]);
      forall j | 0 <= j < |out|
        ensures Carries(out[j], bs[j])
      {
        if j >= |head| {
          assert out[j] == rest[j - |head|];
          assert bs[j] == Boardable(transit[start + 1..])[j - |head|];
        } else {
          assert out[j] == here.value && bs[j] == transit[start];
        }
      }
    }
  }

  /** No segment of `segs` carries a walk to its stop. */
  predicate NoWalkTo(segs: seq<Segment>) {
    forall j | 0 <= j < |segs| :: segs[j].walkToStop == StayAtStop
  }

  /** Only the segment built from index 0 carries the walk to the stop; it is then
      the first segment. */
  lemma {:induction false} BuildSegmentsWalkTo(transit: seq<Step>, start: nat, walkTo: Option<string>, walkFrom: Option<string>)
    requires start <= |transit|
    decreases |transit| - start
    ensures var out := BuildSegments(transit, start, walkTo, walkFrom);
      && (start > 0 ==> NoWalkTo(out))
      && (start == 0 && |out| > 0 ==>
            && NoWalkTo(out[1..])
            && out[0].walkToStop == if transit[0].transitDetails.Some? && walkTo.Some? then walkTo.value else StayAtStop)
  {
    if start < |transit| {
      BuildSegmentsWalkTo(transit, start + 1, walkTo, walkFrom);
      var here := SegmentAt(transit[start], start, |transit|, walkTo, walkFrom);
      SegmentAtConnectors(transit[start], start, |transit|, walkTo, walkFrom);
      var rest := BuildSegments(transit, start + 1, walkTo, walkFrom);
      var head := if here.Some? then [here.value] else [];
      var out := head + rest;
      assert out == BuildSegments(transit, start, walkTo, walkFrom);
      assert NoWalkTo(rest);
      if here.Some? {
        assert out[1..] == rest;
      } else {
        assert out == rest;
      }
      if start > 0 {
        forall j | 0 <= j < |out| ensures out[j].walkToStop == StayAtStop {
          if j >= |head| { assert out[j] == rest[j - |head|]; }
        }
      }
    }
  }

  /** Only the segment built from the last index carries the walk from the stop; it
      is then the last segment. */
  lemma {:induction false} BuildSegmentsWalkFrom(transit: seq<Step>, start: nat, walkTo: Option<string>, walkFrom: Option<string>)
    requires start <= |transit|
    decreases |transit| - start
    ensures var out := BuildSegments(transit, start, walkTo, walkFrom);
      && (start < |transit| && transit[|transit| - 1].transitDetails.Some? ==> |out| > 0)
      && forall j | 0 <= j < |out| ::
           out[j].walkFromStop ==
             if j == |out| - 1 && transit[|transit| - 1].transitDetails.Some? && walkFrom.Some?
             then walkFrom.value else StayAtStop
  {
    if start < |transit| {
      BuildSegmentsWalkFrom(transit, start + 1, walkTo, walkFrom);
      var here := SegmentAt(transit[start], start, |transit|, walkTo, walkFrom);
      SegmentAtConnectors(transit[start], start, |transit|, walkTo, walkFrom);
      var rest := BuildSegments(transit, start + 1, walkTo, walkFrom);
      var head := if here.Some? then [here.value] else [];
      var out := head + rest;
      assert out == BuildSegments(transit, start, walkTo, walkFrom);
      forall j | 0 <= j < |out|
        ensures out[j].walkFromStop ==
                  if j == |out| - 1 && transit[|transit| - 1].transitDetails.Some? && walkFrom.Some?
                  then walkFrom.value else StayAtStop
      {
        if j >= |head| {
          assert out[j] == rest[j - |head|];
        }
      }
    }
  }

  /** A route is kept exactly when it has a transit step with details; a kept route
      yields one segment per such step, in the order of the steps. */
  lemma ReduceStepsSegments(steps: seq<Step>)
    ensures ReduceSteps(steps).Some? <==> exists i | 0 <= i < |steps| :: IsBoardable(steps[i])
    ensures ReduceSteps(steps).Some? ==>
              var out := ReduceSteps(steps).value;
              && |out| == |Boardable(steps)|
              && forall j | 0 <= j < |out| :: Carries(out[j], Boardable(steps)[j])
  {
    var transit := TransitSteps(steps);
    BoardableOfTransit(steps);
    BoardableEmptyIffNone(steps);
    BuildSegmentsCarry(transit, 0, ConnectorText(FindPureWalking(steps)), ConnectorText(FindLastPureWalking(steps)));
    assert transit[0..] == transit;
    if |transit| == 0 {
      assert Boardable(transit) == [];
    }
  }

  /** The walking connectors of a kept route: the first segment carries the first
      pure-walking step's duration text when it was built from the route's first
      TRANSIT step and that text is non-empty; the last segment carries the last
      pure-walking step's text on the same terms at the other end; every other
      connector is "Stay at the same stop". */
  lemma ReduceStepsConnectors(steps: seq<Step>)
    requires ReduceSteps(steps).Some?
    ensures var out := ReduceSteps(steps).value;
            var transit := TransitSteps(steps);
            var first := FindPureWalking(steps);
            var last := FindLastPureWalking(steps);
            && |transit| > 0
            && (forall j | 0 <= j < |out| ::
                  out[j].walkToStop ==
                    if j == 0 && transit[0].transitDetails.Some? && first.Some? && first.value.durationText != ""
                    then first.value.durationText else StayAtStop)
            && (forall j | 0 <= j < |out| ::
                  out[j].walkFromStop ==
                    if j == |out| - 1 && transit[|transit| - 1].transitDetails.Some? && last.Some? && last.value.durationText != ""
                    then last.value.durationText else StayAtStop)
  {
    var transit := TransitSteps(steps);
    var walkTo := ConnectorText(FindPureWalking(steps));
    var walkFrom := ConnectorText(FindLastPureWalking(steps));
    assert |transit| > 0;
    var out := BuildSegments(transit, 0, walkTo, walkFrom);
    assert ReduceSteps(steps) == Some(out);
    BuildSegmentsWalkTo(transit, 0, walkTo, walkFrom);
    BuildSegmentsWalkFrom(transit, 0, walkTo, walkFrom);
    forall j | 1 <= j < |out| ensures out[j].walkToStop == StayAtStop {
      assert out[j] == out[1..][j - 1];
    }
  }

  /** A route with a single TRANSIT step, and details on it, becomes one segment
      that carries both connectors. */
  lemma SingleTransitGetsBothConnectors(steps: seq<Step>)
    requires |TransitSteps(steps)| == 1 && TransitSteps(steps)[0].transitDetails.Some?
    ensures ReduceSteps(steps).Some? && |ReduceSteps(steps).value| == 1
    ensures var seg := ReduceSteps(steps).value[0];
            && Carries(seg, TransitSteps(steps)[0])
            && seg.walkToStop == (if ConnectorText(FindPureWalking(steps)).Some? then FindPureWalking(steps).value.durationText else StayAtStop)
            && seg.walkFromStop == (if ConnectorText(FindLastPureWalking(steps)).Some? then FindLastPureWalking(steps).value.durationText else StayAtStop)
  {
    var transit := TransitSteps(steps);
    var walkTo := ConnectorText(FindPureWalking(steps));
    var walkFrom := ConnectorText(FindLastPureWalking(steps));
    BuildSegmentsCarry(transit, 0, walkTo, walkFrom);
    BuildSegmentsWalkTo(transit, 0, walkTo, walkFrom);
    BuildSegmentsWalkFrom(transit, 0, walkTo, walkFrom);
    assert transit[0..] == transit;
    assert Boardable(transit) == [transit[0]] by {
      assert transit == [transit[0]];
    }
  }

  /** Routes are reduced one by one: reduction distributes over concatenation, so
      the kept itineraries stay in the order of their routes. */
  lemma {:induction false} ReduceRoutesAppend(a: seq<seq<Step>>, b: seq<seq<Step>>)
    ensures ReduceRoutes(a + b) == ReduceRoutes(a) + ReduceRoutes(b)
  {
    if a != [] {
      assert (a + b)[0] == a[0];
      assert (a + b)[1..] == a[1..] + b;
      ReduceRoutesAppend(a[1..], b);
      var head := if ReduceSteps(a[0]).Some? then [ReduceSteps(a[0]).value] else [];
      calc {
        ReduceRoutes(a + b);
        head + ReduceRoutes(a[1..] + b);
        head + (ReduceRoutes(a[1..]) + ReduceRoutes(b));
        (head + ReduceRoutes(a[1..])) + ReduceRoutes(b);
      }
    } else {
      assert a + b == b;
    }
  }

  /** Nothing is left exactly when no route has a transit step with details. */
  lemma {:induction false} ReduceRoutesEmptyIff(routes: seq<seq<Step>>)
    ensures ReduceRoutes(routes) == [] <==>
              forall k | 0 <= k < |routes| :: forall i | 0 <= i < |routes[k]| :: !IsBoardable(routes[k][i])
  {
    if routes != [] {
      ReduceStepsSegments(routes[0]);
      ReduceRoutesEmptyIff(routes[1..]);
      assert forall k | 1 <= k < |routes| :: routes[k] == routes[1..][k - 1];
    }
  }

  /** A walk, one bus ride and a walk reduce to one segment that carries both walks. */
  lemma WalkRideWalk()
    ensures ReduceSteps([
              Step("WALKING", "5 mins", None),
              Step("TRANSIT", "12 mins", Some(TransitDetails("12", "Center", "Bavarski dvor", "8:00", "Kolodvor", "8:12", 3))),
              Step("WALKING", "2 mins", None)])
         == Some([Segment("12", "Center", "Bavarski dvor", "8:00", "Kolodvor", "8:12", "12 mins", 3, "5 mins", "2 mins")])
  {
    var ride := Step("TRANSIT", "12 mins", Some(TransitDetails("12", "Center", "Bavarski dvor", "8:00", "Kolodvor", "8:12", 3)));
    var steps := [Step("WALKING", "5 mins", None), ride, Step("WALKING", "2 mins", None)];
    assert "WALKING" != "TRANSIT" by { assert "WALKING"[0] != "TRANSIT"[0]; }
    var lastWalk := Step("WALKING", "2 mins", None);
    assert TransitSteps(steps) == [ride] by {
      assert steps[1..] == [ride, lastWalk];
      assert [ride, lastWalk][1..] == [lastWalk];
      assert [lastWalk][1..] == [];
      assert TransitSteps([lastWalk]) == [];
      assert TransitSteps([ride, lastWalk]) == [ride];
    }
    assert FindLastPureWalking(steps) == Some(lastWalk) by {
      assert Reverse(steps)[0] == lastWalk;
    }
    assert FindPureWalking(steps) == Some(steps[0]);
    var walkTo, walkFrom := Some("5 mins"), Some("2 mins");
    assert ConnectorText(FindPureWalking(steps)) == walkTo;
    assert ConnectorText(FindLastPureWalking(steps)) == walkFrom;
    var seg := Segment("12", "Center", "Bavarski dvor", "8:00", "Kolodvor", "8:12", "12 mins", 3, "5 mins", "2 mins");
    assert SegmentAt(ride, 0, 1, walkTo, walkFrom) == Some(seg);
    assert BuildSegments([ride], 1, walkTo, walkFrom) == [];
    assert BuildSegments([ride], 0, walkTo, walkFrom) == [seg];
  }

  /** Of a riding route and a walking-only route, only the first is kept. */
  lemma WalkingOnlyRouteDropped(ride: seq<Step>, walk: seq<Step>)
    requires ReduceSteps(ride).Some?
    requires forall i | 0 <= i < |walk| :: walk[i].travelMode == "WALKING"
    ensures ReduceRoutes([ride, walk]) == [ReduceSteps(ride).value]
  {
    ReduceStepsSegments(walk);
    assert [ride, walk][1..] == [walk];
  }
}
