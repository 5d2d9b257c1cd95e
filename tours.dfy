/** builder.py's itinerary accumulator: stations, activities, the events of
    a tour (Meet, Activity, TrainRide), transport resolution over the route
    table, and the `Tour` object with `_add_event` and `add_activity`.
    Times are seconds since midnight of the reference day; durations and
    the route minutes are integers. */
module Tours {
  import opened Options
  import opened Meals
  import opened Specs

  /** A Meet lasts 15 minutes and costs nothing. */
  const MeetDuration: int := 900

  /** A station: its English name and its id in the transit database. */
  datatype Station = Station(name: string, id: int)

  datatype Activity = Activity(
    title: string,
    location: Station,
    duration: int,
    cost: int,
    availableFrom: int,
    availableUntil: int,
    category: string)

  /** The events a tour is made of: the Meet that opens it, the activities,
      and the train rides between stations with different names. */
  datatype Event =
    | Meet(at: Station)
    | Visit(activity: Activity)
    | Ride(from: Station, to: Station, rideDuration: int, rideCost: int)
  {
    function Location(): Station {
      match this
      case Meet(s) => s
      case Visit(a) => a.location
      case Ride(f, _, _, _) => f
    }

    function Duration(): int {
      match this
      case Meet(_) => MeetDuration
      case Visit(a) => a.duration
      case Ride(_, _, d, _) => d
    }

    function Cost(): int {
      match this
      case Meet(_) => 0
      case Visit(a) => a.cost
      case Ride(_, _, _, c) => c
    }

    function Category(): string {
      match this
      case Meet(_) => "meet"
      case Visit(a) => a.category
      case Ride(_, _, _, _) => "ride"
    }
  }

  /** The categories that must not follow one another. */
  predicate IsFoodCategory(c: string) {
    c == "coffee" || c == "food"
  }

  /** A row of the routes table: average minutes and cost. */
  datatype Route = Route(minutes: int, cost: int)

  /** The routes table, keyed by the pair of station ids in ascending order. */
  type RouteTable = map<(int, int), Route>

  /** The two ids in ascending order, as `stations.sort()` leaves them. */
  function SortedPair(a: int, b: int): (p: (int, int))
    ensures p.0 <= p.1
    ensures (p.0 == a && p.1 == b) || (p.0 == b && p.1 == a)
  {
    if a <= b then (a, b) else (b, a)
  }

  /** `get_transport` can answer without raising: either the names match or
      the routes table has the pair. */
  predicate Reachable(routes: RouteTable, start: Station, end: Station) {
    start.name == end.name || SortedPair(start.id, end.id) in routes
  }

  /** `TrainRide(start, end)` after `calculate()`: the duration and cost of
      the route entry for the sorted id pair. */
  function TrainRide(routes: RouteTable, start: Station, end: Station): (e: Event)
    requires SortedPair(start.id, end.id) in routes
    ensures e.Ride? && e.from == start && e.to == end
  {
    var route := routes[SortedPair(start.id, end.id)];
    Ride(start, end, route.minutes * 60, route.cost)
  }

  /** `get_transport`: no ride between stations with the same name,
      otherwise the train ride between them. */
  function GetTransport(routes: RouteTable, start: Station, end: Station): (r: Option<Event>)
    requires Reachable(routes, start, end)
    ensures r.None? <==> start.name == end.name
    ensures r.Some? ==> r.value.Ride? && r.value.from == start && r.value.to == end
  {
    if start.name == end.name then None else Some(TrainRide(routes, start, end))
  }

  /** Rides are undirected: swapping the endpoints swaps from and to and
      keeps duration and cost. */
  lemma TransportIsUndirected(routes: RouteTable, start: Station, end: Station)
    requires Reachable(routes, start, end)
    ensures Reachable(routes, end, start)
    ensures GetTransport(routes, start, end).Some? <==> GetTransport(routes, end, start).Some?
    ensures GetTransport(routes, start, end).Some? ==>
              && GetTransport(routes, start, end).value.Duration() == GetTransport(routes, end, start).value.Duration()
              && GetTransport(routes, start, end).value.Cost() == GetTransport(routes, end, start).value.Cost()
  {
  }

  /** The value of a `Tour` object's fields. */
  datatype TourState = TourState(
    cost: int,
    duration: int,
    endTime: int,
    events: seq<Event>,
    includedMeals: map<nat, MealSlot>)

  /** `Tour(specs)`: nothing spent, the clock at the start time. */
  function NewTour(specs: Specifications): TourState {
    TourState(0, 0, specs.startTime, [], map[])
  }

  function TotalCost(events: seq<Event>): int {
    if events == [] then 0 else TotalCost(events[..|events| - 1]) + events[|events| - 1].Cost()
  }

  function TotalDuration(events: seq<Event>): int {
    if events == [] then 0 else TotalDuration(events[..|events| - 1]) + events[|events| - 1].Duration()
  }

  /** The meal slots the events record: an activity at index k records the
      slot its category has at the clock where it starts. */
  function MealsOf(events: seq<Event>, start: int): map<nat, MealSlot> {
    if events == [] then map[]
    else
      var prefix := events[..|events| - 1];
      var last := events[|events| - 1];
      var meals := MealsOf(prefix, start);
      if last.Visit? then
        match MealCategory(last.activity.category, start + TotalDuration(prefix))
        case Some(slot) => meals[|prefix| := slot]
        case None => meals
      else meals
  }

  /** The running totals agree with the events: cost and duration are their
      sums, the clock is the start time plus the duration, and the meal map
      is the one the events record. */
  predicate Consistent(t: TourState, start: int) {
    && t.cost == TotalCost(t.events)
    && t.duration == TotalDuration(t.events)
    && t.endTime == start + t.duration
    && t.includedMeals == MealsOf(t.events, start)
  }

  lemma {:induction false} MealsOfAt(events: seq<Event>, start: int, k: nat)
    ensures k in MealsOf(events, start) <==>
              k < |events| && events[k].Visit?
              && MealCategory(events[k].activity.category, start + TotalDuration(events[..k])).Some?
    ensures k in MealsOf(events, start) ==>
              MealsOf(events, start)[k] == MealCategory(events[k].activity.category, start + TotalDuration(events[..k])).value
  {
    if events != [] {
      var prefix := events[..|events| - 1];
      MealsOfAt(prefix, start, k);
      if k < |prefix| {
        assert events[k] == prefix[k] && events[..k] == prefix[..k];
      }
    }
  }

  /** `_add_event` on values. */
  function WithEvent(t: TourState, e: Event): (r: TourState)
    ensures r.events == t.events + [e]
  {
    var meals :=
      if e.Visit? then
        match MealCategory(e.activity.category, t.endTime)
        case Some(slot) => t.includedMeals[|t.events| := slot]
        case None => t.includedMeals
      else t.includedMeals;
    TourState(t.cost + e.Cost(), t.duration + e.Duration(), t.endTime + e.Duration(), t.events + [e], meals)
  }

  /** `_add_event` adds the event's cost and duration, moves the clock by its
      duration (so the clock stays the start time plus the duration), appends
      exactly one event, and records a meal at the new index only for an
      activity that has a slot at the clock it starts. */
  lemma WithEventKeepsConsistent(t: TourState, e: Event, start: int)
    requires Consistent(t, start)
    ensures Consistent(WithEvent(t, e), start)
    ensures WithEvent(t, e).cost == t.cost + e.Cost()
    ensures WithEvent(t, e).duration == t.duration + e.Duration()
    ensures WithEvent(t, e).includedMeals.Keys <= t.includedMeals.Keys + {|t.events|}
    ensures |t.events| in WithEvent(t, e).includedMeals <==>
              e.Visit? && MealCategory(e.activity.category, t.endTime).Some?
  {
    var r := WithEvent(t, e);
    assert r.events[..|r.events| - 1] == t.events;
    MealsOfAt(t.events, start, |t.events|);
  }

  /** The activities of a list of events, in order. */
  function ActivitiesOf(events: seq<Event>): seq<Activity> {
    if events == [] then []
    else
      var rest := ActivitiesOf(events[..|events| - 1]);
      var last := events[|events| - 1];
      if last.Visit? then rest + [last.activity] else rest
  }

  lemma ActivitiesOfAppend(events: seq<Event>, e: Event)
    ensures ActivitiesOf(events + [e]) == ActivitiesOf(events) + (if e.Visit? then [e.activity] else [])
  {
    assert (events + [e])[..|events|] == events;
  }

  /** The last event, whose location decides the transport. */
  function LastEvent(t: TourState): Event
    requires |t.events| > 0
  {
    t.events[|t.events| - 1]
  }

  /** What `add_activity` must be able to ask `get_transport` without it
      raising: a route from the last event's station when the names differ. */
  predicate CanResolve(routes: RouteTable, t: TourState, a: Activity) {
    |t.events| > 0 ==> Reachable(routes, LastEvent(t).Location(), a.location)
  }

  /** The events `add_activity` puts before the activity itself. */
  function Lead(routes: RouteTable, t: TourState, a: Activity): seq<Event>
    requires CanResolve(routes, t, a)
  {
    if |t.events| == 0 then [Meet(a.location)]
    else match GetTransport(routes, LastEvent(t).Location(), a.location)
      case None => []
      case Some(ride) => [ride]
  }

  /** The cost and duration the budget gate adds for the lead events: the
      ride's, and nothing for a Meet. */
  function LeadCost(routes: RouteTable, t: TourState, a: Activity): int
    requires CanResolve(routes, t, a)
  {
    if |t.events| == 0 then 0 else TotalCost(Lead(routes, t, a))
  }

  function LeadDuration(routes: RouteTable, t: TourState, a: Activity): int
    requires CanResolve(routes, t, a)
  {
    if |t.events| == 0 then 0 else TotalDuration(Lead(routes, t, a))
  }

  /** The outcome of `add_activity`: the returned flag and the tour after it. */
  datatype Admission = Admission(ok: bool, tour: TourState)

  /** `add_activity` on values. Its properties are the lemmas AdmitDecision
      and AdmitOutcome below. */
  function Admit(specs: Specifications, routes: RouteTable, t: TourState, a: Activity): (r: Admission)
    requires CanResolve(routes, t, a)
    ensures !r.ok && |t.events| > 0 ==> r.tour == t
  {
    var last := if |t.events| > 0 then Some(LastEvent(t)) else None;
    var cost := t.cost + a.cost;
    var duration := t.duration + a.duration;
    if t.endTime < a.availableFrom then Admission(false, t)
    else if t.endTime + a.duration > a.availableUntil then Admission(false, t)
    else if IsFoodCategory(a.category) && last.Some? && IsFoodCategory(last.value.Category()) then Admission(false, t)
    else
      var meal := MealCategory(a.category, t.endTime);
      if meal.Some? && meal.value in t.includedMeals.Values then Admission(false, t)
      else if meal.None? && a.category == "coffee" then Admission(false, t)
      else if last.None? then
        var met := WithEvent(t, Meet(a.location));
        if specs.BelowMaximum(cost, duration) then Admission(true, WithEvent(met, Visit(a)))
        else Admission(false, met)
      else if last.value.Location().name == a.location.name then
        if specs.BelowMaximum(cost, duration) then Admission(true, WithEvent(t, Visit(a)))
        else Admission(false, t)
      else
        match GetTransport(routes, last.value.Location(), a.location)
        case None => Admission(false, t)
        case Some(ride) =>
          assert TotalCost([ride]) == ride.Cost() && TotalDuration([ride]) == ride.Duration() by {
            assert [ride][..0] == [];
          }
          if specs.BelowMaximum(cost + ride.Cost(), duration + ride.Duration()) then
            Admission(true, WithEvent(WithEvent(t, ride), Visit(a)))
          else Admission(false, t)
  }

  /** When `add_activity` accepts and when it rejects. */
  lemma AdmitDecision(specs: Specifications, routes: RouteTable, t: TourState, a: Activity)
    requires CanResolve(routes, t, a)
    // availability is checked on the clock before any Meet or ride
    ensures var r := Admit(specs, routes, t, a);
      t.endTime < a.availableFrom || t.endTime + a.duration > a.availableUntil ==> r == Admission(false, t)
    // the three meal rejections
    ensures var r := Admit(specs, routes, t, a);
      IsFoodCategory(a.category) && |t.events| > 0 && IsFoodCategory(LastEvent(t).Category()) ==> r == Admission(false, t)
    ensures var r := Admit(specs, routes, t, a);
      MealCategory(a.category, t.endTime).Some? && MealCategory(a.category, t.endTime).value in t.includedMeals.Values
      ==> r == Admission(false, t)
    ensures var r := Admit(specs, routes, t, a);
      a.category == "coffee" && MealCategory(a.category, t.endTime).None? ==> r == Admission(false, t)
    // the budget gate: every other check passed and the totals with the
    // ride (but not the Meet) stay below the maxima
    ensures Admit(specs, routes, t, a).ok <==>
              && a.availableFrom <= t.endTime
              && t.endTime + a.duration <= a.availableUntil
              && !(IsFoodCategory(a.category) && |t.events| > 0 && IsFoodCategory(LastEvent(t).Category()))
              && !(MealCategory(a.category, t.endTime).Some? && MealCategory(a.category, t.endTime).value in t.includedMeals.Values)
              && !(a.category == "coffee" && MealCategory(a.category, t.endTime).None?)
              && specs.BelowMaximum(t.cost + a.cost + LeadCost(routes, t, a),
                                    t.duration + a.duration + LeadDuration(routes, t, a))
  {
    if |t.events| > 0 {
      var transport := GetTransport(routes, LastEvent(t).Location(), a.location);
      if transport.Some? {
        assert TotalCost([transport.value]) == transport.value.Cost() by {
          assert [transport.value][..0] == [];
        }
        assert TotalDuration([transport.value]) == transport.value.Duration() by {
          assert [transport.value][..0] == [];
        }
      }
    }
  }

  /** What `add_activity` leaves behind: on acceptance the lead events and
      the activity are appended ([Meet, activity], [activity] or [ride,
      activity]); a rejection changes nothing, except that a budget
      rejection on an empty tour leaves the Meet behind. */
  lemma AdmitOutcome(specs: Specifications, routes: RouteTable, t: TourState, a: Activity)
    requires CanResolve(routes, t, a)
    ensures var r := Admit(specs, routes, t, a);
      r.ok ==> r.tour.events == t.events + Lead(routes, t, a) + [Visit(a)]
    ensures var r := Admit(specs, routes, t, a);
      !r.ok && |t.events| == 0 ==> r.tour == t || r.tour == WithEvent(t, Meet(a.location))
  {
  }

  /** An accepted activity is appended to the tour's activities, and the
      events before it are kept as a prefix. */
  lemma AdmitAppendsActivity(specs: Specifications, routes: RouteTable, t: TourState, a: Activity)
    requires CanResolve(routes, t, a)
    requires Admit(specs, routes, t, a).ok
    ensures ActivitiesOf(Admit(specs, routes, t, a).tour.events) == ActivitiesOf(t.events) + [a]
    ensures |Admit(specs, routes, t, a).tour.events| > |t.events|
    ensures Admit(specs, routes, t, a).tour.events[..|t.events|] == t.events
  {
    var u := Admit(specs, routes, t, a).tour;
    AdmitOutcome(specs, routes, t, a);
    var lead := Lead(routes, t, a);
    assert u.events == (t.events + lead) + [Visit(a)];
    ActivitiesOfAppend(t.events + lead, Visit(a));
    if lead == [] {
      assert t.events + lead == t.events;
    } else {
      ActivitiesOfAppend(t.events, lead[0]);
    }
  }

  /** Every outcome of `add_activity` keeps the totals consistent with the
      events, and an accepted activity becomes the last event. */
  lemma AdmitKeepsConsistent(specs: Specifications, routes: RouteTable, t: TourState, a: Activity)
    requires CanResolve(routes, t, a)
    requires Consistent(t, specs.startTime)
    ensures Consistent(Admit(specs, routes, t, a).tour, specs.startTime)
    ensures Admit(specs, routes, t, a).ok ==> LastEvent(Admit(specs, routes, t, a).tour) == Visit(a)
  {
    var start := specs.startTime;
    var r := Admit(specs, routes, t, a);
    if |t.events| == 0 {
      var met := WithEvent(t, Meet(a.location));
      WithEventKeepsConsistent(t, Meet(a.location), start);
      WithEventKeepsConsistent(met, Visit(a), start);
      assert r.tour == t || r.tour == met || r.tour == WithEvent(met, Visit(a));
    } else if !r.ok {
      assert r.tour == t;
    } else if LastEvent(t).Location().name == a.location.name {
      WithEventKeepsConsistent(t, Visit(a), start);
      assert r.tour == WithEvent(t, Visit(a));
    } else {
      var ride := TrainRide(routes, LastEvent(t).Location(), a.location);
      WithEventKeepsConsistent(t, ride, start);
      WithEventKeepsConsistent(WithEvent(t, ride), Visit(a), start);
      assert r.tour == WithEvent(WithEvent(t, ride), Visit(a));
    }
  }

  /** `remaining_time` on values: what is left of the maximum duration,
      negative exactly when the tour is already too long. */
  function TimeLeft(specs: Specifications, t: TourState): (r: int)
    requires specs.maxDuration.Some?
    ensures t.duration + r == specs.maxDuration.value
    ensures r < 0 <==> specs.TooLong(t.duration)
  {
    specs.maxDuration.value - t.duration
  }

  /** `remaining_money` on values: what is left of the maximum cost,
      negative exactly when the tour is already too expensive. */
  function MoneyLeft(specs: Specifications, t: TourState): (r: int)
    requires specs.maxCost.Some?
    ensures t.cost + r == specs.maxCost.value
    ensures r < 0 <==> specs.TooExpensive(t.cost)
  {
    specs.maxCost.value - t.cost
  }

  /** The first admission's budget gate leaves out the Meet's 15 minutes:
      an activity that alone takes the whole maximum duration is admitted
      into an empty tour, which then runs over the maximum. */
  lemma FirstAdmissionOmitsMeet(specs: Specifications, routes: RouteTable, a: Activity)
    requires specs.maxDuration.Some? && a.duration == specs.maxDuration.value
    requires AtMost(a.cost, specs.maxCost)
    requires a.availableFrom <= specs.startTime && specs.startTime + a.duration <= a.availableUntil
    requires a.category != "food" && a.category != "coffee"
    ensures Admit(specs, routes, NewTour(specs), a).ok
    ensures specs.TooLong(Admit(specs, routes, NewTour(specs), a).tour.duration)
  {
    AdmitDecision(specs, routes, NewTour(specs), a);
  }

  /** The meal slot is checked at the clock before the ride and recorded at
      the clock after it. Food reached at 10:20 by a 10-minute ride passes
      the check as breakfast and is recorded as coffee, so a tour that
      already holds a coffee slot ends up with two. */
  lemma FoodAfterRideRecordedAsCoffee(specs: Specifications, routes: RouteTable, t: TourState, a: Activity, k: nat)
    requires specs.maxCost.None? && specs.maxDuration.None?
    requires |t.events| > 0 && t.endTime == Clock(10, 20, 0)
    requires !IsFoodCategory(LastEvent(t).Category())
    requires LastEvent(t).Location().name != a.location.name
    requires SortedPair(LastEvent(t).Location().id, a.location.id) in routes
    requires routes[SortedPair(LastEvent(t).Location().id, a.location.id)].minutes == 10
    requires a.category == "food" && a.availableFrom <= t.endTime && t.endTime + a.duration <= a.availableUntil
    requires Breakfast !in t.includedMeals.Values
    requires k in t.includedMeals && t.includedMeals[k] == Coffee && k < |t.events|
    ensures MealCategory(a.category, t.endTime) == Some(Breakfast)
    ensures Admit(specs, routes, t, a).ok
    ensures var meals := Admit(specs, routes, t, a).tour.includedMeals;
      && k in meals && meals[k] == Coffee
      && |t.events| + 1 in meals && meals[|t.events| + 1] == Coffee
  {
    AdmitDecision(specs, routes, t, a);
    var ride := TrainRide(routes, LastEvent(t).Location(), a.location);
    var withRide := WithEvent(t, ride);
    assert withRide.endTime == Clock(10, 30, 0);
    assert |withRide.events| == |t.events| + 1;
  }

  /** builder.py's `Tour`: the fields `add_activity` and `_add_event` update
      in place. */
  class Tour {
    const specs: Specifications
    var cost: int
    var duration: int
    var endTime: int
    var events: seq<Event>
    var includedMeals: map<nat, MealSlot>

    function State(): TourState
      reads this
    {
      TourState(cost, duration, endTime, events, includedMeals)
    }

    predicate Valid()
      reads this
    {
      Consistent(State(), specs.startTime)
    }

    constructor (specs: Specifications)
      ensures this.specs == specs
      ensures State() == NewTour(specs) && Valid()
    {
      this.specs := specs;
      cost := 0;
      duration := 0;
      endTime := specs.startTime;
      events := [];
      includedMeals := map[];
    }

    /** `copy.deepcopy(tour)`: a fresh object with the same fields. */
    constructor Copy(other: Tour)
      ensures specs == other.specs && State() == other.State()
    {
      specs := other.specs;
      cost := other.cost;
      duration := other.duration;
      endTime := other.endTime;
      events := other.events;
      includedMeals := other.includedMeals;
    }

    /** `_add_event`. */
    method AddEvent(e: Event)
      requires Valid()
      modifies this
      ensures Valid()
      ensures State() == WithEvent(old(State()), e)
    {
      WithEventKeepsConsistent(State(), e, specs.startTime);
      if e.Visit? {
        var meal := MealCategory(e.activity.category, endTime);
        var index := |events|;
        if meal.Some? {
          includedMeals := includedMeals[index := meal.value];
        }
      }
      cost := cost + e.Cost();
      duration := duration + e.Duration();
      endTime := endTime + e.Duration();
      events := events + [e];
    }

    /** `add_activity`. */
    method AddActivity(a: Activity, routes: RouteTable) returns (success: bool)
      requires Valid()
      requires CanResolve(routes, State(), a)
      modifies this
      ensures Valid()
      ensures Admission(success, State()) == Admit(specs, routes, old(State()), a)
    {
      var lastEvent := if |events| > 0 then Some(events[|events| - 1]) else None;
      var cost := this.cost + a.cost;
      var duration := this.duration + a.duration;

      if endTime < a.availableFrom {
        return false;
      }
      if endTime + a.duration > a.availableUntil {
        return false;
      }

      if IsFoodCategory(a.category) && lastEvent.Some? && IsFoodCategory(lastEvent.value.Category()) {
        return false;
      }
      var meal := MealCategory(a.category, endTime);
      if meal.Some? && meal.value in includedMeals.Values {
        return false;
      } else if meal.None? && a.category == "coffee" {
        return false;
      }

      if lastEvent.None? {
        AddEvent(Meet(a.location));
        if specs.BelowMaximum(cost, duration) {
          AddEvent(Visit(a));
          return true;
        }
      } else if lastEvent.value.Location().name == a.location.name {
        if specs.BelowMaximum(cost, duration) {
          AddEvent(Visit(a));
          return true;
        }
      } else {
        var transport := GetTransport(routes, lastEvent.value.Location(), a.location);
        if transport.Some? {
          cost := cost + transport.value.Cost();
          duration := duration + transport.value.Duration();
          if specs.BelowMaximum(cost, duration) {
            AddEvent(transport.value);
            AddEvent(Visit(a));
            return true;
          }
        }
      }
      return false;
    }

    /** `within_spec`: the tour's cost and duration lie within every bound
        that is set. */
    function WithinSpec(): (r: bool)
      reads this
      ensures r <==> && AtLeast(cost, specs.minCost) && AtMost(cost, specs.maxCost)
                     && AtLeast(duration, specs.minDuration) && AtMost(duration, specs.maxDuration)
    {
      specs.WithinSpec(cost, duration)
    }

    /** `exceeds_spec`: an upper bound is broken. */
    function ExceedsSpec(): (r: bool)
      reads this
      ensures r <==> !AtMost(cost, specs.maxCost) || !AtMost(duration, specs.maxDuration)
    {
      specs.AboveMaximum(cost, duration)
    }

    /** `remaining_time`: what is left of the maximum duration; negative
        exactly when the tour is too long. */
    function RemainingTime(): (r: int)
      reads this
      requires specs.maxDuration.Some?
      ensures r == TimeLeft(specs, State())
    {
      specs.maxDuration.value - duration
    }

    /** `remaining_money`: what is left of the maximum cost; negative
        exactly when the tour is too expensive. */
    function RemainingMoney(): (r: int)
      reads this
      requires specs.maxCost.Some?
      ensures r == MoneyLeft(specs, State())
    {
      specs.maxCost.value - cost
    }
  }
}
