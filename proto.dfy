/** website/generate_tours.py: the website's own search, over the database's
    activities and train rides. A TourProto keeps a window of start times
    from which every activity it holds is reached while open; `add_activity`
    narrows that window and refuses an activity that would close it.
    `build_tours` records every tour it extends, with no budget at all,
    until more than 100 are recorded. Times are seconds from the reference
    midnight, durations seconds. */
module Proto {
  import opened Meals
  import opened Sequences

  /** The fields of an `Activity` row that TourProto reads. */
  datatype ProtoActivity = ProtoActivity(
    stationId: int,
    cost: int,
    duration: int,
    availableFrom: int,
    availableUntil: int)

  /** The fields of a `TrainRide` row that TourProto reads. */
  datatype TrainRideRow = TrainRideRow(cost: int, duration: int)

  /** The `TrainRide` table: the one row from a station to another, keyed by
      (from station, to station); a pair with no row, or with more than
      one, is absent. */
  type RideTable = map<(int, int), TrainRideRow>

  /** The fields of a TourProto. */
  datatype ProtoState = ProtoState(
    cost: int,
    duration: int,
    availableFrom: int,
    availableUntil: int,
    activities: seq<ProtoActivity>,
    trainRides: seq<TrainRideRow>)

  /** `TourProto()`: nothing spent, and any start within the day. */
  function EmptyProto(): (p: ProtoState)
    ensures p.activities == [] && p.trainRides == []
  {
    ProtoState(0, 0, DayStart, DayEnd, [], [])
  }

  // ------------------------------------------------------------ one step

  /** `calculate_availability`: the start times still possible once an
      activity open from `from` to `until`, taking `duration` with the ride
      to it, follows what the tour already holds. */
  function Availability(p: ProtoState, from: int, until: int, duration: int): (r: (int, int))
    ensures r.0 >= p.availableFrom && r.0 >= from - p.duration
    ensures r.0 == p.availableFrom || r.0 == from - p.duration
    ensures r.1 <= p.availableUntil && r.1 <= until - (p.duration + duration)
    ensures r.1 == p.availableUntil || r.1 == until - (p.duration + duration)
  {
    (if p.availableFrom >= from - p.duration then p.availableFrom else from - p.duration,
     if p.availableUntil <= until - (p.duration + duration) then p.availableUntil else until - (p.duration + duration))
  }

  /** The tour has to take a train to reach a: it holds an activity, and the
      last one is at another station. */
  predicate NeedsRide(p: ProtoState, a: ProtoActivity) {
    |p.activities| > 0 && p.activities[|p.activities| - 1].stationId != a.stationId
  }

  /** The train ride a needs is in the table; where it is not, the source
      dereferences None and stops. */
  predicate RideKnown(rides: RideTable, p: ProtoState, a: ProtoActivity) {
    NeedsRide(p, a) ==> (p.activities[|p.activities| - 1].stationId, a.stationId) in rides
  }

  /** The train ride a needs. */
  function RideTo(rides: RideTable, p: ProtoState, a: ProtoActivity): TrainRideRow
    requires NeedsRide(p, a) && RideKnown(rides, p, a)
  {
    rides[(p.activities[|p.activities| - 1].stationId, a.stationId)]
  }

  /** The time adding a takes: its own and that of the ride to it. */
  function Leg(rides: RideTable, p: ProtoState, a: ProtoActivity): int
    requires RideKnown(rides, p, a)
  {
    a.duration + if NeedsRide(p, a) then RideTo(rides, p, a).duration else 0
  }

  /** What adding a costs: its own price and that of the ride to it. */
  function LegCost(rides: RideTable, p: ProtoState, a: ProtoActivity): int
    requires RideKnown(rides, p, a)
  {
    a.cost + if NeedsRide(p, a) then RideTo(rides, p, a).cost else 0
  }

  datatype ProtoAdmission = ProtoAdmission(ok: bool, tour: ProtoState)

  /** `add_activity` on the values: the new window, and if it is not empty
      the activity and its ride are appended and paid for; otherwise the
      tour is left as it was. */
  function ProtoAdd(rides: RideTable, p: ProtoState, a: ProtoActivity): ProtoAdmission
    requires RideKnown(rides, p, a)
  {
    var window := Availability(p, a.availableFrom, a.availableUntil, Leg(rides, p, a));
    if window.0 <= window.1 then
      ProtoAdmission(true, ProtoState(
        p.cost + LegCost(rides, p, a),
        p.duration + Leg(rides, p, a),
        window.0,
        window.1,
        p.activities + [a],
        p.trainRides + if NeedsRide(p, a) then [RideTo(rides, p, a)] else []))
    else ProtoAdmission(false, p)
  }

  /** Start time s of the tour still works with a appended: s is in the
      tour's window, a is open when the tour's time so far has passed, and
      a, with the ride to it, is over before it closes. The ride counts as
      part of a's slot, so a must already be open when the ride leaves. */
  predicate StartFits(p: ProtoState, a: ProtoActivity, leg: int, s: int) {
    && p.availableFrom <= s <= p.availableUntil
    && a.availableFrom <= s + p.duration
    && s + p.duration + leg <= a.availableUntil
  }

  /** The window `add_activity` keeps is exactly the start times that still
      work, and it admits the activity exactly when one does. */
  lemma ProtoWindow(rides: RideTable, p: ProtoState, a: ProtoActivity)
    requires RideKnown(rides, p, a)
    ensures ProtoAdd(rides, p, a).ok <==> exists s :: StartFits(p, a, Leg(rides, p, a), s)
    ensures ProtoAdd(rides, p, a).ok ==> forall s ::
              ProtoAdd(rides, p, a).tour.availableFrom <= s <= ProtoAdd(rides, p, a).tour.availableUntil
              <==> StartFits(p, a, Leg(rides, p, a), s)
  {
    var window := Availability(p, a.availableFrom, a.availableUntil, Leg(rides, p, a));
    if window.0 <= window.1 {
      assert StartFits(p, a, Leg(rides, p, a), window.0);
    } else {
      forall s ensures !StartFits(p, a, Leg(rides, p, a), s) {
      }
    }
  }

  /** What `add_activity` changes: on success the activity is appended, a
      ride is appended exactly when it is needed, the window only narrows,
      and both totals grow by the leg; on refusal nothing changes. */
  lemma ProtoAddOutcome(rides: RideTable, p: ProtoState, a: ProtoActivity)
    requires RideKnown(rides, p, a)
    ensures !ProtoAdd(rides, p, a).ok ==> ProtoAdd(rides, p, a).tour == p
    ensures ProtoAdd(rides, p, a).ok ==>
      var u := ProtoAdd(rides, p, a).tour;
      && u.activities == p.activities + [a]
      && (NeedsRide(p, a) ==> u.trainRides == p.trainRides + [RideTo(rides, p, a)])
      && (!NeedsRide(p, a) ==> u.trainRides == p.trainRides)
      && p.availableFrom <= u.availableFrom <= u.availableUntil <= p.availableUntil
      && u.cost == p.cost + LegCost(rides, p, a)
      && u.duration == p.duration + Leg(rides, p, a)
  {
  }

  // -------------------------------------------------- what a tour records

  function ActivitiesCost(acts: seq<ProtoActivity>): int {
    if acts == [] then 0 else ActivitiesCost(acts[..|acts| - 1]) + acts[|acts| - 1].cost
  }

  function ActivitiesDuration(acts: seq<ProtoActivity>): int {
    if acts == [] then 0 else ActivitiesDuration(acts[..|acts| - 1]) + acts[|acts| - 1].duration
  }

  function RidesCost(rs: seq<TrainRideRow>): int {
    if rs == [] then 0 else RidesCost(rs[..|rs| - 1]) + rs[|rs| - 1].cost
  }

  function RidesDuration(rs: seq<TrainRideRow>): int {
    if rs == [] then 0 else RidesDuration(rs[..|rs| - 1]) + rs[|rs| - 1].duration
  }

  /** Every change of station between consecutive activities has its ride
      in the table. */
  predicate ConsecutiveKnown(rides: RideTable, acts: seq<ProtoActivity>) {
    forall i :: 1 <= i < |acts| && acts[i - 1].stationId != acts[i].stationId ==>
      (acts[i - 1].stationId, acts[i].stationId) in rides
  }

  /** The rides between consecutive activities at different stations, in
      order. */
  function RidesAlong(rides: RideTable, acts: seq<ProtoActivity>): seq<TrainRideRow>
    requires ConsecutiveKnown(rides, acts)
  {
    if |acts| <= 1 then []
    else
      var prev := acts[|acts| - 2];
      var last := acts[|acts| - 1];
      RidesAlong(rides, acts[..|acts| - 1])
      + if prev.stationId != last.stationId then [rides[(prev.stationId, last.stationId)]] else []
  }

  /** A tour has at most one ride fewer than it has activities. */
  lemma {:induction false} RidesAlongCount(rides: RideTable, acts: seq<ProtoActivity>)
    requires ConsecutiveKnown(rides, acts)
    ensures |RidesAlong(rides, acts)| <= if acts == [] then 0 else |acts| - 1
  {
    if |acts| > 1 {
      RidesAlongCount(rides, acts[..|acts| - 1]);
    }
  }

  /** What every TourProto built by `add_activity` satisfies: its window is
      a non-empty part of the day; its rides are exactly those between
      consecutive activities at different stations; its cost and duration
      are those of its activities and rides together. */
  predicate ProtoInv(rides: RideTable, p: ProtoState) {
    && DayStart <= p.availableFrom <= p.availableUntil <= DayEnd
    && ConsecutiveKnown(rides, p.activities)
    && p.trainRides == RidesAlong(rides, p.activities)
    && p.cost == ActivitiesCost(p.activities) + RidesCost(p.trainRides)
    && p.duration == ActivitiesDuration(p.activities) + RidesDuration(p.trainRides)
  }

  lemma EmptyProtoInv(rides: RideTable)
    ensures ProtoInv(rides, EmptyProto())
  {
  }

  /** The sums over activities, one activity more. */
  lemma ActivitiesAppend(acts: seq<ProtoActivity>, a: ProtoActivity)
    ensures ActivitiesCost(acts + [a]) == ActivitiesCost(acts) + a.cost
    ensures ActivitiesDuration(acts + [a]) == ActivitiesDuration(acts) + a.duration
  {
    assert (acts + [a])[..|acts|] == acts;
  }

  /** The sums over rides, one ride more. */
  lemma RidesAppend(rs: seq<TrainRideRow>, r: TrainRideRow)
    ensures RidesCost(rs + [r]) == RidesCost(rs) + r.cost
    ensures RidesDuration(rs + [r]) == RidesDuration(rs) + r.duration
  {
    assert (rs + [r])[..|rs|] == rs;
  }

  /** The rides along the activities, one activity more: the ride to it
      is added when it is at another station than the last. */
  lemma RidesAlongAppend(rides: RideTable, p: ProtoState, a: ProtoActivity)
    requires ConsecutiveKnown(rides, p.activities) && RideKnown(rides, p, a)
    ensures ConsecutiveKnown(rides, p.activities + [a])
    ensures RidesAlong(rides, p.activities + [a])
            == RidesAlong(rides, p.activities) + if NeedsRide(p, a) then [RideTo(rides, p, a)] else []
  {
    var acts := p.activities + [a];
    assert acts[..|acts| - 1] == p.activities;
    forall i | 1 <= i < |acts| && acts[i - 1].stationId != acts[i].stationId
      ensures (acts[i - 1].stationId, acts[i].stationId) in rides
    {
      if i < |acts| - 1 {
        assert acts[i - 1] == p.activities[i - 1] && acts[i] == p.activities[i];
      }
    }
  }

  /** `add_activity` keeps ProtoInv. */
  lemma ProtoAddKeepsInv(rides: RideTable, p: ProtoState, a: ProtoActivity)
    requires ProtoInv(rides, p) && RideKnown(rides, p, a)
    ensures ProtoInv(rides, ProtoAdd(rides, p, a).tour)
  {
    if ProtoAdd(rides, p, a).ok {
      ProtoAddOutcome(rides, p, a);
      RidesAlongAppend(rides, p, a);
      ActivitiesAppend(p.activities, a);
      if NeedsRide(p, a) {
        RidesAppend(p.trainRides, RideTo(rides, p, a));
      } else {
        assert p.trainRides + [] == p.trainRides;
      }
    }
  }

  // ------------------------------------------------------------- objects

  /** A TourProto object: the fields `add_activity` updates in place. */
  class TourProto {
    var cost: int
    var duration: int
    var availableFrom: int
    var availableUntil: int
    var activities: seq<ProtoActivity>
    var trainRides: seq<TrainRideRow>

    function State(): ProtoState
      reads this
    {
      ProtoState(cost, duration, availableFrom, availableUntil, activities, trainRides)
    }

    constructor()
      ensures State() == EmptyProto()
    {
      cost := 0;
      duration := 0;
      availableFrom := DayStart;
      availableUntil := DayEnd;
      activities := [];
      trainRides := [];
    }

    /** `copy.deepcopy` of a TourProto. */
    constructor Copy(other: TourProto)
      ensures State() == other.State()
    {
      cost := other.cost;
      duration := other.duration;
      availableFrom := other.availableFrom;
      availableUntil := other.availableUntil;
      activities := other.activities;
      trainRides := other.trainRides;
    }

    /** `calculate_availability`: the window can only narrow, to the later
        of the two opening bounds and the earlier of the two closing ones. */
    function CalculateAvailability(from: int, until: int, dur: int): (r: (int, int))
      reads this
      ensures availableFrom <= r.0 && from - duration <= r.0
      ensures r.0 == availableFrom || r.0 == from - duration
      ensures r.1 <= availableUntil && r.1 <= until - (duration + dur)
      ensures r.1 == availableUntil || r.1 == until - (duration + dur)
    {
      Availability(State(), from, until, dur)
    }

    /** `add_activity`. */
    method AddActivity(a: ProtoActivity, rides: RideTable) returns (success: bool)
      requires RideKnown(rides, State(), a)
      modifies this
      ensures ProtoAdmission(success, State()) == ProtoAdd(rides, old(State()), a)
    {
      var totalCost := a.cost;
      var totalDuration := a.duration;
      var ride: TrainRideRow;
      var hasRide := false;
      if |activities| > 0 {
        var last := activities[|activities| - 1];
        if last.stationId != a.stationId {
          ride := rides[(last.stationId, a.stationId)];
          hasRide := true;
          totalCost := totalCost + ride.cost;
          totalDuration := totalDuration + ride.duration;
        }
      }
      var window := CalculateAvailability(a.availableFrom, a.availableUntil, totalDuration);
      if window.0 <= window.1 {
        cost := cost + totalCost;
        availableFrom := window.0;
        availableUntil := window.1;
        duration := duration + totalDuration;
        activities := activities + [a];
        if hasRide {
          trainRides := trainRides + [ride];
        }
        success := true;
      } else {
        success := false;
      }
    }
  }

  /** `can_probably_add_activity`: it rules nothing out. */
  function CanProbablyAdd(p: ProtoState, a: ProtoActivity): (r: bool)
    ensures r
  {
    true
  }

  /** The comprehension at the top of `build_tours`: it keeps every
      activity, in order. */
  function ProbableActivities(p: ProtoState, acts: seq<ProtoActivity>): (r: seq<ProtoActivity>)
    ensures r == acts
  {
    if acts == [] then []
    else (if CanProbablyAdd(p, acts[0]) then [acts[0]] else []) + ProbableActivities(p, acts[1..])
  }

  // -------------------------------------------------------------- search

  /** Every pair of activities at different stations has its ride. */
  predicate RidesCover(rides: RideTable, acts: seq<ProtoActivity>) {
    forall a, b :: a in acts && b in acts && a.stationId != b.stationId ==> (a.stationId, b.stationId) in rides
  }

  /** The search can go on from p over acts without meeting a missing ride. */
  predicate ProtoReady(rides: RideTable, p: ProtoState, acts: seq<ProtoActivity>) {
    && RidesCover(rides, acts)
    && forall a :: a in acts ==> RideKnown(rides, p, a)
  }

  /** The tours list after `build_tours(tours, t, acts)`: nothing is added
      once more than 100 tours are recorded; otherwise each activity in turn
      is tried on a copy of t. */
  function ProtoSearch(rides: RideTable, tours: seq<ProtoState>, t: ProtoState, acts: seq<ProtoActivity>)
    : seq<ProtoState>
    requires ProtoReady(rides, t, acts)
    decreases |acts|, 1
  {
    if |tours| > 100 then tours
    else ProtoSearchFrom(rides, tours, t, ProbableActivities(t, acts), 0)
  }

  /** The tours list after the iterations of the loop of `build_tours` from
      index i on. */
  function ProtoSearchFrom(rides: RideTable, tours: seq<ProtoState>, t: ProtoState, acts: seq<ProtoActivity>, i: nat)
    : seq<ProtoState>
    requires ProtoReady(rides, t, acts)
    requires i <= |acts|
    decreases |acts|, 0, |acts| - i
  {
    if i == |acts| then tours
    else ProtoSearchFrom(rides, ProtoBranch(rides, tours, t, acts, i), t, acts, i + 1)
  }

  /** One iteration: if the copy takes acts[i], it is recorded, and the
      search goes on from it over the other activities. */
  function ProtoBranch(rides: RideTable, tours: seq<ProtoState>, t: ProtoState, acts: seq<ProtoActivity>, i: nat)
    : seq<ProtoState>
    requires ProtoReady(rides, t, acts)
    requires i < |acts|
    decreases |acts|, 0, |acts| - i - 1
  {
    var ad := ProtoAdd(rides, t, acts[i]);
    if ad.ok then
      ProtoAdmittedIsReady(rides, t, acts, i);
      ProtoSearch(rides, tours + [ad.tour], ad.tour, RemoveAt(acts, i))
    else tours
  }

  /** The tours list after the root loop from index i of the catalogue on:
      a fresh TourProto takes that activity, and if it does the search runs
      from it over the others. The root tour itself is never recorded. */
  function ProtoRoots(rides: RideTable, catalogue: seq<ProtoActivity>, i: nat, tours: seq<ProtoState>)
    : seq<ProtoState>
    requires RidesCover(rides, catalogue)
    requires i <= |catalogue|
    decreases |catalogue| - i
  {
    if i == |catalogue| then tours
    else ProtoRoots(rides, catalogue, i + 1, ProtoRootBranch(rides, catalogue, i, tours))
  }

  function ProtoRootBranch(rides: RideTable, catalogue: seq<ProtoActivity>, i: nat, tours: seq<ProtoState>)
    : seq<ProtoState>
    requires RidesCover(rides, catalogue)
    requires i < |catalogue|
  {
    var ad := ProtoAdd(rides, EmptyProto(), catalogue[i]);
    if ad.ok then
      ProtoRootIsReady(rides, catalogue, i);
      ProtoSearch(rides, tours, ad.tour, RemoveAt(catalogue, i))
    else tours
  }

  /** Every tour the script saves. */
  function AllProtoTours(rides: RideTable, catalogue: seq<ProtoActivity>): seq<ProtoState>
    requires RidesCover(rides, catalogue)
  {
    ProtoRoots(rides, catalogue, 0, [])
  }

  /** The activity taken is the tour's last, so every ride from it to the
      remaining activities is known. */
  lemma ProtoAdmittedIsReady(rides: RideTable, t: ProtoState, acts: seq<ProtoActivity>, i: nat)
    requires ProtoReady(rides, t, acts) && i < |acts|
    requires ProtoAdd(rides, t, acts[i]).ok
    ensures ProtoReady(rides, ProtoAdd(rides, t, acts[i]).tour, RemoveAt(acts, i))
  {
    ProtoAddOutcome(rides, t, acts[i]);
  }

  lemma ProtoRootIsReady(rides: RideTable, catalogue: seq<ProtoActivity>, i: nat)
    requires RidesCover(rides, catalogue) && i < |catalogue|
    requires ProtoAdd(rides, EmptyProto(), catalogue[i]).ok
    ensures ProtoReady(rides, ProtoAdd(rides, EmptyProto(), catalogue[i]).tour, RemoveAt(catalogue, i))
  {
    ProtoAddOutcome(rides, EmptyProto(), catalogue[i]);
  }

  /** `build_tours`: the tours list it leaves behind is the one ProtoSearch
      describes, and `tour` itself is untouched. */
  method BuildTours(tours: seq<ProtoState>, tour: TourProto, activities: seq<ProtoActivity>, rides: RideTable)
    returns (out: seq<ProtoState>)
    requires ProtoReady(rides, tour.State(), activities)
    ensures out == ProtoSearch(rides, tours, tour.State(), activities)
    decreases |activities|, 1
  {
    if |tours| > 100 {
      return tours;
    }
    var acts := ProbableActivities(tour.State(), activities);
    out := tours;
    for index := 0 to |acts|
      invariant ProtoSearchFrom(rides, out, tour.State(), acts, index) == ProtoSearch(rides, tours, tour.State(), activities)
    {
      out := TryActivity(out, tour, acts, index, rides);
    }
  }

  /** One iteration of the loop of `build_tours`. */
  method TryActivity(tours: seq<ProtoState>, tour: TourProto, acts: seq<ProtoActivity>, index: nat, rides: RideTable)
    returns (out: seq<ProtoState>)
    requires ProtoReady(rides, tour.State(), acts) && index < |acts|
    ensures out == ProtoBranch(rides, tours, tour.State(), acts, index)
    decreases |acts|, 0
  {
    var tourTmp := new TourProto.Copy(tour);
    var activitiesTmp := RemoveAt(acts, index);
    var added := tourTmp.AddActivity(acts[index], rides);
    if added {
      ProtoAdmittedIsReady(rides, tour.State(), acts, index);
      out := BuildTours(tours + [tourTmp.State()], tourTmp, activitiesTmp, rides);
    } else {
      out := tours;
    }
  }

  /** The loop over the catalogue at the bottom of the script, before the
      tours are saved. */
  method RunProtoSearch(catalogue: seq<ProtoActivity>, rides: RideTable) returns (tours: seq<ProtoState>)
    requires RidesCover(rides, catalogue)
    ensures tours == AllProtoTours(rides, catalogue)
  {
    tours := [];
    for index := 0 to |catalogue|
      invariant ProtoRoots(rides, catalogue, index, tours) == AllProtoTours(rides, catalogue)
    {
      var tourTmp := new TourProto();
      var activitiesTmp := RemoveAt(catalogue, index);
      var added := tourTmp.AddActivity(catalogue[index], rides);
      if added {
        ProtoRootIsReady(rides, catalogue, index);
        tours := BuildTours(tours, tourTmp, activitiesTmp, rides);
      }
    }
  }

  // ----------------------------------------------------------- soundness

  /** A tour the search goes on from: it keeps ProtoInv, holds an activity,
      and its activities with those still to try come from the catalogue. */
  predicate ProtoPartial(rides: RideTable, t: ProtoState, acts: seq<ProtoActivity>, catalogue: seq<ProtoActivity>) {
    && ProtoInv(rides, t)
    && |t.activities| >= 1
    && multiset(t.activities) + multiset(acts) <= multiset(catalogue)
  }

  /** A tour the script saves: it keeps ProtoInv, holds at least two
      activities, and takes each from the catalogue no more often than the
      catalogue lists it. */
  predicate ProtoRecorded(rides: RideTable, u: ProtoState, catalogue: seq<ProtoActivity>) {
    && ProtoInv(rides, u)
    && |u.activities| >= 2
    && multiset(u.activities) <= multiset(catalogue)
  }

  /** r is the list tours with only recorded tours appended. */
  predicate Extends(rides: RideTable, r: seq<ProtoState>, tours: seq<ProtoState>, catalogue: seq<ProtoActivity>) {
    && |tours| <= |r|
    && r[..|tours|] == tours
    && forall j :: |tours| <= j < |r| ==> ProtoRecorded(rides, r[j], catalogue)
  }

  lemma ExtendsTrans(rides: RideTable, a: seq<ProtoState>, b: seq<ProtoState>, c: seq<ProtoState>, catalogue: seq<ProtoActivity>)
    requires Extends(rides, b, a, catalogue) && Extends(rides, c, b, catalogue)
    ensures Extends(rides, c, a, catalogue)
  {
    assert c[..|a|] == c[..|b|][..|a|];
  }

  /** The tour an activity is added to goes on as a recorded and a partial
      tour. */
  lemma ProtoAddKeepsPartial(rides: RideTable, t: ProtoState, acts: seq<ProtoActivity>, i: nat,
                             catalogue: seq<ProtoActivity>)
    requires ProtoReady(rides, t, acts) && i < |acts|
    requires ProtoPartial(rides, t, acts, catalogue)
    requires ProtoAdd(rides, t, acts[i]).ok
    ensures ProtoPartial(rides, ProtoAdd(rides, t, acts[i]).tour, RemoveAt(acts, i), catalogue)
    ensures ProtoRecorded(rides, ProtoAdd(rides, t, acts[i]).tour, catalogue)
  {
    var u := ProtoAdd(rides, t, acts[i]).tour;
    ProtoAddOutcome(rides, t, acts[i]);
    ProtoAddKeepsInv(rides, t, acts[i]);
    assert multiset(u.activities) == multiset(t.activities) + multiset{acts[i]};
    assert multiset(u.activities) + multiset(RemoveAt(acts, i)) == multiset(t.activities) + multiset(acts);
  }

  /** Everything `build_tours` appends is a recorded tour, and it only
      appends. */
  lemma {:induction false} ProtoSearchSound(rides: RideTable, tours: seq<ProtoState>, t: ProtoState,
                                            acts: seq<ProtoActivity>, catalogue: seq<ProtoActivity>)
    requires ProtoReady(rides, t, acts)
    requires ProtoPartial(rides, t, acts, catalogue)
    ensures Extends(rides, ProtoSearch(rides, tours, t, acts), tours, catalogue)
    decreases |acts|, 1
  {
    if |tours| <= 100 {
      ProtoSearchFromSound(rides, tours, t, acts, 0, catalogue);
    }
  }

  lemma {:induction false} ProtoSearchFromSound(rides: RideTable, tours: seq<ProtoState>, t: ProtoState,
                                                acts: seq<ProtoActivity>, i: nat, catalogue: seq<ProtoActivity>)
    requires ProtoReady(rides, t, acts) && i <= |acts|
    requires ProtoPartial(rides, t, acts, catalogue)
    ensures Extends(rides, ProtoSearchFrom(rides, tours, t, acts, i), tours, catalogue)
    decreases |acts|, 0, |acts| - i
  {
    if i < |acts| {
      var b := ProtoBranch(rides, tours, t, acts, i);
      ProtoBranchSound(rides, tours, t, acts, i, catalogue);
      ProtoSearchFromSound(rides, b, t, acts, i + 1, catalogue);
      ExtendsTrans(rides, tours, b, ProtoSearchFrom(rides, b, t, acts, i + 1), catalogue);
    }
  }

  lemma {:induction false} ProtoBranchSound(rides: RideTable, tours: seq<ProtoState>, t: ProtoState,
                                            acts: seq<ProtoActivity>, i: nat, catalogue: seq<ProtoActivity>)
    requires ProtoReady(rides, t, acts) && i < |acts|
    requires ProtoPartial(rides, t, acts, catalogue)
    ensures Extends(rides, ProtoBranch(rides, tours, t, acts, i), tours, catalogue)
    decreases |acts|, 0, |acts| - i - 1
  {
    if ProtoAdd(rides, t, acts[i]).ok {
      var u := ProtoAdd(rides, t, acts[i]).tour;
      ProtoAdmittedIsReady(rides, t, acts, i);
      ProtoAddKeepsPartial(rides, t, acts, i, catalogue);
      var withU := tours + [u];
      var after := ProtoSearch(rides, withU, u, RemoveAt(acts, i));
      assert ProtoBranch(rides, tours, t, acts, i) == after;
      ExtendsByOne(rides, tours, u, catalogue);
      ProtoSearchSound(rides, withU, u, RemoveAt(acts, i), catalogue);
      ExtendsTrans(rides, tours, withU, after, catalogue);
    } else {
      assert ProtoBranch(rides, tours, t, acts, i) == tours;
    }
  }

  /** Appending one recorded tour extends the list. */
  lemma ExtendsByOne(rides: RideTable, tours: seq<ProtoState>, u: ProtoState, catalogue: seq<ProtoActivity>)
    requires ProtoRecorded(rides, u, catalogue)
    ensures Extends(rides, tours + [u], tours, catalogue)
  {
    assert (tours + [u])[..|tours|] == tours;
  }

  /** The root loop, from index i on, only appends recorded tours. */
  lemma {:induction false} ProtoRootsSound(rides: RideTable, catalogue: seq<ProtoActivity>, i: nat, tours: seq<ProtoState>)
    requires RidesCover(rides, catalogue) && i <= |catalogue|
    ensures Extends(rides, ProtoRoots(rides, catalogue, i, tours), tours, catalogue)
    decreases |catalogue| - i
  {
    if i < |catalogue| {
      var b := ProtoRootBranch(rides, catalogue, i, tours);
      var ad := ProtoAdd(rides, EmptyProto(), catalogue[i]);
      if ad.ok {
        ProtoRootIsReady(rides, catalogue, i);
        ProtoAddOutcome(rides, EmptyProto(), catalogue[i]);
        ProtoAddKeepsInv(rides, EmptyProto(), catalogue[i]);
        assert ad.tour.activities == [catalogue[i]];
        assert ProtoPartial(rides, ad.tour, RemoveAt(catalogue, i), catalogue);
        ProtoSearchSound(rides, tours, ad.tour, RemoveAt(catalogue, i), catalogue);
      } else {
        assert b[..|tours|] == tours;
      }
      ProtoRootsSound(rides, catalogue, i + 1, b);
      ExtendsTrans(rides, tours, b, ProtoRoots(rides, catalogue, i + 1, b), catalogue);
    }
  }

  /** Every tour the script saves holds two activities or more, takes no
      activity more often than the catalogue lists it, has a non-empty
      window within the day, the rides between its consecutive activities
      at different stations and no other, and a cost and duration that are
      those of its activities and rides. */
  lemma AllProtoToursSound(rides: RideTable, catalogue: seq<ProtoActivity>)
    requires RidesCover(rides, catalogue)
    ensures forall u :: u in AllProtoTours(rides, catalogue) ==> ProtoRecorded(rides, u, catalogue)
  {
    ProtoRootsSound(rides, catalogue, 0, []);
  }

  /** A tour the script saves has fewer rides than activities. */
  lemma RecordedRides(rides: RideTable, u: ProtoState, catalogue: seq<ProtoActivity>)
    requires ProtoRecorded(rides, u, catalogue)
    ensures |u.trainRides| < |u.activities|
  {
    RidesAlongCount(rides, u.activities);
  }

  /** With a catalogue of distinct activities, no saved tour holds the same
      activity twice. */
  lemma ProtoNoActivityTwice(rides: RideTable, catalogue: seq<ProtoActivity>)
    requires RidesCover(rides, catalogue) && Distinct(catalogue)
    ensures forall u :: u in AllProtoTours(rides, catalogue) ==> Distinct(u.activities)
  {
    AllProtoToursSound(rides, catalogue);
    forall u | u in AllProtoTours(rides, catalogue)
      ensures Distinct(u.activities)
    {
      var acts := u.activities;
      forall i, j | 0 <= i < j < |acts|
        ensures acts[i] != acts[j]
      {
        DuplicateCount(acts, i, j);
        DistinctCount(catalogue, acts[i]);
      }
    }
  }

  /** A catalogue of one activity saves no tour: the root tour is never
      recorded and nothing is left to extend it with. */
  lemma ProtoSingleActivityNoTours(rides: RideTable, catalogue: seq<ProtoActivity>)
    requires RidesCover(rides, catalogue) && |catalogue| == 1
    ensures AllProtoTours(rides, catalogue) == []
  {
    var ad := ProtoAdd(rides, EmptyProto(), catalogue[0]);
    if ad.ok {
      ProtoRootIsReady(rides, catalogue, 0);
      assert RemoveAt(catalogue, 0) == [];
      assert ProtoSearch(rides, [], ad.tour, []) == [];
    }
    assert ProtoRoots(rides, catalogue, 0, []) == ProtoRoots(rides, catalogue, 1, ProtoRootBranch(rides, catalogue, 0, []));
  }

  /** Once more than 100 tours are recorded the rest of the root loop adds
      nothing: every later call of `build_tours` returns at once. The cap
      is checked only on entry to `build_tours`, not inside its loop. */
  lemma {:induction false} ProtoRootsCapped(rides: RideTable, catalogue: seq<ProtoActivity>, i: nat, tours: seq<ProtoState>)
    requires RidesCover(rides, catalogue) && i <= |catalogue|
    requires |tours| > 100
    ensures ProtoRoots(rides, catalogue, i, tours) == tours
    decreases |catalogue| - i
  {
    if i < |catalogue| {
      assert ProtoRootBranch(rides, catalogue, i, tours) == tours;
      ProtoRootsCapped(rides, catalogue, i + 1, tours);
    }
  }
}
