/** builder.py's backtracking search: `build_tours` and the loop over root
    activities that calls it. The functions Search, SearchFrom and AllTours
    say which tours are recorded, in order; the methods BuildTours and
    RunSearch are the loops of the source, proved to record exactly those. */
module Search {
  import opened Options
  import opened Meals
  import opened Specs
  import opened Tours
  import opened Sequences

  /** The pre-filter of `build_tours`: the activities, in order, whose own
      duration and cost are strictly under what is left. */
  function Candidates(acts: seq<Activity>, durationLimit: int, costLimit: int): (r: seq<Activity>)
    ensures |r| <= |acts|
    ensures multiset(r) <= multiset(acts)
    ensures forall x :: x in r <==> x in acts && x.duration < durationLimit && x.cost < costLimit
  {
    if acts == [] then []
    else
      var rest := Candidates(acts[1..], durationLimit, costLimit);
      assert acts == [acts[0]] + acts[1..];
      if acts[0].duration < durationLimit && acts[0].cost < costLimit then [acts[0]] + rest else rest
  }

  /** The pre-filter keeps the order of the list. */
  lemma {:induction false} CandidatesInOrder(acts: seq<Activity>, durationLimit: int, costLimit: int)
    ensures IsSubsequence(Candidates(acts, durationLimit, costLimit), acts)
  {
    if acts != [] {
      CandidatesInOrder(acts[1..], durationLimit, costLimit);
      var rest := Candidates(acts[1..], durationLimit, costLimit);
      if acts[0].duration < durationLimit && acts[0].cost < costLimit {
        assert ([acts[0]] + rest)[1..] == rest;
      }
    }
  }

  /** The pre-filter keeps each activity under the limits as often as the
      list holds it, and no other. */
  lemma {:induction false} CandidatesCount(acts: seq<Activity>, durationLimit: int, costLimit: int)
    ensures forall x :: multiset(Candidates(acts, durationLimit, costLimit))[x]
                        == if x.duration < durationLimit && x.cost < costLimit then multiset(acts)[x] else 0
  {
    if acts != [] {
      CandidatesCount(acts[1..], durationLimit, costLimit);
      assert acts == [acts[0]] + acts[1..];
    }
  }

  /** Every pair of catalogue stations can be resolved without raising. */
  predicate RoutesCover(routes: RouteTable, acts: seq<Activity>) {
    forall a, b :: a in acts && b in acts ==> Reachable(routes, a.location, b.location)
  }

  /** What `build_tours` needs to run without raising: both maxima set (the
      remaining money and time are computed from them), and every station it
      may have to ride between resolvable. */
  predicate Ready(specs: Specifications, routes: RouteTable, t: TourState, acts: seq<Activity>) {
    && specs.maxCost.Some? && specs.maxDuration.Some?
    && RoutesCover(routes, acts)
    && forall a :: a in acts ==> CanResolve(routes, t, a)
  }

  /** The tours `build_tours(valid_tours, t, acts)` appends, in order. */
  function Search(specs: Specifications, routes: RouteTable, t: TourState, acts: seq<Activity>): seq<TourState>
    requires Ready(specs, routes, t, acts)
    decreases |acts|, 1, 0
  {
    var cands := Candidates(acts, TimeLeft(specs, t), MoneyLeft(specs, t));
    SearchFrom(specs, routes, t, cands, 0)
  }

  /** The tours the loop of `build_tours` appends from index i on: for each
      candidate a copy of the tour tries to admit it; an accepted copy is
      recorded when it is within the specification, and the search goes on
      from it without that candidate. */
  function SearchFrom(specs: Specifications, routes: RouteTable, t: TourState, cands: seq<Activity>, i: nat)
    : seq<TourState>
    requires Ready(specs, routes, t, cands)
    requires i <= |cands|
    decreases |cands|, 0, |cands| - i
  {
    if i == |cands| then []
    else Branch(specs, routes, t, cands, i) + SearchFrom(specs, routes, t, cands, i + 1)
  }

  /** The tours one iteration of the loop of `build_tours` appends. */
  function Branch(specs: Specifications, routes: RouteTable, t: TourState, cands: seq<Activity>, i: nat)
    : seq<TourState>
    requires Ready(specs, routes, t, cands)
    requires i < |cands|
    decreases |cands|, 0, |cands| - i - 1
  {
    var ad := Admit(specs, routes, t, cands[i]);
    if ad.ok then
      var rest := RemoveAt(cands, i);
      AdmittedIsReady(specs, routes, t, cands, i);
      (if specs.WithinSpec(ad.tour.cost, ad.tour.duration) then [ad.tour] else [])
      + Search(specs, routes, ad.tour, rest)
    else []
  }

  /** The tours the root loop collects from index i of the catalogue on:
      a fresh tour admits that activity, and if it does the search runs
      from it over the other activities. The root tour itself is never
      recorded. */
  function RootTours(specs: Specifications, routes: RouteTable, catalogue: seq<Activity>, i: nat): seq<TourState>
    requires specs.maxCost.Some? && specs.maxDuration.Some?
    requires RoutesCover(routes, catalogue)
    requires i <= |catalogue|
    decreases |catalogue| - i
  {
    if i == |catalogue| then []
    else RootBranch(specs, routes, catalogue, i) + RootTours(specs, routes, catalogue, i + 1)
  }

  /** The tours one iteration of the root loop collects. */
  function RootBranch(specs: Specifications, routes: RouteTable, catalogue: seq<Activity>, i: nat): seq<TourState>
    requires specs.maxCost.Some? && specs.maxDuration.Some?
    requires RoutesCover(routes, catalogue)
    requires i < |catalogue|
  {
    var ad := Admit(specs, routes, NewTour(specs), catalogue[i]);
    if ad.ok then
      RootIsReady(specs, routes, catalogue, i);
      Search(specs, routes, ad.tour, RemoveAt(catalogue, i))
    else []
  }

  /** Every tour the program collects. */
  function AllTours(specs: Specifications, routes: RouteTable, catalogue: seq<Activity>): seq<TourState>
    requires specs.maxCost.Some? && specs.maxDuration.Some?
    requires RoutesCover(routes, catalogue)
  {
    RootTours(specs, routes, catalogue, 0)
  }

  /** An admitted activity becomes the last event, so the search can go on
      from the new tour over the remaining candidates. */
  lemma AdmittedIsReady(specs: Specifications, routes: RouteTable, t: TourState, cands: seq<Activity>, i: nat)
    requires Ready(specs, routes, t, cands) && i < |cands|
    requires Admit(specs, routes, t, cands[i]).ok
    ensures Ready(specs, routes, Admit(specs, routes, t, cands[i]).tour, RemoveAt(cands, i))
  {
    var ad := Admit(specs, routes, t, cands[i]);
    AdmitOutcome(specs, routes, t, cands[i]);
    assert ad.tour.events == t.events + Lead(routes, t, cands[i]) + [Visit(cands[i])];
  }

  /** A root tour that admitted its activity is ready for the search over
      the rest of the catalogue. */
  lemma RootIsReady(specs: Specifications, routes: RouteTable, catalogue: seq<Activity>, i: nat)
    requires specs.maxCost.Some? && specs.maxDuration.Some?
    requires RoutesCover(routes, catalogue) && i < |catalogue|
    requires Admit(specs, routes, NewTour(specs), catalogue[i]).ok
    ensures Ready(specs, routes, Admit(specs, routes, NewTour(specs), catalogue[i]).tour, RemoveAt(catalogue, i))
  {
    var ad := Admit(specs, routes, NewTour(specs), catalogue[i]);
    AdmitOutcome(specs, routes, NewTour(specs), catalogue[i]);
    assert ad.tour.events == [Meet(catalogue[i].location), Visit(catalogue[i])];
  }

  /** Search is the loop over the pre-filtered candidates, which keep the
      search ready. */
  lemma SearchUnfold(specs: Specifications, routes: RouteTable, t: TourState, acts: seq<Activity>)
    requires Ready(specs, routes, t, acts)
    ensures Ready(specs, routes, t, Candidates(acts, TimeLeft(specs, t), MoneyLeft(specs, t)))
    ensures Search(specs, routes, t, acts) == SearchFrom(specs, routes, t, Candidates(acts, TimeLeft(specs, t), MoneyLeft(specs, t)), 0)
  {
    CandidatesReady(specs, routes, t, acts, TimeLeft(specs, t), MoneyLeft(specs, t));
  }

  /** The pre-filter keeps the search ready. */
  lemma CandidatesReady(specs: Specifications, routes: RouteTable, t: TourState, acts: seq<Activity>,
                        durationLimit: int, costLimit: int)
    requires Ready(specs, routes, t, acts)
    ensures Ready(specs, routes, t, Candidates(acts, durationLimit, costLimit))
  {
  }

  /** One step of SearchFrom, by the outcome of the admission. */
  lemma BranchUnfold(specs: Specifications, routes: RouteTable, t: TourState, cands: seq<Activity>, i: nat)
    requires Ready(specs, routes, t, cands) && i < |cands|
    ensures !Admit(specs, routes, t, cands[i]).ok ==> Branch(specs, routes, t, cands, i) == []
    ensures Admit(specs, routes, t, cands[i]).ok ==>
      var u := Admit(specs, routes, t, cands[i]).tour;
      && Ready(specs, routes, u, RemoveAt(cands, i))
      && Branch(specs, routes, t, cands, i)
         == (if specs.WithinSpec(u.cost, u.duration) then [u] else []) + Search(specs, routes, u, RemoveAt(cands, i))
  {
    if Admit(specs, routes, t, cands[i]).ok {
      AdmittedIsReady(specs, routes, t, cands, i);
    }
  }

  /** `build_tours`: appends to `validTours` exactly the tours Search
      describes, leaving `tour` itself untouched. */
  method BuildTours(validTours: seq<TourState>, tour: Tour, activities: seq<Activity>, routes: RouteTable)
    returns (out: seq<TourState>)
    requires tour.Valid()
    requires Ready(tour.specs, routes, tour.State(), activities)
    ensures out == validTours + Search(tour.specs, routes, tour.State(), activities)
    decreases |activities|, 1
  {
    var costLimit := tour.RemainingMoney();
    var durationLimit := tour.RemainingTime();
    var candidates := Candidates(activities, durationLimit, costLimit);
    ghost var t := tour.State();
    SearchUnfold(tour.specs, routes, t, activities);
    out := validTours;
    for index := 0 to |candidates|
      invariant out + SearchFrom(tour.specs, routes, t, candidates, index) == validTours + Search(tour.specs, routes, t, activities)
    {
      ghost var before := out;
      out := TryCandidate(out, tour, candidates, index, routes);
      AppendAssoc(before, Branch(tour.specs, routes, t, candidates, index), SearchFrom(tour.specs, routes, t, candidates, index + 1));
    }
  }

  /** One iteration of the loop of `build_tours`: a deep copy of the tour
      tries to admit the candidate at `index`; an accepted copy is recorded
      when within the specification and the search recurses from it. */
  method TryCandidate(validTours: seq<TourState>, tour: Tour, candidates: seq<Activity>, index: nat, routes: RouteTable)
    returns (out: seq<TourState>)
    requires tour.Valid()
    requires Ready(tour.specs, routes, tour.State(), candidates) && index < |candidates|
    ensures out == validTours + Branch(tour.specs, routes, tour.State(), candidates, index)
    decreases |candidates|, 0
  {
    ghost var t := tour.State();
    var activitiesCopy := RemoveAt(candidates, index);
    var nextActivity := candidates[index];
    var tourCopy := new Tour.Copy(tour);
    var added := tourCopy.AddActivity(nextActivity, routes);
    BranchUnfold(tour.specs, routes, t, candidates, index);
    ghost var ad := Admit(tour.specs, routes, t, nextActivity);
    assert ad.ok == added && ad.tour == tourCopy.State();
    out := validTours;
    if added {
      ghost var recorded: seq<TourState> := if tour.specs.WithinSpec(ad.tour.cost, ad.tour.duration) then [ad.tour] else [];
      if tourCopy.WithinSpec() {
        out := out + [tourCopy.State()];
      }
      assert out == validTours + recorded;
      out := BuildTours(out, tourCopy, activitiesCopy, routes);
      AppendAssoc(validTours, recorded, Search(tour.specs, routes, ad.tour, activitiesCopy));
    } else {
      assert out == validTours + [];
    }
  }

  /** The root loop: a fresh tour per catalogue activity, then `build_tours`
      from each tour that admitted it. */
  method RunSearch(specs: Specifications, routes: RouteTable, activities: seq<Activity>)
    returns (tours: seq<TourState>)
    requires specs.maxCost.Some? && specs.maxDuration.Some?
    requires RoutesCover(routes, activities)
    ensures tours == AllTours(specs, routes, activities)
  {
    tours := [];
    for index := 0 to |activities|
      invariant tours + RootTours(specs, routes, activities, index) == AllTours(specs, routes, activities)
    {
      ghost var before := tours;
      var activityList := RemoveAt(activities, index);
      var tour := new Tour(specs);
      var added := tour.AddActivity(activities[index], routes);
      ghost var ad := Admit(specs, routes, NewTour(specs), activities[index]);
      assert ad == Admission(added, tour.State());
      if added {
        RootIsReady(specs, routes, activities, index);
        tours := BuildTours(tours, tour, activityList, routes);
      }
      assert tours == before + RootBranch(specs, routes, activities, index);
      AppendAssoc(before, RootBranch(specs, routes, activities, index), RootTours(specs, routes, activities, index + 1));
    }
  }

  /** A tour opens with a Meet at the station of its first activity, which
      comes right after it. */
  predicate StartsWithMeet(events: seq<Event>) {
    |events| >= 2 && events[1].Visit? && events[0] == Meet(events[1].activity.location)
  }

  /** What holds of every tour the search starts from or passes through:
      its totals agree with its events, it opens with a Meet, it holds at
      least one activity, and its activities together with those still to
      try come out of the catalogue. */
  predicate Partial(specs: Specifications, t: TourState, acts: seq<Activity>, catalogue: seq<Activity>) {
    && Consistent(t, specs.startTime)
    && StartsWithMeet(t.events)
    && |ActivitiesOf(t.events)| >= 1
    && multiset(ActivitiesOf(t.events)) + multiset(acts) <= multiset(catalogue)
  }

  /** What holds of every recorded tour: within the specification, totals
      agreeing with the events, opening with a Meet, at least two
      activities, each drawn from the catalogue no more often than it is
      listed there. */
  predicate Recorded(specs: Specifications, u: TourState, catalogue: seq<Activity>) {
    && specs.WithinSpec(u.cost, u.duration)
    && Consistent(u, specs.startTime)
    && StartsWithMeet(u.events)
    && |ActivitiesOf(u.events)| >= 2
    && multiset(ActivitiesOf(u.events)) <= multiset(catalogue)
  }

  /** Admitting a candidate keeps a partial tour partial, now with one more
      activity, over the remaining candidates. */
  lemma AdmitKeepsPartial(specs: Specifications, routes: RouteTable, t: TourState, cands: seq<Activity>, i: nat,
                          catalogue: seq<Activity>)
    requires Ready(specs, routes, t, cands) && i < |cands|
    requires Partial(specs, t, cands, catalogue)
    requires Admit(specs, routes, t, cands[i]).ok
    ensures Partial(specs, Admit(specs, routes, t, cands[i]).tour, RemoveAt(cands, i), catalogue)
    ensures |ActivitiesOf(Admit(specs, routes, t, cands[i]).tour.events)| >= 2
  {
    var a := cands[i];
    var u := Admit(specs, routes, t, a).tour;
    AdmitKeepsConsistent(specs, routes, t, a);
    AdmitAppendsActivity(specs, routes, t, a);
    assert u.events[..2] == t.events[..2];
    assert multiset(ActivitiesOf(u.events)) + multiset(RemoveAt(cands, i))
        == multiset(ActivitiesOf(t.events)) + multiset(cands);
  }

  /** Every tour Search records from a partial tour is a Recorded one. */
  lemma {:induction false} SearchSound(specs: Specifications, routes: RouteTable, t: TourState, acts: seq<Activity>,
                                       catalogue: seq<Activity>)
    requires Ready(specs, routes, t, acts)
    requires Partial(specs, t, acts, catalogue)
    ensures forall u :: u in Search(specs, routes, t, acts) ==> Recorded(specs, u, catalogue)
    decreases |acts|, 1, 0
  {
    var cands := Candidates(acts, TimeLeft(specs, t), MoneyLeft(specs, t));
    SearchUnfold(specs, routes, t, acts);
    assert Partial(specs, t, cands, catalogue);
    SearchFromSound(specs, routes, t, cands, 0, catalogue);
  }

  lemma {:induction false} SearchFromSound(specs: Specifications, routes: RouteTable, t: TourState,
                                           cands: seq<Activity>, i: nat, catalogue: seq<Activity>)
    requires Ready(specs, routes, t, cands) && i <= |cands|
    requires Partial(specs, t, cands, catalogue)
    ensures forall u :: u in SearchFrom(specs, routes, t, cands, i) ==> Recorded(specs, u, catalogue)
    decreases |cands|, 0, |cands| - i
  {
    if i < |cands| {
      BranchSound(specs, routes, t, cands, i, catalogue);
      SearchFromSound(specs, routes, t, cands, i + 1, catalogue);
    }
  }

  lemma {:induction false} BranchSound(specs: Specifications, routes: RouteTable, t: TourState,
                                       cands: seq<Activity>, i: nat, catalogue: seq<Activity>)
    requires Ready(specs, routes, t, cands) && i < |cands|
    requires Partial(specs, t, cands, catalogue)
    ensures forall u :: u in Branch(specs, routes, t, cands, i) ==> Recorded(specs, u, catalogue)
    decreases |cands|, 0, |cands| - i - 1
  {
    BranchUnfold(specs, routes, t, cands, i);
    if Admit(specs, routes, t, cands[i]).ok {
      var u := Admit(specs, routes, t, cands[i]).tour;
      AdmitKeepsPartial(specs, routes, t, cands, i, catalogue);
      SearchSound(specs, routes, u, RemoveAt(cands, i), catalogue);
    }
  }

  /** The root loop records only Recorded tours: every one is within the
      specification, opens with a Meet, and holds at least two activities
      drawn from the catalogue. */
  lemma AllToursSound(specs: Specifications, routes: RouteTable, catalogue: seq<Activity>)
    requires specs.maxCost.Some? && specs.maxDuration.Some?
    requires RoutesCover(routes, catalogue)
    ensures forall u :: u in AllTours(specs, routes, catalogue) ==> Recorded(specs, u, catalogue)
  {
    RootToursSound(specs, routes, catalogue, 0);
  }

  lemma {:induction false} RootToursSound(specs: Specifications, routes: RouteTable, catalogue: seq<Activity>, i: nat)
    requires specs.maxCost.Some? && specs.maxDuration.Some?
    requires RoutesCover(routes, catalogue) && i <= |catalogue|
    ensures forall u :: u in RootTours(specs, routes, catalogue, i) ==> Recorded(specs, u, catalogue)
    decreases |catalogue| - i
  {
    if i < |catalogue| {
      RootToursSound(specs, routes, catalogue, i + 1);
      RootBranchUnfold(specs, routes, catalogue, i);
      var a := catalogue[i];
      if Admit(specs, routes, NewTour(specs), a).ok {
        var u := Admit(specs, routes, NewTour(specs), a).tour;
        RootAdmitIsPartial(specs, routes, catalogue, i);
        SearchSound(specs, routes, u, RemoveAt(catalogue, i), catalogue);
      }
    }
  }

  /** A root tour that admitted its activity is partial over the rest of
      the catalogue. */
  lemma RootAdmitIsPartial(specs: Specifications, routes: RouteTable, catalogue: seq<Activity>, i: nat)
    requires specs.maxCost.Some? && specs.maxDuration.Some?
    requires RoutesCover(routes, catalogue) && i < |catalogue|
    requires Admit(specs, routes, NewTour(specs), catalogue[i]).ok
    ensures Partial(specs, Admit(specs, routes, NewTour(specs), catalogue[i]).tour, RemoveAt(catalogue, i), catalogue)
  {
    var a := catalogue[i];
    var u := Admit(specs, routes, NewTour(specs), a).tour;
    AdmitKeepsConsistent(specs, routes, NewTour(specs), a);
    AdmitOutcome(specs, routes, NewTour(specs), a);
    assert u.events == [Meet(a.location)] + [Visit(a)];
    ActivitiesOfAppend([Meet(a.location)], Visit(a));
    ActivitiesOfAppend([], Meet(a.location));
    assert ActivitiesOf(u.events) == [a];
  }

  /** One step of RootTours, by the outcome of the root admission. */
  lemma RootBranchUnfold(specs: Specifications, routes: RouteTable, catalogue: seq<Activity>, i: nat)
    requires specs.maxCost.Some? && specs.maxDuration.Some?
    requires RoutesCover(routes, catalogue) && i < |catalogue|
    ensures RootTours(specs, routes, catalogue, i)
            == RootBranch(specs, routes, catalogue, i) + RootTours(specs, routes, catalogue, i + 1)
    ensures !Admit(specs, routes, NewTour(specs), catalogue[i]).ok ==> RootBranch(specs, routes, catalogue, i) == []
    ensures Admit(specs, routes, NewTour(specs), catalogue[i]).ok ==>
      && Ready(specs, routes, Admit(specs, routes, NewTour(specs), catalogue[i]).tour, RemoveAt(catalogue, i))
      && RootBranch(specs, routes, catalogue, i)
         == Search(specs, routes, Admit(specs, routes, NewTour(specs), catalogue[i]).tour, RemoveAt(catalogue, i))
  {
    if Admit(specs, routes, NewTour(specs), catalogue[i]).ok {
      RootIsReady(specs, routes, catalogue, i);
    }
  }

  /** With a catalogue of distinct activities, no recorded tour visits the
      same activity twice. */
  lemma NoActivityTwice(specs: Specifications, routes: RouteTable, catalogue: seq<Activity>)
    requires specs.maxCost.Some? && specs.maxDuration.Some?
    requires RoutesCover(routes, catalogue)
    requires Distinct(catalogue)
    ensures forall u :: u in AllTours(specs, routes, catalogue) ==> Distinct(ActivitiesOf(u.events))
  {
    AllToursSound(specs, routes, catalogue);
    forall u | u in AllTours(specs, routes, catalogue)
      ensures Distinct(ActivitiesOf(u.events))
    {
      var acts := ActivitiesOf(u.events);
      forall i, j | 0 <= i < j < |acts|
        ensures acts[i] != acts[j]
      {
        DuplicateCount(acts, i, j);
        DistinctCount(catalogue, acts[i]);
      }
    }
  }

  /** A catalogue of one activity yields no tour: the root tour is never
      recorded and nothing is left to extend it with. */
  lemma SingleActivityNoTours(specs: Specifications, routes: RouteTable, catalogue: seq<Activity>)
    requires specs.maxCost.Some? && specs.maxDuration.Some?
    requires RoutesCover(routes, catalogue)
    requires |catalogue| == 1
    ensures AllTours(specs, routes, catalogue) == []
  {
    RootBranchUnfold(specs, routes, catalogue, 0);
    if Admit(specs, routes, NewTour(specs), catalogue[0]).ok {
      var u := Admit(specs, routes, NewTour(specs), catalogue[0]).tour;
      SearchUnfold(specs, routes, u, RemoveAt(catalogue, 0));
    }
  }

  /** The pre-filter is stricter than the admission: an activity that would
      use up exactly the time left is never tried, although `add_activity`
      would accept it at the same station. */
  lemma PrefilterDropsExactFit(specs: Specifications, routes: RouteTable, t: TourState, acts: seq<Activity>, a: Activity)
    requires specs.maxCost.Some? && specs.maxDuration.Some?
    requires |t.events| > 0 && LastEvent(t).Location().name == a.location.name
    requires !IsFoodCategory(LastEvent(t).Category()) && a.category != "food" && a.category != "coffee"
    requires a.availableFrom <= t.endTime && t.endTime + a.duration <= a.availableUntil
    requires a.duration == TimeLeft(specs, t) && 0 <= a.cost <= MoneyLeft(specs, t)
    ensures Admit(specs, routes, t, a).ok
    ensures a !in Candidates(acts, TimeLeft(specs, t), MoneyLeft(specs, t))
  {
    AdmitDecision(specs, routes, t, a);
  }
}
