# Tour builder, modelled in Dafny

The tour builder puts together one-day tours of Tokyo from a catalogue of
activities. Each activity has a station, a duration, a cost, opening hours
and a category. The project models three parts of it.

- **The itinerary search of `builder.py`.**
  - `Specifications` holds optional bounds on cost and duration.
  - `Activity.meal_category` sorts food and coffee into meal slots by the
    time of day.
  - The `Tour` accumulator has `_add_event` and `add_activity`. The tour
    opens with a Meet, and a train ride goes in whenever the station
    changes.
  - Train rides come from a route table keyed by the sorted pair of
    station ids.
  - `build_tours` and the root loop enumerate tours by backtracking, and
    record those within the specification.
  - Also modelled: the text helpers `cost_string`, `duration_string`,
    `to_time` and `to_money`, and `generate_event_combinations`.
- **`TourProto` and the search of `website/generate_tours.py`.**
  - A tour keeps a window of start times from which every activity it holds
    is reached while open.
  - `add_activity` narrows the window and refuses an activity that would
    close it.
  - The search records every tour it extends, with no budget. It stops
    extending tours once more than 100 are recorded, but loops already
    running still record the tours they admit.
- **The fixture generator of `generate_database_fixtures.py`.**
  - It turns station and route rows of the transit database into Django
    fixture records. Repeated station ids are removed, and each route
    becomes a record in each direction.
  - It builds the fixed list of activity types and the opening-hours text
    of an activity record.
  - `main` puts the records together in a fixed order.

Representation:
- Times are integer seconds since midnight of the reference day, and
  durations are integer seconds.
- Optional bounds are `Option<int>`.
- The route table and the `TrainRide` table are maps.
- The database rows are input sequences.

The modules:
- `Options`, `Decimal` and `Sequences` are small shared helpers.
- `Meals`, `Specs`, `Tours`, `Search`, `Formatting` and `Combinations` model
  `builder.py`.
- `Proto` models `website/generate_tours.py`.
- `Fixtures` models `generate_database_fixtures.py`.

Each mutable object of the source is a class: `Tours.Tour`, `Proto.TourProto`
and `Fixtures.FixtureGenerator`, whose fields are the module's three global
lookups. Each method's `ensures` states that the new state (and what it
returns) equals a pure function of the old state. The lemmas are proved about
those functions. The searches are methods whose loops are proved to record
exactly the list that a recursive function describes. Soundness lemmas then
say what every recorded tour satisfies.

## Quirks of the code

- **A one-activity catalogue yields no tour at all.** The root tours are
  never recorded, so a catalogue with only one activity yields nothing. See
  `Search.SingleActivityNoTours` and `Proto.ProtoSingleActivityNoTours`.
- **The search's pre-filter is strict.** It keeps an activity only when its
  duration and cost are strictly below what is left (`<`). An activity
  that would use up exactly the time left is never tried, even though
  `add_activity` accepts it. See `Search.PrefilterDropsExactFit`.
- **A missing route raises.** Here that is a precondition
  (`Tours.CanResolve`, `Search.RoutesCover`).
- **A meal slot can be recorded twice.**
  - The slot is checked at the clock before the Meet or ride is appended,
    but recorded at the clock after it.
  - Example: food reached at 10:20 by a 10-minute ride passes the check as
    breakfast and is recorded as coffee. A tour that already holds a coffee
    slot then holds two.
  - See `Tours.FoodAfterRideRecordedAsCoffee`.
- **An empty "Closes" field means midnight.** It becomes 00:00 in
  `builder.py`, so such an activity is never admitted (`Formatting.EmptyClosesNeverAdmitted`). The fixture generator
  writes 23:59:59 for the same field (`Fixtures.EmptyFieldsDefaults`).
- **The first admission does not count the Meet against the budget.** Its
  15 minutes are left out of the budget check, so a tour can exceed the
  maximum duration (`Tours.FirstAdmissionOmitsMeet`).
- **Food at exactly 10:30 or 15:30 is coffee.** See `Meals.MealCategory`.
- **Both directions of a route share one pk.** The generator gives the two
  trainride records of a route the same pk, so they share a primary key in
  the fixture file (`Fixtures.RidePairMirrors`).

## Model

| member | source | states |
|---|---|---|
| Specs.Specifications.BelowMaximum | builder.py:191-195 | below_maximum holds exactly when both set upper bounds hold, and is the negation of above_maximum |
| Specs.Specifications.WithinSpec | builder.py:179-201 | within_spec holds exactly when cost and duration each lie between the bounds that are set; it implies below_maximum |
| Specs.NewSpecifications | builder.py:161-163 | a fresh Specifications keeps the people count and start time and sets no bound, so every cost and duration is within it |
| Specs.SetMaxCost | builder.py:165-166 | after set_max_cost exactly the costs above it are too expensive; no other field changes |
| Specs.SetMinCost | builder.py:168-169 | after set_min_cost exactly the costs below it are too cheap; no other field changes |
| Specs.SetMaxEndTime | builder.py:171-173 | max_duration becomes end time minus start time, so a duration is too long exactly when the tour would end after the end time; nothing else changes |
| Specs.SetMinEndTime | builder.py:175-177 | min_duration becomes end time minus start time, so a duration is too short exactly when the tour would end before the end time |
| Specs.BoundsConstrainOnlyWhenSet | builder.py:179-198 | each of too_expensive, too_cheap, too_long, too_short holds iff its bound is set and the value is beyond it; with no bounds set both gates pass |
| Meals.FirstOpen | builder.py:277-280 | the slot found is in the list and its window contains the time, and there is none exactly when no window contains it |
| Meals.FirstOpenIsFirst | builder.py:277-280 | where slot i is open and no slot before it is, the slot found is slot i |
| Meals.MealCategory | builder.py:275-285 | for food: breakfast, lunch, dinner exactly inside their open windows, coffee exactly at 10:30 and 15:30, none at or outside midnight and 23:59:59; for coffee: coffee iff strictly between 00:00 and 17:00; any other category: none |
| Meals.FoodSlotInOrder | builder.py:30-47 | the food loop tries the meal_times windows in the order breakfast, lunch, dinner, coffee |
| Tours.SortedPair | builder.py:320-321 | the route key is the two station ids in ascending order |
| Tours.TrainRide | builder.py:302-330 | a train ride goes from the start station to the end station |
| Tours.GetTransport | builder.py:336-357 | no ride exactly when the station names are equal, otherwise a ride from start to end |
| Tours.TransportIsUndirected | builder.py:320-330 | swapping the ends gives a ride exactly when the original does, with the same duration and cost |
| Tours.WithEvent | builder.py:379-388 | _add_event appends exactly the event |
| Tours.WithEventKeepsConsistent | builder.py:379-388 | _add_event adds the event's cost and duration, keeps end_time = start + duration and the meal map equal to what the events record, and records a meal at the new index iff the event is an activity with a slot at the current clock |
| Tours.MealsOfAt | builder.py:379-384 | index k holds a meal iff event k is an activity with a slot at the clock where it starts, and then that slot |
| Tours.Admit | builder.py:390-444 | a rejection of an activity on a non-empty tour leaves the tour unchanged |
| Tours.AdmitDecision | builder.py:390-444 | the availability rejections on the clock before any Meet or ride; the three meal rejections; acceptance iff all checks pass and the totals with the ride but without the Meet stay below the maxima |
| Tours.AdmitOutcome | builder.py:420-444 | acceptance appends [Meet, activity], [activity] or [ride, activity]; a rejection on an empty tour leaves it unchanged or with the Meet appended |
| Tours.AdmitAppendsActivity | builder.py:420-443 | an accepted activity is appended to the tour's activities and the earlier events are kept as a prefix |
| Tours.AdmitKeepsConsistent | builder.py:390-444 | every outcome of add_activity keeps the totals and meal map consistent with the events; an accepted activity is the last event |
| Tours.TimeLeft | builder.py:452-453 | remaining time plus duration is the maximum duration; negative exactly when the tour is too long |
| Tours.MoneyLeft | builder.py:455-456 | remaining money plus cost is the maximum cost; negative exactly when the tour is too expensive |
| Tours.FirstAdmissionOmitsMeet | builder.py:421-427 | an activity taking the whole maximum duration is admitted into an empty tour, which is then too long |
| Tours.FoodAfterRideRecordedAsCoffee | builder.py:413-442 | food checked at 10:20 as breakfast, after a 10-minute ride, is admitted and recorded as coffee beside an existing coffee slot |
| Tours.Tour.constructor | builder.py:371-377 | a new tour has no cost, duration, events or meals and its clock at the start time |
| Tours.Tour.Copy | builder.py:512 | the deep copy has the same fields and specifications |
| Tours.Tour.AddEvent | builder.py:379-388 | the fields after _add_event are those WithEvent gives, and consistency is kept |
| Tours.Tour.AddActivity | builder.py:390-444 | the returned flag and the fields afterwards are exactly Admit's outcome, and consistency is kept |
| Tours.Tour.WithinSpec | builder.py:446-447 | within_spec holds iff cost and duration are within every bound that is set |
| Tours.Tour.ExceedsSpec | builder.py:449-450 | exceeds_spec holds iff an upper bound is broken |
| Tours.Tour.RemainingTime | builder.py:452-453 | remaining_time is TimeLeft of the tour's state |
| Tours.Tour.RemainingMoney | builder.py:455-456 | remaining_money is MoneyLeft of the tour's state |
| Sequences.RemoveAt | builder.py:509-511 | copying and removing the element at index i leaves one element fewer, the same multiset less that element, and nothing new |
| Search.Candidates | builder.py:505-506 | an activity is kept exactly when it is listed and its own duration and cost are strictly under the limits |
| Search.CandidatesInOrder | builder.py:505-506 | the kept activities are a subsequence of the list, in its order |
| Search.CandidatesCount | builder.py:505-506 | each activity under the limits is kept as often as the list holds it, and no other activity is kept |
| Search.BuildTours | builder.py:499-516 | build_tours appends to the list exactly the tours Search describes |
| Search.TryCandidate | builder.py:508-516 | one loop iteration appends exactly the tours Branch describes |
| Search.RunSearch | builder.py:519-525 | the root loop collects exactly AllTours |
| Search.AdmitKeepsPartial | builder.py:511-516 | admitting a candidate keeps a partial tour partial over the remaining candidates, with at least two activities |
| Search.SearchSound | builder.py:499-516 | every tour build_tours records from a partial tour is within the specification, consistent, opens with a Meet and has at least two activities from the catalogue |
| Search.SearchFromSound | builder.py:508-516 | the same for the tours recorded from loop index i on |
| Search.BranchSound | builder.py:509-516 | the same for the tours one loop iteration records |
| Search.RootToursSound | builder.py:519-525 | the same for the tours the root loop collects from index i on |
| Search.RootAdmitIsPartial | builder.py:521-525 | a root tour that admitted its activity is a partial tour over the rest of the catalogue |
| Search.AllToursSound | builder.py:499-525 | every tour the program collects is within the specification, opens with a Meet, has at least two activities and takes each from the catalogue at most as often as it is listed |
| Search.NoActivityTwice | builder.py:509-511 | with a catalogue of distinct activities no collected tour holds an activity twice |
| Search.SingleActivityNoTours | builder.py:519-525 | a catalogue of one activity yields no tour |
| Search.PrefilterDropsExactFit | builder.py:505-506 | an activity that exactly uses up the time left is admitted by add_activity but dropped by the pre-filter |
| Decimal.NatToString | builder.py:107 | str(n) of a non-negative int is a digit string without leading zeros that reads back as n |
| Decimal.IntToStringRoundTrip | builder.py:232-238 | int(str(i)) == i |
| Formatting.CostStringRoundTrip | builder.py:98-99 | cost_string reads back as the cost, and is "free" exactly for zero |
| Formatting.DaySeconds | builder.py:102-103 | the seconds of a timedelta lie within one day and differ from the whole duration by whole days |
| Formatting.DurationStringRoundTrip | builder.py:102-111 | duration_string reads back as the whole hours and minutes of the seconds within the day |
| Formatting.ToTimeRoundTrip | builder.py:204-213 | every "HH:MM" time of day reads back through to_time as itself |
| Formatting.ToTimeWithinDay | builder.py:211-213 | what to_time accepts from text is a whole minute within the day |
| Formatting.EmptyClosesNeverAdmitted | builder.py:92-93 | an activity whose Closes field is empty, and which takes any time, is never admitted |
| Formatting.ToMoneyRoundTrip | builder.py:232-238 | to_money keeps an int amount and the text str() writes for it |
| Combinations.Combinations | builder.py:485 | the selections of k elements, Binomial(n, k) of them, each keeping the order of the list |
| Combinations.GenerateEventCombinations | builder.py:482-487 | 2^n - 1 selections, each of 1 to n events in list order, shorter selections first; every choice of 1 to n positions appears, and none twice when no event is listed twice |
| Combinations.CombinationsComplete | builder.py:485 | every choice of k positions of the list, taken in order, is among the selections of size k |
| Combinations.CombinationsDistinct | builder.py:485 | a list with no element twice gives no selection twice |
| Combinations.CombinationsUpToComplete | builder.py:484-486 | every choice of 1 to m positions, taken in order, is among the selections of sizes 1 to m |
| Combinations.CombinationsUpToDistinct | builder.py:484-486 | a list with no element twice gives no selection twice over all sizes |
| Combinations.CombinationsUpToCount | builder.py:484-486 | the sizes 1 to m give the binomial sum less one selections |
| Combinations.CombinationsUpToShape | builder.py:484-486 | every selection of sizes 1 to m has 1 to m elements of the list in order |
| Combinations.CombinationsUpToSorted | builder.py:484-486 | the sizes never decrease along the list |
| Proto.EmptyProto | website/generate_tours.py:23-29 | a new TourProto holds no activities and no rides |
| Proto.Availability | website/generate_tours.py:31-36 | the new window starts at the later of the two opening bounds and ends at the earlier of the two closing bounds, so it never widens |
| Proto.TourProto.CalculateAvailability | website/generate_tours.py:31-36 | the same, on the object's fields |
| Proto.ProtoWindow | website/generate_tours.py:60-64 | add_activity accepts iff some start time still works, and the window it keeps is exactly those start times |
| Proto.ProtoAddOutcome | website/generate_tours.py:42-74 | a refusal changes nothing; an acceptance appends the activity, appends the ride iff it is needed, narrows the window and adds the leg's cost and duration |
| Proto.RidesAlongCount | website/generate_tours.py:46-71 | there are at most one fewer rides than activities |
| Proto.EmptyProtoInv | website/generate_tours.py:23-29 | a new TourProto has a non-empty window within the day and totals matching its (empty) activities |
| Proto.ProtoAddKeepsInv | website/generate_tours.py:42-74 | add_activity keeps the window non-empty within the day, the rides exactly those between consecutive activities at different stations, and the totals those of the activities and rides |
| Proto.TourProto.constructor | website/generate_tours.py:23-29 | the fields of a new TourProto are EmptyProto |
| Proto.TourProto.Copy | website/generate_tours.py:85 | the deep copy has the same fields |
| Proto.TourProto.AddActivity | website/generate_tours.py:42-74 | the returned flag and the fields afterwards are exactly ProtoAdd's outcome |
| Proto.CanProbablyAdd | website/generate_tours.py:38-40 | can_probably_add_activity is always true |
| Proto.ProbableActivities | website/generate_tours.py:82 | the filter keeps every activity in order |
| Proto.BuildTours | website/generate_tours.py:77-91 | build_tours leaves the tours list that ProtoSearch describes |
| Proto.TryActivity | website/generate_tours.py:84-91 | one loop iteration leaves the list ProtoBranch describes |
| Proto.RunProtoSearch | website/generate_tours.py:94-99 | the root loop leaves exactly AllProtoTours |
| Proto.ProtoAddKeepsPartial | website/generate_tours.py:85-91 | the tour an activity is added to is both a recorded tour and a tour the search can go on from |
| Proto.ProtoSearchSound | website/generate_tours.py:77-91 | build_tours only appends, and only tours that keep the invariant and hold two or more catalogue activities |
| Proto.ProtoSearchFromSound | website/generate_tours.py:84-91 | the same for the loop from index i on |
| Proto.ProtoBranchSound | website/generate_tours.py:85-91 | the same for one loop iteration |
| Proto.ProtoRootsSound | website/generate_tours.py:94-99 | the same for the root loop from index i on |
| Proto.AllProtoToursSound | website/generate_tours.py:94-99 | every saved tour keeps the invariant, holds two or more activities and takes each from the catalogue at most as often as it is listed |
| Proto.RecordedRides | website/generate_tours.py:46-71 | a saved tour has fewer rides than activities |
| Proto.ProtoNoActivityTwice | website/generate_tours.py:86-88 | with a catalogue of distinct activities no saved tour holds one twice |
| Proto.ProtoSingleActivityNoTours | website/generate_tours.py:94-99 | a catalogue of one activity saves no tour |
| Proto.ProtoRootsCapped | website/generate_tours.py:80-81 | once more than 100 tours are recorded the rest of the root loop adds nothing |
| Fixtures.TimedeltaTextRoundTrip | generate_database_fixtures.py:128 | the duration text of str(timedelta(minutes=m)) reads back as m for every integer m |
| Fixtures.FixtureHoursAgreeWithToTime | generate_database_fixtures.py:199-205 | a non-empty field that to_time accepts gives available_from and available_until texts reading back as the same time |
| Fixtures.EmptyFieldsDefaults | generate_database_fixtures.py:199-205 | an empty Opens is midnight as in builder.py; an empty Closes is 23:59:59, unlike builder.py's midnight |
| Fixtures.StationIdsFirstWins | generate_database_fixtures.py:79-86 | every station id seen is looked up to the pk (index + 1) of the first row with that id |
| Fixtures.StationNamesLastWins | generate_database_fixtures.py:87-102 | a station name is looked up to the pk of the last kept row with that name |
| Fixtures.StationRecordsPaired | generate_database_fixtures.py:87-100 | the records come in (station, location) pairs, one per station id, sharing the pk of the kept row |
| Fixtures.StationPksIncrease | generate_database_fixtures.py:79-80 | the station records are in increasing pk order |
| Fixtures.StationRecordsCover | generate_database_fixtures.py:87-101 | every station id looked up has its station record |
| Fixtures.TransportShape | generate_database_fixtures.py:119-153 | one pair of records per route with both ends known, both carrying pk = row index + 1 |
| Fixtures.TransportPksIncrease | generate_database_fixtures.py:119-120 | the trainride pairs are in increasing pk order |
| Fixtures.RidePairMirrors | generate_database_fixtures.py:126-153 | the two records of a route share the pk, swap the ends, and carry the route's minutes, cost and transfers |
| Fixtures.CategoryTitlesDistinct | generate_database_fixtures.py:160-172 | no two activity types share a title |
| Fixtures.ActivityTypesShape | generate_database_fixtures.py:173-185 | 11 records, the category at index i with pk i + 1, and each title looked up to its pk |
| Fixtures.FixtureGenerator.constructor | generate_database_fixtures.py:19-21 | the three lookups start empty |
| Fixtures.FixtureGenerator.GenStationFixtures | generate_database_fixtures.py:67-103 | the records and both lookups afterwards are StationsUpTo from the old lookups; the activity-type lookup is untouched |
| Fixtures.FixtureGenerator.GenTransportFixtures | generate_database_fixtures.py:106-154 | the records are TransportUpTo over the station-id lookup, which is only read |
| Fixtures.FixtureGenerator.GenActivityTypeFixtures | generate_database_fixtures.py:157-185 | the records and the activity-type lookup afterwards are ActivityTypesUpTo; the station lookups are untouched |
| Fixtures.GenerateFixtures | generate_database_fixtures.py:225-238 | main writes the station records followed by the trainride records built with the filled station lookup |
| Fixtures.TransportEnds | generate_database_fixtures.py:126-127 | both ends of every trainride record are pks from the station lookup |
| Fixtures.StationsWriteNoRides | generate_database_fixtures.py:87-100 | the station pass writes no trainride record |
| Fixtures.GeneratedFixturesResolve | generate_database_fixtures.py:225-238 | every trainride written leads between stations written, and the station records all come first |

## Left out

- Reading and writing data is not modelled: the SQLite connection and queries, the CSV reading (`load_csv`, `parse_csv`, `load_activities`), `write_json`, and every print, including `print_itineary` and the result loop of `builder.py`. The database rows and the route table are inputs, and the search returns the list of tours.
- The bare `raise` paths are not modelled as outcomes: an unknown station, a missing route and a location that is not a `Station`. The same goes for the None dereference in `TourProto.add_activity` when the `TrainRide` lookup finds no row or several. These stop the program, so they are preconditions (`Tours.CanResolve`, `Search.RoutesCover`, `Proto.RideKnown`, `Proto.RidesCover`).
- `to_duration` and the activity duration in `gen_activities_fixtures` parse floating-point hours. Durations are whole seconds here instead.
- `datetime` and `pytz` are replaced by integer seconds since midnight. This covers the reference date, the Asia/Tokyo time zone of the website's day bounds, and `to_time` on `datetime` and `time` values. `to_time` is modelled on "H:M" text only.
- `copy.copy` and `copy.deepcopy` are value copies (`Tours.Tour.Copy`, `Proto.TourProto.Copy`, `Sequences.RemoveAt`). `list.remove` finds the catalogue entry by identity, which is removal at the loop index.
- The `include_breakfast`-style flags of `Specifications` and `minimum_event_duration` are never read, and `Location`, `Event.__str__` and `category_to_verb` are presentation only.
- `Proto.Availability` (and through it `Proto.TourProto.CalculateAvailability` and `Proto.ProtoAdd`) takes an activity's opening and closing hours as datetimes on the reference day, as `website/tourbuilder/migrations/0001_initial.py:21-22` declares them (`DateTimeField`, with defaults equal to the day bounds). `website/tourbuilder/models.py:28-29` declares them as `TimeField` instead. Under that schema `available_from - self.duration` at `website/generate_tours.py:32-35` subtracts a `timedelta` from a `time` and raises TypeError, so the first `add_activity` of the root loop fails and no tour is built. That schema and its TypeError are not modelled.
- The Django layer is not part of this model: models, migrations, views, admin, urls, and the save loop at the end of `website/generate_tours.py`. `Proto.ProtoActivity` keeps only the fields `TourProto` reads. The `TrainRide` table is a map keyed by (from station, to station).
- `gen_activities_fixtures` is modelled only in its opening-hours text. Its float duration and its `activity_type_pks` and `station_name_pks` lookups are left out. The KeyError those lookups can raise in `main` before anything is written is left out too.
- `Formatting.ToTime` reads ASCII digits only. `strptime`'s `%H` and `%M` also accept other Unicode decimal digits, and such text is None here.
- `Formatting.ToMoney` reads text through `Decimal.ParseInt`, which takes an optional sign and ASCII digits only. Text that `int()` also accepts, such as surrounding spaces, `_` between digits or other Unicode decimal digits, is None here.
- `int()` of the database values in the fixture generator is taken as already applied: the rows hold integers.
- `Fixtures.ParseTimeOfDay` stands in for the way Django reads an "H:M:S" time field.
- `Tours.Admit` states in its own contract only that a rejection on a non-empty tour changes nothing. Its acceptance rule and outcomes are the lemmas `Tours.AdmitDecision` and `Tours.AdmitOutcome`.
- `Tours.TrainRide` states in its own contract only the ends of the ride. Its duration and cost are stated by `Tours.TransportIsUndirected` and used through `Tours.AdmitDecision`.
- `Tours.WithEvent` states in its own contract only the appended event. The totals and the meal map are in `Tours.WithEventKeepsConsistent`.
- `Search.NoActivityTwice` assumes a catalogue of distinct activities. `builder.py` compares activities by object identity, and its catalogue objects are always distinct. Two equal rows are one value here.
- `Proto.ProtoNoActivityTwice` assumes a catalogue of distinct activities. In `website/generate_tours.py` the activities are Django model instances, which compare by primary key. `Proto.ProtoActivity` has no pk field, so `Distinct` stands for distinct pks, which every row of the table has.
- `Search.Ready` requires both `max_cost` and `max_duration` to be set. `remaining_time` and `remaining_money` (builder.py:452-456) raise TypeError when a maximum is None. `build_tours` calls them at builder.py:502-503, and the script sets both maxima at builder.py:494-496 before searching, so the TypeError path is not modelled.
- `Tours.TimeLeft` requires `max_duration` to be set, because `remaining_time` raises TypeError on None.
- `Tours.MoneyLeft` requires `max_cost` to be set, because `remaining_money` raises TypeError on None.
- `Tours.Tour.RemainingTime` requires `max_duration` to be set, for the same TypeError.
- `Tours.Tour.RemainingMoney` requires `max_cost` to be set, for the same TypeError.
- Termination of both searches is proved by the shrinking candidate list. Nothing is claimed about their running time or about the tours being optimal.
