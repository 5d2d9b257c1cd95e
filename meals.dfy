/** Meal-slot classification of builder.py: the time-of-day windows of
    `meal_times` and `Activity.meal_category`. Times are seconds since
    midnight of the reference day. */
module Meals {
  import opened Options

  /** Seconds since midnight of the wall-clock time h:m:s. */
  function Clock(h: int, m: int, s: int): int {
    h * 3600 + m * 60 + s
  }

  const DayStart: int := 0
  const DayEnd: int := 86399        // 23:59:59
  const LunchStart: int := 37800    // 10:30
  const DinnerStart: int := 55800   // 15:30
  const CoffeeEnd: int := 61200     // 17:00

  datatype MealSlot = Breakfast | Lunch | Dinner | Coffee

  /** The keys of `meal_times` in the order the dictionary is iterated. */
  const MealOrder: seq<MealSlot> := [Breakfast, Lunch, Dinner, Coffee]

  function WindowStart(m: MealSlot): int {
    match m
    case Breakfast => DayStart
    case Lunch => LunchStart
    case Dinner => DinnerStart
    case Coffee => DayStart
  }

  function WindowEnd(m: MealSlot): int {
    match m
    case Breakfast => LunchStart
    case Lunch => DinnerStart
    case Dinner => DayEnd
    case Coffee => CoffeeEnd
  }

  /** Both bounds of a meal window are exclusive. */
  predicate InWindow(m: MealSlot, t: int) {
    WindowStart(m) < t < WindowEnd(m)
  }

  /** The first slot of `order` whose window contains t. */
  function FirstOpen(order: seq<MealSlot>, t: int): (r: Option<MealSlot>)
    ensures r.None? <==> forall m :: m in order ==> !InWindow(m, t)
    ensures r.Some? ==> r.value in order && InWindow(r.value, t)
  {
    if order == [] then None
    else if InWindow(order[0], t) then Some(order[0])
    else
      var r := FirstOpen(order[1..], t);
      assert forall m :: m in order ==> m == order[0] || m in order[1..];
      r
  }

  /** The slot found is the first open one: where slot i is open and none
      before it is, FirstOpen gives slot i. */
  lemma {:induction false} FirstOpenIsFirst(order: seq<MealSlot>, t: int, i: nat)
    requires i < |order| && InWindow(order[i], t) && NoneOpenBefore(order, i, t)
    ensures FirstOpen(order, t) == Some(order[i])
  {
    if i > 0 {
      assert !InWindow(order[0], t);
      assert NoneOpenBefore(order[1..], i - 1, t) by {
        forall j | 0 <= j < i - 1
          ensures !InWindow(order[1..][j], t)
        {
          assert order[1..][j] == order[j + 1];
        }
      }
      FirstOpenIsFirst(order[1..], t, i - 1);
    }
  }

  /** No slot of `order` before index i is open at t. */
  predicate NoneOpenBefore(order: seq<MealSlot>, i: int, t: int)
    requires i <= |order|
  {
    forall j :: 0 <= j < i ==> !InWindow(order[j], t)
  }

  /** `Activity.meal_category`: "food" takes the first window of breakfast,
      lunch, dinner, coffee that contains t, so exactly 10:30 and exactly
      15:30 fall to coffee; "coffee" is a coffee slot strictly between
      00:00 and 17:00; every other category has no slot. */
  function MealCategory(category: string, t: int): (r: Option<MealSlot>)
    ensures category == "food" ==>
              && (r == Some(Breakfast) <==> DayStart < t < LunchStart)
              && (r == Some(Lunch) <==> LunchStart < t < DinnerStart)
              && (r == Some(Dinner) <==> DinnerStart < t < DayEnd)
              && (r == Some(Coffee) <==> t == LunchStart || t == DinnerStart)
              && (r.None? <==> t <= DayStart || DayEnd <= t)
    ensures category == "coffee" ==>
              && (r == Some(Coffee) <==> DayStart < t < CoffeeEnd)
              && (r.None? <==> t <= DayStart || CoffeeEnd <= t)
    ensures category != "food" && category != "coffee" ==> r.None?
  {
    if category == "food" then
      FoodSlotInOrder(t);
      FirstOpen(MealOrder, t)
    else if category == "coffee" then
      if InWindow(Coffee, t) then Some(Coffee) else None
    else
      None
  }

  /** Walking `MealOrder` one window at a time. */
  lemma FoodSlotInOrder(t: int)
    ensures FirstOpen(MealOrder, t) ==
              if InWindow(Breakfast, t) then Some(Breakfast)
              else if InWindow(Lunch, t) then Some(Lunch)
              else if InWindow(Dinner, t) then Some(Dinner)
              else if InWindow(Coffee, t) then Some(Coffee)
              else None
  {
    var o1, o2, o3: seq<MealSlot> := [Lunch, Dinner, Coffee], [Dinner, Coffee], [Coffee];
    assert MealOrder[1..] == o1 && o1[1..] == o2 && o2[1..] == o3 && o3[1..] == [];
    assert FirstOpen(o3, t) == if InWindow(Coffee, t) then Some(Coffee) else None;
    assert FirstOpen(o2, t) == if InWindow(Dinner, t) then Some(Dinner) else FirstOpen(o3, t);
    assert FirstOpen(o1, t) == if InWindow(Lunch, t) then Some(Lunch) else FirstOpen(o2, t);
  }
}
