/** builder.py's `Specifications`: the optional money and time bounds a
    search must respect. Durations are seconds; `maxDuration` and
    `minDuration` are derived from the end times when those are set. */
module Specs {
  import opened Options

  /** x stays under an upper bound that is set; an unset bound never constrains. */
  predicate AtMost(x: int, bound: Option<int>) {
    bound.None? || x <= bound.value
  }

  /** x reaches a lower bound that is set; an unset bound never constrains. */
  predicate AtLeast(x: int, bound: Option<int>) {
    bound.None? || x >= bound.value
  }

  datatype Specifications = Specifications(
    numPeople: int,
    startTime: int,
    minEndTime: Option<int>,
    maxEndTime: Option<int>,
    maxCost: Option<int>,
    maxDuration: Option<int>,
    minCost: Option<int>,
    minDuration: Option<int>)
  {
    predicate TooExpensive(cost: int) {
      maxCost.Some? && cost > maxCost.value
    }

    predicate TooCheap(cost: int) {
      minCost.Some? && cost < minCost.value
    }

    predicate TooLong(duration: int) {
      maxDuration.Some? && duration > maxDuration.value
    }

    predicate TooShort(duration: int) {
      minDuration.Some? && duration < minDuration.value
    }

    predicate AboveMaximum(cost: int, duration: int) {
      TooExpensive(cost) || TooLong(duration)
    }

    /** The admission gate: both upper bounds hold (the opposite of AboveMaximum). */
    function BelowMaximum(cost: int, duration: int): (r: bool)
      ensures r <==> AtMost(cost, maxCost) && AtMost(duration, maxDuration)
      ensures r <==> !AboveMaximum(cost, duration)
    {
      !TooExpensive(cost) && !TooLong(duration)
    }

    predicate AboveMinimum(cost: int, duration: int) {
      !TooCheap(cost) && !TooShort(duration)
    }

    /** The recording gate: cost and duration each lie in the interval of
        the bounds that are set. */
    function WithinSpec(cost: int, duration: int): (r: bool)
      ensures r <==> && AtLeast(cost, minCost) && AtMost(cost, maxCost)
                     && AtLeast(duration, minDuration) && AtMost(duration, maxDuration)
      ensures r ==> BelowMaximum(cost, duration)
    {
      AboveMinimum(cost, duration) && BelowMaximum(cost, duration)
    }
  }

  /** `Specifications(num_people, start_time)`: no bound is set, so every
      cost and duration is within the specification. */
  function NewSpecifications(numPeople: int, startTime: int): (s: Specifications)
    ensures s.numPeople == numPeople && s.startTime == startTime
    ensures forall cost, duration :: s.WithinSpec(cost, duration)
  {
    Specifications(numPeople, startTime, None, None, None, None, None, None)
  }

  /** `set_max_cost`: exactly the costs above `cost` become too expensive;
      nothing else changes. */
  function SetMaxCost(s: Specifications, cost: int): (r: Specifications)
    ensures forall c :: r.TooExpensive(c) <==> c > cost
    ensures r.(maxCost := s.maxCost) == s
  {
    s.(maxCost := Some(cost))
  }

  /** `set_min_cost`: exactly the costs below `cost` become too cheap. */
  function SetMinCost(s: Specifications, cost: int): (r: Specifications)
    ensures forall c :: r.TooCheap(c) <==> c < cost
    ensures r.(minCost := s.minCost) == s
  {
    s.(minCost := Some(cost))
  }

  /** `set_max_end_time`: the maximum duration is the end time minus the
      start time, so a duration is too long exactly when the tour would end
      after `endTime`. */
  function SetMaxEndTime(s: Specifications, endTime: int): (r: Specifications)
    ensures r.maxDuration == Some(endTime - s.startTime)
    ensures forall d :: r.TooLong(d) <==> s.startTime + d > endTime
    ensures r.(maxEndTime := s.maxEndTime, maxDuration := s.maxDuration) == s
  {
    s.(maxEndTime := Some(endTime), maxDuration := Some(endTime - s.startTime))
  }

  /** `set_min_end_time`: a duration is too short exactly when the tour
      would end before `endTime`. */
  function SetMinEndTime(s: Specifications, endTime: int): (r: Specifications)
    ensures r.minDuration == Some(endTime - s.startTime)
    ensures forall d :: r.TooShort(d) <==> s.startTime + d < endTime
    ensures r.(minEndTime := s.minEndTime, minDuration := s.minDuration) == s
  {
    s.(minEndTime := Some(endTime), minDuration := Some(endTime - s.startTime))
  }

  /** Each predicate holds only when its bound is set, and then exactly when
      the value is on the wrong side of it. */
  lemma BoundsConstrainOnlyWhenSet(s: Specifications, cost: int, duration: int)
    ensures s.TooExpensive(cost) <==> s.maxCost.Some? && cost > s.maxCost.value
    ensures s.TooCheap(cost) <==> s.minCost.Some? && cost < s.minCost.value
    ensures s.TooLong(duration) <==> s.maxDuration.Some? && duration > s.maxDuration.value
    ensures s.TooShort(duration) <==> s.minDuration.Some? && duration < s.minDuration.value
    ensures s.maxCost.None? && s.maxDuration.None? ==> s.BelowMaximum(cost, duration)
    ensures s.minCost.None? && s.minDuration.None? ==> s.AboveMinimum(cost, duration)
  {
  }
}
