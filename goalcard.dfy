/** GoalCard.tsx: a goal's percentage, milestones, remaining amount and
    completion rate, the increment button, and the completion celebration.
    The percentage is a real number here; the source computes it in
    floating point. */
module GoalCard {
  import opened Types
  import opened JsMath
  import opened Store
  import opened Goals

  /** A value of `Math.min(100, (current / target) * 100)`. Division by a
      zero target gives `NaN` (for 0/0), or an infinity that the `min`
      turns into 100 (positive) or keeps (negative). */
  datatype Percent = Finite(value: real) | NotANumber | MinusInfinity

  function MinReal(a: real, b: real): real { if a <= b then a else b }

  function PercentOf(g: Goal): (p: Percent)
    ensures p.Finite? ==> p.value <= 100.0
    ensures g.target != 0 ==> p.Finite?
  {
    if g.target != 0 then Finite(MinReal(100.0, (g.current as real / g.target as real) * 100.0))
    else if g.current > 0 then Finite(100.0)
    else if g.current == 0 then NotANumber
    else MinusInfinity
  }

  /** `percent >= m`: false for `NaN` and minus infinity. */
  predicate AtLeast(p: Percent, m: real)
  {
    p.Finite? && p.value >= m
  }

  /** `percent < m`: false for `NaN`, true for minus infinity. */
  predicate Below(p: Percent, m: real)
  {
    p.MinusInfinity? || (p.Finite? && p.value < m)
  }

  /** The milestone marks drawn on the bar. */
  const Milestones: seq<int> := [25, 50, 75, 100]

  /** Milestone `m` is reached iff `percent >= m`. */
  predicate MilestoneReached(g: Goal, m: int)
  {
    AtLeast(PercentOf(g), m as real)
  }

  /** For a positive target, a milestone up to 100 is reached exactly when
      `100 * current >= m * target`, and reaching one milestone means every
      lower one is reached too. */
  lemma MilestoneCrossMultiplied(g: Goal, m: int)
    requires g.target > 0 && m <= 100
    ensures MilestoneReached(g, m) <==> 100 * g.current >= m * g.target
    ensures forall k :: k <= m && MilestoneReached(g, m) ==> MilestoneReached(g, k)
  {
    var c, t := g.current as real, g.target as real;
    var x := (c / t) * 100.0;
    assert x * t == 100.0 * c;
    assert (m as real) * t == (m * g.target) as real;
    assert (100 * g.current) as real == 100.0 * c;
    if x >= m as real {
      MulMonotoneReal(t, m as real, x);
    } else {
      MulMonotoneReal(t, x, m as real);
      assert x * t < (m as real) * t by {
        MulStrictReal(t, x, m as real);
      }
    }
  }

  lemma MulMonotoneReal(t: real, a: real, b: real)
    requires t > 0.0 && a <= b
    ensures a * t <= b * t
  {
  }

  lemma MulStrictReal(t: real, a: real, b: real)
    requires t > 0.0 && a < b
    ensures a * t < b * t
  {
  }

  /** For a positive target the bar is full exactly when the goal is completed. */
  lemma FullIffCompleted(g: Goal)
    requires g.target > 0
    ensures PercentOf(g) == Finite(100.0) <==> IsCompleted(g)
  {
    MilestoneCrossMultiplied(g, 100);
  }

  /** `Math.max(0, target - current)` */
  function Remaining(g: Goal): (r: int)
    ensures r >= 0
    ensures r == 0 <==> IsCompleted(g)
    ensures !IsCompleted(g) ==> g.current + r == g.target
  {
    Max(0, g.target - g.current)
  }

  /** `Math.round((current / target) * 100)`, the completion rate shown in
      the details; unlike the bar it is not capped. */
  function CompletionRate(g: Goal): (r: int)
    requires g.target > 0
    ensures g.target * (2 * r - 1) <= 200 * g.current < g.target * (2 * r + 1)
  {
    RoundDiv(100 * g.current, g.target)
  }

  /** A goal within [0, target] has a rate in [0, 100], exactly 100 when completed. */
  lemma CompletionRateRange(g: Goal)
    requires 0 <= g.current <= g.target && g.target > 0
    ensures 0 <= CompletionRate(g) <= 100
    ensures IsCompleted(g) ==> CompletionRate(g) == 100
  {
    RoundDivBounds(100 * g.current, g.target, 100);
    if IsCompleted(g) {
      RoundDivExact(100, g.target);
    }
  }

  /** `handleIncrement`: one more unit of progress, offered only while the
      goal is not completed. */
  method HandleIncrement(store: AppStore, g: Goal)
    modifies store`goals, store`outbox
    ensures IsCompleted(g) ==> store.goals == old(store.goals) && store.outbox == old(store.outbox)
    ensures !IsCompleted(g) ==> store.goals == GoalsAfterProgress(old(store.goals), g.id, 1)
    ensures !IsCompleted(g) && FindGoal(old(store.goals), g.id).None? ==> store.outbox == old(store.outbox)
    ensures !IsCompleted(g) && FindGoal(old(store.goals), g.id).Some? ==>
              store.outbox == old(store.outbox) + [UpdateGoal(g.id, ProgressAfter(FindGoal(old(store.goals), g.id).value, 1))]
  {
    if !IsCompleted(g) {
      store.UpdateGoalProgress(g.id, 1);
    }
  }

  /** The effect's firing condition: the goal is completed, the bar is full
      and the previously seen percentage was below 100. */
  predicate Fires(prev: Percent, g: Goal)
  {
    IsCompleted(g) && PercentOf(g) == Finite(100.0) && Below(prev, 100.0)
  }

  /** For a positive target the celebration fires exactly when a completed
      goal is seen after a percentage below 100; once it fires, the next
      run sees 100 and stays quiet whatever the goal then is. */
  lemma FiresOnCrossing(prev: Percent, g: Goal, next: Goal)
    ensures g.target > 0 ==> (Fires(prev, g) <==> IsCompleted(g) && Below(prev, 100.0))
    ensures Fires(prev, g) ==> !Fires(PercentOf(g), next)
  {
    if g.target > 0 {
      FullIffCompleted(g);
    }
  }

  /** The effect's state: the `prevPercent` ref and the `justCompleted` flag. */
  class CompletionEffect {
    var prevPercent: Percent
    var justCompleted: bool

    constructor ()
      ensures prevPercent == Finite(0.0) && !justCompleted
    {
      prevPercent := Finite(0.0);
      justCompleted := false;
    }

    /** One run of the effect after the goal changed; `fired` says whether
        the confetti went off. The previous percentage is always updated. */
    method Run(g: Goal) returns (fired: bool)
      modifies this
      ensures fired == Fires(old(prevPercent), g)
      ensures justCompleted == (fired || old(justCompleted))
      ensures prevPercent == PercentOf(g)
    {
      var percent := PercentOf(g);
      fired := false;
      if IsCompleted(g) && percent == Finite(100.0) && Below(prevPercent, 100.0) {
        justCompleted := true;
        fired := true;
      }
      prevPercent := percent;
    }

    /** The 3-second timer that ends the celebration. */
    method CelebrationTimeout()
      modifies this`justCompleted
      ensures !justCompleted
    {
      justCompleted := false;
    }
  }
}
