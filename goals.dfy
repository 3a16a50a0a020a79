/** pages/Goals.tsx: the goal-creation form with its defaults and guard,
    and the Completed / In Progress / Total counters. */
module Goals {
  import opened Types
  import opened Seqs
  import opened JsStrings
  import opened Store

  /** The form state, a partial goal. `target` is the value `parseInt`
      produced, `None` standing for `NaN`; `category` and `colorTheme` are
      `None` when unset. */
  datatype GoalForm = GoalForm(
    title: string,
    description: string,
    target: Option<int>,
    unit: string,
    category: Option<Category>,
    colorTheme: Option<ColorTheme>)

  /** The form as first shown and as reset after a create. */
  const InitialForm: GoalForm :=
    GoalForm("", "", Some(10), "quizzes", Some(QuizCategory), Some(BlueTheme))

  /** `goal.current >= goal.target` */
  predicate IsCompleted(g: Goal)
  {
    g.current >= g.target
  }

  /** `goal.current < goal.target` */
  predicate InProgress(g: Goal)
  {
    g.current < g.target
  }

  /** `Number(formData.target) || 10`: zero and `NaN` both fall back to 10. */
  function TargetOrDefault(t: Option<int>): (r: int)
    ensures r != 0
    ensures t.Some? && t.value != 0 ==> r == t.value
    ensures t.None? || t.value == 0 ==> r == 10
  {
    match t
    case Some(v) => if v != 0 then v else 10
    case None => 10
  }

  /** The goal `handleCreate` passes to `addGoal` at time `now`. */
  function NewGoal(form: GoalForm, now: nat): (g: Goal)
    ensures g.id == "g-" + NatToString(now)
    ensures g.title == form.title && g.description == form.description
    ensures g.current == 0 && g.target == TargetOrDefault(form.target) && g.deadline.None?
    ensures form.unit != "" ==> g.unit == form.unit
    ensures form.unit == "" ==> g.unit == "units"
    ensures form.category.Some? ==> g.category == form.category.value
    ensures form.category.None? ==> g.category == QuizCategory
    ensures form.colorTheme.Some? ==> g.colorTheme == form.colorTheme.value
    ensures form.colorTheme.None? ==> g.colorTheme == BlueTheme
  {
    Goal(
      id := "g-" + NatToString(now),
      title := form.title,
      description := form.description,
      current := 0,
      target := TargetOrDefault(form.target),
      unit := if form.unit != "" then form.unit else "units",
      category := match form.category case Some(c) => c case None => QuizCategory,
      colorTheme := match form.colorTheme case Some(c) => c case None => BlueTheme,
      deadline := None)
  }

  /** A target the field's `min="1"` allows, or a cleared field, yields a
      goal that starts in progress: 0 == current < target. */
  lemma NewGoalStartsInProgress(form: GoalForm, now: nat)
    requires form.target.None? || form.target.value >= 0
    ensures InProgress(NewGoal(form, now)) && NewGoal(form, now).current == 0
    ensures GoalsInRange([NewGoal(form, now)])
  {
  }

  /** Goals created at different times get different ids. */
  lemma NewGoalIdsDistinct(form1: GoalForm, form2: GoalForm, now1: nat, now2: nat)
    requires now1 != now2
    ensures NewGoal(form1, now1).id != NewGoal(form2, now2).id
  {
    PrefixedNumeralsDistinct("g-", now1, now2);
  }

  /** The "Completed" counter. */
  function CompletedCount(goals: seq<Goal>): nat
  {
    |Filter(IsCompleted, goals)|
  }

  /** The "In Progress" counter. */
  function InProgressCount(goals: seq<Goal>): nat
  {
    |Filter(InProgress, goals)|
  }

  /** Completed and In Progress split the list: together they are the Total. */
  lemma CountersPartition(goals: seq<Goal>)
    ensures CompletedCount(goals) + InProgressCount(goals) == |goals|
  {
    FilterPartition(IsCompleted, InProgress, goals);
  }

  /** With unique ids, recording non-negative progress never turns a
      completed goal back into an unfinished one, so the Completed counter
      never drops. */
  lemma ProgressKeepsCompletedGoals(goals: seq<Goal>, goalId: string, increment: int)
    requires UniqueGoalIds(goals) && increment >= 0
    ensures forall i :: 0 <= i < |goals| && IsCompleted(goals[i]) ==>
              IsCompleted(GoalsAfterProgress(goals, goalId, increment)[i])
    ensures CompletedCount(goals) <= CompletedCount(GoalsAfterProgress(goals, goalId, increment))
  {
    var r := GoalsAfterProgress(goals, goalId, increment);
    GoalsAfterProgressProperties(goals, goalId, increment);
    forall i | 0 <= i < |goals| && IsCompleted(goals[i])
      ensures IsCompleted(r[i])
    {
      if goals[i].id == goalId {
        var first := FindGoal(goals, goalId).value;
        var k :| 0 <= k < |goals| && goals[k] == first && first.id == goalId;
        assert k == i;
      }
    }
    FilterCountMonotone(IsCompleted, goals, r);
  }

  /** The page's form and modal state. */
  class GoalsPage {
    var isModalOpen: bool
    var formData: GoalForm

    constructor ()
      ensures !isModalOpen && formData == InitialForm
    {
      isModalOpen := false;
      formData := InitialForm;
    }

    /** The "New Goal" button. */
    method OpenModal()
      modifies this`isModalOpen
      ensures isModalOpen
    {
      isModalOpen := true;
    }

    /** The form's change handlers, each replacing one field of the form. */
    method EditForm(form: GoalForm)
      modifies this`formData
      ensures formData == form
    {
      formData := form;
    }

    /** `handleCreate`: with a title and a description, hands the new goal
        to the store (which keeps it only for a signed-in user), closes the
        modal and resets the form; otherwise does nothing. */
    method HandleCreate(store: AppStore, now: nat)
      modifies this`isModalOpen, this`formData, store`goals, store`outbox
      ensures old(formData).title == "" || old(formData).description == "" ==>
                && isModalOpen == old(isModalOpen) && formData == old(formData)
                && store.goals == old(store.goals) && store.outbox == old(store.outbox)
      ensures old(formData).title != "" && old(formData).description != "" ==>
                && !isModalOpen && formData == InitialForm
                && (store.user.None? ==> store.goals == old(store.goals))
                && (store.user.None? ==> store.outbox == old(store.outbox))
                && (store.user.Some? ==> store.goals == old(store.goals) + [NewGoal(old(formData), now)])
                && (store.user.Some? ==>
                      store.outbox == old(store.outbox) + [InsertGoal(store.user.value.id, NewGoal(old(formData), now))])
    {
      if formData.title == "" || formData.description == "" {
        return;
      }
      store.AddGoal(NewGoal(formData, now));
      isModalOpen := false;
      formData := InitialForm;
    }
  }
}
