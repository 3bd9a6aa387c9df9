/**
 * The settings page of the my-sweet-spend variant. Categories are added and
 * deleted as on the main settings page, but a goal is set per category: a
 * category that already has a goal gets its target replaced, so a category
 * never gains a second goal, and only a positive target entered in the form
 * reaches the store.
 */
module SweetSpendSettings {
  import opened Text
  import opened Seqs
  import opened FinanceTypes
  import opened CategorySettings

  const DefaultGoalColor := "hsl(24, 100%, 58%)"

  /** Every target is positive. */
  predicate PositiveTargets(goals: seq<CategoryGoal>) {
    forall i :: 0 <= i < |goals| ==> goals[i].monthlyTarget > 0
  }

  /** The first goal naming the category `categoryId`, or `None` when no goal names it. */
  function FindGoalFor(goals: seq<CategoryGoal>, categoryId: string): (r: Option<CategoryGoal>)
    ensures r.Some? <==> GoalNamesCategory(goals, categoryId)
    ensures r.Some? ==> r.value in goals && r.value.category == categoryId
  {
    if goals == [] then None
    else if goals[0].category == categoryId then Some(goals[0])
    else
      var r := FindGoalFor(goals[1..], categoryId);
      assert GoalNamesCategory(goals, categoryId) ==> GoalNamesCategory(goals[1..], categoryId) by {
        if GoalNamesCategory(goals, categoryId) {
          var i :| 0 <= i < |goals| && goals[i].category == categoryId;
          assert goals[1..][i - 1] == goals[i];
        }
      }
      r
  }

  /** The goals with the target of every goal naming `categoryId` replaced by `monthlyTarget`. */
  function Retarget(goals: seq<CategoryGoal>, categoryId: string, monthlyTarget: int): (r: seq<CategoryGoal>)
    ensures |r| == |goals|
    ensures forall i :: 0 <= i < |r| ==> r[i].(monthlyTarget := goals[i].monthlyTarget) == goals[i]
    ensures forall i :: 0 <= i < |r| ==>
      r[i].monthlyTarget == if goals[i].category == categoryId then monthlyTarget else goals[i].monthlyTarget
  {
    seq(|goals|, i requires 0 <= i < |goals| =>
      if goals[i].category == categoryId then goals[i].(monthlyTarget := monthlyTarget) else goals[i])
  }

  /**
   * The goals after `setGoalForCategory(categoryId, monthlyTarget)`: the
   * goals of the category are retargeted when there are any; otherwise a
   * goal is appended under the fresh id, colored like its category (or
   * with the default color when the category is unknown or has none).
   */
  function SetGoal(goals: seq<CategoryGoal>, categories: seq<CustomCategory>, categoryId: string,
                   monthlyTarget: int, freshId: string): (r: seq<CategoryGoal>)
    ensures GoalNamesCategory(r, categoryId)
    ensures |goals| <= |r| <= |goals| + 1
    ensures forall i :: 0 <= i < |goals| && goals[i].category != categoryId ==> r[i] == goals[i]
  {
    if GoalNamesCategory(goals, categoryId) then Retarget(goals, categoryId, monthlyTarget)
    else
      var r := goals + [CategoryGoal(freshId, categoryId, monthlyTarget,
                                     ColorOr(FindCategory(categories, categoryId), DefaultGoalColor), None)];
      assert r[|goals|].category == categoryId;
      r
  }

  /**
   * After setting a goal the category has a goal and each of its goals has
   * the new target. A category that had goals keeps them in place with only
   * the target replaced, and the list keeps its length; a category without
   * one gets exactly one goal appended, under the fresh id, colored like the
   * category and without a description. Every goal of another category is
   * kept where it was.
   */
  lemma SetGoalMeaning(goals: seq<CategoryGoal>, categories: seq<CustomCategory>, categoryId: string,
                       monthlyTarget: int, freshId: string)
    ensures var r := SetGoal(goals, categories, categoryId, monthlyTarget, freshId);
      GoalNamesCategory(r, categoryId)
      && (forall i :: 0 <= i < |r| && r[i].category == categoryId ==> r[i].monthlyTarget == monthlyTarget)
      && (|r| == |goals| + 1 <==> !GoalNamesCategory(goals, categoryId))
      && |r| >= |goals|
      && (GoalNamesCategory(goals, categoryId) ==> |r| == |goals|)
      && (forall i :: 0 <= i < |goals| && goals[i].category == categoryId ==>
            r[i] == goals[i].(monthlyTarget := monthlyTarget))
      && (!GoalNamesCategory(goals, categoryId) ==>
            r[|goals|] == CategoryGoal(freshId, categoryId, monthlyTarget,
                                       ColorOr(FindCategory(categories, categoryId), DefaultGoalColor), None))
      && (forall i :: 0 <= i < |goals| && goals[i].category != categoryId ==> r[i] == goals[i])
      && (forall i :: 0 <= i < |goals| ==> r[i].id == goals[i].id && r[i].category == goals[i].category)
  {
    var r := SetGoal(goals, categories, categoryId, monthlyTarget, freshId);
    if GoalNamesCategory(goals, categoryId) {
      var i :| 0 <= i < |goals| && goals[i].category == categoryId;
      assert r[i].category == categoryId;
    } else {
      assert r[|goals|].category == categoryId;
    }
  }

  /** Setting the same target twice is setting it once, whatever id the second call draws. */
  lemma SetGoalIdempotent(goals: seq<CategoryGoal>, categories: seq<CustomCategory>, categoryId: string,
                          monthlyTarget: int, freshId: string, otherId: string)
    ensures SetGoal(SetGoal(goals, categories, categoryId, monthlyTarget, freshId), categories, categoryId, monthlyTarget, otherId)
         == SetGoal(goals, categories, categoryId, monthlyTarget, freshId)
  {
    var r := SetGoal(goals, categories, categoryId, monthlyTarget, freshId);
    SetGoalMeaning(goals, categories, categoryId, monthlyTarget, freshId);
    var r2 := Retarget(r, categoryId, monthlyTarget);
    assert |r2| == |r|;
    forall i | 0 <= i < |r| ensures r2[i] == r[i] {
      if r[i].category == categoryId {
        assert r[i].(monthlyTarget := monthlyTarget) == r[i];
      }
    }
  }

  /** Setting a goal never gives a category a second goal. */
  lemma SetGoalKeepsOneGoalPerCategory(goals: seq<CategoryGoal>, categories: seq<CustomCategory>, categoryId: string,
                                       monthlyTarget: int, freshId: string)
    requires OneGoalPerCategory(goals)
    ensures OneGoalPerCategory(SetGoal(goals, categories, categoryId, monthlyTarget, freshId))
  {
    var r := SetGoal(goals, categories, categoryId, monthlyTarget, freshId);
    SetGoalMeaning(goals, categories, categoryId, monthlyTarget, freshId);
    if !GoalNamesCategory(goals, categoryId) {
      forall i, j | 0 <= i < j < |r| ensures r[i].category != r[j].category {
        if j == |goals| {
          assert r[i] == goals[i];
        } else {
          assert r[i] == goals[i] && r[j] == goals[j];
        }
      }
    }
  }

  /** A positive target keeps every target positive. */
  lemma SetGoalKeepsTargetsPositive(goals: seq<CategoryGoal>, categories: seq<CustomCategory>, categoryId: string,
                                    monthlyTarget: int, freshId: string)
    requires PositiveTargets(goals) && monthlyTarget > 0
    ensures PositiveTargets(SetGoal(goals, categories, categoryId, monthlyTarget, freshId))
  {
    var r := SetGoal(goals, categories, categoryId, monthlyTarget, freshId);
    SetGoalMeaning(goals, categories, categoryId, monthlyTarget, freshId);
    forall i | 0 <= i < |r| ensures r[i].monthlyTarget > 0 {
      if i < |goals| && r[i].category != categoryId {
        assert r[i] == goals[i];
      }
    }
  }

  /**
   * Removing the goal of a category that had none before it was set
   * restores the goals as they were.
   */
  lemma RemoveGoalUndoesSetGoal(goals: seq<CategoryGoal>, categories: seq<CustomCategory>, categoryId: string,
                                monthlyTarget: int, freshId: string)
    requires !GoalNamesCategory(goals, categoryId)
    ensures WithoutGoalsOf(SetGoal(goals, categories, categoryId, monthlyTarget, freshId), categoryId) == goals
  {
    var g := CategoryGoal(freshId, categoryId, monthlyTarget,
                          ColorOr(FindCategory(categories, categoryId), DefaultGoalColor), None);
    FilterConcat(goals, [g], GoalCategoryIsNot(categoryId));
    FilterKeepsAll(goals, GoalCategoryIsNot(categoryId));
    assert Filter([g], GoalCategoryIsNot(categoryId)) == [];
  }

  /** The two stored lists and the handlers of the page that change them. */
  class SettingsPage {
    var categories: seq<CustomCategory>
    var goals: seq<CategoryGoal>

    /**
     * At most one goal per category, each with a positive target. The saved
     * goals need not satisfy it, so this is not a class invariant: every
     * handler preserves it, and a page that starts without goals has it.
     */
    ghost predicate Valid()
      reads this
    {
      OneGoalPerCategory(goals) && PositiveTargets(goals)
    }

    /** The page opens on the saved lists. */
    constructor(savedCategories: seq<CustomCategory>, savedGoals: seq<CategoryGoal>)
      ensures categories == savedCategories && goals == savedGoals
      ensures savedGoals == [] ==> Valid()
    {
      categories := savedCategories;
      goals := savedGoals;
    }

    /** `addCategory` */
    method AddCategory(name: string, emoji: string, color: string, freshId: string) returns (added: bool)
      modifies this
      ensures added <==> !IsBlank(name)
      ensures categories == WithNewCategory(old(categories), name, emoji, color, freshId)
      ensures goals == old(goals)
    {
      if IsBlank(name) {
        return false;
      }
      categories := categories + [CustomCategory(freshId, name, emoji, color)];
      added := true;
    }

    /** `deleteCategory`: the category and every goal naming it go. */
    method DeleteCategory(id: string)
      modifies this
      ensures categories == WithoutCategory(old(categories), id)
      ensures goals == WithoutGoalsOf(old(goals), id)
      ensures old(Valid()) ==> Valid()
    {
      categories := Filter(categories, CategoryIdIsNot(id));
      goals := Filter(goals, GoalCategoryIsNot(id));
      if old(Valid()) {
        FilterKeepsOneGoalPerCategory(old(goals), GoalCategoryIsNot(id));
      }
    }

    /** `setGoalForCategory` */
    method SetGoalForCategory(categoryId: string, monthlyTarget: int, freshId: string)
      modifies this
      ensures goals == SetGoal(old(goals), old(categories), categoryId, monthlyTarget, freshId)
      ensures categories == old(categories)
      ensures old(OneGoalPerCategory(goals)) ==> OneGoalPerCategory(goals)
    {
      var existingGoal := FindGoalFor(goals, categoryId);
      var category := FindCategory(categories, categoryId);
      if existingGoal.Some? {
        goals := Retarget(goals, categoryId, monthlyTarget);
      } else {
        var newGoal := CategoryGoal(freshId, categoryId, monthlyTarget, ColorOr(category, DefaultGoalColor), None);
        goals := goals + [newGoal];
      }
      if old(OneGoalPerCategory(goals)) {
        SetGoalKeepsOneGoalPerCategory(old(goals), categories, categoryId, monthlyTarget, freshId);
      }
    }

    /** `removeGoal`: every goal of the category goes. */
    method RemoveGoal(categoryId: string)
      modifies this
      ensures goals == WithoutGoalsOf(old(goals), categoryId)
      ensures !GoalNamesCategory(goals, categoryId)
      ensures categories == old(categories)
      ensures old(Valid()) ==> Valid()
    {
      goals := Filter(goals, GoalCategoryIsNot(categoryId));
      DeleteCategoryCascades(categories, old(goals), categoryId);
      if old(Valid()) {
        FilterKeepsOneGoalPerCategory(old(goals), GoalCategoryIsNot(categoryId));
      }
    }

    /**
     * The Set/Update Goal button: the number typed for the category (`None`
     * when it does not parse) is stored only when it is positive.
     */
    method SubmitGoal(categoryId: string, value: Option<int>, freshId: string)
      modifies this
      ensures value.Some? && value.value > 0 ==>
                goals == SetGoal(old(goals), old(categories), categoryId, value.value, freshId)
      ensures !(value.Some? && value.value > 0) ==> goals == old(goals)
      ensures categories == old(categories)
      ensures old(Valid()) ==> Valid()
    {
      if value.Some? && value.value > 0 {
        if old(Valid()) {
          SetGoalKeepsTargetsPositive(goals, categories, categoryId, value.value, freshId);
        }
        SetGoalForCategory(categoryId, value.value, freshId);
      }
    }
  }
}
