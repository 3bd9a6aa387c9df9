/**
 * The settings page of the main app: categories are added and deleted
 * (deleting a category deletes its goals), and goals are added from a form
 * and deleted by id. Adding a goal always appends, so a category may carry
 * several goals, and a zero target passes the form's check.
 */
module Settings {
  import opened Text
  import opened Seqs
  import opened FinanceTypes
  import opened CategorySettings

  const DefaultGoalColor := "hsl(var(--honey-primary))"

  /**
   * The goal `addGoal` builds from the form, or `None` when the category is
   * not chosen or the target field is empty (`targetField` is `None` for an
   * empty number field and the number typed otherwise). The color is the
   * category's, or the default when the category is unknown or has none.
   */
  function NewGoal(categories: seq<CustomCategory>, category: string, targetField: Option<int>,
                   description: string, freshId: string): (g: Option<CategoryGoal>)
    ensures g.Some? <==> category != [] && targetField.Some?
    ensures g.Some? ==> g.value.id == freshId && g.value.category == category
    ensures g.Some? ==> g.value.monthlyTarget == targetField.value && g.value.description == Some(description)
    ensures g.Some? ==> g.value.color != []
    ensures g.Some? && FindCategory(categories, category).None? ==> g.value.color == DefaultGoalColor
    ensures g.Some? && FindCategory(categories, category).Some? && FindCategory(categories, category).value.color != [] ==>
              g.value.color == FindCategory(categories, category).value.color
    ensures g.Some? && FindCategory(categories, category).Some? && FindCategory(categories, category).value.color == [] ==>
              g.value.color == DefaultGoalColor
  {
    if category == [] || targetField.None? then None
    else
      Some(CategoryGoal(freshId, category, targetField.value,
                        ColorOr(FindCategory(categories, category), DefaultGoalColor), Some(description)))
  }

  /**
   * Adding a goal for a category that already has one leaves the category
   * with two goals: this page does not keep one goal per category.
   */
  lemma AddGoalCanDuplicateCategory(goals: seq<CategoryGoal>, categories: seq<CustomCategory>, category: string,
                                    target: int, description: string, freshId: string)
    requires GoalNamesCategory(goals, category) && category != []
    ensures !OneGoalPerCategory(goals + [NewGoal(categories, category, Some(target), description, freshId).value])
  {
    var i :| 0 <= i < |goals| && goals[i].category == category;
    var r := goals + [NewGoal(categories, category, Some(target), description, freshId).value];
    assert r[i].category == r[|goals|].category;
  }

  /** The two stored lists and the handlers of the page that change them. */
  class SettingsPage {
    var categories: seq<CustomCategory>
    var goals: seq<CategoryGoal>

    /** The page opens on the saved lists. */
    constructor(savedCategories: seq<CustomCategory>, savedGoals: seq<CategoryGoal>)
      ensures categories == savedCategories && goals == savedGoals
    {
      categories := savedCategories;
      goals := savedGoals;
    }

    /** `addCategory` */
    method AddCategory(name: string, emoji: string, color: string, freshId: string) returns (added: bool)
      modifies this
      ensures added <==> !IsBlank(name)
      ensures categories == WithNewCategory(old(categories), name, emoji, color, freshId)
      ensures goals == old(goals)
    {
      if IsBlank(name) {
        return false;
      }
      categories := categories + [CustomCategory(freshId, name, emoji, color)];
      added := true;
    }

    /** `deleteCategory`: the category and every goal naming it go. */
    method DeleteCategory(id: string)
      modifies this
      ensures categories == WithoutCategory(old(categories), id)
      ensures goals == WithoutGoalsOf(old(goals), id)
      ensures !CategoryIdUsed(categories, id) && !GoalNamesCategory(goals, id)
    {
      categories := Filter(categories, CategoryIdIsNot(id));
      goals := Filter(goals, GoalCategoryIsNot(id));
      DeleteCategoryCascades(old(categories), old(goals), id);
    }

    /** `addGoal`: appends the goal the form describes, if the form is filled in. */
    method AddGoal(category: string, targetField: Option<int>, description: string, freshId: string)
      returns (added: bool)
      modifies this
      ensures added <==> category != [] && targetField.Some?
      ensures added ==> goals == old(goals) + [NewGoal(old(categories), category, targetField, description, freshId).value]
      ensures !added ==> goals == old(goals)
      ensures categories == old(categories)
    {
      if category == [] || targetField.None? {
        return false;
      }
      var goal := CategoryGoal(freshId, category, targetField.value,
                               ColorOr(FindCategory(categories, category), DefaultGoalColor), Some(description));
      goals := goals + [goal];
      added := true;
    }

    /** `deleteGoal` */
    method DeleteGoal(id: string)
      modifies this
      ensures goals == WithoutGoal(old(goals), id)
      ensures !GoalIdUsed(goals, id)
      ensures categories == old(categories)
    {
      goals := Filter(goals, GoalIdIsNot(id));
      DeleteGoalIdempotent(old(goals), id);
    }
  }
}
