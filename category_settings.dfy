/**
 * What the two settings pages share: adding a category behind the blank
 * name guard, deleting a category together with the goals that name it,
 * and deleting a goal by id, as operations on the two stored lists.
 */
module CategorySettings {
  import opened Text
  import opened Seqs
  import opened FinanceTypes

  /** Accepts the categories whose id is not `id`. */
  function CategoryIdIsNot(id: string): CustomCategory -> bool {
    (c: CustomCategory) => c.id != id
  }

  /** Accepts the goals whose category is not `id`. */
  function GoalCategoryIsNot(id: string): CategoryGoal -> bool {
    (g: CategoryGoal) => g.category != id
  }

  /** Accepts the goals whose id is not `id`. */
  function GoalIdIsNot(id: string): CategoryGoal -> bool {
    (g: CategoryGoal) => g.id != id
  }

  predicate CategoryIdUsed(categories: seq<CustomCategory>, id: string) {
    exists i :: 0 <= i < |categories| && categories[i].id == id
  }

  predicate GoalIdUsed(goals: seq<CategoryGoal>, id: string) {
    exists i :: 0 <= i < |goals| && goals[i].id == id
  }

  predicate GoalNamesCategory(goals: seq<CategoryGoal>, id: string) {
    exists i :: 0 <= i < |goals| && goals[i].category == id
  }

  /**
   * `addCategory`: nothing happens when the trimmed name is empty;
   * otherwise the category is appended with the fresh id.
   */
  function WithNewCategory(categories: seq<CustomCategory>, name: string, emoji: string, color: string, freshId: string)
    : (r: seq<CustomCategory>)
    ensures IsBlank(name) ==> r == categories
    ensures !IsBlank(name) ==> |r| == |categories| + 1 && r[..|categories|] == categories
    ensures !IsBlank(name) ==> r[|categories|] == CustomCategory(freshId, name, emoji, color)
  {
    if IsBlank(name) then categories else categories + [CustomCategory(freshId, name, emoji, color)]
  }

  /** The categories left by `deleteCategory(id)`. */
  function WithoutCategory(categories: seq<CustomCategory>, id: string): (r: seq<CustomCategory>)
    ensures |r| <= |categories|
    ensures forall i :: 0 <= i < |r| ==> r[i] in categories && r[i].id != id
  {
    Filter(categories, CategoryIdIsNot(id))
  }

  /** The goals left by `deleteCategory(id)`: every goal naming the category goes with it. */
  function WithoutGoalsOf(goals: seq<CategoryGoal>, id: string): (r: seq<CategoryGoal>)
    ensures |r| <= |goals|
    ensures forall i :: 0 <= i < |r| ==> r[i] in goals && r[i].category != id
  {
    Filter(goals, GoalCategoryIsNot(id))
  }

  /** The goals left by `deleteGoal(id)`: every goal with that id goes. */
  function WithoutGoal(goals: seq<CategoryGoal>, id: string): (r: seq<CategoryGoal>)
    ensures |r| <= |goals|
    ensures forall i :: 0 <= i < |r| ==> r[i] in goals && r[i].id != id
  {
    Filter(goals, GoalIdIsNot(id))
  }

  /** No two goals name the same category. */
  predicate OneGoalPerCategory(goals: seq<CategoryGoal>) {
    forall i, j :: 0 <= i < j < |goals| ==> goals[i].category != goals[j].category
  }

  /** Dropping goals never makes two goals share a category. */
  lemma {:induction false} FilterKeepsOneGoalPerCategory(goals: seq<CategoryGoal>, keep: CategoryGoal -> bool)
    requires OneGoalPerCategory(goals)
    ensures OneGoalPerCategory(Filter(goals, keep))
  {
    if goals != [] {
      var rest := goals[1..];
      FilterKeepsOneGoalPerCategory(rest, keep);
      var fr := Filter(rest, keep);
      forall i | 0 <= i < |fr| ensures fr[i].category != goals[0].category {
        var k :| 0 <= k < |rest| && rest[k] == fr[i];
        assert goals[k + 1] == rest[k];
      }
    }
  }

  /**
   * After deleting a category neither it nor any goal naming it is left,
   * and every other category and goal is kept.
   */
  lemma DeleteCategoryCascades(categories: seq<CustomCategory>, goals: seq<CategoryGoal>, id: string)
    ensures !CategoryIdUsed(WithoutCategory(categories, id), id)
    ensures !GoalNamesCategory(WithoutGoalsOf(goals, id), id)
    ensures forall i :: 0 <= i < |categories| && categories[i].id != id ==> categories[i] in WithoutCategory(categories, id)
    ensures forall i :: 0 <= i < |goals| && goals[i].category != id ==> goals[i] in WithoutGoalsOf(goals, id)
  {
    var cs, gs := WithoutCategory(categories, id), WithoutGoalsOf(goals, id);
    assert forall i :: 0 <= i < |cs| ==> CategoryIdIsNot(id)(cs[i]);
    assert forall i :: 0 <= i < |gs| ==> GoalCategoryIsNot(id)(gs[i]);
    assert forall i :: 0 <= i < |categories| && categories[i].id != id ==> CategoryIdIsNot(id)(categories[i]);
    assert forall i :: 0 <= i < |goals| && goals[i].category != id ==> GoalCategoryIsNot(id)(goals[i]);
  }

  /**
   * Deleting a category that was just added under an unused id restores
   * both lists: the category goes, and no goal named it.
   */
  lemma DeleteUndoesAddCategory(categories: seq<CustomCategory>, goals: seq<CategoryGoal>,
                                name: string, emoji: string, color: string, freshId: string)
    requires !IsBlank(name)
    requires !CategoryIdUsed(categories, freshId) && !GoalNamesCategory(goals, freshId)
    ensures WithoutCategory(WithNewCategory(categories, name, emoji, color, freshId), freshId) == categories
    ensures WithoutGoalsOf(goals, freshId) == goals
  {
    var c := CustomCategory(freshId, name, emoji, color);
    FilterConcat(categories, [c], CategoryIdIsNot(freshId));
    FilterKeepsAll(categories, CategoryIdIsNot(freshId));
    assert Filter([c], CategoryIdIsNot(freshId)) == [];
    FilterKeepsAll(goals, GoalCategoryIsNot(freshId));
  }

  /** Deleting a goal that was just appended under an unused id restores the list. */
  lemma DeleteUndoesAppendGoal(goals: seq<CategoryGoal>, g: CategoryGoal)
    requires !GoalIdUsed(goals, g.id)
    ensures WithoutGoal(goals + [g], g.id) == goals
  {
    FilterConcat(goals, [g], GoalIdIsNot(g.id));
    FilterKeepsAll(goals, GoalIdIsNot(g.id));
    assert Filter([g], GoalIdIsNot(g.id)) == [];
  }

  /** Deleting the same goal twice is deleting it once. */
  lemma DeleteGoalIdempotent(goals: seq<CategoryGoal>, id: string)
    ensures WithoutGoal(WithoutGoal(goals, id), id) == WithoutGoal(goals, id)
    ensures !GoalIdUsed(WithoutGoal(goals, id), id)
  {
    FilterIdempotent(goals, GoalIdIsNot(id));
    var gs := WithoutGoal(goals, id);
    assert forall i :: 0 <= i < |gs| ==> GoalIdIsNot(id)(gs[i]);
  }
}
