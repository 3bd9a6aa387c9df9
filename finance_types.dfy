/**
 * The records of the finance app. Money is counted in integer cents, dates
 * are calendar days, and ids (including category ids) are strings.
 */
module FinanceTypes {
  import opened Text
  import opened Calendar

  /** The eight built-in expense categories. */
  datatype ExpenseCategory =
    | Food | Transport | Entertainment | Shopping | Health | Bills | Savings | Other
  {
    /** The position of the category in the declaration of `ExpenseCategory`. */
    function Index(): (i: nat)
      ensures i < 8
    {
      match this
      case Food => 0
      case Transport => 1
      case Entertainment => 2
      case Shopping => 3
      case Health => 4
      case Bills => 5
      case Savings => 6
      case Other => 7
    }

    /** The id under which expenses and goals refer to the category. */
    function Id(): string {
      match this
      case Food => "food"
      case Transport => "transport"
      case Entertainment => "entertainment"
      case Shopping => "shopping"
      case Health => "health"
      case Bills => "bills"
      case Savings => "savings"
      case Other => "other"
    }

    /** The label shown for the category: an emoji followed by its name. */
    function Label(): string {
      match this
      case Food => "🍕 Food"
      case Transport => "🚗 Transport"
      case Entertainment => "🎬 Entertainment"
      case Shopping => "🛍️ Shopping"
      case Health => "⚕️ Health"
      case Bills => "📄 Bills"
      case Savings => "💰 Savings"
      case Other => "📦 Other"
    }

    /** The style class of the category, named after its id. */
    function ColorClass(): (r: string)
      ensures r == "bg-category-" + Id()
    {
      match this
      case Food => "bg-category-food"
      case Transport => "bg-category-transport"
      case Entertainment => "bg-category-entertainment"
      case Shopping => "bg-category-shopping"
      case Health => "bg-category-health"
      case Bills => "bg-category-bills"
      case Savings => "bg-category-savings"
      case Other => "bg-category-other"
    }
  }

  /** Every category, in declaration order, each exactly once. */
  function AllExpenseCategories(): (cs: seq<ExpenseCategory>)
    ensures |cs| == 8
    ensures forall c: ExpenseCategory :: cs[c.Index()] == c
    ensures forall i, j :: 0 <= i < j < |cs| ==> cs[i] != cs[j]
  {
    var cs := [Food, Transport, Entertainment, Shopping, Health, Bills, Savings, Other];
    cs
  }

  /** No two categories share a label, and no two share an id. */
  lemma LabelsAndIdsDistinct(a: ExpenseCategory, b: ExpenseCategory)
    ensures a.Label() == b.Label() ==> a == b
    ensures a.Id() == b.Id() ==> a == b
  {
    // Different categories already differ in the first character of their
    // label (the emoji) and in the second character of their id.
    assert a != b ==> a.Label()[0] != b.Label()[0];
    assert a != b ==> a.Id()[1] != b.Id()[1];
  }

  /**
   * An expense. `category` is the id of a built-in or a user-defined
   * category; `account` and `recurring` are optional.
   */
  datatype Expense = Expense(
    id: string,
    amount: int,
    category: string,
    description: string,
    date: Date,
    account: Option<string>,
    recurring: Option<bool>)

  /** An income record: the fields of an expense without the category. */
  datatype Income = Income(
    id: string,
    amount: int,
    description: string,
    date: Date,
    account: Option<string>,
    recurring: Option<bool>)

  /** A spending limit for one built-in category and what was spent against it. */
  datatype Budget = Budget(category: ExpenseCategory, limit: int, spent: int)

  /** `checking`, `savings`, `credit` or `cash`. */
  datatype AccountType = CheckingAccount | SavingsAccount | CreditAccount | CashAccount

  /** An account; `balance` is the balance stored with the account. */
  datatype Account = Account(id: string, name: string, balance: int, kind: AccountType, color: string)

  /** A move of `amount` from one account to another. */
  datatype Transfer = Transfer(
    id: string,
    amount: int,
    fromAccount: string,
    toAccount: string,
    description: string,
    date: Date)

  /** A user-editable category. */
  datatype CustomCategory = CustomCategory(id: string, name: string, emoji: string, color: string)

  /** A monthly spending target for the category whose id is `category`. */
  datatype CategoryGoal = CategoryGoal(
    id: string,
    category: string,
    monthlyTarget: int,
    color: string,
    description: Option<string>)

  /**
   * The first category with the id `id`, or `None` (JavaScript's
   * `undefined`) when there is none.
   */
  function FindCategory(categories: seq<CustomCategory>, id: string): (r: Option<CustomCategory>)
    ensures r.None? <==> forall i :: 0 <= i < |categories| ==> categories[i].id != id
    ensures r.Some? ==> r.value.id == id
    ensures r.Some? ==>
              exists i :: 0 <= i < |categories| && categories[i] == r.value
                          && forall j :: 0 <= j < i ==> categories[j].id != id
  {
    if categories == [] then None
    else if categories[0].id == id then Some(categories[0])
    else
      var r := FindCategory(categories[1..], id);
      if r.Some? then
        var i :| 0 <= i < |categories[1..]| && categories[1..][i] == r.value
                 && forall j :: 0 <= j < i ==> categories[1..][j].id != id;
        assert categories[i + 1] == r.value;
        assert forall j :: 0 <= j < i + 1 ==> categories[j].id != id by {
          forall j | 0 <= j < i + 1 ensures categories[j].id != id {
            if j > 0 {
              assert categories[j] == categories[1..][j - 1];
            }
          }
        }
        r
      else
        assert forall i :: 0 <= i < |categories| ==> categories[i].id != id by {
          forall i | 0 <= i < |categories| ensures categories[i].id != id {
            if i > 0 {
              assert categories[i] == categories[1..][i - 1];
            }
          }
        }
        r
  }

  /**
   * The category's color, or `fallback` when the category is missing or
   * its color is the empty string.
   */
  function ColorOr(category: Option<CustomCategory>, fallback: string): (color: string)
    ensures fallback != [] ==> color != []
    ensures category.Some? && category.value.color != [] ==> color == category.value.color
    ensures !(category.Some? && category.value.color != []) ==> color == fallback
  {
    if category.Some? && category.value.color != [] then category.value.color else fallback
  }
}
