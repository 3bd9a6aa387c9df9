/**
 * The dashboard overview: the income and expense totals, the balance
 * between them, spending per category and the five most recent expenses.
 * The folds here are shared with the analytics page, which applies them to
 * the records of a date window.
 */
module Dashboard {
  import opened Calendar
  import opened Seqs
  import opened FinanceTypes

  /** Every amount is at least zero. */
  predicate NonNegativeExpenses(expenses: seq<Expense>) {
    forall i :: 0 <= i < |expenses| ==> expenses[i].amount >= 0
  }

  /** The sum of the expenses' amounts. */
  function TotalExpenses(expenses: seq<Expense>): int {
    if expenses == [] then 0
    else TotalExpenses(expenses[..|expenses| - 1]) + expenses[|expenses| - 1].amount
  }

  /** The sum of the income entries' amounts. */
  function TotalIncome(income: seq<Income>): int {
    if income == [] then 0
    else TotalIncome(income[..|income| - 1]) + income[|income| - 1].amount
  }

  /** What is left of the income once the expenses are paid. */
  function Balance(expenses: seq<Expense>, income: seq<Income>): (balance: int)
    ensures expenses == [] ==> balance == TotalIncome(income)
    ensures NonNegativeExpenses(expenses) ==> balance <= TotalIncome(income)
  {
    if NonNegativeExpenses(expenses) then
      TotalExpensesNonNegative(expenses);
      TotalIncome(income) - TotalExpenses(expenses)
    else
      TotalIncome(income) - TotalExpenses(expenses)
  }

  /** With no negative amount the expense total is not negative either. */
  lemma {:induction false} TotalExpensesNonNegative(expenses: seq<Expense>)
    requires NonNegativeExpenses(expenses)
    ensures TotalExpenses(expenses) >= 0
  {
    if expenses != [] {
      var init := expenses[..|expenses| - 1];
      assert NonNegativeExpenses(init) by {
        forall i | 0 <= i < |init| ensures init[i].amount >= 0 {
          assert init[i] == expenses[i];
        }
      }
      TotalExpensesNonNegative(init);
    }
  }

  /** The expense total of two lists put together is the sum of their totals. */
  lemma {:induction false} TotalExpensesConcat(a: seq<Expense>, b: seq<Expense>)
    ensures TotalExpenses(a + b) == TotalExpenses(a) + TotalExpenses(b)
  {
    if b == [] {
      assert a + b == a;
    } else {
      assert (a + b)[..|a + b| - 1] == a + b[..|b| - 1];
      TotalExpensesConcat(a, b[..|b| - 1]);
    }
  }

  /** The income total of two lists put together is the sum of their totals. */
  lemma {:induction false} TotalIncomeConcat(a: seq<Income>, b: seq<Income>)
    ensures TotalIncome(a + b) == TotalIncome(a) + TotalIncome(b)
  {
    if b == [] {
      assert a + b == a;
    } else {
      assert (a + b)[..|a + b| - 1] == a + b[..|b| - 1];
      TotalIncomeConcat(a, b[..|b| - 1]);
    }
  }

  /** Adding an expense lowers the balance by its amount; adding income raises it. */
  lemma BalanceAfterSaving(expenses: seq<Expense>, income: seq<Income>, e: Expense, i: Income)
    ensures Balance([e] + expenses, income) == Balance(expenses, income) - e.amount
    ensures Balance(expenses, [i] + income) == Balance(expenses, income) + i.amount
  {
    TotalExpensesConcat([e], expenses);
    TotalIncomeConcat([i], income);
    assert TotalExpenses([e]) == e.amount by {
      assert [e][..0] == [];
    }
    assert TotalIncome([i]) == i.amount by {
      assert [i][..0] == [];
    }
  }

  /** The total of the expenses of one category. */
  function CategoryTotal(expenses: seq<Expense>, category: string): int {
    if expenses == [] then 0
    else
      var last := expenses[|expenses| - 1];
      CategoryTotal(expenses[..|expenses| - 1], category) + (if last.category == category then last.amount else 0)
  }

  /**
   * Spending per category: each category that occurs maps to the sum of its
   * expenses' amounts.
   */
  function SpendByCategory(expenses: seq<Expense>): map<string, int> {
    if expenses == [] then map[]
    else
      var acc := SpendByCategory(expenses[..|expenses| - 1]);
      var e := expenses[|expenses| - 1];
      acc[e.category := (if e.category in acc then acc[e.category] else 0) + e.amount]
  }

  /** The categories of the expenses, each once, in order of first occurrence. */
  function Categories(expenses: seq<Expense>): (cs: seq<string>) {
    if expenses == [] then []
    else
      var cs := Categories(expenses[..|expenses| - 1]);
      var c := expenses[|expenses| - 1].category;
      if c in cs then cs else cs + [c]
  }

  predicate Distinct(cs: seq<string>) {
    forall i, j :: 0 <= i < j < |cs| ==> cs[i] != cs[j]
  }

  /** A category that no expense carries totals zero. */
  lemma {:induction false} CategoryTotalAbsent(expenses: seq<Expense>, category: string)
    requires category !in Categories(expenses)
    ensures CategoryTotal(expenses, category) == 0
  {
    if expenses != [] {
      var init := expenses[..|expenses| - 1];
      CategoryTotalAbsent(init, category);
    }
  }

  /** The categories list names exactly the categories some expense carries, each once. */
  lemma {:induction false} CategoriesMeaning(expenses: seq<Expense>)
    ensures Distinct(Categories(expenses))
    ensures forall c :: c in Categories(expenses) <==> exists i :: 0 <= i < |expenses| && expenses[i].category == c
  {
    CategoriesDistinct(expenses);
    if expenses != [] {
      var init := expenses[..|expenses| - 1];
      CategoriesMeaning(init);
      forall c ensures c in Categories(expenses) <==> exists i :: 0 <= i < |expenses| && expenses[i].category == c {
        if c in Categories(init) {
          var i :| 0 <= i < |init| && init[i].category == c;
          assert expenses[i].category == c;
        } else if c == expenses[|init|].category {
          assert c in Categories(expenses);
        } else {
          forall i | 0 <= i < |expenses| ensures expenses[i].category != c {
            if i < |init| {
              assert expenses[i] == init[i];
            }
          }
        }
      }
    }
  }

  /**
   * The spending map has a key for exactly the categories that occur among
   * the expenses (an absent category is missing, not zero) and each value
   * is the total of that category.
   */
  lemma {:induction false} SpendByCategoryMeaning(expenses: seq<Expense>)
    ensures forall c :: c in SpendByCategory(expenses) <==> c in Categories(expenses)
    ensures forall c :: c in SpendByCategory(expenses) ==> SpendByCategory(expenses)[c] == CategoryTotal(expenses, c)
  {
    forall c {
      SpendByCategoryKey(expenses, c);
    }
    if expenses != [] {
      var init := expenses[..|expenses| - 1];
      SpendByCategoryMeaning(init);
      var e := expenses[|expenses| - 1];
      if e.category !in Categories(init) {
        CategoryTotalAbsent(init, e.category);
      }
    }
  }

  /** No category is listed twice. */
  lemma {:induction false} CategoriesDistinct(expenses: seq<Expense>)
    ensures Distinct(Categories(expenses))
  {
    if expenses != [] {
      CategoriesDistinct(expenses[..|expenses| - 1]);
    }
  }

  /** A category is a key of the spending map exactly when it is listed. */
  lemma {:induction false} SpendByCategoryKey(expenses: seq<Expense>, c: string)
    ensures c in SpendByCategory(expenses) <==> c in Categories(expenses)
  {
    if expenses != [] {
      SpendByCategoryKey(expenses[..|expenses| - 1], c);
    }
  }

  /** The sum of `m[k]` over the keys `ks` (a key missing from `m` adds nothing). */
  function SumValues(m: map<string, int>, ks: seq<string>): int {
    if ks == [] then 0
    else SumValues(m, ks[..|ks| - 1]) + (if ks[|ks| - 1] in m then m[ks[|ks| - 1]] else 0)
  }

  lemma {:induction false} SumValuesUnaffected(m: map<string, int>, ks: seq<string>, c: string, v: int)
    requires c !in ks
    ensures SumValues(m[c := v], ks) == SumValues(m, ks)
  {
    if ks != [] {
      SumValuesUnaffected(m, ks[..|ks| - 1], c, v);
    }
  }

  lemma {:induction false} SumValuesUpdate(m: map<string, int>, ks: seq<string>, c: string, v: int)
    requires Distinct(ks) && c in ks && c in m
    ensures SumValues(m[c := v], ks) == SumValues(m, ks) - m[c] + v
  {
    var init := ks[..|ks| - 1];
    if ks[|ks| - 1] == c {
      assert c !in init;
      SumValuesUnaffected(m, init, c, v);
    } else {
      assert c in init;
      SumValuesUpdate(m, init, c, v);
    }
  }

  /** A new key with value `v` adds `v` to the sum. */
  lemma SumValuesNewKey(m: map<string, int>, ks: seq<string>, c: string, v: int)
    requires c !in ks
    ensures SumValues(m[c := v], ks + [c]) == SumValues(m, ks) + v
  {
    SumValuesUnaffected(m, ks, c, v);
    assert (ks + [c])[..|ks|] == ks;
  }

  /**
   * Summing the spending map over its keys gives the expense total: the
   * category breakdown accounts for every expense exactly once.
   */
  lemma {:induction false} SpendByCategorySumsToTotal(expenses: seq<Expense>)
    ensures SumValues(SpendByCategory(expenses), Categories(expenses)) == TotalExpenses(expenses)
  {
    if expenses != [] {
      var init := expenses[..|expenses| - 1];
      SpendByCategorySumsToTotal(init);
      var e := expenses[|expenses| - 1];
      var m, ks := SpendByCategory(init), Categories(init);
      assert TotalExpenses(expenses) == TotalExpenses(init) + e.amount;
      SpendByCategoryKey(init, e.category);
      if e.category in ks {
        CategoriesDistinct(init);
        assert SpendByCategory(expenses) == m[e.category := m[e.category] + e.amount];
        assert Categories(expenses) == ks;
        SumValuesUpdate(m, ks, e.category, m[e.category] + e.amount);
      } else {
        assert SpendByCategory(expenses) == m[e.category := e.amount];
        assert Categories(expenses) == ks + [e.category];
        SumValuesNewKey(m, ks, e.category, e.amount);
      }
    }
  }

  // ---------------------------------------------------------------------
  // Recent activity: the five newest expenses, after a stable newest-first sort
  // ---------------------------------------------------------------------

  /** Newest first: dates never increase along the list. */
  predicate SortedByDateDesc(s: seq<Expense>) {
    forall i, j :: 0 <= i < j < |s| ==> s[i].date.Ordinal() >= s[j].date.Ordinal()
  }

  /**
   * Puts `e` into a newest-first list behind every expense that is at least
   * as recent, as a stable sort does with a later element.
   */
  function InsertByDate(sorted: seq<Expense>, e: Expense): (r: seq<Expense>)
    ensures |r| == |sorted| + 1
  {
    if sorted == [] || sorted[|sorted| - 1].date.Ordinal() >= e.date.Ordinal() then sorted + [e]
    else InsertByDate(sorted[..|sorted| - 1], e) + [sorted[|sorted| - 1]]
  }

  lemma {:induction false} InsertByDatePermutes(sorted: seq<Expense>, e: Expense)
    ensures multiset(InsertByDate(sorted, e)) == multiset(sorted) + multiset{e}
  {
    if sorted != [] && sorted[|sorted| - 1].date.Ordinal() < e.date.Ordinal() {
      var init := sorted[..|sorted| - 1];
      InsertByDatePermutes(init, e);
      assert sorted == init + [sorted[|sorted| - 1]];
    }
  }

  /** The stable newest-first order of the expenses (insertion sort). */
  function SortByDateDesc(s: seq<Expense>): (r: seq<Expense>)
    ensures |r| == |s|
  {
    if s == [] then []
    else InsertByDate(SortByDateDesc(s[..|s| - 1]), s[|s| - 1])
  }

  /** The sort only reorders: it keeps every expense, as often as it occurs. */
  lemma {:induction false} SortByDateDescPermutes(s: seq<Expense>)
    ensures multiset(SortByDateDesc(s)) == multiset(s)
  {
    if s != [] {
      var init := s[..|s| - 1];
      SortByDateDescPermutes(init);
      InsertByDatePermutes(SortByDateDesc(init), s[|s| - 1]);
      assert s == init + [s[|s| - 1]];
    }
  }

  lemma {:induction false} InsertByDateSorted(sorted: seq<Expense>, e: Expense)
    requires SortedByDateDesc(sorted)
    ensures SortedByDateDesc(InsertByDate(sorted, e))
    ensures forall i :: 0 <= i < |InsertByDate(sorted, e)| ==>
      InsertByDate(sorted, e)[i] == e || InsertByDate(sorted, e)[i] in sorted
  {
    if sorted != [] && sorted[|sorted| - 1].date.Ordinal() < e.date.Ordinal() {
      var init := sorted[..|sorted| - 1];
      InsertByDateSorted(init, e);
      var r := InsertByDate(init, e);
      var last := sorted[|sorted| - 1];
      forall i | 0 <= i < |r| ensures r[i].date.Ordinal() >= last.date.Ordinal() {
        if r[i] != e {
          var k :| 0 <= k < |init| && init[k] == r[i];
        }
      }
    }
  }

  /** The stable sort puts the expenses newest first. */
  lemma {:induction false} SortByDateDescSorted(s: seq<Expense>)
    ensures SortedByDateDesc(SortByDateDesc(s))
  {
    if s != [] {
      SortByDateDescSorted(s[..|s| - 1]);
      InsertByDateSorted(SortByDateDesc(s[..|s| - 1]), s[|s| - 1]);
    }
  }

  /** Sorting a list that is already newest first changes nothing, so sorting twice is sorting once. */
  lemma {:induction false} SortByDateDescOfSorted(s: seq<Expense>)
    requires SortedByDateDesc(s)
    ensures SortByDateDesc(s) == s
  {
    if s != [] {
      var init := s[..|s| - 1];
      SortByDateDescOfSorted(init);
      assert s == init + [s[|s| - 1]];
    }
  }

  lemma SortByDateDescIdempotent(s: seq<Expense>)
    ensures SortByDateDesc(SortByDateDesc(s)) == SortByDateDesc(s)
  {
    SortByDateDescSorted(s);
    SortByDateDescOfSorted(SortByDateDesc(s));
  }

  /** Accepts the expenses dated on the day with ordinal `k`. */
  function DatedOn(k: int): Expense -> bool {
    (e: Expense) => e.date.Ordinal() == k
  }

  /**
   * Inserting an expense keeps the expenses of any one day in their order
   * and puts the new one behind those of its own day.
   */
  lemma {:induction false} InsertByDateKeepsDayOrder(sorted: seq<Expense>, e: Expense, k: int)
    ensures Filter(InsertByDate(sorted, e), DatedOn(k))
         == Filter(sorted, DatedOn(k)) + (if e.date.Ordinal() == k then [e] else [])
  {
    if sorted == [] || sorted[|sorted| - 1].date.Ordinal() >= e.date.Ordinal() {
      FilterSnoc(sorted, e, DatedOn(k));
    } else {
      var init, last := sorted[..|sorted| - 1], sorted[|sorted| - 1];
      assert sorted == init + [last];
      InsertByDateKeepsDayOrder(init, e, k);
      FilterSnoc(InsertByDate(init, e), last, DatedOn(k));
      FilterSnoc(init, last, DatedOn(k));
      // `last` is older than `e`, so at most one of the two is dated on day `k`.
    }
  }



  /**
   * The sort is stable: the expenses of any one day come out in the order
   * the caller's array held them, which decides which of several same-day
   * expenses reach the recent feed.
   */
  lemma {:induction false} SortByDateDescStable(s: seq<Expense>, k: int)
    ensures Filter(SortByDateDesc(s), DatedOn(k)) == Filter(s, DatedOn(k))
  {
    if s != [] {
      var init, last := s[..|s| - 1], s[|s| - 1];
      assert s == init + [last];
      SortByDateDescStable(init, k);
      InsertByDateKeepsDayOrder(SortByDateDesc(init), last, k);
      FilterSnoc(init, last, DatedOn(k));
    }
  }


  /**
   * Inserting `e` at position `j` is what `InsertByDate` does when the
   * expenses from `j` on are older than `e` and the one before `j` is not.
   */
  lemma {:induction false} InsertByDateAt(sorted: seq<Expense>, e: Expense, j: nat)
    requires j <= |sorted|
    requires j == 0 || sorted[j - 1].date.Ordinal() >= e.date.Ordinal()
    requires forall k :: j <= k < |sorted| ==> sorted[k].date.Ordinal() < e.date.Ordinal()
    ensures InsertByDate(sorted, e) == sorted[..j] + [e] + sorted[j..]
    decreases |sorted| - j
  {
    if j == |sorted| {
      assert sorted[..j] == sorted && sorted[j..] == [];
    } else {
      var init, last := sorted[..|sorted| - 1], sorted[|sorted| - 1];
      assert last.date.Ordinal() < e.date.Ordinal();
      assert InsertByDate(sorted, e) == InsertByDate(init, e) + [last];
      assert j == 0 || init[j - 1] == sorted[j - 1];
      assert forall k :: j <= k < |init| ==> init[k] == sorted[k];
      InsertByDateAt(init, e, j);
      assert init[..j] == sorted[..j];
      assert init[j..] + [last] == sorted[j..];
    }
  }

  /**
   * One step of the in-place insertion sort: `a[i]` moves left past the
   * older expenses of the sorted prefix `a[..i]`.
   */
  method InsertIntoPrefix(a: array<Expense>, i: nat)
    requires i < a.Length
    modifies a
    ensures a[..i + 1] == InsertByDate(old(a[..i]), old(a[i]))
    ensures a[i + 1..] == old(a[i + 1..])
  {
    ghost var sorted := a[..i];
    var e := a[i];
    var j := i;
    while j > 0 && a[j - 1].date.Ordinal() < e.date.Ordinal()
      invariant 0 <= j <= i
      invariant forall k :: 0 <= k < j ==> a[k] == sorted[k]
      invariant forall k :: j < k <= i ==> a[k] == sorted[k - 1]
      invariant forall k :: i < k < a.Length ==> a[k] == old(a[k])
      invariant forall k :: j <= k < i ==> sorted[k].date.Ordinal() < e.date.Ordinal()
    {
      a[j] := a[j - 1];
      j := j - 1;
    }
    a[j] := e;
    InsertByDateAt(sorted, e, j);
    ShiftedInsert(sorted, e, j, a[..i + 1]);
  }

  /** A list that holds `sorted` with `e` placed at position `j` is that insertion. */
  lemma ShiftedInsert(sorted: seq<Expense>, e: Expense, j: nat, s: seq<Expense>)
    requires j <= |sorted| && |s| == |sorted| + 1
    requires forall k :: 0 <= k < j ==> s[k] == sorted[k]
    requires s[j] == e
    requires forall k :: j < k < |s| ==> s[k] == sorted[k - 1]
    ensures s == sorted[..j] + [e] + sorted[j..]
  {
  }

  /**
   * Reorders the caller's array in place into the stable newest-first
   * order, by insertion.
   */
  method SortExpensesByDate(a: array<Expense>)
    modifies a
    ensures a[..] == SortByDateDesc(old(a[..]))
  {
    ghost var original := a[..];
    var i := 0;
    while i < a.Length
      invariant 0 <= i <= a.Length
      invariant a[..i] == SortByDateDesc(original[..i])
      invariant a[i..] == original[i..]
    {
      ghost var before := a[..];
      assert before[i] == original[i] && before[i + 1..] == original[i + 1..] by {
        assert before[i..] == original[i..];
      }
      InsertIntoPrefix(a, i);
      ghost var next := original[..i + 1];
      assert next[..i] == original[..i] && next[i] == original[i];
      assert SortByDateDesc(next) == InsertByDate(SortByDateDesc(original[..i]), original[i]);
      i := i + 1;
    }
    assert original[..a.Length] == original;
  }

  /** The first five expenses of the newest-first order, or all of them when there are fewer. */
  function RecentOf(s: seq<Expense>): (recent: seq<Expense>)
    ensures |recent| <= 5 && |recent| <= |s|
    ensures |s| <= 5 ==> |recent| == |s|
  {
    var sorted := SortByDateDesc(s);
    sorted[..if |sorted| < 5 then |sorted| else 5]
  }

  /**
   * The activity feed holds min(5, n) expenses of the list, newest first,
   * and none of the expenses left out is more recent than any shown.
   */
  lemma RecentOfMeaning(s: seq<Expense>)
    ensures |RecentOf(s)| == if |s| < 5 then |s| else 5
    ensures SortedByDateDesc(RecentOf(s))
    ensures multiset(RecentOf(s)) <= multiset(s)
    ensures forall i, j :: 0 <= i < |RecentOf(s)| <= j < |s| ==>
      RecentOf(s)[i].date.Ordinal() >= SortByDateDesc(s)[j].date.Ordinal()
  {
    var sorted := SortByDateDesc(s);
    SortByDateDescSorted(s);
    SortByDateDescPermutes(s);
    var n := if |sorted| < 5 then |sorted| else 5;
    assert sorted == sorted[..n] + sorted[n..];
    assert multiset(sorted) == multiset(sorted[..n]) + multiset(sorted[n..]);
  }

  /**
   * The recent-expenses feed: sorts the caller's array in place and returns
   * its first five entries.
   */
  method RecentExpenses(a: array<Expense>) returns (recent: seq<Expense>)
    modifies a
    ensures a[..] == SortByDateDesc(old(a[..]))
    ensures recent == RecentOf(old(a[..]))
  {
    SortExpensesByDate(a);
    recent := a[..if a.Length < 5 then a.Length else 5];
  }
}
