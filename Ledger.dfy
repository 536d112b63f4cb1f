/**
 * The budget document of script.js and the pure computations over its list of
 * expenses: the total (`getTotalExpenses`), the spending of one category (one
 * entry of `getSpentByCategory`), the filter behind `deleteExpense` and the
 * date-descending order of the expenses table.
 */
module Ledger {
  import opened Text

  datatype Option<T> = None | Some(value: T)

  /** A number as `parseFloat` yields it: NaN, or a value. */
  datatype Number = NaN | Num(value: real)

  datatype Expense = Expense(id: string, date: string, category: string, amount: real, note: string)

  /** The budget document: month `YYYY-MM`, income, expenses, limit per category. */
  datatype Document = Document(
    monthYear: string,
    income: real,
    expenses: seq<Expense>,
    limits: map<string, real>)

  /**
   * What `localStorage.getItem('budgetData')` holds: nothing (or the empty
   * string), text that `JSON.parse` rejects, or the text `JSON.stringify`
   * wrote for a document.
   */
  datatype StoredValue = Absent | Malformed | Json(doc: Document)

  /**
   * `createNewBudgetData`, for the month the clock reports: nothing earned,
   * nothing spent, no category in use.
   */
  function NewDocument(monthYear: string): (d: Document)
    ensures d.monthYear == monthYear && d.income == 0.0
    ensures Total(d.expenses) == 0.0 && CategoriesOf(d.expenses) == {} && d.limits.Keys == {}
  {
    Document(monthYear, 0.0, [], map[])
  }

  /** `isInvalidAmount`: NaN, zero and the negatives are refused. */
  predicate IsInvalidAmount(n: Number)
    ensures !IsInvalidAmount(n) <==> n.Num? && n.value > 0.0
  {
    n.NaN? || n.value <= 0.0
  }

  /**
   * `loadData`: the parsed document when there is one; in every other case
   * (no entry, or a parse error) a fresh document for the current month.
   */
  function LoadDocument(stored: StoredValue, currentMonth: string): (d: Document)
    ensures stored.Json? ==> d == stored.doc
    ensures !stored.Json? ==> d.monthYear == currentMonth && d.income == 0.0
                              && d.expenses == [] && d.limits == map[]
  {
    match stored
    case Json(doc) => doc
    case _ => NewDocument(currentMonth)
  }

  /**
   * The invariant the forms keep: income is never negative, every expense
   * amount is positive, every limit non-negative. A document read back from
   * storage is not checked against it.
   */
  ghost predicate WellFormed(d: Document) {
    && d.income >= 0.0
    && (forall i :: 0 <= i < |d.expenses| ==> d.expenses[i].amount > 0.0)
    && (forall c :: c in d.limits ==> d.limits[c] >= 0.0)
  }

  lemma NewDocumentWellFormed(monthYear: string)
    ensures WellFormed(NewDocument(monthYear))
    ensures Total(NewDocument(monthYear).expenses) == 0.0
  {
  }

  // ---------------------------------------------------------------------
  // Totals

  /**
   * `getTotalExpenses`: the `reduce` that adds the amounts from left to right.
   * With positive amounts the total is positive as soon as there is an expense.
   */
  function Total(es: seq<Expense>): (t: real)
    ensures (forall i :: 0 <= i < |es| ==> es[i].amount > 0.0) ==> t >= 0.0 && (es != [] ==> t > 0.0)
  {
    if es == [] then 0.0 else Total(es[..|es| - 1]) + es[|es| - 1].amount
  }

  /**
   * What `getSpentByCategory` accumulates for category `c`: 0 for a category
   * no expense carries, the zero the code substitutes for a missing key.
   */
  function CategorySpent(es: seq<Expense>, c: string): (r: real)
    ensures c !in CategoriesOf(es) ==> r == 0.0
  {
    if es == [] then 0.0
    else
      var init, last := es[..|es| - 1], es[|es| - 1];
      assert CategoriesOf(init) <= CategoriesOf(es) by {
        forall x | x in CategoriesOf(init) ensures x in CategoriesOf(es) {
          var i :| 0 <= i < |init| && init[i].category == x;
          assert es[i].category == x;
        }
      }
      assert last.category in CategoriesOf(es);
      CategorySpent(init, c) + (if last.category == c then last.amount else 0.0)
  }

  /**
   * The keys `getSpentByCategory` creates: empty exactly when there are no
   * expenses, the case the categories table reports as "No categories yet".
   */
  function CategoriesOf(es: seq<Expense>): (cs: set<string>)
    ensures cs == {} <==> es == []
  {
    var keys := set i | 0 <= i < |es| :: es[i].category;
    assert es != [] ==> es[0].category in keys;
    keys
  }

  lemma CategoriesOfAppend(es: seq<Expense>, e: Expense)
    ensures CategoriesOf(es + [e]) == CategoriesOf(es) + {e.category}
  {
    var es' := es + [e];
    forall x | x in CategoriesOf(es') ensures x in CategoriesOf(es) + {e.category} {
      var k :| 0 <= k < |es'| && es'[k].category == x;
      if k < |es| {
        assert es[k].category == x;
      }
    }
    forall x | x in CategoriesOf(es) ensures x in CategoriesOf(es') {
      var k :| 0 <= k < |es| && es[k].category == x;
      assert es'[k].category == x;
    }
    assert es'[|es|].category == e.category;
  }

  lemma CategorySpentAppend(es: seq<Expense>, e: Expense, c: string)
    ensures CategorySpent(es + [e], c) == CategorySpent(es, c) + (if e.category == c then e.amount else 0.0)
  {
    assert (es + [e])[..|es + [e]| - 1] == es;
  }

  lemma {:induction false} TotalConcat(a: seq<Expense>, b: seq<Expense>)
    ensures Total(a + b) == Total(a) + Total(b)
  {
    if b != [] {
      var b' := b[..|b| - 1];
      assert (a + b)[..|a + b| - 1] == a + b';
      TotalConcat(a, b');
    } else {
      assert a + b == a;
    }
  }

  /** With positive amounts, a category's spending lies between 0 and the total. */
  lemma {:induction false} CategorySpentBounds(es: seq<Expense>, c: string)
    requires forall i :: 0 <= i < |es| ==> es[i].amount > 0.0
    ensures 0.0 <= CategorySpent(es, c) <= Total(es)
  {
    if es != [] {
      CategorySpentBounds(es[..|es| - 1], c);
    }
  }

  /** The categories' spendings added up, for a list of categories. */
  function SumOver(cats: seq<string>, es: seq<Expense>): real {
    if cats == [] then 0.0 else CategorySpent(es, cats[0]) + SumOver(cats[1..], es)
  }

  predicate Distinct(cats: seq<string>) {
    forall i, j :: 0 <= i < j < |cats| ==> cats[i] != cats[j]
  }

  lemma {:induction false} SumOverNoExpenses(cats: seq<string>)
    ensures SumOver(cats, []) == 0.0
  {
    if cats != [] {
      SumOverNoExpenses(cats[1..]);
    }
  }

  lemma {:induction false} SumOverAppend(cats: seq<string>, es: seq<Expense>, e: Expense)
    requires Distinct(cats)
    ensures SumOver(cats, es + [e]) == SumOver(cats, es) + (if e.category in cats then e.amount else 0.0)
  {
    assert (es + [e])[..|es + [e]| - 1] == es;
    if cats != [] {
      assert e.category in cats <==> e.category == cats[0] || e.category in cats[1..];
      assert e.category == cats[0] ==> e.category !in cats[1..];
      SumOverAppend(cats[1..], es, e);
    }
  }

  /**
   * The spendings of `getSpentByCategory`, summed over its categories (each
   * listed once), equal `getTotalExpenses`.
   */
  lemma {:induction false} CategorySumIsTotal(cats: seq<string>, es: seq<Expense>)
    requires Distinct(cats)
    requires CategoriesOf(es) <= set c | c in cats
    ensures SumOver(cats, es) == Total(es)
  {
    if es == [] {
      SumOverNoExpenses(cats);
    } else {
      var init, last := es[..|es| - 1], es[|es| - 1];
      assert CategoriesOf(init) <= CategoriesOf(es) by {
        forall x | x in CategoriesOf(init) ensures x in CategoriesOf(es) {
          var i :| 0 <= i < |init| && init[i].category == x;
          assert es[i].category == x;
        }
      }
      assert last.category in CategoriesOf(es);
      CategorySumIsTotal(cats, init);
      SumOverAppend(cats, init, last);
      assert init + [last] == es;
    }
  }

  // ---------------------------------------------------------------------
  // Deleting by id

  /**
   * `expenses.filter((exp) => exp.id !== id)`: never longer than the list, and
   * of the same length exactly when no expense carries the id.
   */
  function WithoutId(es: seq<Expense>, id: string): (r: seq<Expense>)
    ensures |r| <= |es|
    ensures |r| == |es| <==> forall i :: 0 <= i < |es| ==> es[i].id != id
  {
    if es == [] then []
    else
      assert forall i :: 1 <= i < |es| ==> es[i] == es[1..][i - 1];
      (if es[0].id == id then [] else [es[0]]) + WithoutId(es[1..], id)
  }

  /** The filter works piecewise, so it keeps the survivors in their order. */
  lemma {:induction false} WithoutIdConcat(a: seq<Expense>, b: seq<Expense>, id: string)
    ensures WithoutId(a + b, id) == WithoutId(a, id) + WithoutId(b, id)
  {
    if a == [] {
      assert a + b == b;
    } else {
      var ab := a + b;
      assert ab[0] == a[0];
      assert ab[1..] == a[1..] + b;
      WithoutIdConcat(a[1..], b, id);
      var rest := WithoutId(a[1..], id);
      if a[0].id == id {
        assert WithoutId(ab, id) == WithoutId(a[1..] + b, id);
        assert WithoutId(a, id) == rest;
      } else {
        assert WithoutId(ab, id) == [a[0]] + WithoutId(a[1..] + b, id);
        assert WithoutId(a, id) == [a[0]] + rest;
        assert [a[0]] + (rest + WithoutId(b, id)) == ([a[0]] + rest) + WithoutId(b, id);
      }
    }
  }

  /**
   * Every expense with the id is gone and every other one keeps its number of
   * occurrences.
   */
  lemma {:induction false} WithoutIdCounts(es: seq<Expense>, id: string, e: Expense)
    ensures multiset(WithoutId(es, id))[e] == if e.id == id then 0 else multiset(es)[e]
  {
    if es != [] {
      WithoutIdCounts(es[1..], id, e);
      assert es == [es[0]] + es[1..];
    }
  }

  lemma {:induction false} WithoutIdMembers(es: seq<Expense>, id: string)
    ensures forall e :: e in WithoutId(es, id) <==> e in es && e.id != id
  {
    forall e ensures e in WithoutId(es, id) <==> e in es && e.id != id {
      WithoutIdCounts(es, id, e);
    }
  }

  /** Deleting the same id twice is deleting it once. */
  lemma {:induction false} WithoutIdIdempotent(es: seq<Expense>, id: string)
    ensures WithoutId(WithoutId(es, id), id) == WithoutId(es, id)
  {
    if es != [] {
      var rest := WithoutId(es[1..], id);
      WithoutIdIdempotent(es[1..], id);
      if es[0].id == id {
        assert WithoutId(es, id) == rest;
      } else {
        assert WithoutId(es, id) == [es[0]] + rest;
        assert ([es[0]] + rest)[1..] == rest;
      }
    }
  }

  /** An id no expense has leaves the list as it is. */
  lemma {:induction false} WithoutAbsentId(es: seq<Expense>, id: string)
    requires forall i :: 0 <= i < |es| ==> es[i].id != id
    ensures WithoutId(es, id) == es
  {
    if es != [] {
      WithoutAbsentId(es[1..], id);
      assert es == [es[0]] + es[1..];
    }
  }

  // ---------------------------------------------------------------------
  // The expenses table order

  predicate DateDescending(es: seq<Expense>) {
    forall i :: 0 < i < |es| ==> LexLe(es[i].date, es[i - 1].date)
  }

  /** Inserts `e` in front of the first expense dated no later than it. */
  function InsertByDate(e: Expense, s: seq<Expense>): (r: seq<Expense>)
    ensures |r| == |s| + 1
    ensures multiset(r) == multiset(s) + multiset{e}
  {
    if s == [] || LexLe(s[0].date, e.date) then [e] + s
    else
      assert s == [s[0]] + s[1..];
      [s[0]] + InsertByDate(e, s[1..])
  }

  lemma {:induction false} InsertKeepsOrder(e: Expense, s: seq<Expense>)
    requires DateDescending(s)
    ensures DateDescending(InsertByDate(e, s))
    ensures InsertByDate(e, s)[0] == e || (s != [] && InsertByDate(e, s)[0] == s[0])
  {
    if s != [] && !LexLe(s[0].date, e.date) {
      LexLeTotal(s[0].date, e.date);
      InsertKeepsOrder(e, s[1..]);
    }
  }

  /**
   * `expenses.slice().sort((a, b) => b.date.localeCompare(a.date))`: a
   * permutation of the expenses, newest date first. Expenses of the same date
   * keep their relative order, since `sort` is stable.
   */
  function SortByDateDesc(es: seq<Expense>): (r: seq<Expense>)
    ensures |r| == |es|
    ensures multiset(r) == multiset(es)
    ensures DateDescending(r)
  {
    if es == [] then []
    else
      assert es == [es[0]] + es[1..];
      var rest := SortByDateDesc(es[1..]);
      InsertKeepsOrder(es[0], rest);
      InsertByDate(es[0], rest)
  }

  /** Adjacent order gives order between any two rows of the table. */
  lemma {:induction false} DateDescendingPairs(es: seq<Expense>, i: nat, j: nat)
    requires DateDescending(es)
    requires i <= j < |es|
    ensures LexLe(es[j].date, es[i].date)
    decreases j - i
  {
    if i == j {
      LexLeTotal(es[i].date, es[i].date);
    } else {
      DateDescendingPairs(es, i, j - 1);
      LexLeTransitive(es[j].date, es[j - 1].date, es[i].date);
    }
  }
}
