/**
 * The module-level `budgetData` of script.js as an object, with one method per
 * handler that changes it. The clock, the random id and the user's answer to
 * `confirm` are parameters; `localStorage` is the field `storage`.
 */
module Tracker {
  import opened Text
  import opened Ledger
  import opened Views

  /** Which of the form's alerts, if any, stopped a submission. */
  datatype Outcome = Accepted | MissingCategory | BadAmount

  class Budget {
    var monthYear: string
    var income: real
    var expenses: seq<Expense>
    var limits: map<string, real>
    /** The entry under the storage key `budgetData`. */
    var storage: StoredValue

    function Doc(): Document
      reads this
    {
      Document(monthYear, income, expenses, limits)
    }

    /** Storage holds exactly the in-memory document. */
    ghost predicate Saved()
      reads this
    {
      storage == Json(Doc())
    }

    /** `loadData`: reading storage writes nothing back. */
    constructor Load(stored: StoredValue, currentMonth: string)
      ensures Doc() == LoadDocument(stored, currentMonth)
      ensures storage == stored
    {
      var d := LoadDocument(stored, currentMonth);
      monthYear, income, expenses, limits := d.monthYear, d.income, d.expenses, d.limits;
      storage := stored;
    }

    /** `saveData`. */
    method SaveData()
      modifies this`storage
      ensures Saved()
    {
      storage := Json(Doc());
    }

    /**
     * `checkMonthReset`: a document from another month than `currentMonth` is
     * replaced by a fresh one and saved; `reset` says whether the notice is
     * shown. The fresh document comes from a second clock reading,
     * `freshMonth`, taken inside `createNewBudgetData`.
     */
    method CheckMonthReset(currentMonth: string, freshMonth: string) returns (reset: bool)
      modifies this
      ensures reset <==> old(monthYear) != currentMonth
      ensures reset ==> Doc() == NewDocument(freshMonth) && Saved()
      ensures !reset ==> Doc() == old(Doc()) && storage == old(storage) && monthYear == currentMonth
    {
      reset := monthYear != currentMonth;
      if reset {
        var d := NewDocument(freshMonth);
        monthYear, income, expenses, limits := d.monthYear, d.income, d.expenses, d.limits;
        SaveData();
      }
    }

    /** The income form. */
    method AddIncome(amount: Number) returns (ok: bool)
      modifies this
      ensures ok <==> !IsInvalidAmount(amount)
      ensures ok ==> income == old(income) + amount.value && Saved()
      ensures !ok ==> income == old(income) && storage == old(storage)
      ensures monthYear == old(monthYear) && expenses == old(expenses) && limits == old(limits)
      ensures old(WellFormed(Doc())) ==> WellFormed(Doc())
    {
      if IsInvalidAmount(amount) {
        return false;
      }
      income := income + amount.value;
      SaveData();
      ok := true;
    }

    /** `getSpentByCategory`: the spending of every category that has an expense. */
    method GetSpentByCategory() returns (spent: map<string, real>)
      ensures spent.Keys == CategoriesOf(expenses)
      ensures forall c :: c in spent ==> spent[c] == CategorySpent(expenses, c)
    {
      spent := map[];
      var i := 0;
      while i < |expenses|
        invariant 0 <= i <= |expenses|
        invariant spent.Keys == CategoriesOf(expenses[..i])
        invariant forall c :: c in spent ==> spent[c] == CategorySpent(expenses[..i], c)
      {
        var exp := expenses[i];
        AccumulateStep(expenses, i, spent);
        spent := spent[exp.category := SpentOrZero(spent, exp.category) + exp.amount];
        i := i + 1;
      }
      assert expenses[..i] == expenses;
    }

    /**
     * The expense form. After the trimmed category and the amount pass the
     * checks, the limit warning is computed from the spending so far and the
     * expense is appended whatever the warning says.
     */
    method AddExpense(rawCategory: string, amount: Number, rawNote: string, id: string, today: string)
      returns (outcome: Outcome, warning: Status)
      modifies this
      ensures outcome == (if Trim(rawCategory) == [] then MissingCategory
                          else if IsInvalidAmount(amount) then BadAmount
                          else Accepted)
      ensures outcome == Accepted ==>
        && expenses == old(expenses) + [Expense(id, today, Trim(rawCategory), amount.value, Trim(rawNote))]
        && warning == Classify(CategorySpent(old(expenses), Trim(rawCategory)) + amount.value,
                               LimitOf(limits, Trim(rawCategory)))
        && warning == Classify(CategorySpent(expenses, Trim(rawCategory)), LimitOf(limits, Trim(rawCategory)))
        && Saved()
      ensures outcome != Accepted ==> expenses == old(expenses) && storage == old(storage) && warning == Ok
      ensures monthYear == old(monthYear) && income == old(income) && limits == old(limits)
      ensures old(WellFormed(Doc())) ==> WellFormed(Doc())
    {
      var category := Trim(rawCategory);
      var note := Trim(rawNote);
      warning := Ok;
      if category == [] {
        return MissingCategory, warning;
      }
      if IsInvalidAmount(amount) {
        return BadAmount, warning;
      }
      warning := RecordExpense(Expense(id, today, category, amount.value, note));
      outcome := Accepted;
    }

    /**
     * The accepted half of the expense form: the warning for the spending so
     * far plus the new amount, then the expense appended and saved.
     */
    method RecordExpense(e: Expense) returns (warning: Status)
      modifies this
      ensures expenses == old(expenses) + [e]
      ensures warning == Classify(CategorySpent(old(expenses), e.category) + e.amount, LimitOf(limits, e.category))
      ensures warning == Classify(CategorySpent(expenses, e.category), LimitOf(limits, e.category))
      ensures Saved()
      ensures monthYear == old(monthYear) && income == old(income) && limits == old(limits)
      ensures e.amount > 0.0 && old(WellFormed(Doc())) ==> WellFormed(Doc())
    {
      var spent := GetSpentByCategory();
      var spentNow := SpentOrZero(spent, e.category);
      assert spentNow == CategorySpent(expenses, e.category);
      warning := Classify(spentNow + e.amount, LimitOf(limits, e.category));
      CategorySpentAppend(expenses, e, e.category);
      if e.amount > 0.0 {
        AppendKeepsWellFormed(Doc(), e);
      }
      expenses := expenses + [e];
      SaveData();
    }

    /** The limit form: a limit of 0 is accepted, a negative one is not. */
    method SetLimit(rawCategory: string, limit: Number) returns (outcome: Outcome)
      modifies this
      ensures outcome == (if Trim(rawCategory) == [] then MissingCategory
                          else if limit.NaN? || limit.value < 0.0 then BadAmount
                          else Accepted)
      ensures outcome == Accepted ==> limits == old(limits)[Trim(rawCategory) := limit.value] && Saved()
      ensures outcome != Accepted ==> limits == old(limits) && storage == old(storage)
      ensures monthYear == old(monthYear) && income == old(income) && expenses == old(expenses)
      ensures old(WellFormed(Doc())) ==> WellFormed(Doc())
    {
      var category := Trim(rawCategory);
      if category == [] {
        return MissingCategory;
      }
      if limit.NaN? || limit.value < 0.0 {
        return BadAmount;
      }
      limits := limits[category := limit.value];
      SaveData();
      outcome := Accepted;
    }

    /** The reset button: once confirmed, everything, limits included, starts afresh. */
    method ResetData(confirmed: bool, currentMonth: string)
      modifies this
      ensures confirmed ==> Doc() == NewDocument(currentMonth) && Saved()
      ensures !confirmed ==> Doc() == old(Doc()) && storage == old(storage)
    {
      if confirmed {
        var d := NewDocument(currentMonth);
        monthYear, income, expenses, limits := d.monthYear, d.income, d.expenses, d.limits;
        SaveData();
      }
    }

    /** `deleteExpense`: drops every expense carrying `id`. */
    method DeleteExpense(id: string)
      modifies this
      ensures expenses == WithoutId(old(expenses), id)
      ensures monthYear == old(monthYear) && income == old(income) && limits == old(limits)
      ensures Saved()
      ensures old(WellFormed(Doc())) ==> WellFormed(Doc())
    {
      WithoutIdMembers(expenses, id);
      expenses := WithoutId(expenses, id);
      SaveData();
    }

    /**
     * What `updateUI` computes: the three totals, one row per category that
     * has a limit or an expense, and the expenses newest first.
     */
    method Summary() returns (view: View)
      ensures view.totalIncome == income
      ensures view.totalExpenses == Total(expenses)
      ensures view.remaining == income - Total(expenses)
      ensures view.rows.Keys == limits.Keys + CategoriesOf(expenses)
      ensures forall c :: c in view.rows ==>
        view.rows[c] == MakeRow(CategorySpent(expenses, c), LimitOf(limits, c))
      ensures WellFormed(Doc()) ==> forall c :: c in view.rows ==> 0.0 <= view.rows[c].percent <= 100.0
      ensures |view.sorted| == |expenses| && multiset(view.sorted) == multiset(expenses)
      ensures DateDescending(view.sorted)
    {
      var total := Total(expenses);
      var spent := GetSpentByCategory();
      var rows := CategoryRows(limits, spent);
      assert forall c :: c in rows ==> rows[c] == MakeRow(CategorySpent(expenses, c), LimitOf(limits, c));
      if WellFormed(Doc()) {
        forall c | c in rows ensures 0.0 <= rows[c].percent <= 100.0 {
          WellFormedRow(Doc(), c);
        }
      }
      view := View(income, total, income - total, rows, SortByDateDesc(expenses));
    }
  }

  /** Recording an expense of positive amount keeps the invariant. */
  lemma AppendKeepsWellFormed(d: Document, e: Expense)
    requires e.amount > 0.0
    ensures WellFormed(d) ==> WellFormed(d.(expenses := d.expenses + [e]))
  {
  }

  /** One turn of the loop in `getSpentByCategory` keeps its invariant. */
  lemma AccumulateStep(es: seq<Expense>, i: nat, spent: map<string, real>)
    requires i < |es|
    requires spent.Keys == CategoriesOf(es[..i])
    requires forall c :: c in spent ==> spent[c] == CategorySpent(es[..i], c)
    ensures var next := spent[es[i].category := SpentOrZero(spent, es[i].category) + es[i].amount];
      && next.Keys == CategoriesOf(es[..i + 1])
      && forall c :: c in next ==> next[c] == CategorySpent(es[..i + 1], c)
  {
    var done, e := es[..i], es[i];
    assert es[..i + 1] == done + [e];
    CategoriesOfAppend(done, e);
    var next := spent[e.category := SpentOrZero(spent, e.category) + e.amount];
    forall c | c in next ensures next[c] == CategorySpent(done + [e], c) {
      CategorySpentAppend(done, e, c);
    }
  }

  /**
   * `init`: load, then roll over if needed. The clock is read up to three
   * times: `loadMonth` for the default of `loadData` (when storage holds no
   * document), `checkMonth` for the comparison in `checkMonthReset`, and
   * `freshMonth` for the document a rollover creates. Only a rollover writes
   * to storage; at a month boundary that includes the case of an empty entry
   * whose default was dated with the old month.
   */
  method Init(stored: StoredValue, loadMonth: string, checkMonth: string, freshMonth: string)
    returns (b: Budget)
    ensures fresh(b)
    ensures var loaded := LoadDocument(stored, loadMonth);
      && b.Doc() == (if loaded.monthYear == checkMonth then loaded else NewDocument(freshMonth))
      && (loaded.monthYear != checkMonth ==> b.Saved())
      && (loaded.monthYear == checkMonth ==> b.storage == stored)
    ensures loadMonth == checkMonth ==>
      && (stored.Json? && stored.doc.monthYear != checkMonth ==> b.Saved())
      && (!(stored.Json? && stored.doc.monthYear != checkMonth) ==> b.storage == stored)
    ensures !stored.Json? && loadMonth != checkMonth ==> b.Saved() && b.Doc() == NewDocument(freshMonth)
  {
    b := new Budget.Load(stored, loadMonth);
    var _ := b.CheckMonthReset(checkMonth, freshMonth);
  }
}
