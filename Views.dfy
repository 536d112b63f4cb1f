/**
 * The computations `updateUI` and the expense form perform on a document
 * before anything is drawn: the limit classification shared by the
 * pre-submit warning and the categories table, the progress percentage, and
 * one table row per category.
 */
module Views {
  import opened Ledger

  /** No colour / orange ("Caution") / red and `over-limit` ("Warning: ... exceed"). */
  datatype Status = Ok | Caution | Exceeded

  /** `limits[c]`, undefined when no limit was set for `c`. */
  function LimitOf(limits: map<string, real>, c: string): (r: Option<real>)
    ensures r.Some? <==> c in limits
    ensures r.Some? ==> r.value == limits[c]
  {
    if c in limits then Some(limits[c]) else None
  }

  /** `spent[c] || 0` on the map `getSpentByCategory` returns. */
  function SpentOrZero(spent: map<string, real>, c: string): real {
    if c in spent then spent[c] else 0.0
  }

  /**
   * The classification of an amount spent against a category's limit: over
   * the limit, above nine tenths of it, or neither; a category without a
   * limit is never flagged.
   */
  function Classify(spent: real, limit: Option<real>): (s: Status)
    ensures s == Exceeded <==> limit.Some? && spent > limit.value
    ensures s == Caution <==> limit.Some? && spent <= limit.value && spent > 0.9 * limit.value
    ensures limit.None? ==> s == Ok
  {
    if limit.None? then Ok
    else if spent > limit.value then Exceeded
    else if spent > 0.9 * limit.value then Caution
    else Ok
  }

  function Rank(s: Status): nat {
    match s
    case Ok => 0
    case Caution => 1
    case Exceeded => 2
  }

  /** Spending more never moves a category to a milder status. */
  lemma ClassifyMonotone(spent: real, more: real, limit: Option<real>)
    requires spent <= more
    ensures Rank(Classify(spent, limit)) <= Rank(Classify(more, limit))
  {
  }

  function Min(a: real, b: real): real {
    if a <= b then a else b
  }

  /**
   * The width of a progress bar, in percent: the share of a positive limit
   * spent, capped at 100; without a positive limit, full if anything was
   * spent and empty otherwise.
   */
  function Percent(spent: real, limit: Option<real>): (p: real)
    ensures p <= 100.0
    ensures spent >= 0.0 ==> p >= 0.0
    ensures (limit.None? || limit.value <= 0.0) ==> p == (if spent > 0.0 then 100.0 else 0.0)
    ensures limit.Some? && limit.value > 0.0 && spent >= limit.value ==> p == 100.0
    ensures limit.Some? && limit.value > 0.0 && spent <= limit.value ==> p * limit.value == spent * 100.0
  {
    if limit.Some? && limit.value > 0.0 then
      var l := limit.value;
      var share := spent / l * 100.0;
      assert share * l == spent * 100.0;
      assert spent >= l ==> share >= 100.0 by {
        if spent >= l {
          assert spent * 100.0 >= l * 100.0;
        }
      }
      assert spent >= 0.0 ==> share >= 0.0;
      Min(share, 100.0)
    else if spent > 0.0 then 100.0
    else 0.0
  }

  /** One row of the categories table. */
  datatype Row = Row(
    spent: real,
    limit: Option<real>,
    remaining: Option<real>,
    percent: real,
    status: Status)

  /**
   * The row `updateUI` draws for a category: the remaining cell is filled
   * exactly when there is a limit, the row is red exactly when that remaining
   * amount is negative, and, for a non-negative limit, it is coloured (orange
   * or red) exactly when its bar is past 90%.
   */
  function MakeRow(spent: real, limit: Option<real>): (row: Row)
    ensures row.spent == spent && row.limit == limit
    ensures row.remaining.Some? <==> limit.Some?
    ensures row.status == Exceeded <==> row.remaining.Some? && row.remaining.value < 0.0
    ensures limit.Some? && limit.value >= 0.0 ==> (row.status != Ok <==> row.percent > 90.0)
  {
    ColouredPastNineTenths(spent, limit);
    Row(
      spent,
      limit,
      if limit.Some? then Some(limit.value - spent) else None,
      Percent(spent, limit),
      Classify(spent, limit))
  }

  lemma ColouredPastNineTenths(spent: real, limit: Option<real>)
    ensures limit.Some? && limit.value >= 0.0 ==>
      (Classify(spent, limit) != Ok <==> Percent(spent, limit) > 90.0)
  {
    if limit.Some? && limit.value > 0.0 && spent < limit.value {
      var l, p := limit.value, Percent(spent, limit);
      var x := p - 90.0;
      assert x * l == spent * 100.0 - 90.0 * l by {
        assert p * l == spent * 100.0;
        Distribute(p, 90.0, l);
      }
      PositiveFactor(x, l);
    }
  }

  lemma Distribute(a: real, b: real, l: real)
    ensures (a - b) * l == a * l - b * l
  {
  }

  lemma PositiveFactor(x: real, l: real)
    requires l > 0.0
    ensures x > 0.0 <==> x * l > 0.0
  {
  }

  /**
   * The categories table: one row for every category that has a limit or
   * appears in `spent`, the map `getSpentByCategory` returns.
   */
  function CategoryRows(limits: map<string, real>, spent: map<string, real>): (rows: map<string, Row>)
    ensures rows.Keys == limits.Keys + spent.Keys
  {
    map c | c in limits.Keys + spent.Keys :: MakeRow(SpentOrZero(spent, c), LimitOf(limits, c))
  }

  /** The figures `updateUI` displays. */
  datatype View = View(
    totalIncome: real,
    totalExpenses: real,
    remaining: real,
    rows: map<string, Row>,
    sorted: seq<Expense>)

  /**
   * In a well-formed document every row's bar lies in [0, 100], its spending
   * lies between 0 and the total, and its remaining amount never exceeds its
   * limit.
   */
  lemma {:induction false} WellFormedRow(d: Document, c: string)
    requires WellFormed(d)
    ensures var row := MakeRow(CategorySpent(d.expenses, c), LimitOf(d.limits, c));
      && 0.0 <= row.percent <= 100.0
      && 0.0 <= row.spent <= Total(d.expenses)
      && (row.remaining.Some? ==> row.remaining.value <= d.limits[c])
  {
    CategorySpentBounds(d.expenses, c);
  }

  /**
   * The pre-submit warning for an expense of `amount` is the status its
   * category has in the table once the expense is recorded.
   */
  lemma {:induction false} WarningPredictsRow(es: seq<Expense>, e: Expense, limits: map<string, real>)
    ensures Classify(CategorySpent(es, e.category) + e.amount, LimitOf(limits, e.category))
         == MakeRow(CategorySpent(es + [e], e.category), LimitOf(limits, e.category)).status
  {
    assert (es + [e])[..|es + [e]| - 1] == es;
  }
}
