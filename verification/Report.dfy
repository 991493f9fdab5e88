/** The on-demand budget report, and its agreement with overspend detection. */
module Report {
  import opened Common
  import opened Calendar
  import opened Budgets
  import opened Overspend

  datatype CategorySummary = CategorySummary(category: string, period: Period, budgeted: real, actual: real,
                                             remaining: real)

  datatype ReportSummary = ReportSummary(categories: seq<CategorySummary>, totalBudgeted: real, totalActual: real)

  datatype ReportFailure = ListFailed | LookupFailed(budgetId: string)

  function LineOf(b: Budget, userId: string, from: Instant, to: Instant, w: World): CategorySummary {
    var actual := w.actual(userId, b.category, from, to);
    CategorySummary(b.category, b.period, b.amount, actual, b.amount - actual)
  }

  function Sum(lines: seq<CategorySummary>, pick: CategorySummary -> real): real {
    if lines == [] then 0.0 else Sum(lines[..|lines| - 1], pick) + pick(lines[|lines| - 1])
  }

  lemma SumSnoc(lines: seq<CategorySummary>, line: CategorySummary, pick: CategorySummary -> real)
    ensures Sum(lines + [line], pick) == Sum(lines, pick) + pick(line)
  {
    assert (lines + [line])[..|lines + [line]| - 1] == lines;
  }

  function Budgeted(): CategorySummary -> real { (c: CategorySummary) => c.budgeted }
  function Actual(): CategorySummary -> real { (c: CategorySummary) => c.actual }
  function Remaining(): CategorySummary -> real { (c: CategorySummary) => c.remaining }

  ghost predicate AllFound(budgets: seq<Budget>, w: World) {
    forall i :: 0 <= i < |budgets| ==> w.lookupOk(budgets[i].id)
  }

  /** The failure names a budget whose lookup fails, and every budget listed before it was found. */
  ghost predicate FirstFailure(budgets: seq<Budget>, w: World, failure: ReportFailure) {
    exists i :: 0 <= i < |budgets| && failure == LookupFailed(budgets[i].id)
      && !w.lookupOk(budgets[i].id) && AllFound(budgets[..i], w)
  }

  lemma FailsFirst(budgets: seq<Budget>, i: nat, w: World)
    requires i < |budgets| && !w.lookupOk(budgets[i].id) && AllFound(budgets[..i], w)
    ensures FirstFailure(budgets, w, LookupFailed(budgets[i].id))
  {
  }

  function LinesOf(budgets: seq<Budget>, userId: string, from: Instant, to: Instant,
                   w: World): (r: seq<CategorySummary>)
    ensures |r| == |budgets|
  {
    seq(|budgets|, i requires 0 <= i < |budgets| => LineOf(budgets[i], userId, from, to, w))
  }

  /** One line per budget and the sums of two of their columns. */
  function SummaryOf(budgets: seq<Budget>, userId: string, from: Instant, to: Instant, w: World): ReportSummary {
    var lines := LinesOf(budgets, userId, from, to, w);
    ReportSummary(lines, Sum(lines, Budgeted()), Sum(lines, Actual()))
  }

  lemma NoLinesYet(budgets: seq<Budget>, userId: string, from: Instant, to: Instant, w: World)
    ensures AllFound(budgets[..0], w) && LinesOf(budgets[..0], userId, from, to, w) == []
    ensures Sum([], Budgeted()) == 0.0 && Sum([], Actual()) == 0.0
  {
  }

  lemma OneMoreLine(budgets: seq<Budget>, i: nat, userId: string, from: Instant, to: Instant, w: World)
    requires i < |budgets| && AllFound(budgets[..i], w) && w.lookupOk(budgets[i].id)
    ensures AllFound(budgets[..i + 1], w)
    ensures LinesOf(budgets[..i + 1], userId, from, to, w)
         == LinesOf(budgets[..i], userId, from, to, w) + [LineOf(budgets[i], userId, from, to, w)]
  {
    hide LineOf;
    var before, after := budgets[..i], budgets[..i + 1];
    assert after == before + [budgets[i]];
    forall k | 0 <= k < |after|
      ensures w.lookupOk(after[k].id)
    {
      assert k < i ==> after[k] == before[k];
    }
  }

  class ReportService {
    const repo: BudgetRepository

    constructor (repo: BudgetRepository)
      ensures this.repo == repo
    {
      this.repo := repo;
    }

    /** A pure read: one line per owned budget in order, or the first failure. */
    method Summary(userId: string, from: Instant, to: Instant, w: World)
      returns (r: Result<ReportSummary, ReportFailure>)
      ensures r == Err(ListFailed) <==> !w.listOk
      ensures r.Ok? ==> AllFound(Owned(repo.docs, userId), w)
      ensures w.listOk && r.Err? ==> FirstFailure(Owned(repo.docs, userId), w, r.error)
      ensures r.Ok? ==> r.value == SummaryOf(Owned(repo.docs, userId), userId, from, to, w)
    {
      var listed := repo.ListByUser(userId, w.listOk);
      if listed.Err? {
        return Err(ListFailed);
      }
      var budgets := listed.value;
      NoLinesYet(budgets, userId, from, to, w);
      hide Owned, AllFound, LinesOf, Sum;
      var lines: seq<CategorySummary> := [];
      var totalBudgeted, totalActual := 0.0, 0.0;
      for i := 0 to |budgets|
        invariant AllFound(budgets[..i], w)
        invariant lines == LinesOf(budgets[..i], userId, from, to, w)
        invariant totalBudgeted == Sum(lines, Budgeted()) && totalActual == Sum(lines, Actual())
      {
        var b := budgets[i];
        if !w.lookupOk(b.id) {
          FailsFirst(budgets, i, w);
          return Err(LookupFailed(b.id));
        }
        var actual := w.actual(userId, b.category, from, to);
        var remaining := b.amount - actual;
        var line := CategorySummary(b.category, b.period, b.amount, actual, remaining);
        OneMoreLine(budgets, i, userId, from, to, w);
        SumSnoc(lines, line, Budgeted());
        SumSnoc(lines, line, Actual());
        lines := lines + [line];
        totalBudgeted := totalBudgeted + b.amount;
        totalActual := totalActual + actual;
      }
      assert budgets[..|budgets|] == budgets;
      r := Ok(ReportSummary(lines, totalBudgeted, totalActual));
    }
  }

  lemma {:induction false} ColumnsBalance(lines: seq<CategorySummary>)
    requires forall c :: c in lines ==> c.remaining == c.budgeted - c.actual
    ensures Sum(lines, Budgeted()) - Sum(lines, Actual()) == Sum(lines, Remaining())
  {
    if lines != [] {
      var n := |lines| - 1;
      assert lines[n] in lines;
      ColumnsBalance(lines[..n]);
    }
  }

  /** In every summary the two totals differ by the sum of the remainders, over one line per budget. */
  lemma TotalsBalance(budgets: seq<Budget>, userId: string, from: Instant, to: Instant, w: World)
    ensures var s := SummaryOf(budgets, userId, from, to, w);
            s.totalBudgeted - s.totalActual == Sum(s.categories, Remaining()) && |s.categories| == |budgets|
  {
    ColumnsBalance(LinesOf(budgets, userId, from, to, w));
  }

  /** The amounts of the budgets, and what was spent on them. */
  function AmountSum(budgets: seq<Budget>): real {
    if budgets == [] then 0.0 else AmountSum(budgets[..|budgets| - 1]) + budgets[|budgets| - 1].amount
  }

  function SpentSum(budgets: seq<Budget>, userId: string, from: Instant, to: Instant, w: World): real {
    if budgets == [] then 0.0
    else
      SpentSum(budgets[..|budgets| - 1], userId, from, to, w)
      + w.actual(userId, budgets[|budgets| - 1].category, from, to)
  }

  /** The two totals are those of the budgets and of the ledger's answers. */
  lemma {:induction false} TotalsAreSums(budgets: seq<Budget>, userId: string, from: Instant, to: Instant, w: World)
    ensures SummaryOf(budgets, userId, from, to, w).totalBudgeted == AmountSum(budgets)
    ensures SummaryOf(budgets, userId, from, to, w).totalActual == SpentSum(budgets, userId, from, to, w)
  {
    if budgets != [] {
      var n := |budgets| - 1;
      TotalsAreSums(budgets[..n], userId, from, to, w);
      var lines, line := LinesOf(budgets[..n], userId, from, to, w), LineOf(budgets[n], userId, from, to, w);
      assert LinesOf(budgets, userId, from, to, w) == lines + [line];
      hide LinesOf, Sum;
      SumSnoc(lines, line, Budgeted());
      SumSnoc(lines, line, Actual());
    }
  }

  /**
   When the lookup succeeds, a delivery at now finds a budget overspent exactly when the report
   over [its period start, now] shows a negative remainder on that budget's line.
   */
  lemma OverspentIffReportNegative(docs: seq<Budget>, userId: string, now: Instant, w: World, i: nat)
    requires i < |Owned(docs, userId)| && w.lookupOk(Owned(docs, userId)[i].id)
    ensures var b := Owned(docs, userId)[i];
            var summary := SummaryOf(Owned(docs, userId), userId, CurrentPeriodStart(b.period, now), now, w);
            Overspent(b, now, w) <==> summary.categories[i].remaining < 0.0
  {
    hide CurrentPeriodStart;
    OwnedMembers(docs, userId);
    assert Owned(docs, userId)[i] in Owned(docs, userId);
  }
}
