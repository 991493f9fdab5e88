/** Overspend detection over the real ledger: the calendar, the paged sum and the decision together. */
module PeriodSpending {
  import opened Common
  import opened Calendar
  import opened Budgets
  import opened Overspend
  import opened Delivery
  import opened Report
  import opened Ledger
  import opened Spending

  const COUNTED: nat := 5_000

  /** The world whose category sums are those SumExpensesByCategory returns over docs. */
  function LedgerWorld(docs: seq<Transaction>, categoryId: (string, string) -> Option<string>, w: World): World {
    w.(actual := (userId: string, name: string, from: Instant, to: Instant) =>
      CategorySum(docs, userId, categoryId(userId, name), from, to))
  }

  predicate IsExpenseOf(t: Transaction, userId: string, category: string, from: Instant, to: Instant) {
    t.userId == userId && t.categoryId == Some(category) && t.kind.Expense? && from <= t.date <= to
  }

  /** The expenses of a user in a category, dated within [from, to]. */
  function Expenses(docs: seq<Transaction>, userId: string, category: string, from: Instant, to: Instant): real {
    if docs == [] then 0.0
    else
      var t := docs[|docs| - 1];
      Expenses(docs[..|docs| - 1], userId, category, from, to)
      + (if IsExpenseOf(t, userId, category, from, to) then t.amount else 0.0)
  }

  /** A query over [period start, now] keeps the start, and drops only the second in progress. */
  lemma PeriodQuery(period: Period, now: Instant)
    ensures var from := CurrentPeriodStart(period, now);
            QuerySecond(from) == from <= QuerySecond(now) <= now < QuerySecond(now) + 1_000_000_000
  {
    hide CurrentPeriodStart;
    StartBracketsNow(period, now);
    WholeDay(CurrentPeriodStart(period, now), now);
  }

  lemma WholeDay(s: Instant, now: Instant)
    requires s == Midnight(DayOf(s)) && s <= now
    ensures QuerySecond(s) == s <= QuerySecond(now) <= now < QuerySecond(now) + 1_000_000_000
  {
    var d := DayOf(s);
    assert s == 1_000_000_000 * (86_400 * d);
    assert s % 1_000_000_000 == 0;
  }

  lemma {:induction false} DirectIsExpenses(docs: seq<Transaction>, userId: string, category: string, from: Instant,
                                            to: Instant)
    requires category != ""
    ensures DirectSum(docs, userId, category, from, to)
        == Expenses(docs, userId, category, QuerySecond(from), QuerySecond(to))
  {
    hide QuerySecond;
    if docs != [] {
      DirectIsExpenses(docs[..|docs| - 1], userId, category, from, to);
    }
  }

  /**
   With at most five thousand matching transactions, a budget reaches the overspent branch exactly
   when its owner's expenses in its category, from the first day of the current period up to the
   current second, exceed its amount.
   */
  lemma OverspentIffExpensesExceed(b: Budget, now: Instant, docs: seq<Transaction>,
                                   categoryId: (string, string) -> Option<string>, w: World)
    requires categoryId(b.userId, b.category).Some? && categoryId(b.userId, b.category).value != ""
    requires var id := categoryId(b.userId, b.category).value;
             |Listing(docs, b.userId, id, CurrentPeriodStart(b.period, now), now)| <= COUNTED
    ensures Overspent(b, now, LedgerWorld(docs, categoryId, w))
       <==> w.lookupOk(b.id)
            && Expenses(docs, b.userId, categoryId(b.userId, b.category).value,
                        CurrentPeriodStart(b.period, now), QuerySecond(now)) > b.amount
  {
    hide CurrentPeriodStart, QuerySecond, Listing, Expenses, FirstTotal, DirectSum;
    var id, from := categoryId(b.userId, b.category).value, CurrentPeriodStart(b.period, now);
    PagedIsDirect(docs, b.userId, id, from, now);
    DirectIsExpenses(docs, b.userId, id, from, now);
    PeriodQuery(b.period, now);
  }

  // ---------- The second in progress ----------

  /** A later end never lowers the sum, and leaves it as it is exactly when nothing lies in between. */
  lemma {:induction false} LaterEndAdds(docs: seq<Transaction>, userId: string, category: string, from: Instant,
                                        end: Instant, later: Instant)
    requires end <= later && forall t :: t in docs ==> Stored(t)
    ensures Expenses(docs, userId, category, from, end) <= Expenses(docs, userId, category, from, later)
    ensures Expenses(docs, userId, category, from, end) == Expenses(docs, userId, category, from, later)
       <==> forall t :: t in docs && IsExpenseOf(t, userId, category, from, later) ==> t.date <= end
  {
    if docs != [] {
      var n := |docs| - 1;
      assert docs[n] in docs && docs == docs[..n] + [docs[n]];
      LaterEndAdds(docs[..n], userId, category, from, end, later);
    }
  }

  /** Dated in the period, but after the last whole second. */
  predicate InProgress(t: Transaction, userId: string, category: string, period: Period, now: Instant) {
    IsExpenseOf(t, userId, category, CurrentPeriodStart(period, now), now) && t.date > QuerySecond(now)
  }

  /**
   What detection and reports sum at now is all the period's expenses up to now exactly when none is dated
   in the second in progress; otherwise it is less.
   */
  lemma AllCountedIffNoneInProgress(docs: seq<Transaction>, userId: string, category: string, period: Period,
                                    now: Instant)
    requires category != "" && forall t :: t in docs ==> Stored(t)
    requires |Listing(docs, userId, category, CurrentPeriodStart(period, now), now)| <= COUNTED
    ensures var counted := CategorySum(docs, userId, Some(category), CurrentPeriodStart(period, now), now);
            var spent := Expenses(docs, userId, category, CurrentPeriodStart(period, now), now);
            && counted <= spent
            && (counted == spent <==> forall t :: t in docs ==> !InProgress(t, userId, category, period, now))
  {
    hide CurrentPeriodStart, QuerySecond, Listing, Expenses, FirstTotal, DirectSum, Stored, IsExpenseOf;
    var from := CurrentPeriodStart(period, now);
    PeriodQuery(period, now);
    PagedIsDirect(docs, userId, category, from, now);
    DirectIsExpenses(docs, userId, category, from, now);
    LaterEndAdds(docs, userId, category, from, QuerySecond(now), now);
  }

  /**
   Within the cap, detection misses a budget that the period's expenses up to now exceed exactly when those
   up to the last whole second do not, so that only expenses of the second in progress put it over.
   */
  lemma MissedIffOverInProgress(b: Budget, now: Instant, docs: seq<Transaction>,
                                categoryId: (string, string) -> Option<string>, w: World)
    requires categoryId(b.userId, b.category).Some? && categoryId(b.userId, b.category).value != ""
    requires w.lookupOk(b.id) && forall t :: t in docs ==> Stored(t)
    requires var id := categoryId(b.userId, b.category).value;
             |Listing(docs, b.userId, id, CurrentPeriodStart(b.period, now), now)| <= COUNTED
    ensures var id, from := categoryId(b.userId, b.category).value, CurrentPeriodStart(b.period, now);
            var counted := Expenses(docs, b.userId, id, from, QuerySecond(now));
            var spent := Expenses(docs, b.userId, id, from, now);
            var detected := Overspent(b, now, LedgerWorld(docs, categoryId, w));
            && (detected ==> spent > b.amount)
            && (spent > b.amount && !detected <==> counted <= b.amount < spent)
            && (spent > b.amount && !detected ==> exists t :: t in docs && InProgress(t, b.userId, id, b.period, now))
  {
    hide CurrentPeriodStart, QuerySecond, Listing, Expenses, Stored, Overspent, IsExpenseOf;
    var id, from := categoryId(b.userId, b.category).value, CurrentPeriodStart(b.period, now);
    PeriodQuery(b.period, now);
    OverspentIffExpensesExceed(b, now, docs, categoryId, w);
    LaterEndAdds(docs, b.userId, id, from, QuerySecond(now), now);
  }

  /** What one delivery missed, a delivery of the same period after that second finds. */
  lemma LaterDeliveryFindsIt(b: Budget, now: Instant, later: Instant, docs: seq<Transaction>,
                             categoryId: (string, string) -> Option<string>, w: World)
    requires categoryId(b.userId, b.category).Some? && categoryId(b.userId, b.category).value != ""
    requires w.lookupOk(b.id) && forall t :: t in docs ==> Stored(t)
    requires now <= QuerySecond(later) && SamePeriod(b.period, now, later)
    requires var id := categoryId(b.userId, b.category).value;
             && |Listing(docs, b.userId, id, CurrentPeriodStart(b.period, later), later)| <= COUNTED
             && Expenses(docs, b.userId, id, CurrentPeriodStart(b.period, now), now) > b.amount
    ensures Overspent(b, later, LedgerWorld(docs, categoryId, w))
  {
    hide CurrentPeriodStart, QuerySecond, Listing, Expenses, Stored, Overspent, SamePeriod, IsExpenseOf;
    var id := categoryId(b.userId, b.category).value;
    EqualStartsIffSamePeriod(b.period, now, later);
    OverspentIffExpensesExceed(b, later, docs, categoryId, w);
    LaterEndAdds(docs, b.userId, id, CurrentPeriodStart(b.period, now), now, QuerySecond(later));
  }

  lemma {:induction false} SelectedNoLonger(docs: seq<Transaction>, userId: string, f: Filter)
    ensures |Selected(docs, userId, f)| <= |docs|
  {
    if docs != [] {
      SelectedNoLonger(docs[..|docs| - 1], userId, f);
    }
  }

  /**
   The failing inputs: at any instant that is no whole second, the first expense of a period, dated at that
   instant and larger than the budget, is in the ledger when its own event is handled, and the handling
   queues nothing and marks nothing.
   */
  lemma OwnDeliveryMissesIt(b: Budget, t: Transaction, now: Instant,
                            categoryId: (string, string) -> Option<string>, w: World)
    requires now % 1_000_000_000 != 0 && t.date == now && t.kind.Expense? && t.userId == b.userId
    requires t.categoryId == categoryId(b.userId, b.category) && t.categoryId.Some? && t.categoryId.value != ""
    requires 0.0 < b.amount < t.amount <= Ledger.MAX_AMOUNT
    ensures Expenses([t], b.userId, t.categoryId.value, CurrentPeriodStart(b.period, now), now) > b.amount
    ensures FiredEvents([b], b.userId, now, LedgerWorld([t], categoryId, w)) == []
    ensures MarkAll([b], b.userId, now, LedgerWorld([t], categoryId, w)) == [b]
  {
    var id, from := t.categoryId.value, CurrentPeriodStart(b.period, now);
    PeriodQuery(b.period, now);
    hide CurrentPeriodStart;
    assert QuerySecond(now) < now;
    assert [t][..0] == [];
    assert Expenses([t], b.userId, id, from, QuerySecond(now)) == 0.0;
    assert Expenses([t], b.userId, id, from, now) == t.amount;
    FewAreListed(t, b.userId, id, from, now);
    hide Listing, Expenses, QuerySecond, FirstTotal;
    OverspentIffExpensesExceed(b, now, [t], categoryId, w);
    NoFiringNoEvents([b], b.userId, now, LedgerWorld([t], categoryId, w));
  }

  lemma FewAreListed(t: Transaction, userId: string, category: string, from: Instant, to: Instant)
    ensures |Listing([t], userId, category, from, to)| <= COUNTED
  {
    hide NewestFirst, Selected;
    SelectedNoLonger([t], userId, QueryOf(category, from, to, 1));
    NewestFirstSorts(Selected([t], userId, QueryOf(category, from, to, 1)));
  }

  // ---------- The report ----------

  /**
   A line of the report over any range names its budget and states its amount, the category's expenses of the
   range's whole seconds, and what is left, within the cap of the paged sum.
   */
  lemma ReportLineIsLedger(b: Budget, from: Instant, to: Instant, docs: seq<Transaction>,
                           categoryId: (string, string) -> Option<string>, w: World)
    requires categoryId(b.userId, b.category).Some? && categoryId(b.userId, b.category).value != ""
    requires |Listing(docs, b.userId, categoryId(b.userId, b.category).value, from, to)| <= COUNTED
    ensures var line := LineOf(b, b.userId, from, to, LedgerWorld(docs, categoryId, w));
            var spent := Expenses(docs, b.userId, categoryId(b.userId, b.category).value, QuerySecond(from),
                                  QuerySecond(to));
            && line.category == b.category && line.period == b.period && line.budgeted == b.amount
            && line.actual == spent && line.remaining == b.amount - spent
  {
    hide QuerySecond, Listing, Expenses, FirstTotal, DirectSum;
    var id := categoryId(b.userId, b.category).value;
    PagedIsDirect(docs, b.userId, id, from, to);
    DirectIsExpenses(docs, b.userId, id, from, to);
  }

  /**
   Detection and report over one ledger.  When the lookups succeed, a delivery at now finds a budget
   overspent exactly when a report over [its period start, until] is negative on its line, for every
   until of the second in progress; the two texts of the range, and so the two paged sums, are the same.
   */
  lemma DetectionAgreesWithReport(budgets: seq<Budget>, userId: string, i: nat, now: Instant, until: Instant,
                                  docs: seq<Transaction>, categoryId: (string, string) -> Option<string>, w: World)
    requires i < |Owned(budgets, userId)| && w.lookupOk(Owned(budgets, userId)[i].id)
    requires QuerySecond(now) == QuerySecond(until)
    ensures var b := Owned(budgets, userId)[i];
            var world := LedgerWorld(docs, categoryId, w);
            var summary := SummaryOf(Owned(budgets, userId), userId, CurrentPeriodStart(b.period, now), until, world);
            Overspent(b, now, world) <==> summary.categories[i].remaining < 0.0
  {
    hide CurrentPeriodStart, QuerySecond;
    OwnedMembers(budgets, userId);
    var b := Owned(budgets, userId)[i];
    assert b in Owned(budgets, userId);
    SameSecondSameSum(docs, userId, categoryId(userId, b.category), CurrentPeriodStart(b.period, now), now, until);
    hide CategorySum;
    OverspentIffReportNegative(budgets, userId, now, LedgerWorld(docs, categoryId, w), i);
  }

  /** Bounds within one second make the same query. */
  lemma SameSecondSameSum(docs: seq<Transaction>, userId: string, category: Option<string>, from: Instant,
                          a: Instant, b: Instant)
    requires QuerySecond(a) == QuerySecond(b)
    ensures CategorySum(docs, userId, category, from, a) == CategorySum(docs, userId, category, from, b)
  {
    hide FirstTotal, NewestFirst, Selected, QuerySecond;
  }

  /** A budget whose category the user does not have is never overspent. */
  lemma UnknownCategoryNeverOverspends(b: Budget, now: Instant, docs: seq<Transaction>,
                                       categoryId: (string, string) -> Option<string>, w: World)
    requires categoryId(b.userId, b.category).None? && b.amount > 0.0
    ensures !Overspent(b, now, LedgerWorld(docs, categoryId, w))
  {
    hide CurrentPeriodStart;
  }

  lemma {:induction false} ExpensesGrow(docs: seq<Transaction>, more: seq<Transaction>, userId: string,
                                        category: string, from: Instant, to: Instant, later: Instant)
    requires forall t :: t in docs + more ==> Stored(t)
    requires to <= later
    ensures Expenses(docs, userId, category, from, to) <= Expenses(docs + more, userId, category, from, later)
    decreases |docs| + |more|
  {
    var all := docs + more;
    if more != [] {
      var n := |more| - 1;
      assert all[..|all| - 1] == docs + more[..n];
      assert all[|all| - 1] in all;
      assert forall t :: t in docs + more[..n] ==> t in all;
      ExpensesGrow(docs, more[..n], userId, category, from, to, later);
    } else if docs != [] {
      assert all == docs;
      var n := |docs| - 1;
      assert docs[n] in all && docs[..n] + [] == docs[..n];
      assert forall t :: t in docs[..n] ==> t in docs;
      ExpensesGrow(docs[..n], [], userId, category, from, to, later);
    }
  }

  /** Once overspent, a budget stays so for the rest of the period while transactions are only added. */
  lemma OverspentPersists(b: Budget, now: Instant, later: Instant, docs: seq<Transaction>, more: seq<Transaction>,
                          categoryId: (string, string) -> Option<string>, w: World)
    requires forall t :: t in docs + more ==> Stored(t)
    requires categoryId(b.userId, b.category).Some? && categoryId(b.userId, b.category).value != ""
    requires now <= later && SamePeriod(b.period, now, later)
    requires var id := categoryId(b.userId, b.category).value;
             && |Listing(docs, b.userId, id, CurrentPeriodStart(b.period, now), now)| <= COUNTED
             && |Listing(docs + more, b.userId, id, CurrentPeriodStart(b.period, later), later)| <= COUNTED
    requires Overspent(b, now, LedgerWorld(docs, categoryId, w))
    ensures Overspent(b, later, LedgerWorld(docs + more, categoryId, w))
  {
    hide CurrentPeriodStart, Overspent, LedgerWorld, Listing, SamePeriod, QuerySecond, Stored;
    EqualStartsIffSamePeriod(b.period, now, later);
    OverspentIffExpensesExceed(b, now, docs, categoryId, w);
    OverspentIffExpensesExceed(b, later, docs + more, categoryId, w);
    QuerySecondMonotone(now, later);
    ExpensesGrow(docs, more, b.userId, categoryId(b.userId, b.category).value, CurrentPeriodStart(b.period, now),
                 QuerySecond(now), QuerySecond(later));
  }

  lemma QuerySecondMonotone(a: Instant, b: Instant)
    requires a <= b
    ensures QuerySecond(a) <= QuerySecond(b)
  {
  }
}
