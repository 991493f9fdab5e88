/** Whole runs of budget-service: deliveries interleaved with the users' own edits. */
module OverspendRuns {
  import opened Common
  import opened Calendar
  import opened MessageId
  import opened Budgets
  import opened Overspend

  /** ids holds every budget id handed out so far; clock is the time of the last delivery. */
  datatype State = State(docs: seq<Budget>, queued: seq<OverspentEvent>, ids: set<string>, clock: Instant)

  datatype Step =
    | Deliver(userId: string, now: Instant, world: World)
    | Create(userId: string, id: string, input: BudgetInput)
    | Edit(userId: string, id: string, input: BudgetInput)
    | Delete(userId: string, id: string)

  /** Each case is the outcome the corresponding method promises; an edit whose write fails is no step. */
  function Next(s: State, step: Step): State {
    match step
    case Deliver(u, now, w) =>
      if !w.listOk then s.(clock := now)
      else s.(docs := MarkAll(s.docs, u, now, w), queued := s.queued + FiredEvents(s.docs, u, now, w), clock := now)
    case Create(u, id, input) =>
      s.(docs := s.docs + (if Complaint(input).None?
                           then [Budget(id, u, input.category, input.amount, input.period, None)]
                           else []),
         ids := s.ids + {id})
    case Edit(u, id, input) => if Complaint(input).None? then s.(docs := Edited(s.docs, u, id, input)) else s
    case Delete(u, id) => s.(docs := Without(s.docs, id, u))
  }

  function Exec(s: State, run: seq<Step>): State
    decreases |run|
  {
    if run == [] then s else Exec(Next(s, run[0]), run[1..])
  }

  /** The driver never repeats an id and the clock never runs backwards. */
  ghost predicate Possible(s: State, step: Step) {
    match step
    case Deliver(_, now, _) => s.clock <= now
    case Create(_, id, _) => id !in s.ids && PlainId(id)
    case _ => true
  }

  /** An edit leaves the budget on the cadence it has. */
  ghost predicate KeepsPeriod(s: State, step: Step) {
    step.Edit? ==> forall d :: d in s.docs && Is(d, step.id, step.userId) ==> d.period == step.input.period
  }

  /** Whenever an event was queued, the mark that remembers it was written. */
  ghost predicate MarksPersist(step: Step) {
    step.Deliver? ==> forall id :: step.world.enqueueOk(id) ==> step.world.updateOk(id)
  }

  ghost predicate Steady(s: State, run: seq<Step>)
    decreases |run|
  {
    run != [] ==>
      && Possible(s, run[0]) && KeepsPeriod(s, run[0]) && MarksPersist(run[0])
      && Steady(Next(s, run[0]), run[1..])
  }

  ghost predicate AllPossible(s: State, run: seq<Step>)
    decreases |run|
  {
    run != [] ==> Possible(s, run[0]) && AllPossible(Next(s, run[0]), run[1..])
  }

  function MsgIdOf(e: OverspentEvent): string {
    MsgId(e.budgetId, e.periodStart)
  }

  function MsgIds(events: seq<OverspentEvent>): (r: seq<string>)
    ensures |r| == |events|
  {
    seq(|events|, i requires 0 <= i < |events| => MsgIdOf(events[i]))
  }

  // ---------- The invariant ----------

  ghost predicate DistinctPairs(events: seq<OverspentEvent>) {
    forall i, j :: 0 <= i < j < |events| ==>
      events[i].budgetId != events[j].budgetId || events[i].periodStart != events[j].periodStart
  }

  ghost predicate KnownIds(s: State) {
    && DistinctIds(s.docs)
    && (forall d :: d in s.docs ==> d.id in s.ids)
    && (forall e :: e in s.queued ==> e.budgetId in s.ids && e.periodStart == Midnight(DayOf(e.periodStart)))
    && (forall id :: id in s.ids ==> PlainId(id))
  }

  /** The mark is the greatest start announced so far, and no later than the current period. */
  ghost predicate MarkIsGreatest(d: Budget, s: State) {
    && (forall e :: e in s.queued && e.budgetId == d.id ==>
          d.lastNotifiedAt.Some? && e.periodStart <= d.lastNotifiedAt.value)
    && (d.lastNotifiedAt.Some? ==> d.lastNotifiedAt.value <= CurrentPeriodStart(d.period, s.clock))
  }

  ghost predicate Inv(s: State) {
    && KnownIds(s)
    && DistinctPairs(s.queued)
    && forall d :: d in s.docs ==> MarkIsGreatest(d, s)
  }

  // ---------- One delivery ----------

  /** The queued events are those of the user's firing budgets. */
  lemma {:induction false} FiredMembers(docs: seq<Budget>, u: string, now: Instant, w: World)
    ensures forall e :: e in FiredEvents(docs, u, now, w) ==>
              exists d :: d in docs && d.userId == u && Fires(d, now, w) && e == EventOf(d, now, w)
    ensures forall d :: d in docs && d.userId == u && Fires(d, now, w) ==>
        EventOf(d, now, w) in FiredEvents(docs, u, now, w)
  {
    hide CurrentPeriodStart, Fires;
    if docs != [] {
      var rest, d := docs[..|docs| - 1], docs[|docs| - 1];
      assert docs == rest + [d];
      FiredMembers(rest, u, now, w);
      FiredSnoc(rest, d, u, now, w);
    }
  }

  ghost predicate DistinctBudgets(q: seq<OverspentEvent>) {
    forall i, j :: 0 <= i < j < |q| ==> q[i].budgetId != q[j].budgetId
  }

  /** One event per budget. */
  lemma {:induction false} FiredDistinct(docs: seq<Budget>, u: string, now: Instant, w: World)
    requires DistinctIds(docs)
    ensures DistinctBudgets(FiredEvents(docs, u, now, w))
  {
    hide CurrentPeriodStart, Fires;
    if docs != [] {
      var rest, d := docs[..|docs| - 1], docs[|docs| - 1];
      assert docs == rest + [d];
      FiredDistinct(rest, u, now, w);
      FiredSnoc(rest, d, u, now, w);
      FiredMembers(rest, u, now, w);
      forall e | e in FiredEvents(rest, u, now, w)
        ensures e.budgetId != d.id
      {
        var x :| x in rest && x.userId == u && Fires(x, now, w) && e == EventOf(x, now, w);
      }
    }
  }

  /** A firing budget's mark is strictly older than the period it is announced for. */
  lemma FiringIsNew(s: State, d: Budget, now: Instant, w: World)
    requires MarkIsGreatest(d, s) && s.clock <= now && Fires(d, now, w)
    ensures d.lastNotifiedAt.Some? ==> d.lastNotifiedAt.value < CurrentPeriodStart(d.period, now)
    ensures forall e :: e in s.queued && e.budgetId == d.id ==> e.periodStart < CurrentPeriodStart(d.period, now)
  {
    hide CurrentPeriodStart;
    StartMonotone(d.period, s.clock, now);
  }

  lemma DeliverKeepsPairs(s: State, u: string, now: Instant, w: World)
    requires Inv(s) && s.clock <= now
    ensures DistinctPairs(s.queued + FiredEvents(s.docs, u, now, w))
  {
    hide CurrentPeriodStart, Fires, MarkIsGreatest;
    var fired := FiredEvents(s.docs, u, now, w);
    FiredMembers(s.docs, u, now, w);
    FiredDistinct(s.docs, u, now, w);
    forall x, y | x in s.queued && y in fired
      ensures x.budgetId != y.budgetId || x.periodStart != y.periodStart
    {
      var d :| d in s.docs && d.userId == u && Fires(d, now, w) && y == EventOf(d, now, w);
      FiringIsNew(s, d, now, w);
    }
    var all := s.queued + fired;
    forall i, j | 0 <= i < j < |all|
      ensures all[i].budgetId != all[j].budgetId || all[i].periodStart != all[j].periodStart
    {
      if i < |s.queued| <= j {
        assert all[i] in s.queued && all[j] in fired;
      } else if |s.queued| <= i {
        assert all[i] == fired[i - |s.queued|] && all[j] == fired[j - |s.queued|];
      } else {
        assert all[i] == s.queued[i] && all[j] == s.queued[j];
      }
    }
  }

  lemma DeliverKeepsIds(s: State, u: string, now: Instant, w: World)
    requires KnownIds(s)
    ensures KnownIds(s.(docs := MarkAll(s.docs, u, now, w), queued := s.queued + FiredEvents(s.docs, u, now, w),
                  clock := now))
  {
    hide CurrentPeriodStart, Fires, MarkIsGreatest, DayOf, Midnight, PlainId;
    var fired := FiredEvents(s.docs, u, now, w);
    FiredMembers(s.docs, u, now, w);
    forall e | e in fired
      ensures e.budgetId in s.ids && e.periodStart == Midnight(DayOf(e.periodStart))
    {
      var d :| d in s.docs && d.userId == u && Fires(d, now, w) && e == EventOf(d, now, w);
      StartBracketsNow(d.period, now);
      BoundaryIsMidnight(d.period, CurrentPeriodStart(d.period, now));
    }
    var docs := MarkAll(s.docs, u, now, w);
    forall i | 0 <= i < |docs|
      ensures docs[i].id == s.docs[i].id && docs[i].id in s.ids
    {
      assert s.docs[i] in s.docs;
    }
  }

  lemma BoundaryIsMidnight(p: Period, t: Instant)
    requires IsBoundary(p, t)
    ensures t == Midnight(DayOf(t))
  {
    hide DayOf, Midnight, OpensPeriod;
  }

  lemma DeliverKeepsMark(s: State, u: string, now: Instant, w: World, d: Budget)
    requires Inv(s) && s.clock <= now && d in s.docs
    requires forall id :: w.enqueueOk(id) ==> w.updateOk(id)
    ensures var t := s.(docs := MarkAll(s.docs, u, now, w), queued := s.queued + FiredEvents(s.docs, u, now, w),
                  clock := now);
            MarkIsGreatest(if d.userId == u then Marked(d, now, w) else d, t)
  {
    hide CurrentPeriodStart, DayOf, Midnight, Overspent;
    var fired := FiredEvents(s.docs, u, now, w);
    FiredMembers(s.docs, u, now, w);
    StartMonotone(d.period, s.clock, now);
    if Fires(d, now, w) {
      FiringIsNew(s, d, now, w);
    }
    forall e | e in fired && e.budgetId == d.id
      ensures d.userId == u && Fires(d, now, w) && e.periodStart == CurrentPeriodStart(d.period, now)
    {
      var x :| x in s.docs && x.userId == u && Fires(x, now, w) && e == EventOf(x, now, w);
      SameIdSameDoc(s.docs, x, d);
    }
  }

  lemma SameIdSameDoc(docs: seq<Budget>, x: Budget, y: Budget)
    requires DistinctIds(docs) && x in docs && y in docs && x.id == y.id
    ensures x == y
  {
  }

  // ---------- Every step, every run ----------

  lemma StepKeepsInv(s: State, step: Step)
    requires Inv(s) && Possible(s, step) && KeepsPeriod(s, step) && MarksPersist(step)
    ensures Inv(Next(s, step))
  {
    hide CurrentPeriodStart, DayOf, Midnight, Fires, PlainId, MarkIsGreatest;
    var t := Next(s, step);
    match step
    case Deliver(u, now, w) =>
      if w.listOk {
        DeliverKeepsPairs(s, u, now, w);
        DeliverKeepsIds(s, u, now, w);
        forall d | d in t.docs
          ensures MarkIsGreatest(d, t)
        {
          var i :| 0 <= i < |t.docs| && t.docs[i] == d;
          assert s.docs[i] in s.docs;
          DeliverKeepsMark(s, u, now, w, s.docs[i]);
        }
      } else {
        forall d | d in t.docs
          ensures MarkIsGreatest(d, t)
        {
          LaterClockKeepsMark(s, d, now);
        }
      }
    case Create(u, id, input) =>
      forall d | d in t.docs
        ensures MarkIsGreatest(d, t)
      {
        if d !in s.docs {
          NewBudgetIsUnannounced(d, t);
        } else {
          MarkReadsQueueAndClock(d, d, s, t);
        }
      }
    case Edit(u, id, input) =>
      forall d | d in t.docs
        ensures MarkIsGreatest(d, t) && d.id in s.ids
      {
        var i :| 0 <= i < |t.docs| && t.docs[i] == d;
        assert s.docs[i] in s.docs;
        MarkReadsQueueAndClock(s.docs[i], d, s, t);
      }
    case Delete(u, id) =>
      WithoutMembers(s.docs, id, u);
      forall d | d in t.docs
        ensures MarkIsGreatest(d, t)
      {
        MarkReadsQueueAndClock(d, d, s, t);
      }
  }

  lemma LaterClockKeepsMark(s: State, d: Budget, now: Instant)
    requires MarkIsGreatest(d, s) && s.clock <= now
    ensures MarkIsGreatest(d, s.(clock := now))
  {
    hide CurrentPeriodStart;
    StartMonotone(d.period, s.clock, now);
  }

  lemma NewBudgetIsUnannounced(d: Budget, t: State)
    requires d.lastNotifiedAt.None? && forall e :: e in t.queued ==> e.budgetId != d.id
    ensures MarkIsGreatest(d, t)
  {
    hide CurrentPeriodStart;
  }

  lemma MarkReadsQueueAndClock(d: Budget, e: Budget, s: State, t: State)
    requires MarkIsGreatest(d, s) && s.queued == t.queued && s.clock == t.clock
    requires d.id == e.id && d.period == e.period && d.lastNotifiedAt == e.lastNotifiedAt
    ensures MarkIsGreatest(e, t)
  {
    hide CurrentPeriodStart;
  }

  lemma {:induction false} RunKeepsInv(s: State, run: seq<Step>)
    requires Inv(s) && Steady(s, run)
    ensures Inv(Exec(s, run))
    decreases |run|
  {
    hide Inv, Possible, KeepsPeriod, MarksPersist, Next;
    if run != [] {
      StepKeepsInv(s, run[0]);
      RunKeepsInv(Next(s, run[0]), run[1..]);
    }
  }

  const INITIAL: State := State([], [], {}, 0)

  /** In every steady run the queued message ids are pairwise different texts. */
  lemma OncePerPeriod(clock: Instant, run: seq<Step>)
    requires Steady(INITIAL.(clock := clock), run)
    ensures Distinct(MsgIds(Exec(INITIAL.(clock := clock), run).queued))
  {
    hide Next, Possible, KeepsPeriod, MarksPersist, MarkIsGreatest;
    RunKeepsInv(INITIAL.(clock := clock), run);
    InvMeansDistinctIds(Exec(INITIAL.(clock := clock), run));
  }

  lemma InvMeansDistinctIds(s: State)
    requires Inv(s)
    ensures Distinct(MsgIds(s.queued))
  {
    hide MarkIsGreatest, KnownIds, DistinctPairs;
    PairsAreIds(s);
  }

  /** Message ids repeat exactly when a budget and a period start do. */
  lemma PairsAreIds(s: State)
    requires KnownIds(s)
    ensures DistinctPairs(s.queued) <==> Distinct(MsgIds(s.queued))
  {
    hide MsgId, DayOf, Midnight, PlainId;
    var q := s.queued;
    if DistinctPairs(q) {
      forall i, j | 0 <= i < j < |q|
        ensures MsgIds(q)[i] != MsgIds(q)[j]
      {
        assert q[i] in q && q[j] in q;
        if MsgIdOf(q[i]) == MsgIdOf(q[j]) {
          MsgIdInjective(q[i].budgetId, q[i].periodStart, q[j].budgetId, q[j].periodStart);
        }
      }
    } else {
      var i, j :| 0 <= i < j < |q| && q[i].budgetId == q[j].budgetId && q[i].periodStart == q[j].periodStart;
      assert MsgIds(q)[i] == MsgIds(q)[j];
    }
  }
}
