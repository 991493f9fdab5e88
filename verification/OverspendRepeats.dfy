/**
 Runs without the conditions of OncePerPeriod: users change cadences and writes of LastNotifiedAt fail.
 A message id is queued twice exactly when a delivery returns to a period that was announced before and
 is not the one the budget's last successful mark names.
 */
module OverspendRepeats {
  import opened Common
  import opened Calendar
  import opened MessageId
  import opened Budgets
  import opened Overspend
  import opened OverspendRuns

  /** A queued event, and whether the write of LastNotifiedAt that followed it succeeded. */
  datatype Entry = Entry(event: OverspentEvent, kept: bool)

  // ---------- The log of a run ----------

  function Noted(events: seq<OverspentEvent>, w: World): (r: seq<Entry>)
    ensures |r| == |events|
  {
    seq(|events|, i requires 0 <= i < |events| => Entry(events[i], w.updateOk(events[i].budgetId)))
  }

  /** What one step adds to the log. */
  function Logged(s: State, step: Step): seq<Entry> {
    if step.Deliver? && step.world.listOk
    then Noted(FiredEvents(s.docs, step.userId, step.now, step.world), step.world)
    else []
  }

  ghost predicate Announced(log: seq<Entry>, id: string, start: Instant) {
    exists i :: 0 <= i < |log| && log[i].event.budgetId == id && log[i].event.periodStart == start
  }

  /** Some announcement of this period was remembered. */
  ghost predicate Remembered(log: seq<Entry>, id: string, start: Instant) {
    exists i :: 0 <= i < |log| && log[i].event.budgetId == id && log[i].event.periodStart == start && log[i].kept
  }

  /** The period start of the budget's last event whose mark was written. */
  function LastKept(log: seq<Entry>, id: string): Option<Instant> {
    if log == [] then None
    else
      var e := log[|log| - 1];
      if e.event.budgetId == id && e.kept then Some(e.event.periodStart) else LastKept(log[..|log| - 1], id)
  }

  /** The period start of the budget's last event. */
  function LastAnnounced(queued: seq<OverspentEvent>, id: string): Option<Instant> {
    if queued == [] then None
    else
      var e := queued[|queued| - 1];
      if e.budgetId == id then Some(e.periodStart) else LastAnnounced(queued[..|queued| - 1], id)
  }

  // ---------- When a delivery repeats ----------

  /** This delivery finds budget d overspent and could queue an event for it. */
  ghost predicate Reaches(s: State, step: Step, d: Budget) {
    && step.Deliver? && step.world.listOk && d in s.docs && d.userId == step.userId
    && Overspent(d, step.now, step.world) && step.world.enqueueOk(d.id)
  }

  /** It does so for a period announced before, while the last mark written is for another. */
  ghost predicate Returns(s: State, log: seq<Entry>, step: Step) {
    exists d :: Reaches(s, step, d)
      && Announced(log, d.id, CurrentPeriodStart(d.period, step.now))
      && LastKept(log, d.id) != Some(CurrentPeriodStart(d.period, step.now))
  }

  /** It does so for a period announced before, while another has been announced since. */
  ghost predicate ComesBack(s: State, step: Step) {
    exists d :: Reaches(s, step, d)
      && (exists e :: e in s.queued && e.budgetId == d.id && e.periodStart == CurrentPeriodStart(d.period, step.now))
      && LastAnnounced(s.queued, d.id) != Some(CurrentPeriodStart(d.period, step.now))
  }

  /** It does so for a period announced before, every time without the mark being written. */
  ghost predicate Forgets(s: State, log: seq<Entry>, step: Step) {
    exists d :: Reaches(s, step, d)
      && Announced(log, d.id, CurrentPeriodStart(d.period, step.now))
      && !Remembered(log, d.id, CurrentPeriodStart(d.period, step.now))
  }

  ghost predicate NeverReturns(s: State, log: seq<Entry>, run: seq<Step>)
    decreases |run|
  {
    run != [] ==> !Returns(s, log, run[0]) && NeverReturns(Next(s, run[0]), log + Logged(s, run[0]), run[1..])
  }

  ghost predicate NeverComesBack(s: State, run: seq<Step>)
    decreases |run|
  {
    run != [] ==> !ComesBack(s, run[0]) && NeverComesBack(Next(s, run[0]), run[1..])
  }

  ghost predicate NeverForgets(s: State, log: seq<Entry>, run: seq<Step>)
    decreases |run|
  {
    run != [] ==> !Forgets(s, log, run[0]) && NeverForgets(Next(s, run[0]), log + Logged(s, run[0]), run[1..])
  }

  ghost predicate AllMarksPersist(run: seq<Step>) {
    forall i :: 0 <= i < |run| ==> MarksPersist(run[i])
  }

  ghost predicate CadencesKept(s: State, run: seq<Step>)
    decreases |run|
  {
    run != [] ==> KeepsPeriod(s, run[0]) && CadencesKept(Next(s, run[0]), run[1..])
  }

  // ---------- The mark is the last one written ----------

  ghost predicate LogOf(log: seq<Entry>, queued: seq<OverspentEvent>) {
    && |log| == |queued|
    && forall i :: 0 <= i < |log| ==> log[i].event == queued[i]
  }

  ghost predicate Tracks(s: State, log: seq<Entry>) {
    && KnownIds(s)
    && LogOf(log, s.queued)
    && forall d :: d in s.docs ==> d.lastNotifiedAt == LastKept(log, d.id)
  }

  /** Events of other budgets do not matter. */
  lemma {:induction false} LastKeptSkips(log: seq<Entry>, more: seq<Entry>, id: string)
    requires forall e :: e in more && e.kept ==> e.event.budgetId != id
    ensures LastKept(log + more, id) == LastKept(log, id)
    decreases |more|
  {
    if more == [] {
      assert log + more == log;
    } else {
      var n := |more| - 1;
      assert (log + more)[..|log + more| - 1] == log + more[..n];
      assert more[n] in more;
      LastKeptSkips(log, more[..n], id);
    }
  }

  /** Among events of distinct budgets, one with a written mark decides. */
  lemma {:induction false} LastKeptIs(log: seq<Entry>, more: seq<Entry>, e: Entry)
    requires e in more && e.kept
    requires forall x :: x in more && x.event.budgetId == e.event.budgetId ==> x == e
    ensures LastKept(log + more, e.event.budgetId) == Some(e.event.periodStart)
    decreases |more|
  {
    var n := |more| - 1;
    assert (log + more)[..|log + more| - 1] == log + more[..n];
    assert more[n] in more;
    if more[n] != e {
      assert e in more[..n];
      LastKeptIs(log, more[..n], e);
    }
  }

  lemma {:induction false} LastKeptIsLogged(log: seq<Entry>, id: string)
    ensures LastKept(log, id).Some? ==> Remembered(log, id, LastKept(log, id).value)
  {
    if log != [] {
      var n := |log| - 1;
      LastKeptIsLogged(log[..n], id);
      if !(log[n].event.budgetId == id && log[n].kept) && LastKept(log, id).Some? {
        var i :| 0 <= i < n && log[..n][i].event.budgetId == id
                 && log[..n][i].event.periodStart == LastKept(log, id).value && log[..n][i].kept;
        assert log[i].kept;
      }
    }
  }

  lemma UnknownIdHasNoMark(s: State, log: seq<Entry>, id: string)
    requires KnownIds(s) && LogOf(log, s.queued) && id !in s.ids
    ensures LastKept(log, id) == None
  {
    hide PlainId, DayOf, Midnight;
    LastKeptIsLogged(log, id);
    assert forall i :: 0 <= i < |log| ==> s.queued[i] in s.queued && log[i].event.budgetId != id;
  }

  /** One delivery and one budget: its mark afterwards is the last one written. */
  lemma DeliveredMark(s: State, log: seq<Entry>, u: string, now: Instant, w: World, d: Budget)
    requires Tracks(s, log) && d in s.docs
    ensures var more := Noted(FiredEvents(s.docs, u, now, w), w);
            (if d.userId == u then Marked(d, now, w) else d).lastNotifiedAt == LastKept(log + more, d.id)
  {
    hide CurrentPeriodStart, Fires, DayOf, Midnight, PlainId, LastKept;
    var fired := FiredEvents(s.docs, u, now, w);
    var more := Noted(fired, w);
    FiredMembers(s.docs, u, now, w);
    forall e | e in more && e.event.budgetId == d.id
      ensures d.userId == u && Fires(d, now, w) && e == Entry(EventOf(d, now, w), w.updateOk(d.id))
    {
      var i :| 0 <= i < |more| && more[i] == e;
      assert fired[i] in fired;
      var x :| x in s.docs && x.userId == u && Fires(x, now, w) && fired[i] == EventOf(x, now, w);
      SameIdSameDoc(s.docs, x, d);
    }
    if d.userId == u && Fires(d, now, w) && w.updateOk(d.id) {
      var e := Entry(EventOf(d, now, w), true);
      var i :| 0 <= i < |fired| && fired[i] == EventOf(d, now, w);
      assert more[i] == e;
      LastKeptIs(log, more, e);
    } else {
      LastKeptSkips(log, more, d.id);
    }
  }

  lemma StepKeepsKnownIds(s: State, step: Step)
    requires KnownIds(s) && Possible(s, step)
    ensures KnownIds(Next(s, step))
  {
    hide CurrentPeriodStart, DayOf, Midnight, Fires, PlainId;
    match step
    case Deliver(u, now, w) =>
      if w.listOk {
        DeliverKeepsIds(s, u, now, w);
      }
    case Create(_, _, _) =>
    case Edit(_, _, _) =>
      assert forall i :: 0 <= i < |s.docs| ==> s.docs[i] in s.docs;
    case Delete(u, id) =>
      WithoutMembers(s.docs, id, u);
  }

  lemma StepKeepsTracks(s: State, log: seq<Entry>, step: Step)
    requires Tracks(s, log) && Possible(s, step)
    ensures Tracks(Next(s, step), log + Logged(s, step))
  {
    hide CurrentPeriodStart, DayOf, Midnight, Fires, PlainId, KnownIds, LastKept, Noted;
    StepKeepsKnownIds(s, step);
    var t, more := Next(s, step), log + Logged(s, step);
    LogGrows(s, log, step);
    assert (step.Deliver? && step.world.listOk) || more == log;
    match step
    case Deliver(u, now, w) =>
      if w.listOk {
        forall d | d in t.docs
          ensures d.lastNotifiedAt == LastKept(more, d.id)
        {
          var i :| 0 <= i < |t.docs| && t.docs[i] == d;
          assert s.docs[i] in s.docs;
          DeliveredMark(s, log, u, now, w, s.docs[i]);
        }
      }
    case Create(u, id, input) =>
      CreatedIdIsUnknown(s, step);
      UnknownIdHasNoMark(s, log, id);
    case Edit(u, id, input) =>
      forall d | d in t.docs
        ensures d.lastNotifiedAt == LastKept(more, d.id)
      {
        var i :| 0 <= i < |t.docs| && t.docs[i] == d;
        assert s.docs[i] in s.docs;
      }
    case Delete(u, id) =>
      WithoutMembers(s.docs, id, u);
  }

  lemma CreatedIdIsUnknown(s: State, step: Step)
    requires step.Create? && Possible(s, step)
    ensures step.id !in s.ids
  {
    hide PlainId;
  }

  lemma LogGrows(s: State, log: seq<Entry>, step: Step)
    requires LogOf(log, s.queued)
    ensures LogOf(log + Logged(s, step), Next(s, step).queued)
    ensures s.queued <= Next(s, step).queued
  {
    hide FiredEvents, MarkAll;
  }

  // ---------- One delivery against the queue ----------

  /** The event of a firing budget is already queued under the same id. */
  ghost predicate Clashes(s: State, step: Step, d: Budget) {
    && Reaches(s, step, d) && Fires(d, step.now, step.world)
    && exists e :: e in s.queued && e.budgetId == d.id && e.periodStart == CurrentPeriodStart(d.period, step.now)
  }

  lemma AnnouncedIsQueued(log: seq<Entry>, queued: seq<OverspentEvent>, id: string, start: Instant)
    requires LogOf(log, queued)
    ensures Announced(log, id, start) <==> exists e :: e in queued && e.budgetId == id && e.periodStart == start
  {
    if Announced(log, id, start) {
      var i :| 0 <= i < |log| && log[i].event.budgetId == id && log[i].event.periodStart == start;
      assert queued[i] in queued;
    }
    if e :| e in queued && e.budgetId == id && e.periodStart == start {
      var i :| 0 <= i < |queued| && queued[i] == e;
      assert log[i].event == e;
    }
  }

  lemma ReturnsIsClash(s: State, log: seq<Entry>, step: Step)
    requires Tracks(s, log)
    ensures Returns(s, log, step) <==> exists d :: Clashes(s, step, d)
  {
    hide CurrentPeriodStart, Overspent, Announced, LastKept, LogOf, KnownIds;
    forall d | Reaches(s, step, d)
      ensures Clashes(s, step, d)
         <==> Announced(log, d.id, CurrentPeriodStart(d.period, step.now))
              && LastKept(log, d.id) != Some(CurrentPeriodStart(d.period, step.now))
    {
      AnnouncedIsQueued(log, s.queued, d.id, CurrentPeriodStart(d.period, step.now));
    }
  }

  lemma PairsAppend(xs: seq<OverspentEvent>, ys: seq<OverspentEvent>)
    requires DistinctPairs(xs) && DistinctBudgets(ys)
    ensures DistinctPairs(xs + ys)
       <==> forall x, y :: x in xs && y in ys ==> x.budgetId != y.budgetId || x.periodStart != y.periodStart
  {
    var all := xs + ys;
    assert forall i :: 0 <= i < |xs| ==> all[i] == xs[i];
    assert forall j :: |xs| <= j < |all| ==> all[j] == ys[j - |xs|];
    if DistinctPairs(all) {
      forall x, y | x in xs && y in ys
        ensures x.budgetId != y.budgetId || x.periodStart != y.periodStart
      {
        var i :| 0 <= i < |xs| && xs[i] == x;
        var j :| 0 <= j < |ys| && ys[j] == y;
        assert all[i] == x && all[|xs| + j] == y;
      }
    } else {
      var i, j :| 0 <= i < j < |all| && all[i].budgetId == all[j].budgetId && all[i].periodStart == all[j].periodStart;
      assert i < |xs| <= j;
      assert all[i] in xs && all[j] in ys;
    }
  }

  lemma DeliveryRepeatsIffClash(s: State, step: Step)
    requires KnownIds(s) && DistinctPairs(s.queued) && step.Deliver? && step.world.listOk
    ensures DistinctPairs(Next(s, step).queued) <==> !exists d :: Clashes(s, step, d)
  {
    hide CurrentPeriodStart, DistinctPairs, DistinctBudgets, PlainId, DayOf, Midnight, MarkAll;
    var fired := FiredEvents(s.docs, step.userId, step.now, step.world);
    FiredDistinct(s.docs, step.userId, step.now, step.world);
    FiredMembers(s.docs, step.userId, step.now, step.world);
    PairsAppend(s.queued, fired);
    hide FiredEvents;
    if d :| Clashes(s, step, d) {
      assert EventOf(d, step.now, step.world) in fired;
    }
    if x, y :| x in s.queued && y in fired && x.budgetId == y.budgetId && x.periodStart == y.periodStart {
      var d :| d in s.docs && d.userId == step.userId && Fires(d, step.now, step.world)
          && y == EventOf(d, step.now, step.world);
      assert Clashes(s, step, d);
    }
  }

  lemma StepRepeatsIffReturns(s: State, log: seq<Entry>, step: Step)
    requires Tracks(s, log) && DistinctPairs(s.queued)
    ensures DistinctPairs(Next(s, step).queued) <==> !Returns(s, log, step)
  {
    hide KnownIds, LogOf, DistinctPairs, Clashes, Returns;
    ReturnsIsClash(s, log, step);
    if step.Deliver? && step.world.listOk {
      DeliveryRepeatsIffClash(s, step);
    } else {
      QuietStep(s, step);
    }
  }

  lemma QuietStep(s: State, step: Step)
    requires !(step.Deliver? && step.world.listOk)
    ensures Next(s, step).queued == s.queued
    ensures forall d :: !Clashes(s, step, d)
  {
  }

  lemma {:induction false} QueueOnlyGrows(s: State, run: seq<Step>)
    ensures s.queued <= Exec(s, run).queued
    decreases |run|
  {
    hide Next;
    if run != [] {
      OneStepGrows(s, run[0]);
      QueueOnlyGrows(Next(s, run[0]), run[1..]);
    }
  }

  lemma OneStepGrows(s: State, step: Step)
    ensures s.queued <= Next(s, step).queued
  {
    hide FiredEvents, MarkAll;
  }

  lemma PrefixPairs(a: seq<OverspentEvent>, b: seq<OverspentEvent>)
    requires a <= b && DistinctPairs(b)
    ensures DistinctPairs(a)
  {
    assert forall i :: 0 <= i < |a| ==> a[i] == b[i];
  }

  // ---------- Every run ----------

  lemma {:induction false} RunRepeatsIffReturns(s: State, log: seq<Entry>, run: seq<Step>)
    requires Tracks(s, log) && DistinctPairs(s.queued) && AllPossible(s, run)
    ensures DistinctPairs(Exec(s, run).queued) <==> NeverReturns(s, log, run)
    ensures KnownIds(Exec(s, run))
    decreases |run|
  {
    hide Tracks, DistinctPairs, Possible, Next, Returns, Logged, KnownIds;
    if run == [] {
      TracksKnows(s, log);
    } else {
      var t, more := Next(s, run[0]), log + Logged(s, run[0]);
      StepRepeatsIffReturns(s, log, run[0]);
      StepKeepsTracks(s, log, run[0]);
      if DistinctPairs(t.queued) {
        RunRepeatsIffReturns(t, more, run[1..]);
      } else {
        RunKeepsKnown(t, more, run[1..]);
        QueueOnlyGrows(t, run[1..]);
        if DistinctPairs(Exec(t, run[1..]).queued) {
          PrefixPairs(t.queued, Exec(t, run[1..]).queued);
        }
      }
    }
  }

  lemma {:induction false} RunKeepsKnown(s: State, log: seq<Entry>, run: seq<Step>)
    requires Tracks(s, log) && AllPossible(s, run)
    ensures KnownIds(Exec(s, run))
    decreases |run|
  {
    hide Tracks, Possible, Next, Logged, KnownIds;
    TracksKnows(s, log);
    if run != [] {
      StepKeepsTracks(s, log, run[0]);
      RunKeepsKnown(Next(s, run[0]), log + Logged(s, run[0]), run[1..]);
    }
  }

  lemma TracksKnows(s: State, log: seq<Entry>)
    requires Tracks(s, log)
    ensures KnownIds(s)
  {
  }

  lemma NothingYet(clock: Instant)
    ensures Tracks(INITIAL.(clock := clock), []) && DistinctPairs(INITIAL.queued)
  {
  }

  /**
   In every run, whatever the edits and the lost writes, the queued message ids are pairwise different
   exactly when no delivery returns to an announced period that the last written mark does not name.
   */
  lemma RepeatsIffReturns(clock: Instant, run: seq<Step>)
    requires AllPossible(INITIAL.(clock := clock), run)
    ensures Distinct(MsgIds(Exec(INITIAL.(clock := clock), run).queued))
        <==> NeverReturns(INITIAL.(clock := clock), [], run)
  {
    hide Tracks, DistinctPairs, KnownIds, Possible, Next, Returns, Distinct;
    NothingYet(clock);
    RunRepeatsIffReturns(INITIAL.(clock := clock), [], run);
    PairsAreIds(Exec(INITIAL.(clock := clock), run));
  }


  // ---------- Runs in which every mark is written ----------

  ghost predicate AllKept(log: seq<Entry>) {
    forall i :: 0 <= i < |log| ==> log[i].kept
  }

  lemma {:induction false} LastKeptIsLastAnnounced(log: seq<Entry>, queued: seq<OverspentEvent>, id: string)
    requires LogOf(log, queued) && AllKept(log)
    ensures LastKept(log, id) == LastAnnounced(queued, id)
  {
    if log != [] {
      LastKeptIsLastAnnounced(log[..|log| - 1], queued[..|queued| - 1], id);
    }
  }

  lemma PersistedMarksAreKept(s: State, step: Step)
    requires MarksPersist(step)
    ensures AllKept(Logged(s, step))
  {
    hide CurrentPeriodStart, Overspent;
    if step.Deliver? && step.world.listOk {
      var fired := FiredEvents(s.docs, step.userId, step.now, step.world);
      FiredMembers(s.docs, step.userId, step.now, step.world);
      forall i | 0 <= i < |fired|
        ensures step.world.updateOk(fired[i].budgetId)
      {
        assert fired[i] in fired;
      }
    }
  }

  lemma ReturnsIsComeback(s: State, log: seq<Entry>, step: Step)
    requires LogOf(log, s.queued) && AllKept(log)
    ensures Returns(s, log, step) <==> ComesBack(s, step)
  {
    hide CurrentPeriodStart, Overspent, Announced, LastKept, LastAnnounced, LogOf, AllKept;
    forall d | Reaches(s, step, d)
      ensures LastKept(log, d.id) == LastAnnounced(s.queued, d.id)
      ensures Announced(log, d.id, CurrentPeriodStart(d.period, step.now))
         <==> exists e :: e in s.queued && e.budgetId == d.id && e.periodStart == CurrentPeriodStart(d.period, step.now)
    {
      LastKeptIsLastAnnounced(log, s.queued, d.id);
      AnnouncedIsQueued(log, s.queued, d.id, CurrentPeriodStart(d.period, step.now));
    }
  }

  lemma {:induction false} PersistedRun(s: State, log: seq<Entry>, run: seq<Step>)
    requires Tracks(s, log) && AllKept(log) && AllPossible(s, run) && AllMarksPersist(run)
    ensures NeverReturns(s, log, run) <==> NeverComesBack(s, run)
    ensures forall d :: d in Exec(s, run).docs ==> d.lastNotifiedAt == LastAnnounced(Exec(s, run).queued, d.id)
    decreases |run|
  {
    hide Next, Possible, MarksPersist, Returns, ComesBack, LastKept, LastAnnounced, LogOf, KnownIds, Logged;
    if run == [] {
      forall d | d in s.docs
        ensures d.lastNotifiedAt == LastAnnounced(s.queued, d.id)
      {
        LastKeptIsLastAnnounced(log, s.queued, d.id);
      }
    } else {
      ReturnsIsComeback(s, log, run[0]);
      StepKeepsTracks(s, log, run[0]);
      PersistedMarksAreKept(s, run[0]);
      hide Tracks;
      PersistedRun(Next(s, run[0]), log + Logged(s, run[0]), run[1..]);
    }
  }

  /**
   When every mark is written, a budget's mark is the last period announced for it, whatever its owner
   does to its cadence.  An id is then queued twice exactly when a delivery comes back to an announced
   period after another one was announced.
   */
  lemma RepeatsIffComesBack(clock: Instant, run: seq<Step>)
    requires AllPossible(INITIAL.(clock := clock), run) && AllMarksPersist(run)
    ensures Distinct(MsgIds(Exec(INITIAL.(clock := clock), run).queued))
        <==> NeverComesBack(INITIAL.(clock := clock), run)
    ensures var t := Exec(INITIAL.(clock := clock), run);
            forall d :: d in t.docs ==> d.lastNotifiedAt == LastAnnounced(t.queued, d.id)
  {
    hide Tracks, Next, Possible, Returns, ComesBack, Distinct, AllMarksPersist, LastAnnounced;
    NothingYet(clock);
    RepeatsIffReturns(clock, run);
    PersistedRun(INITIAL.(clock := clock), [], run);
  }

  // ---------- Runs in which cadences are kept ----------

  /** A budget's events come in the order of their periods, none after the current one. */
  ghost predicate Chronological(s: State) {
    && (forall i, j :: 0 <= i < j < |s.queued| && s.queued[i].budgetId == s.queued[j].budgetId ==>
          s.queued[i].periodStart <= s.queued[j].periodStart)
    && (forall e, d :: e in s.queued && d in s.docs && e.budgetId == d.id ==>
          e.periodStart <= CurrentPeriodStart(d.period, s.clock))
  }

  /** What a delivery adds lies at the current period of its budget, which no earlier event exceeds. */
  lemma FiredIsLatest(s: State, u: string, now: Instant, w: World, e: OverspentEvent, d: Budget)
    requires KnownIds(s) && Chronological(s) && s.clock <= now && d in s.docs && e.budgetId == d.id
    requires e in s.queued || e in FiredEvents(s.docs, u, now, w)
    ensures e.periodStart <= CurrentPeriodStart(d.period, now)
    ensures e !in s.queued ==> e.periodStart == CurrentPeriodStart(d.period, now)
  {
    hide CurrentPeriodStart, Fires, DayOf, Midnight, PlainId;
    StartMonotone(d.period, s.clock, now);
    if e !in s.queued {
      FiredMembers(s.docs, u, now, w);
      var x :| x in s.docs && x.userId == u && Fires(x, now, w) && e == EventOf(x, now, w);
      SameIdSameDoc(s.docs, x, d);
    }
  }

  lemma DeliveryIsChronological(s: State, u: string, now: Instant, w: World)
    requires KnownIds(s) && Chronological(s) && s.clock <= now && w.listOk
    ensures Chronological(Next(s, Deliver(u, now, w)))
  {
    hide CurrentPeriodStart, Fires, DayOf, Midnight, PlainId, KnownIds;
    var t := Next(s, Deliver(u, now, w));
    var fired := FiredEvents(s.docs, u, now, w);
    FiredMembers(s.docs, u, now, w);
    KnownMeansDistinct(s);
    FiredDistinct(s.docs, u, now, w);
    forall i, j | 0 <= i < j < |t.queued| && t.queued[i].budgetId == t.queued[j].budgetId
      ensures t.queued[i].periodStart <= t.queued[j].periodStart
    {
      if j < |s.queued| {
        assert t.queued[i] == s.queued[i] && t.queued[j] == s.queued[j];
      } else {
        var e := fired[j - |s.queued|];
        assert e in fired && t.queued[j] == e;
        assert i < |s.queued|;
        assert t.queued[i] == s.queued[i] && s.queued[i] in s.queued;
        FiredAfterQueued(s, u, now, w, s.queued[i], e);
      }
    }
    forall e, d | e in t.queued && d in t.docs && e.budgetId == d.id
      ensures e.periodStart <= CurrentPeriodStart(d.period, now)
    {
      var k :| 0 <= k < |t.docs| && t.docs[k] == d;
      assert s.docs[k] in s.docs;
      FiredIsLatest(s, u, now, w, e, s.docs[k]);
    }
  }

  lemma KnownMeansDistinct(s: State)
    requires KnownIds(s)
    ensures DistinctIds(s.docs)
  {
    hide PlainId, DayOf, Midnight;
  }

  lemma FiredAfterQueued(s: State, u: string, now: Instant, w: World, q: OverspentEvent, e: OverspentEvent)
    requires KnownIds(s) && Chronological(s) && s.clock <= now
    requires q in s.queued && e in FiredEvents(s.docs, u, now, w) && q.budgetId == e.budgetId
    ensures q.periodStart <= e.periodStart
  {
    hide CurrentPeriodStart, Fires, DayOf, Midnight, PlainId, KnownIds, Chronological;
    FiredMembers(s.docs, u, now, w);
    var x :| x in s.docs && x.userId == u && Fires(x, now, w) && e == EventOf(x, now, w);
    FiredIsLatest(s, u, now, w, q, x);
  }

  lemma StepIsChronological(s: State, step: Step)
    requires KnownIds(s) && Chronological(s) && Possible(s, step) && KeepsPeriod(s, step)
    ensures Chronological(Next(s, step))
  {
    hide CurrentPeriodStart, Fires, DayOf, Midnight, PlainId;
    match step
    case Deliver(u, now, w) =>
      if w.listOk {
        DeliveryIsChronological(s, u, now, w);
      } else {
        forall d | d in s.docs
          ensures CurrentPeriodStart(d.period, s.clock) <= CurrentPeriodStart(d.period, now)
        {
          StartMonotone(d.period, s.clock, now);
        }
      }
    case Create(_, _, _) =>
    case Edit(u, id, input) =>
      assert forall i :: 0 <= i < |s.docs| ==> s.docs[i] in s.docs;
    case Delete(u, id) =>
      WithoutMembers(s.docs, id, u);
  }

  /** Events in order, none past start: the last written mark is start exactly when some mark for it was written. */
  lemma {:induction false} LastKeptIsRemembered(log: seq<Entry>, id: string, start: Instant)
    requires forall i, j :: 0 <= i < j < |log| && log[i].event.budgetId == id == log[j].event.budgetId ==>
               log[i].event.periodStart <= log[j].event.periodStart
    requires forall i :: 0 <= i < |log| && log[i].event.budgetId == id ==> log[i].event.periodStart <= start
    ensures LastKept(log, id) == Some(start) <==> Remembered(log, id, start)
  {
    LastKeptIsLogged(log, id);
    if log != [] {
      var n := |log| - 1;
      LastKeptIsRemembered(log[..n], id, start);
      if i :| 0 <= i < n && log[i].event.budgetId == id && log[i].event.periodStart == start && log[i].kept {
        assert log[..n][i] == log[i];
      }
    }
  }

  lemma ReturnsIsForgetting(s: State, log: seq<Entry>, step: Step)
    requires Tracks(s, log) && Chronological(s) && Possible(s, step)
    ensures Returns(s, log, step) <==> Forgets(s, log, step)
  {
    hide CurrentPeriodStart, Overspent, Announced, Remembered, LastKept, KnownIds;
    forall d | Reaches(s, step, d)
      ensures LastKept(log, d.id) == Some(CurrentPeriodStart(d.period, step.now))
         <==> Remembered(log, d.id, CurrentPeriodStart(d.period, step.now))
    {
      StartMonotone(d.period, s.clock, step.now);
      assert forall i :: 0 <= i < |log| ==> log[i].event in s.queued;
      LastKeptIsRemembered(log, d.id, CurrentPeriodStart(d.period, step.now));
    }
  }

  lemma {:induction false} SteadyCadenceRun(s: State, log: seq<Entry>, run: seq<Step>)
    requires Tracks(s, log) && Chronological(s) && AllPossible(s, run) && CadencesKept(s, run)
    ensures NeverReturns(s, log, run) <==> NeverForgets(s, log, run)
    decreases |run|
  {
    hide Tracks, Chronological, Next, Possible, KeepsPeriod, Returns, Forgets, Logged, KnownIds;
    if run != [] {
      ReturnsIsForgetting(s, log, run[0]);
      StepKeepsTracks(s, log, run[0]);
      TracksKnows(s, log);
      StepIsChronological(s, run[0]);
      SteadyCadenceRun(Next(s, run[0]), log + Logged(s, run[0]), run[1..]);
    }
  }

  /**
   When cadences are kept, whatever writes fail, an id is queued twice exactly when a delivery finds a
   budget overspent in an announced period for which no mark was ever written.
   */
  lemma RepeatsIffForgotten(clock: Instant, run: seq<Step>)
    requires AllPossible(INITIAL.(clock := clock), run) && CadencesKept(INITIAL.(clock := clock), run)
    ensures Distinct(MsgIds(Exec(INITIAL.(clock := clock), run).queued))
        <==> NeverForgets(INITIAL.(clock := clock), [], run)
  {
    hide Tracks, Next, Possible, Returns, Forgets, Distinct, KeepsPeriod;
    NothingYet(clock);
    RepeatsIffReturns(clock, run);
    SteadyCadenceRun(INITIAL.(clock := clock), [], run);
  }

  // ---------- At least once, and exactly once ----------

  ghost predicate Queued(q: seq<OverspentEvent>, id: string, start: Instant) {
    exists e :: e in q && e.budgetId == id && e.periodStart == start
  }

  /** One event of the queue, and no other, announces this period. */
  ghost predicate QueuedOnce(q: seq<OverspentEvent>, id: string, start: Instant) {
    exists i :: 0 <= i < |q| && q[i].budgetId == id && q[i].periodStart == start
      && forall j :: 0 <= j < |q| && q[j].budgetId == id && q[j].periodStart == start ==> j == i
  }

  /** A delivery that reaches a budget leaves its current period announced: now, or by the event its mark remembers. */
  lemma ReachedIsQueued(s: State, log: seq<Entry>, step: Step, d: Budget)
    requires Tracks(s, log) && Reaches(s, step, d)
    ensures Queued(Next(s, step).queued, d.id, CurrentPeriodStart(d.period, step.now))
  {
    hide CurrentPeriodStart, Overspent, KnownIds, MarkAll, LastKept;
    var start := CurrentPeriodStart(d.period, step.now);
    FiredMembers(s.docs, step.userId, step.now, step.world);
    hide FiredEvents;
    if Fires(d, step.now, step.world) {
      assert EventOf(d, step.now, step.world) in Next(s, step).queued;
    } else {
      LastKeptIsLogged(log, d.id);
      var i :| 0 <= i < |log| && log[i].event.budgetId == d.id && log[i].event.periodStart == start && log[i].kept;
      assert s.queued[i] in Next(s, step).queued;
    }
  }

  /** Whatever a delivery of the run reached is in q. */
  ghost predicate AllReachedQueued(s: State, run: seq<Step>, q: seq<OverspentEvent>)
    decreases |run|
  {
    run != [] ==>
      && (forall d :: Reaches(s, run[0], d) ==> Queued(q, d.id, CurrentPeriodStart(d.period, run[0].now)))
      && AllReachedQueued(Next(s, run[0]), run[1..], q)
  }

  ghost predicate AllReachedOnce(s: State, run: seq<Step>, q: seq<OverspentEvent>)
    decreases |run|
  {
    run != [] ==>
      && (forall d :: Reaches(s, run[0], d) ==> QueuedOnce(q, d.id, CurrentPeriodStart(d.period, run[0].now)))
      && AllReachedOnce(Next(s, run[0]), run[1..], q)
  }

  lemma StillQueued(p: seq<OverspentEvent>, q: seq<OverspentEvent>, id: string, start: Instant)
    requires p <= q && Queued(p, id, start)
    ensures Queued(q, id, start)
  {
    var e :| e in p && e.budgetId == id && e.periodStart == start;
    assert e in q;
  }

  lemma {:induction false} RunQueuesAllReached(s: State, log: seq<Entry>, run: seq<Step>)
    requires Tracks(s, log) && AllPossible(s, run)
    ensures AllReachedQueued(s, run, Exec(s, run).queued)
    decreases |run|
  {
    hide Tracks, Possible, Next, Reaches, Logged, Queued, CurrentPeriodStart;
    if run != [] {
      var t, q := Next(s, run[0]), Exec(s, run).queued;
      StepKeepsTracks(s, log, run[0]);
      RunQueuesAllReached(t, log + Logged(s, run[0]), run[1..]);
      QueueOnlyGrows(t, run[1..]);
      ReachesDelivers(s, run[0]);
      forall d | Reaches(s, run[0], d)
        ensures Queued(q, d.id, CurrentPeriodStart(d.period, run[0].now))
      {
        ReachedIsQueued(s, log, run[0], d);
        StillQueued(t.queued, q, d.id, CurrentPeriodStart(d.period, run[0].now));
      }
    }
  }

  lemma ReachesDelivers(s: State, step: Step)
    ensures forall d :: Reaches(s, step, d) ==> step.Deliver?
  {
  }

  /**
   In every run, whatever the edits and the lost writes: every budget that a delivery found overspent, with
   its listing, lookup and enqueue working, has an event for its period of that time.
   */
  lemma AnnouncedAtLeastOnce(clock: Instant, run: seq<Step>)
    requires AllPossible(INITIAL.(clock := clock), run)
    ensures AllReachedQueued(INITIAL.(clock := clock), run, Exec(INITIAL.(clock := clock), run).queued)
  {
    hide Tracks, Possible, Next, AllReachedQueued;
    NothingYet(clock);
    RunQueuesAllReached(INITIAL.(clock := clock), [], run);
  }

  lemma QueuedPairsOnce(q: seq<OverspentEvent>, id: string, start: Instant)
    requires DistinctPairs(q) && Queued(q, id, start)
    ensures QueuedOnce(q, id, start)
  {
    var e :| e in q && e.budgetId == id && e.periodStart == start;
    var i :| 0 <= i < |q| && q[i] == e;
  }

  lemma {:induction false} ReachedOnce(s: State, run: seq<Step>, q: seq<OverspentEvent>)
    requires DistinctPairs(q) && AllReachedQueued(s, run, q)
    ensures AllReachedOnce(s, run, q)
    decreases |run|
  {
    hide Next, Reaches, Queued, QueuedOnce, DistinctPairs, CurrentPeriodStart;
    if run != [] {
      ReachesDelivers(s, run[0]);
      forall d | Reaches(s, run[0], d)
        ensures QueuedOnce(q, d.id, CurrentPeriodStart(d.period, run[0].now))
      {
        QueuedPairsOnce(q, d.id, CurrentPeriodStart(d.period, run[0].now));
      }
      ReachedOnce(Next(s, run[0]), run[1..], q);
    }
  }

  lemma {:induction false} SteadyIsPossible(s: State, run: seq<Step>)
    requires Steady(s, run)
    ensures AllPossible(s, run)
    decreases |run|
  {
    hide Possible, KeepsPeriod, MarksPersist, Next;
    if run != [] {
      SteadyIsPossible(Next(s, run[0]), run[1..]);
    }
  }

  /** In steady runs, exactly one: no reached period goes unannounced and none is announced twice. */
  lemma AnnouncedExactlyOnce(clock: Instant, run: seq<Step>)
    requires Steady(INITIAL.(clock := clock), run)
    ensures AllReachedOnce(INITIAL.(clock := clock), run, Exec(INITIAL.(clock := clock), run).queued)
  {
    hide Next, Steady, Possible, AllReachedQueued, AllReachedOnce, MarkIsGreatest;
    SteadyIsPossible(INITIAL.(clock := clock), run);
    AnnouncedAtLeastOnce(clock, run);
    RunKeepsInv(INITIAL.(clock := clock), run);
    ReachedOnce(INITIAL.(clock := clock), run, Exec(INITIAL.(clock := clock), run).queued);
  }

  // ---------- Two deliveries, and three ----------

  /**
   A cadence switched away and back within one period: the announced period is announced again exactly
   when the other cadence was announced, and remembered, in between.
   */
  lemma SwitchBackRepeatsIff(b: Budget, t1: Instant, w1: World, q: Period, t2: Instant, w2: World, t3: Instant,
                             w3: World)
    requires Fires(b, t1, w1) && w1.updateOk(b.id)
    requires SamePeriod(b.period, t1, t3) && Overspent(b, t3, w3) && w3.enqueueOk(b.id)
    ensures var c := Marked(b, t1, w1).(period := q);
            var d := Marked(c, t2, w2).(period := b.period);
            Fires(d, t3, w3) <==> Fires(c, t2, w2) && w2.updateOk(b.id)
  {
    hide CurrentPeriodStart, SamePeriod;
    EqualStartsIffSamePeriod(b.period, t1, t3);
  }

  /**
   Two deliveries in one period, the first of which announced the budget: the second announces
   it again exactly when the write of LastNotifiedAt failed in between.
   */
  lemma RepeatsIffMarkLost(b: Budget, t1: Instant, w1: World, t2: Instant, w2: World)
    requires SamePeriod(b.period, t1, t2) && Fires(b, t1, w1)
    requires Overspent(b, t2, w2) && w2.enqueueOk(b.id)
    ensures Fires(Marked(b, t1, w1), t2, w2) <==> !w1.updateOk(b.id)
  {
    hide CurrentPeriodStart, SamePeriod;
    EqualStartsIffSamePeriod(b.period, t1, t2);
  }

  function Certain(): World {
    World((_, _, _, _) => 2.0, true, _ => true, _ => true, _ => true)
  }

  /** Weekly, then monthly, then weekly again within one week. */
  function CadenceRun(): seq<Step> {
    [ Create("u", "b", BudgetInput("food", 1.0, Weekly)), Deliver("u", 0, Certain()),
      Edit("u", "b", BudgetInput("food", 1.0, Monthly)), Deliver("u", 0, Certain()),
      Edit("u", "b", BudgetInput("food", 1.0, Weekly)), Deliver("u", 0, Certain()) ]
  }

  lemma EpochStarts()
    ensures CurrentPeriodStart(Weekly, 0) == Midnight(-3)
    ensures CurrentPeriodStart(Monthly, 0) == Midnight(0)
    ensures Midnight(-3) != Midnight(0)
  {
    YearOfUnique(0, 1970);
    StartIsFirstDay(Weekly, 0);
    StartIsFirstDay(Monthly, 0);
    MonthNumbers(1970, 1);
  }

  lemma OneBudgetDelivery(s: State, b: Budget)
    requires s.docs == [b] && b.userId == "u" && b.amount == 1.0
        && b.lastNotifiedAt != Some(CurrentPeriodStart(b.period, 0))
    ensures var start := CurrentPeriodStart(b.period, 0);
            Next(s, Deliver("u", 0, Certain()))
            == s.(docs := [b.(lastNotifiedAt := Some(start))], queued := s.queued + [EventOf(b, 0, Certain())],
                clock := 0)
  {
    hide CurrentPeriodStart;
    assert [b] == [] + [b];
    FiredSnoc([], b, "u", 0, Certain());
    assert FiredEvents([], "u", 0, Certain()) == [];
    assert Fired(b, 0, Certain()) == [EventOf(b, 0, Certain())];
    assert MarkAll([b], "u", 0, Certain()) == [Marked(b, 0, Certain())];
  }

  /** The budget and the queue after each step of CadenceRun. */
  function CadenceStates(): (r: seq<State>)
    ensures |r| == 7
  {
    var week, month := CurrentPeriodStart(Weekly, 0), CurrentPeriodStart(Monthly, 0);
    var b := Budget("b", "u", "food", 1.0, Weekly, None);
    var c := b.(period := Monthly, lastNotifiedAt := Some(week));
    var d := b.(lastNotifiedAt := Some(month));
    var e1, e2, e3 := EventOf(b, 0, Certain()), EventOf(c, 0, Certain()), EventOf(d, 0, Certain());
    var s := INITIAL.(ids := {"b"});
    [ INITIAL,
      s.(docs := [b]),
      s.(docs := [b.(lastNotifiedAt := Some(week))], queued := [e1]),
      s.(docs := [c], queued := [e1]),
      s.(docs := [c.(lastNotifiedAt := Some(month))], queued := [e1, e2]),
      s.(docs := [d], queued := [e1, e2]),
      s.(docs := [d.(lastNotifiedAt := Some(week))], queued := [e1, e2, e3]) ]
  }

  lemma CadenceSteps(k: nat)
    requires k < 6
    ensures Next(CadenceStates()[k], CadenceRun()[k]) == CadenceStates()[k + 1]
    ensures Possible(CadenceStates()[k], CadenceRun()[k])
  {
    hide CurrentPeriodStart, Midnight, MarkAll, FiredEvents, EventOf;
    EpochStarts();
    var s := CadenceStates()[k];
    if k % 2 == 1 {
      OneBudgetDelivery(s, s.docs[0]);
    } else if k > 0 {
      assert Edited(s.docs, "u", "b", CadenceRun()[k].input) == CadenceStates()[k + 1].docs;
    }
  }

  lemma {:induction false} ExecChain(states: seq<State>, run: seq<Step>, k: nat)
    requires k <= |run| && |states| == |run| + 1
    requires forall i :: 0 <= i < |run| ==> Next(states[i], run[i]) == states[i + 1] && Possible(states[i], run[i])
    ensures Exec(states[k], run[k..]) == states[|run|]
    ensures AllPossible(states[k], run[k..])
    decreases |run| - k
  {
    hide Next, Possible;
    if k < |run| {
      assert run[k..][0] == run[k] && run[k..][1..] == run[k + 1..];
      ExecChain(states, run, k + 1);
    }
  }

  /** Without KeepsPeriod the promise fails: the exact-match mark forgets the earlier week. */
  lemma CadenceEditsCanRepeat()
    ensures AllPossible(INITIAL, CadenceRun())
    ensures forall step :: step in CadenceRun() ==> MarksPersist(step)
    ensures !Distinct(MsgIds(Exec(INITIAL, CadenceRun()).queued))
  {
    hide CurrentPeriodStart, Next, Possible, MsgId;
    forall k | 0 <= k < 6
      ensures Next(CadenceStates()[k], CadenceRun()[k]) == CadenceStates()[k + 1]
          && Possible(CadenceStates()[k], CadenceRun()[k])
    {
      CadenceSteps(k);
    }
    assert CadenceRun()[0..] == CadenceRun();
    ExecChain(CadenceStates(), CadenceRun(), 0);
    var ids := MsgIds(CadenceStates()[6].queued);
    assert ids[0] == ids[2];
  }
}
