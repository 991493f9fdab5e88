/**
 From the ledger to the announcement: expense-service stores transactions and queues their events, its
 relays publish them, budget-service consumes the stream in order, and its own outbox and relays carry
 the overspent events on.  Every fault of the parts is a step here too.
 */
module EndToEnd {
  import opened Common
  import opened Calendar
  import opened MessageId
  import opened EventBus
  import opened Ledger
  import opened Overspend
  import opened Spending
  import opened PeriodSpending
  import T = Transactions
  import TR = TransactionRuns
  import RM = RelayMachine
  import OR = OverspendRuns
  import Consumer
  import P = Pipeline

  /** upstream holds expense-service's outbox and stream; docs and history are its ledger. */
  datatype State = State(
    docs: seq<Transaction>,
    history: seq<T.Birth>,
    upstream: RM.State<T.TransactionCreated>,
    budget: P.State
  )

  datatype Step =
    | Ledger(ledger: TR.Step)
    | Relay(relay: RM.Step<T.TransactionCreated>)
    | Arrive
    | Budget(budget: P.Step, categoryId: (string, string) -> Option<string>)

  ghost function LedgerOf(s: State): TR.State {
    TR.State(s.docs, s.upstream.rows, s.history)
  }

  ghost predicate Valid(s: State) {
    RM.Valid(s.upstream) && RM.Valid(s.budget.relay)
  }

  /** The sums a handling gets are those over the ledger, for the categories the user has at the time. */
  ghost predicate ReadsLedger(w: World, docs: seq<Transaction>, categoryId: (string, string) -> Option<string>) {
    forall userId, name, from, to ::
      w.actual(userId, name, from, to) == CategorySum(docs, userId, categoryId(userId, name), from, to)
  }

  /** The consumer sees the stream's messages in order; only relays mark rows. */
  ghost predicate Enabled(s: State, step: Step)
    requires Valid(s)
  {
    match step
    case Ledger(l) => !l.Publish?
    case Relay(r) => !r.Enqueue? && RM.Enabled(s.upstream, r)
    case Arrive => |s.budget.inbox| < |s.upstream.stream|
    case Budget(b, categoryId) =>
      !b.Arrive? && P.Enabled(s.budget, b) && (b.Attempt? ==> ReadsLedger(b.world, s.docs, categoryId))
  }

  ghost function Next(s: State, step: Step): State
    requires Valid(s) && Enabled(s, step)
  {
    match step
    case Ledger(l) =>
      var t := TR.Apply(LedgerOf(s), l);
      s.(docs := t.docs, history := t.history, upstream := s.upstream.(rows := t.rows))
    case Relay(r) => s.(upstream := RM.Next(s.upstream, r))
    case Arrive =>
      s.(budget := P.Next(s.budget, P.Arrive(P.Created(s.upstream.stream[|s.budget.inbox|].payload.userId))))
    case Budget(b, _) => s.(budget := P.Next(s.budget, b))
  }

  /** ObjectIDs are fresh, republishing is timely on both streams, and budget-service's runs are steady. */
  ghost predicate Steady(s: State, step: Step)
    requires Valid(s) && Enabled(s, step)
  {
    match step
    case Ledger(_) => FreshIds(Next(s, step).history)
    case Relay(r) => RM.InWindow(s.upstream, r)
    case Arrive => true
    case Budget(b, _) => P.Steady(s.budget, b)
  }

  ghost predicate FreshIds(history: seq<T.Birth>) {
    Distinct(TR.Ids(history)) && forall i :: 0 <= i < |history| ==> history[i].transaction.id != ""
  }

  lemma NextKeepsValid(s: State, step: Step)
    requires Valid(s) && Enabled(s, step)
    ensures Valid(Next(s, step))
  {
    hide RM.Next, RM.Enabled, P.Next, P.Enabled, TR.Edits, TR.BirthsOf;
    match step
    case Ledger(_) =>
    case Relay(r) => RM.StepKeepsValid(s.upstream, r);
    case Arrive =>
      assert P.Enabled(s.budget, P.Arrive(P.Created(s.upstream.stream[|s.budget.inbox|].payload.userId))) by {
        ArriveEnabled(s.budget, s.upstream.stream[|s.budget.inbox|].payload.userId);
      }
      P.NextKeepsValid(s.budget, P.Arrive(P.Created(s.upstream.stream[|s.budget.inbox|].payload.userId)));
    case Budget(b, _) => P.NextKeepsValid(s.budget, b);
  }

  lemma ArriveEnabled(b: P.State, userId: string)
    requires RM.Valid(b.relay)
    ensures P.Enabled(b, P.Arrive(P.Created(userId))) && P.Steady(b, P.Arrive(P.Created(userId)))
    ensures P.Next(b, P.Arrive(P.Created(userId)))
         == b.(inbox := b.inbox + [P.Created(userId)], tracks := b.tracks + [Consumer.Track(0, false)])
  {
  }

  ghost predicate Runs(s: State, run: seq<Step>)
    requires Valid(s)
    decreases |run|
  {
    run != [] ==>
      && Enabled(s, run[0]) && Steady(s, run[0])
      && (NextKeepsValid(s, run[0]); Runs(Next(s, run[0]), run[1..]))
  }

  ghost function Exec(s: State, run: seq<Step>): State
    requires Valid(s) && Runs(s, run)
    decreases |run|
  {
    if run == [] then s else (NextKeepsValid(s, run[0]); Exec(Next(s, run[0]), run[1..]))
  }

  // ---------- The upstream half ----------

  ghost predicate UpstreamInv(s: State) {
    && TR.Mirror(LedgerOf(s))
    && FreshIds(s.history)
    && RM.Safe(s.upstream)
    && RM.UniqueIds(s.upstream.stream)
  }

  lemma AnnouncementsAreFresh(births: seq<T.Birth>)
    ensures forall i :: 0 <= i < |T.Announcements(births)| ==> T.Announcements(births)[i].publishedAt.None?
  {
    hide T.Announcements;
    TR.AnnouncementsUnmarked(births);
    var rows := T.Announcements(births);
    assert forall i :: 0 <= i < |rows| ==> TR.Unmarked(rows)[i].publishedAt.None?;
  }

  lemma LedgerKeepsUpstream(s: State, l: TR.Step)
    requires Valid(s) && UpstreamInv(s) && !l.Publish? && FreshIds(Next(s, Ledger(l)).history)
    ensures UpstreamInv(Next(s, Ledger(l)))
  {
    hide TR.Mirror, TR.Edits, TR.BirthsOf, FreshIds, RM.UniqueIds, RM.Safe, T.Announcements;
    TR.StepKeepsMirror(LedgerOf(s), l);
    AnnouncementsAreFresh(TR.BirthsOf(l));
    RM.MoreRowsKeepSafe(s.upstream, T.Announcements(TR.BirthsOf(l)));
  }

  /** A relay only marks rows, so the rows still mirror the ledger. */
  lemma RelayKeepsMirror(s: State, r: RM.Step<T.TransactionCreated>)
    requires RM.Valid(s.upstream) && TR.Mirror(LedgerOf(s)) && !r.Enqueue? && RM.Enabled(s.upstream, r)
    ensures TR.Mirror(LedgerOf(s.(upstream := RM.Next(s.upstream, r))))
  {
    hide T.Announcements, TR.AllStored, TR.BornEarlier;
    RM.StepExtends(s.upstream, r);
    var before, after := s.upstream.rows, RM.Next(s.upstream, r).rows;
    assert |after| == |before|;
    forall k | 0 <= k < |after|
      ensures TR.Unmarked(after)[k] == TR.Unmarked(before)[k]
    {
      assert RM.MessageOf(after[k], 0) == RM.MessageOf(before[k], 0);
    }
    assert TR.Unmarked(after) == TR.Unmarked(before);
  }

  lemma RelayKeepsUpstream(s: State, r: RM.Step<T.TransactionCreated>)
    requires Valid(s) && UpstreamInv(s) && !r.Enqueue? && RM.Enabled(s.upstream, r) && RM.InWindow(s.upstream, r)
    ensures UpstreamInv(s.(upstream := RM.Next(s.upstream, r)))
    ensures s.upstream.stream <= RM.Next(s.upstream, r).stream
  {
    RM.StepExtends(s.upstream, r);
    hide TR.Mirror, FreshIds, RM.UniqueIds, RM.Safe, RM.InWindow, RM.Next, RM.Enabled, RM.Valid;
    RelayKeepsMirror(s, r);
    RM.StepKeepsSafe(s.upstream, r);
    RM.StepUniqueIff(s.upstream, r);
  }

  // ---------- Where messages come from ----------

  /** The message announces this insert. */
  predicate Announces(m: Message<T.TransactionCreated>, b: T.Birth) {
    && b.announced
    && m.msgId == b.transaction.id
    && m.payload.transactionId == b.transaction.id
    && m.payload.userId == b.transaction.userId
  }

  lemma {:induction false} AnnouncementsComeFromBirths(births: seq<T.Birth>)
    ensures forall r :: r in T.Announcements(births) ==>
      exists b :: b in births && b.announced && r == T.EventRow(b.transaction)
  {
    hide T.EventRow;
    if births != [] {
      var n := |births| - 1;
      AnnouncementsComeFromBirths(births[..n]);
      assert births[n] in births;
      assert forall b :: b in births[..n] ==> b in births;
    }
  }

  /** Every stored message announces an insert of the ledger. */
  lemma MessageAnnounces(s: State, i: nat) returns (b: T.Birth)
    requires UpstreamInv(s) && i < |s.upstream.stream|
    ensures b in s.history && Announces(s.upstream.stream[i], b)
  {
    hide FreshIds, RM.UniqueIds, T.Announcements, T.EventRow, TR.AllStored, TR.BornEarlier;
    var m := s.upstream.stream[i];
    assert RM.CameFrom(m, s.upstream.rows);
    var k :| 0 <= k < |s.upstream.rows| && m == RM.MessageOf(s.upstream.rows[k], m.at);
    AnnouncementsComeFromBirths(s.history);
    assert TR.Unmarked(s.upstream.rows)[k] == T.Announcements(s.history)[k];
    assert T.Announcements(s.history)[k] in T.Announcements(s.history);
    b :| b in s.history && b.announced && T.Announcements(s.history)[k] == T.EventRow(b.transaction);
    EventRowNames(b.transaction);
  }

  lemma EventRowNames(t: Transaction)
    ensures var r := T.EventRow(t);
            r.msgId == t.id && r.payload.transactionId == t.id && r.payload.userId == t.userId && r.publishedAt.None?
  {
    hide Rfc3339;
  }

  // ---------- The downstream half ----------

  /** Entry i of the inbox is message i of the stream. */
  ghost predicate Consumed(inbox: seq<P.Created>, stream: seq<Message<T.TransactionCreated>>) {
    && |inbox| <= |stream|
    && forall i :: 0 <= i < |inbox| ==> inbox[i] == P.Created(stream[i].payload.userId)
  }

  /** Every queued announcement concerns a user whose transaction arrived. */
  ghost predicate Prompted(b: P.State) {
    forall e :: e in b.budgets.queued ==> P.Created(e.userId) in b.inbox
  }

  ghost predicate DownstreamInv(s: State) {
    && P.Inv(s.budget)
    && Consumed(s.budget.inbox, s.upstream.stream)
    && |s.budget.tracks| == |s.budget.inbox|
    && Consumer.Bounded(s.budget.tracks)
    && Prompted(s.budget)
  }

  lemma LongerStreamConsumed(inbox: seq<P.Created>, a: seq<Message<T.TransactionCreated>>,
                             b: seq<Message<T.TransactionCreated>>)
    requires Consumed(inbox, a) && a <= b
    ensures Consumed(inbox, b)
  {
    assert forall i :: 0 <= i < |inbox| ==> b[i] == a[i];
  }

  lemma ArriveKeepsDownstream(s: State)
    requires Valid(s) && DownstreamInv(s) && Enabled(s, Arrive)
    ensures DownstreamInv(Next(s, Arrive))
  {
    hide P.Inv, P.Next, P.Enabled, P.Steady, RM.Valid;
    var userId := s.upstream.stream[|s.budget.inbox|].payload.userId;
    ArriveEnabled(s.budget, userId);
    P.StepKeepsInv(s.budget, P.Arrive(P.Created(userId)));
  }

  /** A step of the pipeline leaves the inbox, keeps attempts bounded and queues events of the attempted user only. */
  lemma BudgetStepAdds(b: P.State, step: P.Step)
    requires RM.Valid(b.relay) && !step.Arrive? && P.Enabled(b, step) && |b.tracks| == |b.inbox|
        && Consumer.Bounded(b.tracks)
    ensures var t := P.Next(b, step);
            && t.inbox == b.inbox && |t.tracks| == |b.tracks| && Consumer.Bounded(t.tracks)
            && (forall e :: e in t.budgets.queued ==> e in b.budgets.queued || P.Created(e.userId) in b.inbox)
  {
    match step
    case Attempt(i, now, w, _) =>
      if b.inbox[i].Created? {
        QueuedByDelivery(b.budgets, b.inbox[i].userId, now, w);
      }
    case UserStep(_) =>
    case RelayStep(_) =>
  }

  lemma QueuedByDelivery(o: OR.State, userId: string, now: Instant, w: World)
    ensures forall e :: e in OR.Next(o, OR.Deliver(userId, now, w)).queued ==> e in o.queued || e.userId == userId
  {
    hide Fires, CurrentPeriodStart, MarkAll;
    OR.FiredMembers(o.docs, userId, now, w);
    hide FiredEvents;
  }

  lemma BudgetKeepsDownstream(s: State, step: P.Step)
    requires Valid(s) && DownstreamInv(s) && !step.Arrive? && P.Enabled(s.budget, step) && P.Steady(s.budget, step)
    ensures DownstreamInv(s.(budget := P.Next(s.budget, step)))
  {
    hide P.Inv, P.Next, P.Enabled, P.Steady, RM.Valid, Consumed, Consumer.Bounded;
    BudgetStepAdds(s.budget, step);
    P.StepKeepsInv(s.budget, step);
  }

  // ---------- Every run ----------

  ghost predicate Inv(s: State) {
    UpstreamInv(s) && DownstreamInv(s)
  }

  lemma StepKeepsInv(s: State, step: Step)
    requires Valid(s) && Inv(s) && Enabled(s, step) && Steady(s, step)
    ensures Inv(Next(s, step))
  {
    hide UpstreamInv, Consumed, Prompted, P.Inv, RM.Valid, P.Enabled, P.Steady, P.Next, RM.Next, RM.Enabled;
    hide RM.InWindow;
    hide TR.Apply, FreshIds, Consumer.Bounded;
    match step
    case Ledger(l) =>
      LedgerKeepsUpstream(s, l);
    case Relay(r) =>
      RelayKeepsUpstream(s, r);
      LongerStreamConsumed(s.budget.inbox, s.upstream.stream, RM.Next(s.upstream, r).stream);
    case Arrive =>
      ArriveKeepsDownstream(s);
      UpstreamReadsUpstream(s, Next(s, step));
    case Budget(b, _) =>
      BudgetKeepsDownstream(s, b);
      UpstreamReadsUpstream(s, Next(s, step));
  }

  lemma UpstreamReadsUpstream(s: State, t: State)
    requires UpstreamInv(s) && t == s.(budget := t.budget)
    ensures UpstreamInv(t)
  {
    hide TR.Mirror, FreshIds, RM.Safe, RM.UniqueIds;
  }

  lemma {:induction false} RunKeepsInv(s: State, run: seq<Step>)
    requires Valid(s) && Inv(s) && Runs(s, run)
    ensures Inv(Exec(s, run))
    decreases |run|
  {
    hide Valid, Inv, Enabled, Steady, Next;
    if run != [] {
      StepKeepsInv(s, run[0]);
      NextKeepsValid(s, run[0]);
      RunKeepsInv(Next(s, run[0]), run[1..]);
    }
  }

  ghost function Initial(clock: Instant, relays: nat): State {
    State([], [], RM.State([], [], seq(relays, _ => RM.IDLE), clock), P.Initial(clock, relays))
  }

  lemma InitialInv(clock: Instant, relays: nat)
    ensures Valid(Initial(clock, relays)) && Inv(Initial(clock, relays))
  {
    P.InitialInv(clock, relays);
    hide P.Inv;
    TR.InitialMirrors();
  }

  // ---------- Announcements are true ----------

  /**
   Queued by this handling for a budget stored then: the category's sum over the ledger of the same state,
   from the start of the current period up to now, and more than was budgeted.
   */
  ghost predicate TrueWhenQueued(s: State, step: Step, e: OverspentEvent) {
    && step.Budget? && step.budget.Attempt?
    && e.periodStart == CurrentPeriodStart(e.period, step.budget.now)
    && e.actual == CategorySum(s.docs, e.userId, step.categoryId(e.userId, e.category), e.periodStart, step.budget.now)
    && e.actual > e.budgeted
    && exists d :: d in s.budget.budgets.docs && d.id == e.budgetId && d.userId == e.userId && d.amount == e.budgeted
                   && d.category == e.category && d.period == e.period
  }

  /** Every event is true when it is queued, step by step. */
  ghost predicate AllTrueWhenQueued(s: State, run: seq<Step>)
    requires Valid(s) && Runs(s, run)
    decreases |run|
  {
    run != [] ==>
      var t := Next(s, run[0]);
      && s.budget.budgets.queued <= t.budget.budgets.queued
      && (forall k :: |s.budget.budgets.queued| <= k < |t.budget.budgets.queued| ==>
            TrueWhenQueued(s, run[0], t.budget.budgets.queued[k]))
      && (NextKeepsValid(s, run[0]); AllTrueWhenQueued(t, run[1..]))
  }

  lemma FiredIsTrue(s: State, step: Step, userId: string, e: OverspentEvent)
    requires step.Budget? && step.budget.Attempt? && ReadsLedger(step.budget.world, s.docs, step.categoryId)
    requires e in FiredEvents(s.budget.budgets.docs, userId, step.budget.now, step.budget.world)
    ensures TrueWhenQueued(s, step, e)
  {
    hide CurrentPeriodStart, CategorySum;
    var now, w := step.budget.now, step.budget.world;
    OR.FiredMembers(s.budget.budgets.docs, userId, now, w);
    hide FiredEvents;
    var d :| d in s.budget.budgets.docs && d.userId == userId && Fires(d, now, w) && e == EventOf(d, now, w);
    assert w.actual(d.userId, d.category, e.periodStart, now)
        == CategorySum(s.docs, d.userId, step.categoryId(d.userId, d.category), e.periodStart, now);
  }

  /** Only an attempt on a readable payload queues events, those of one delivery. */
  lemma BudgetQueue(b: P.State, step: P.Step)
    requires RM.Valid(b.relay) && P.Enabled(b, step)
    ensures step.Attempt? ==> step.message < |b.inbox|
    ensures var t := P.Next(b, step);
            t.budgets.queued == b.budgets.queued
            || (step.Attempt? && b.inbox[step.message].Created?
                && t.budgets.queued == b.budgets.queued
                   + FiredEvents(b.budgets.docs, b.inbox[step.message].userId, step.now, step.world))
  {
    hide FiredEvents, MarkAll;
  }

  lemma StepQueuesTrue(s: State, step: Step)
    requires Valid(s) && Enabled(s, step)
    ensures var t := Next(s, step);
            && s.budget.budgets.queued <= t.budget.budgets.queued
            && (forall k :: |s.budget.budgets.queued| <= k < |t.budget.budgets.queued| ==>
                  TrueWhenQueued(s, step, t.budget.budgets.queued[k]))
  {
    hide P.Next, P.Enabled, RM.Next, RM.Enabled, RM.Valid, TR.Apply, TrueWhenQueued, FiredEvents, ReadsLedger;
    match step
    case Ledger(_) =>
    case Relay(_) =>
    case Arrive =>
      ArriveEnabled(s.budget, s.upstream.stream[|s.budget.inbox|].payload.userId);
    case Budget(b, _) =>
      BudgetQueue(s.budget, b);
      var t := Next(s, step);
      forall k | |s.budget.budgets.queued| <= k < |t.budget.budgets.queued|
        ensures TrueWhenQueued(s, step, t.budget.budgets.queued[k])
      {
        FiredIsTrue(s, step, s.budget.inbox[b.message].userId, t.budget.budgets.queued[k]);
      }
  }

  lemma {:induction false} RunQueuesTrue(s: State, run: seq<Step>)
    requires Valid(s) && Runs(s, run)
    ensures AllTrueWhenQueued(s, run)
    decreases |run|
  {
    hide Valid, Enabled, Steady, Next, TrueWhenQueued;
    if run != [] {
      StepQueuesTrue(s, run[0]);
      NextKeepsValid(s, run[0]);
      RunQueuesTrue(Next(s, run[0]), run[1..]);
    }
  }

  /** Within the cap of the paged sum: the owner's expenses up to the last whole second exceed the budget. */
  lemma TrueMeansExceeded(s: State, step: Step, e: OverspentEvent, id: string)
    requires TrueWhenQueued(s, step, e) && step.categoryId(e.userId, e.category) == Some(id) && id != ""
    requires |Listing(s.docs, e.userId, id, e.periodStart, step.budget.now)| <= COUNTED
    ensures e.actual == Expenses(s.docs, e.userId, id, e.periodStart, QuerySecond(step.budget.now)) > e.budgeted
  {
    hide CurrentPeriodStart, QuerySecond, Listing, Expenses, FirstTotal, DirectSum;
    PagedIsDirect(s.docs, e.userId, id, e.periodStart, step.budget.now);
    DirectIsExpenses(s.docs, e.userId, id, e.periodStart, step.budget.now);
    PeriodQuery(e.period, step.budget.now);
  }

  // ---------- What the whole promises ----------

  /** Inbox entry i is the message of an insert, and names the inserting user. */
  ghost predicate EntryAnnounces(s: State, i: nat)
    requires i < |s.budget.inbox| <= |s.upstream.stream|
  {
    exists b :: b in s.history && Announces(s.upstream.stream[i], b)
        && s.budget.inbox[i] == P.Created(b.transaction.userId)
  }

  /** No transaction is consumed twice: two inbox entries announce two inserts. */
  ghost predicate OncePerTransaction(s: State) {
    && |s.budget.inbox| <= |s.upstream.stream|
    && (forall i :: 0 <= i < |s.budget.inbox| ==> EntryAnnounces(s, i))
    && (forall i, j :: 0 <= i < j < |s.budget.inbox| ==>
          s.upstream.stream[i].payload.transactionId != s.upstream.stream[j].payload.transactionId)
  }

  /** Every announced overspending concerns a user with a stored transaction. */
  ghost predicate OnlyAfterTransactions(s: State) {
    forall e :: e in s.budget.budgets.queued ==>
      exists b :: b in s.history && b.announced && b.transaction.userId == e.userId
  }

  lemma InvMeansOncePerTransaction(s: State)
    requires Inv(s)
    ensures OncePerTransaction(s)
  {
    hide P.Inv, Consumer.Bounded, Prompted, TR.Mirror, RM.Safe;
    forall i | 0 <= i < |s.budget.inbox|
      ensures EntryAnnounces(s, i)
      ensures s.upstream.stream[i].msgId == s.upstream.stream[i].payload.transactionId != ""
    {
      var b := MessageAnnounces(s, i);
      var k :| 0 <= k < |s.history| && s.history[k] == b;
    }
    var stream := s.upstream.stream;
    assert |s.budget.inbox| <= |stream|;
    forall i, j | 0 <= i < j < |s.budget.inbox|
      ensures stream[i].payload.transactionId != stream[j].payload.transactionId
    {
      assert RM.UniqueIds(stream);
      assert stream[i].msgId != "" && stream[j].msgId == stream[j].payload.transactionId;
      assert stream[i].msgId != stream[j].msgId;
    }
  }

  lemma InvMeansOnlyAfterTransactions(s: State)
    requires Inv(s)
    ensures OnlyAfterTransactions(s)
  {
    hide P.Inv, Consumer.Bounded, UpstreamInv;
    forall e | e in s.budget.budgets.queued
      ensures exists b :: b in s.history && b.announced && b.transaction.userId == e.userId
    {
      var i :| 0 <= i < |s.budget.inbox| && s.budget.inbox[i] == P.Created(e.userId);
      var b := MessageAnnounces(s, i);
    }
  }

  /** A list of different texts, all from another list, is no longer than it. */
  lemma DistinctFits(xs: seq<string>, ys: seq<string>)
    requires Distinct(xs) && forall x :: x in xs ==> x in ys
    ensures |xs| <= |ys|
  {
    var a, b := set x | x in xs, set y | y in ys;
    DistinctCount(xs);
    SetNoLarger(ys);
    assert a <= b;
    assert b == a + (b - a);
  }

  lemma {:induction false} DistinctCount(xs: seq<string>)
    requires Distinct(xs)
    ensures |set x | x in xs| == |xs|
  {
    if xs != [] {
      var n := |xs| - 1;
      assert Distinct(xs[..n]);
      DistinctCount(xs[..n]);
      assert (set x | x in xs) == (set x | x in xs[..n]) + {xs[n]};
    }
  }

  lemma {:induction false} SetNoLarger(ys: seq<string>)
    ensures |set y | y in ys| <= |ys|
  {
    if ys != [] {
      var n := |ys| - 1;
      SetNoLarger(ys[..n]);
      assert (set y | y in ys) == (set y | y in ys[..n]) + {ys[n]};
    }
  }

  function InboxIds(s: State): (r: seq<string>)
    requires |s.budget.inbox| <= |s.upstream.stream|
    ensures |r| == |s.budget.inbox|
  {
    seq(|s.budget.inbox|, i requires 0 <= i < |s.budget.inbox| => s.upstream.stream[i].payload.transactionId)
  }

  lemma NoMoreThanInserted(s: State)
    requires OncePerTransaction(s)
    ensures |s.budget.inbox| <= |s.history|
  {
    var ids := InboxIds(s);
    forall x | x in ids
      ensures x in TR.Ids(s.history)
    {
      var i :| 0 <= i < |ids| && ids[i] == x;
      assert EntryAnnounces(s, i);
      var b :| b in s.history && Announces(s.upstream.stream[i], b);
      var k :| 0 <= k < |s.history| && s.history[k] == b;
      assert TR.Ids(s.history)[k] == x;
    }
    DistinctFits(ids, TR.Ids(s.history));
  }

  /** Handling attempts over all messages. */
  function Attempts(tracks: seq<Consumer.Track>): nat {
    if tracks == [] then 0 else Attempts(tracks[..|tracks| - 1]) + tracks[|tracks| - 1].attempts
  }

  lemma {:induction false} AttemptsBounded(tracks: seq<Consumer.Track>)
    requires Consumer.Bounded(tracks)
    ensures Attempts(tracks) <= Consumer.MAX_DELIVER * |tracks|
  {
    if tracks != [] {
      AttemptsBounded(tracks[..|tracks| - 1]);
    }
  }

  /**
   From the first insert to the last announcement, in every run: each stored transaction is consumed at
   most once, so budget-service handles at most ten attempts per insert; overspending is announced only to
   users whose transactions were stored, once per budget and period, and each announcement is true of the
   ledger when it is queued; and what either outbox has marked is in its stream.
   */
  lemma LedgerToAnnouncement(clock: Instant, relays: nat, run: seq<Step>)
    requires Valid(Initial(clock, relays)) && Runs(Initial(clock, relays), run)
    ensures var s := Exec(Initial(clock, relays), run);
            && OncePerTransaction(s)
            && Attempts(s.budget.tracks) <= Consumer.MAX_DELIVER * |s.history|
            && OnlyAfterTransactions(s)
            && AllTrueWhenQueued(Initial(clock, relays), run)
            && P.OneMessagePerPeriod(s.budget) && P.MarkedIsStored(s.budget)
            && (forall k :: 0 <= k < |s.upstream.rows| && s.upstream.rows[k].publishedAt.Some? ==>
                  RM.Represented(s.upstream.rows[k], s.upstream.stream))
  {
    hide Valid, Enabled, Steady, Next, UpstreamInv, P.Inv, P.OneMessagePerPeriod, P.MarkedIsStored, RM.Represented;
    hide OncePerTransaction, OnlyAfterTransactions, AllTrueWhenQueued;
    InitialInv(clock, relays);
    RunQueuesTrue(Initial(clock, relays), run);
    RunKeepsInv(Initial(clock, relays), run);
    var s := Exec(Initial(clock, relays), run);
    InvMeansOncePerTransaction(s);
    InvMeansOnlyAfterTransactions(s);
    NoMoreThanInserted(s);
    AttemptsBounded(s.budget.tracks);
    P.InvMeansOneMessage(s.budget);
    P.InvMeansMarkedIsStored(s.budget);
    UpstreamMarksRepresented(s);
  }

  lemma UpstreamMarksRepresented(s: State)
    requires UpstreamInv(s)
    ensures forall k :: 0 <= k < |s.upstream.rows| && s.upstream.rows[k].publishedAt.Some? ==>
              RM.Represented(s.upstream.rows[k], s.upstream.stream)
  {
    hide RM.Represented, RM.CameFrom, TR.Mirror, RM.UniqueIds, FreshIds;
  }
}
