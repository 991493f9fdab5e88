/**
 From delivered transactions to the overspent stream: the consumer drives HandleTransactionCreated,
 which queues events, which the relays publish.  Faults and redeliveries are steps of the run.
 */
module Pipeline {
  import opened Calendar
  import opened MessageId
  import opened Overspend
  import opened Outbox
  import opened EventBus
  import OR = OverspendRuns
  import RP = OverspendRepeats
  import RM = RelayMachine
  import Consumer

  /** A transaction.created payload: the user it names, or bytes that do not unmarshal. */
  datatype Created = Created(userId: string) | Malformed

  datatype State = State(
    inbox: seq<Created>,
    tracks: seq<Consumer.Track>,
    budgets: OR.State,
    relay: RM.State<OverspentEvent>
  )

  datatype Step =
    | Arrive(payload: Created)
    | Attempt(message: nat, now: Instant, world: World, ackArrives: bool)
    | UserStep(user: OR.Step)
    | RelayStep(relay: RM.Step<OverspentEvent>)

  /** New events become unpublished rows, in order. */
  ghost function Queue(r: RM.State<OverspentEvent>, events: seq<OverspentEvent>): RM.State<OverspentEvent> {
    r.(rows := r.rows + Rows(events))
  }

  ghost function WithBudgets(s: State, b: OR.State): State
    requires |s.budgets.queued| <= |b.queued|
  {
    s.(budgets := b, relay := Queue(s.relay, b.queued[|s.budgets.queued|..]))
  }

  /** The budget-service step one attempt amounts to, if its payload unmarshals. */
  function DeliveryOf(s: State, step: Step): OR.Step
    requires step.Attempt? && step.message < |s.inbox| && s.inbox[step.message].Created?
  {
    OR.Deliver(s.inbox[step.message].userId, step.now, step.world)
  }

  ghost predicate Enabled(s: State, step: Step)
    requires RM.Valid(s.relay)
  {
    match step
    case Arrive(_) => true
    case Attempt(i, now, w, _) =>
      && i < |s.inbox| && i < |s.tracks| && Consumer.Deliverable(s.tracks[i])
      && (s.inbox[i].Created? ==> OR.Possible(s.budgets, DeliveryOf(s, step)))
    case UserStep(u) => !u.Deliver? && OR.Possible(s.budgets, u)
    case RelayStep(r) => !r.Enqueue? && RM.Enabled(s.relay, r)
  }

  lemma QueueGrows(b: OR.State, step: OR.Step)
    ensures b.queued <= OR.Next(b, step).queued
  {
    hide FiredEvents, MarkAll;
  }

  /** A malformed payload is acknowledged without handling; a failed listing is answered with Nak. */
  ghost function Next(s: State, step: Step): State
    requires RM.Valid(s.relay) && Enabled(s, step)
  {
    match step
    case Arrive(p) => s.(inbox := s.inbox + [p], tracks := s.tracks + [Consumer.Track(0, false)])
    case Attempt(i, now, w, ack) =>
      var handlerOk := s.inbox[i].Malformed? || w.listOk;
      var t := s.(tracks := s.tracks[i := Consumer.Attempted(s.tracks[i], handlerOk, ack)]);
      if s.inbox[i].Malformed? then t
      else (QueueGrows(s.budgets, DeliveryOf(s, step)); WithBudgets(t, OR.Next(s.budgets, DeliveryOf(s, step))))
    case UserStep(u) => (QueueGrows(s.budgets, u); WithBudgets(s, OR.Next(s.budgets, u)))
    case RelayStep(r) => s.(relay := RM.Next(s.relay, r))
  }

  // ---------- Conditions on a run ----------

  /** A row is not published again once the window of its own stored message has closed. */
  ghost predicate RepublishedInTime(r: RM.State<OverspentEvent>, step: RM.Step<OverspentEvent>)
    requires RM.Valid(r) && RM.Enabled(r, step)
  {
    step.Publish? && !step.result.NotStored? ==>
      var row := r.rows[r.workers[step.worker].todo[0]];
      forall i :: 0 <= i < |r.stream| && r.stream[i] == RM.MessageOf(row, r.stream[i].at) ==>
          step.at - r.stream[i].at <= WINDOW
  }

  /** Marks are written after queueing, edits keep the cadence, republishing is timely. */
  ghost predicate Steady(s: State, step: Step)
    requires RM.Valid(s.relay) && Enabled(s, step)
  {
    match step
    case Arrive(_) => true
    case Attempt(_, _, w, _) => forall id :: w.enqueueOk(id) ==> w.updateOk(id)
    case UserStep(u) => OR.KeepsPeriod(s.budgets, u)
    case RelayStep(r) => RepublishedInTime(s.relay, r)
  }

  ghost predicate Runs(s: State, run: seq<Step>)
    requires RM.Valid(s.relay)
    decreases |run|
  {
    run != [] ==> Enabled(s, run[0]) && (NextKeepsValid(s, run[0]); Runs(Next(s, run[0]), run[1..]))
  }

  ghost predicate SteadyRun(s: State, run: seq<Step>)
    requires RM.Valid(s.relay) && Runs(s, run)
    decreases |run|
  {
    run != [] ==> Steady(s, run[0]) && (NextKeepsValid(s, run[0]); SteadyRun(Next(s, run[0]), run[1..]))
  }

  /** Every publish that reaches the stream does so within the window of what it holds under the same id. */
  ghost predicate TimelyRun(s: State, run: seq<Step>)
    requires RM.Valid(s.relay) && Runs(s, run)
    decreases |run|
  {
    run != [] ==>
      && (run[0].RelayStep? ==> RM.InWindow(s.relay, run[0].relay))
      && (NextKeepsValid(s, run[0]); TimelyRun(Next(s, run[0]), run[1..]))
  }

  ghost function Exec(s: State, run: seq<Step>): State
    requires RM.Valid(s.relay) && Runs(s, run)
    decreases |run|
  {
    if run == [] then s else (NextKeepsValid(s, run[0]); Exec(Next(s, run[0]), run[1..]))
  }

  lemma NextKeepsValid(s: State, step: Step)
    requires RM.Valid(s.relay) && Enabled(s, step)
    ensures RM.Valid(Next(s, step).relay)
  {
    hide OR.Next, OR.Possible, RM.Next;
    if step.RelayStep? {
      RM.StepKeepsValid(s.relay, step.relay);
    }
  }

  // ---------- The invariant ----------

  /** Row k of the outbox carries the k-th queued event. */
  ghost predicate Coupled(queued: seq<OverspentEvent>, rows: seq<Row<OverspentEvent>>) {
    && |rows| == |queued|
    && forall k :: 0 <= k < |rows| ==> RM.MessageOf(rows[k], 0) == RM.MessageOf(RowOf(queued[k]), 0)
  }

  ghost predicate Inv(s: State) {
    && OR.Inv(s.budgets)
    && RM.Safe(s.relay)
    && Coupled(s.budgets.queued, s.relay.rows)
    && RM.UniqueIds(s.relay.stream)
  }

  lemma QueueKeepsSafe(r: RM.State<OverspentEvent>, events: seq<OverspentEvent>)
    requires RM.Safe(r)
    ensures RM.Safe(Queue(r, events))
  {
    RM.MoreRowsKeepSafe(r, Rows(events));
  }

  lemma QueueKeepsCoupled(s: State, b: OR.State)
    requires Coupled(s.budgets.queued, s.relay.rows) && s.budgets.queued <= b.queued
    ensures Coupled(b.queued, Queue(s.relay, b.queued[|s.budgets.queued|..]).rows)
  {
    hide RowOf;
    var added := b.queued[|s.budgets.queued|..];
    assert b.queued == s.budgets.queued + added;
    forall k | 0 <= k < |b.queued|
      ensures RM.MessageOf((s.relay.rows + Rows(added))[k], 0) == RM.MessageOf(RowOf(b.queued[k]), 0)
    {
      if k >= |s.relay.rows| {
        assert (s.relay.rows + Rows(added))[k] == RowOf(added[k - |s.relay.rows|]);
      }
    }
  }

  /** Two rows with one message id are one row: that is what at most one announcement per period buys. */
  lemma SameIdSameRow(s: State, k: nat, l: nat)
    requires OR.Inv(s.budgets) && Coupled(s.budgets.queued, s.relay.rows)
    requires k < |s.relay.rows| && l < |s.relay.rows| && s.relay.rows[k].msgId == s.relay.rows[l].msgId
    ensures k == l
  {
    hide OR.Inv, MsgId;
    OR.InvMeansDistinctIds(s.budgets);
    var q := s.budgets.queued;
    assert RM.MessageOf(s.relay.rows[k], 0) == RM.MessageOf(RowOf(q[k]), 0);
    assert RM.MessageOf(s.relay.rows[l], 0) == RM.MessageOf(RowOf(q[l]), 0);
    assert OR.MsgIds(q)[k] == s.relay.rows[k].msgId && OR.MsgIds(q)[l] == s.relay.rows[l].msgId;
  }

  lemma OwnWindowSuffices(s: State, step: RM.Step<OverspentEvent>)
    requires Inv(s) && RM.Enabled(s.relay, step) && RepublishedInTime(s.relay, step)
    ensures RM.InWindow(s.relay, step)
  {
    hide OR.Inv, RM.UniqueIds;
    var r := s.relay;
    if step.Publish? && !step.result.NotStored? {
      var k := r.workers[step.worker].todo[0];
      forall i | 0 <= i < |r.stream| && r.stream[i].msgId == r.rows[k].msgId
        ensures step.at - r.stream[i].at <= WINDOW
      {
        assert RM.CameFrom(r.stream[i], r.rows);
        var l :| 0 <= l < |r.rows| && r.stream[i] == RM.MessageOf(r.rows[l], r.stream[i].at);
        SameIdSameRow(s, k, l);
      }
    }
  }

  lemma StepKeepsInv(s: State, step: Step)
    requires Inv(s) && Enabled(s, step) && Steady(s, step)
    ensures Inv(Next(s, step))
  {
    hide OR.Inv, OR.Next, OR.Possible, RM.Safe, RM.UniqueIds, Coupled, RepublishedInTime;
    match step
    case Arrive(_) =>
    case Attempt(i, now, w, _) =>
      if s.inbox[i].Created? {
        BudgetStepKeepsInv(s, DeliveryOf(s, step));
      }
    case UserStep(u) =>
      BudgetStepKeepsInv(s, u);
    case RelayStep(r) =>
      RelayStepKeepsInv(s, r);
  }

  lemma BudgetStepKeepsInv(s: State, step: OR.Step)
    requires Inv(s) && OR.Possible(s.budgets, step) && OR.KeepsPeriod(s.budgets, step) && OR.MarksPersist(step)
    ensures s.budgets.queued <= OR.Next(s.budgets, step).queued
    ensures Inv(WithBudgets(s, OR.Next(s.budgets, step)))
  {
    hide OR.Inv, OR.Next, OR.Possible, OR.KeepsPeriod, OR.MarksPersist, RM.Safe, RM.UniqueIds, Coupled;
    QueueGrows(s.budgets, step);
    OR.StepKeepsInv(s.budgets, step);
    var b := OR.Next(s.budgets, step);
    QueueKeepsSafe(s.relay, b.queued[|s.budgets.queued|..]);
    QueueKeepsCoupled(s, b);
  }

  lemma RelayKeepsCoupled(s: State, step: RM.Step<OverspentEvent>)
    requires RM.Valid(s.relay) && Coupled(s.budgets.queued, s.relay.rows) && !step.Enqueue? && RM.Enabled(s.relay, step)
    ensures Coupled(s.budgets.queued, RM.Next(s.relay, step).rows)
  {
    RM.StepExtends(s.relay, step);
    var t := RM.Next(s.relay, step);
    forall k | 0 <= k < |t.rows|
      ensures RM.MessageOf(t.rows[k], 0) == RM.MessageOf(RowOf(s.budgets.queued[k]), 0)
    {
      assert RM.MessageOf(t.rows[k], 0) == RM.MessageOf(s.relay.rows[k], 0);
    }
  }

  lemma RelayStepKeepsInv(s: State, step: RM.Step<OverspentEvent>)
    requires Inv(s) && !step.Enqueue? && RM.Enabled(s.relay, step) && RepublishedInTime(s.relay, step)
    ensures Inv(s.(relay := RM.Next(s.relay, step)))
  {
    hide OR.Inv, RM.Safe, RM.UniqueIds, RM.InWindow, Coupled;
    assert RM.Valid(s.relay) by { RM.SafeIsValid(s.relay); }
    OwnWindowSuffices(s, step);
    RM.StepUniqueIff(s.relay, step);
    RM.StepKeepsSafe(s.relay, step);
    RelayKeepsCoupled(s, step);
  }

  lemma {:induction false} RunKeepsInv(s: State, run: seq<Step>)
    requires Inv(s) && RM.Valid(s.relay) && Runs(s, run) && SteadyRun(s, run)
    ensures Inv(Exec(s, run))
    decreases |run|
  {
    hide Inv, Enabled, Steady, Next, RM.Valid;
    if run != [] {
      StepKeepsInv(s, run[0]);
      NextKeepsValid(s, run[0]);
      RunKeepsInv(Next(s, run[0]), run[1..]);
    }
  }

  // ---------- End to end ----------

  ghost function Initial(clock: Instant, relays: nat): State {
    State([], [], OR.INITIAL.(clock := clock), RM.State([], [], seq(relays, _ => RM.IDLE), clock))
  }

  lemma InitialInv(clock: Instant, relays: nat)
    ensures Inv(Initial(clock, relays))
  {
  }

  /** No two messages announce the same budget and period. */
  ghost predicate DistinctAnnouncements(stream: seq<Message<OverspentEvent>>) {
    forall i, j :: 0 <= i < j < |stream| ==>
      stream[i].payload.budgetId != stream[j].payload.budgetId
      || stream[i].payload.periodStart != stream[j].payload.periodStart
  }

  /** At most one stored message per budget and period, and each is an event that was queued. */
  ghost predicate OneMessagePerPeriod(s: State) {
    && DistinctAnnouncements(s.relay.stream)
    && (forall i :: 0 <= i < |s.relay.stream| ==> s.relay.stream[i].payload in s.budgets.queued)
  }

  /** The event of every row marked published is itself in the stream. */
  ghost predicate MarkedIsStored(s: State) {
    && |s.relay.rows| == |s.budgets.queued|
    && forall k :: 0 <= k < |s.relay.rows| && s.relay.rows[k].publishedAt.Some? ==>
         exists i :: 0 <= i < |s.relay.stream| && s.relay.stream[i].payload == s.budgets.queued[k]
  }

  lemma OriginOf(s: State, i: nat) returns (k: nat)
    requires RM.Safe(s.relay) && Coupled(s.budgets.queued, s.relay.rows) && i < |s.relay.stream|
    ensures k < |s.relay.rows| && k < |s.budgets.queued|
    ensures s.relay.stream[i].payload == s.budgets.queued[k]
    ensures s.relay.stream[i].msgId == s.relay.rows[k].msgId == OR.MsgIdOf(s.budgets.queued[k])
  {
    hide MsgId;
    assert RM.CameFrom(s.relay.stream[i], s.relay.rows);
    k :| 0 <= k < |s.relay.rows| && s.relay.stream[i] == RM.MessageOf(s.relay.rows[k], s.relay.stream[i].at);
    assert RM.MessageOf(s.relay.rows[k], 0) == RM.MessageOf(RowOf(s.budgets.queued[k]), 0);
  }

  lemma MsgIdNotEmpty(e: OverspentEvent)
    ensures OR.MsgIdOf(e) != ""
  {
    hide Rfc3339;
  }

  lemma InvMeansOneMessage(s: State)
    requires Inv(s)
    ensures OneMessagePerPeriod(s)
  {
    hide OR.Inv, RM.Safe, MsgId, Coupled;
    forall i, j | 0 <= i < j < |s.relay.stream|
      ensures s.relay.stream[i].payload.budgetId != s.relay.stream[j].payload.budgetId
           || s.relay.stream[i].payload.periodStart != s.relay.stream[j].payload.periodStart
    {
      var k := OriginOf(s, i);
      var l := OriginOf(s, j);
      MsgIdNotEmpty(s.budgets.queued[k]);
    }
    forall i | 0 <= i < |s.relay.stream|
      ensures s.relay.stream[i].payload in s.budgets.queued
    {
      var k := OriginOf(s, i);
    }
  }

  lemma InvMeansMarkedIsStored(s: State)
    requires Inv(s)
    ensures MarkedIsStored(s)
  {
    hide OR.Inv, RM.UniqueIds, MsgId;
    forall k | 0 <= k < |s.relay.rows| && s.relay.rows[k].publishedAt.Some?
      ensures exists i :: 0 <= i < |s.relay.stream| && s.relay.stream[i].payload == s.budgets.queued[k]
    {
      assert RM.Represented(s.relay.rows[k], s.relay.stream);
      var r := s.relay.rows[k];
      var i :| 0 <= i < |s.relay.stream| && s.relay.stream[i].msgId == r.msgId;
      var l := OriginOf(s, i);
      SameIdSameRow(s, k, l);
    }
  }

  /**
   The whole pipeline, over every interleaving of deliveries, redeliveries, edits, publishes, marks
   and crashes: each budget is announced in the stream at most once per period, and an event whose
   row is marked published is there.
   */
  lemma AnnouncedOncePerPeriod(clock: Instant, relays: nat, run: seq<Step>)
    requires RM.Valid(Initial(clock, relays).relay) && Runs(Initial(clock, relays), run)
    requires SteadyRun(Initial(clock, relays), run)
    ensures OneMessagePerPeriod(Exec(Initial(clock, relays), run))
    ensures MarkedIsStored(Exec(Initial(clock, relays), run))
  {
    hide Inv, Enabled, Steady, Next, OneMessagePerPeriod, MarkedIsStored;
    InitialInv(clock, relays);
    RunKeepsInv(Initial(clock, relays), run);
    InvMeansOneMessage(Exec(Initial(clock, relays), run));
    InvMeansMarkedIsStored(Exec(Initial(clock, relays), run));
  }

  // ---------- Runs without the conditions ----------

  /** What holds of every run: ids are known, the relays are safe and the rows carry the queue. */
  ghost predicate Basic(s: State) {
    && OR.KnownIds(s.budgets)
    && RM.Safe(s.relay)
    && Coupled(s.budgets.queued, s.relay.rows)
  }

  lemma BudgetStepKeepsBasic(s: State, step: OR.Step)
    requires Basic(s) && OR.Possible(s.budgets, step)
    ensures s.budgets.queued <= OR.Next(s.budgets, step).queued
    ensures Basic(WithBudgets(s, OR.Next(s.budgets, step)))
  {
    hide OR.KnownIds, OR.Next, OR.Possible, RM.Safe, Coupled;
    QueueGrows(s.budgets, step);
    RP.StepKeepsKnownIds(s.budgets, step);
    var b := OR.Next(s.budgets, step);
    QueueKeepsSafe(s.relay, b.queued[|s.budgets.queued|..]);
    QueueKeepsCoupled(s, b);
  }

  lemma StepKeepsBasic(s: State, step: Step)
    requires Basic(s) && RM.Valid(s.relay) && Enabled(s, step)
    ensures Basic(Next(s, step))
    ensures s.relay.stream <= Next(s, step).relay.stream
    ensures RM.UniqueIds(s.relay.stream) ==>
      (RM.UniqueIds(Next(s, step).relay.stream) <==> (step.RelayStep? ==> RM.InWindow(s.relay, step.relay)))
  {
    hide OR.KnownIds, OR.Next, OR.Possible, RM.Safe, RM.UniqueIds, RM.InWindow, Coupled;
    match step
    case Arrive(_) =>
    case Attempt(i, now, w, _) =>
      if s.inbox[i].Created? {
        BudgetStepKeepsBasic(s, DeliveryOf(s, step));
      }
    case UserStep(u) =>
      BudgetStepKeepsBasic(s, u);
    case RelayStep(r) =>
      RelayKeepsCoupled(s, r);
      RM.StepKeepsSafe(s.relay, r);
      RM.StepExtends(s.relay, r);
      if RM.UniqueIds(s.relay.stream) {
        RM.StepUniqueIff(s.relay, r);
      }
  }

  lemma {:induction false} RunKeepsBasic(s: State, run: seq<Step>)
    requires Basic(s) && RM.Valid(s.relay) && Runs(s, run)
    ensures Basic(Exec(s, run))
    ensures s.relay.stream <= Exec(s, run).relay.stream
    decreases |run|
  {
    hide Basic, Enabled, Next, RM.Valid;
    if run != [] {
      StepKeepsBasic(s, run[0]);
      NextKeepsValid(s, run[0]);
      RunKeepsBasic(Next(s, run[0]), run[1..]);
    }
  }

  lemma {:induction false} UniqueIffTimelyRun(s: State, run: seq<Step>)
    requires Basic(s) && RM.Valid(s.relay) && Runs(s, run) && RM.UniqueIds(s.relay.stream)
    ensures RM.UniqueIds(Exec(s, run).relay.stream) <==> TimelyRun(s, run)
    decreases |run|
  {
    hide Basic, Enabled, Next, RM.Valid, RM.UniqueIds, RM.InWindow;
    if run != [] {
      StepKeepsBasic(s, run[0]);
      NextKeepsValid(s, run[0]);
      var t := Next(s, run[0]);
      if RM.UniqueIds(t.relay.stream) {
        UniqueIffTimelyRun(t, run[1..]);
      } else if RM.UniqueIds(Exec(s, run).relay.stream) {
        RunKeepsBasic(t, run[1..]);
        RM.PrefixUnique(t.relay.stream, Exec(s, run).relay.stream);
      }
    }
  }

  lemma QueuedIsPlain(b: OR.State, k: nat)
    requires OR.KnownIds(b) && k < |b.queued|
    ensures PlainId(b.queued[k].budgetId) && b.queued[k].periodStart == Midnight(DayOf(b.queued[k].periodStart))
  {
    hide PlainId, DayOf, Midnight;
    assert b.queued[k] in b.queued;
  }

  lemma SameIdSamePeriod(s: State, i: nat, j: nat)
    requires Basic(s) && i < |s.relay.stream| && j < |s.relay.stream|
    ensures var m, n := s.relay.stream[i], s.relay.stream[j];
            && m.msgId != ""
            && (m.msgId == n.msgId <==>
                m.payload.budgetId == n.payload.budgetId && m.payload.periodStart == n.payload.periodStart)
  {
    hide OR.KnownIds, RM.Safe, Coupled, MsgId, PlainId, DayOf, Midnight;
    var k := OriginOf(s, i);
    var l := OriginOf(s, j);
    QueuedIsPlain(s.budgets, k);
    QueuedIsPlain(s.budgets, l);
    MsgIdNotEmpty(s.budgets.queued[k]);
    var d, e := s.budgets.queued[k], s.budgets.queued[l];
    if OR.MsgIdOf(d) == OR.MsgIdOf(e) {
      MsgIdInjective(d.budgetId, d.periodStart, e.budgetId, e.periodStart);
    }
  }

  lemma UniqueIdsAreDistinctAnnouncements(s: State)
    requires Basic(s)
    ensures RM.UniqueIds(s.relay.stream) <==> DistinctAnnouncements(s.relay.stream)
  {
    hide Basic;
    var stream := s.relay.stream;
    forall i, j | 0 <= i < j < |stream|
      ensures stream[i].msgId != ""
      ensures stream[i].msgId == stream[j].msgId <==>
        stream[i].payload.budgetId == stream[j].payload.budgetId
        && stream[i].payload.periodStart == stream[j].payload.periodStart
    {
      SameIdSamePeriod(s, i, j);
    }
  }

  /**
   The message id as a second guard: over every run, with cadences changed, marks lost and periods queued
   again, the stream holds one message per budget and period exactly when every storing publish falls
   within the window of what it holds under the same id.
   */
  lemma OneMessageIffTimely(clock: Instant, relays: nat, run: seq<Step>)
    requires RM.Valid(Initial(clock, relays).relay) && Runs(Initial(clock, relays), run)
    ensures DistinctAnnouncements(Exec(Initial(clock, relays), run).relay.stream)
       <==> TimelyRun(Initial(clock, relays), run)
  {
    hide Enabled, Next, TimelyRun, DistinctAnnouncements;
    var s := Initial(clock, relays);
    assert Basic(s);
    hide Basic;
    UniqueIffTimelyRun(s, run);
    RunKeepsBasic(s, run);
    UniqueIdsAreDistinctAnnouncements(Exec(s, run));
  }

  // ---------- Redelivery ----------

  /** The handler's answer: bytes that do not unmarshal are discarded, else the listing decides. */
  predicate HandlerOk(payload: Created, w: World) {
    payload == Malformed || w.listOk
  }

  /** The step as the consumer sees it; inbox is the inbox at the end of the run. */
  function ConsumerStep(step: Step, inbox: seq<Created>): seq<Consumer.Step> {
    match step
    case Arrive(_) => [Consumer.Arrive]
    case Attempt(i, _, w, ack) => if i < |inbox| then [Consumer.Attempt(i, HandlerOk(inbox[i], w), ack)] else []
    case _ => []
  }

  function ConsumerSteps(run: seq<Step>, inbox: seq<Created>): seq<Consumer.Step> {
    if run == [] then [] else ConsumerStep(run[0], inbox) + ConsumerSteps(run[1..], inbox)
  }

  lemma OneConsumerStep(tracks: seq<Consumer.Track>, step: Consumer.Step)
    requires Consumer.Enabled(tracks, step)
    ensures Consumer.Runs(tracks, [step]) && Consumer.Exec(tracks, [step]) == Consumer.Next(tracks, step)
  {
    hide Consumer.Next, Consumer.Enabled;
    assert [step][1..] == [];
    assert Consumer.Runs(Consumer.Next(tracks, step), []);
  }

  lemma StepAsConsumer(s: State, step: Step, inbox: seq<Created>)
    requires RM.Valid(s.relay) && Enabled(s, step) && Next(s, step).inbox <= inbox
    ensures var steps := ConsumerStep(step, inbox);
            Consumer.Runs(s.tracks, steps) && Consumer.Exec(s.tracks, steps) == Next(s, step).tracks
    ensures s.inbox <= Next(s, step).inbox
    ensures |s.tracks| == |s.inbox| ==> |Next(s, step).tracks| == |Next(s, step).inbox|
  {
    hide OR.Next, OR.Possible, RM.Next, RM.Enabled;
    match step
    case Arrive(_) =>
      OneConsumerStep(s.tracks, Consumer.Arrive);
    case Attempt(i, _, w, ack) =>
      assert inbox[i] == s.inbox[i];
      OneConsumerStep(s.tracks, Consumer.Attempt(i, HandlerOk(inbox[i], w), ack));
    case _ =>
  }

  lemma {:induction false} InboxGrows(s: State, run: seq<Step>)
    requires RM.Valid(s.relay) && Runs(s, run)
    ensures s.inbox <= Exec(s, run).inbox
    ensures |s.tracks| == |s.inbox| ==> |Exec(s, run).tracks| == |Exec(s, run).inbox|
    decreases |run|
  {
    hide Enabled, Next, RM.Valid;
    if run != [] {
      NextKeepsValid(s, run[0]);
      var t := Next(s, run[0]);
      StepAsConsumer(s, run[0], t.inbox);
      InboxGrows(t, run[1..]);
    }
  }

  lemma {:induction false} ConsumerCompose(tracks: seq<Consumer.Track>, xs: seq<Consumer.Step>, ys: seq<Consumer.Step>)
    requires Consumer.Runs(tracks, xs) && Consumer.Runs(Consumer.Exec(tracks, xs), ys)
    ensures Consumer.Runs(tracks, xs + ys)
    ensures Consumer.Exec(tracks, xs + ys) == Consumer.Exec(Consumer.Exec(tracks, xs), ys)
    decreases |xs|
  {
    hide Consumer.Next, Consumer.Enabled;
    if xs == [] {
      assert xs + ys == ys;
    } else {
      assert (xs + ys)[1..] == xs[1..] + ys;
      ConsumerCompose(Consumer.Next(tracks, xs[0]), xs[1..], ys);
    }
  }

  /** The pipeline drives its durable consumer through runs of the consumer. */
  lemma {:induction false} RunAsConsumer(s: State, run: seq<Step>, inbox: seq<Created>)
    requires RM.Valid(s.relay) && Runs(s, run) && Exec(s, run).inbox <= inbox
    ensures Consumer.Runs(s.tracks, ConsumerSteps(run, inbox))
    ensures Consumer.Exec(s.tracks, ConsumerSteps(run, inbox)) == Exec(s, run).tracks
    decreases |run|
  {
    hide Enabled, Next, RM.Valid, HandlerOk;
    if run != [] {
      NextKeepsValid(s, run[0]);
      var t := Next(s, run[0]);
      InboxGrows(t, run[1..]);
      StepAsConsumer(s, run[0], inbox);
      RunAsConsumer(t, run[1..], inbox);
      ConsumerCompose(s.tracks, ConsumerStep(run[0], inbox), ConsumerSteps(run[1..], inbox));
    }
  }

  /** Message i was handled with its listing answered, or discarded as unreadable, and the acknowledgement arrived. */
  ghost predicate HandledAndAcked(run: seq<Step>, inbox: seq<Created>, i: nat) {
    exists k :: 0 <= k < |run| && run[k].Attempt? && run[k].message == i < |inbox| && run[k].ackArrives
      && (inbox[i].Malformed? || run[k].world.listOk)
  }

  /** Handlings of message i. */
  function Handlings(run: seq<Step>, i: nat): nat {
    if run == [] then 0 else (if run[0].Attempt? && run[0].message == i then 1 else 0) + Handlings(run[1..], i)
  }

  lemma {:induction false} SettlesIsHandled(run: seq<Step>, inbox: seq<Created>, i: nat)
    requires i < |inbox|
    ensures Consumer.Settles(ConsumerSteps(run, inbox), i) <==> HandledAndAcked(run, inbox, i)
    ensures Consumer.AttemptsOn(ConsumerSteps(run, inbox), i) == Handlings(run, i)
  {
    if run != [] {
      SettlesIsHandled(run[1..], inbox, i);
      HandledFirst(run, inbox, i);
      var head, steps := ConsumerStep(run[0], inbox), ConsumerSteps(run, inbox);
      if head != [] {
        assert steps[0] == head[0] && steps[1..] == ConsumerSteps(run[1..], inbox);
        Consumer.SettlesFirst(steps, i);
      } else {
        assert steps == ConsumerSteps(run[1..], inbox);
      }
      hide Consumer.Settles, HandledAndAcked;
    }
  }

  lemma HandledFirst(run: seq<Step>, inbox: seq<Created>, i: nat)
    requires run != [] && i < |inbox|
    ensures HandledAndAcked(run, inbox, i) <==>
      || (run[0].Attempt? && run[0].message == i && run[0].ackArrives && (inbox[i].Malformed? || run[0].world.listOk))
      || HandledAndAcked(run[1..], inbox, i)
  {
    if k :| 0 <= k < |run[1..]| && run[1..][k].Attempt? && run[1..][k].message == i && run[1..][k].ackArrives
            && (inbox[i].Malformed? || run[1..][k].world.listOk) {
      assert run[k + 1] == run[1..][k];
    }
    assert forall k :: 0 < k < |run| ==> run[k] == run[1..][k - 1];
  }

  /**
   A transaction's message is done with exactly when a handling of it got its budgets listed, or its bytes are
   unreadable, and the acknowledgement arrived; until then it is delivered again, up to ten times.
   */
  lemma DoneIffHandled(clock: Instant, relays: nat, run: seq<Step>, i: nat)
    requires RM.Valid(Initial(clock, relays).relay) && Runs(Initial(clock, relays), run)
    requires i < |Exec(Initial(clock, relays), run).inbox|
    ensures var t := Exec(Initial(clock, relays), run);
            && i < |t.tracks|
            && (t.tracks[i].acked <==> HandledAndAcked(run, t.inbox, i))
            && (!t.tracks[i].acked ==>
                (Consumer.Deliverable(t.tracks[i]) <==> Handlings(run, i) < 10))
  {
    hide Enabled, Next, HandledAndAcked, Consumer.Settles, ConsumerSteps;
    var s := Initial(clock, relays);
    var t := Exec(s, run);
    InboxGrows(s, run);
    RunAsConsumer(s, run, t.inbox);
    Consumer.AckedIffSettled(s.tracks, ConsumerSteps(run, t.inbox), i);
    SettlesIsHandled(run, t.inbox, i);
  }
}
