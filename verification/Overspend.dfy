/**
 Overspend detection: what one finora.transaction.created delivery does to a user's budgets and
 to the outbox, and why over a whole run each budget is announced at most once per period.
 */
module Overspend {
  import opened Common
  import opened Calendar
  import opened MessageId
  import opened Budgets
  import opened Outbox

  const SUBJECT: string := "finora.budget.overspent"

  /** periodStart is kept as the instant; Rfc3339 renders it wherever it becomes text. */
  datatype OverspentEvent = OverspentEvent(
    budgetId: string,
    userId: string,
    category: string,
    period: Period,
    budgeted: real,
    actual: real,
    periodStart: Instant
  )

  /**
   What the outside world answers during one handling: the ledger's category sums for
   (user, category, from, to), and per budget id whether the lookup, the outbox insert and
   the write of LastNotifiedAt succeed.
   */
  datatype World = World(
    actual: (string, string, Instant, Instant) -> real,
    listOk: bool,
    lookupOk: string -> bool,
    enqueueOk: string -> bool,
    updateOk: string -> bool
  )

  function EventOf(b: Budget, now: Instant, w: World): OverspentEvent {
    var from := CurrentPeriodStart(b.period, now);
    OverspentEvent(b.id, b.userId, b.category, b.period, b.amount, w.actual(b.userId, b.category, from, now), from)
  }

  function RowOf(e: OverspentEvent): Row<OverspentEvent> {
    Row(SUBJECT, e, MsgId(e.budgetId, e.periodStart), None)
  }

  /** The current period's spending is known and exceeds the budget. */
  predicate Overspent(b: Budget, now: Instant, w: World) {
    && w.lookupOk(b.id)
    && b.amount - w.actual(b.userId, b.category, CurrentPeriodStart(b.period, now), now) < 0.0
  }

  /** The budget gets an event queued by this handling. */
  predicate Fires(b: Budget, now: Instant, w: World) {
    && Overspent(b, now, w)
    && b.lastNotifiedAt != Some(CurrentPeriodStart(b.period, now))
    && w.enqueueOk(b.id)
  }

  function Marked(b: Budget, now: Instant, w: World): Budget {
    if Fires(b, now, w) && w.updateOk(b.id)
    then b.(lastNotifiedAt := Some(CurrentPeriodStart(b.period, now)))
    else b
  }

  /** Every budget of the user is treated by itself; nobody else's changes. */
  function MarkAll(docs: seq<Budget>, userId: string, now: Instant, w: World): (r: seq<Budget>)
    ensures |r| == |docs|
  {
    seq(|docs|, i requires 0 <= i < |docs| => if docs[i].userId == userId then Marked(docs[i], now, w) else docs[i])
  }

  function Fired(b: Budget, now: Instant, w: World): seq<OverspentEvent> {
    if Fires(b, now, w) then [EventOf(b, now, w)] else []
  }

  function FiredEvents(docs: seq<Budget>, userId: string, now: Instant, w: World): seq<OverspentEvent> {
    if docs == [] then []
    else
      var d := docs[|docs| - 1];
      FiredEvents(docs[..|docs| - 1], userId, now, w) + (if d.userId == userId then Fired(d, now, w) else [])
  }

  function Rows(events: seq<OverspentEvent>): (rows: seq<Row<OverspentEvent>>)
    ensures |rows| == |events|
  {
    seq(|events|, i requires 0 <= i < |events| => RowOf(events[i]))
  }

  /** The row of an event: its subject, the event itself, and the id made of budget and period start. */
  lemma RowTells(e: OverspentEvent)
    ensures RowOf(e).subject == "finora.budget.overspent" && RowOf(e).payload == e && RowOf(e).publishedAt.None?
    ensures RowOf(e).msgId == e.budgetId + (":" + Rfc3339(e.periodStart))
  {
    hide Rfc3339;
  }

  // ---------- The service ----------

  class OverspendService {
    const repo: BudgetRepository
    const store: OutboxStore<OverspentEvent>

    constructor (repo: BudgetRepository, store: OutboxStore<OverspentEvent>)
      ensures this.repo == repo && this.store == store
    {
      this.repo := repo;
      this.store := store;
    }

    method PublishBudgetOverspent(event: OverspentEvent, insertOk: bool) returns (ok: bool)
      modifies store
      ensures ok == insertOk
      ensures store.rows == old(store.rows) + Rows(if ok then [event] else [])
    {
      ok := store.Enqueue(SUBJECT, event, MsgId(event.budgetId, event.periodStart), insertOk);
    }

    method NotifyIfOverspent(b: Budget, actual: real, from: Instant, now: Instant, ghost w: World, enqueueOk: bool,
                             updateOk: bool)
      requires repo.Valid()
      requires from == CurrentPeriodStart(b.period, now) && actual == w.actual(b.userId, b.category, from, now)
      requires enqueueOk == w.enqueueOk(b.id) && updateOk == w.updateOk(b.id)
      requires Overspent(b, now, w)
      modifies repo, store
      ensures repo.Valid()
      ensures repo.docs == if Marked(b, now, w) == b then old(repo.docs) else SetDoc(old(repo.docs), Marked(b, now, w))
      ensures store.rows == old(store.rows) + Rows(Fired(b, now, w))
    {
      if b.lastNotifiedAt == Some(from) {
        return;
      }
      var event := OverspentEvent(b.id, b.userId, b.category, b.period, b.amount, actual, from);
      var queued := PublishBudgetOverspent(event, enqueueOk);
      if !queued {
        return;
      }
      var _ := repo.Update(b.(lastNotifiedAt := Some(from)), updateOk);
    }

    /** The loop body of one delivery: look the sum up, and notify when it exceeds the budget. */
    method CheckBudget(b: Budget, now: Instant, w: World)
      requires repo.Valid()
      modifies repo, store
      ensures repo.Valid()
      ensures repo.docs == if Marked(b, now, w) == b then old(repo.docs) else SetDoc(old(repo.docs), Marked(b, now, w))
      ensures store.rows == old(store.rows) + Rows(Fired(b, now, w))
    {
      var from := CurrentPeriodStart(b.period, now);
      if !w.lookupOk(b.id) {
        return;
      }
      var actual := w.actual(b.userId, b.category, from, now);
      if b.amount - actual < 0.0 {
        NotifyIfOverspent(b, actual, from, now, w, w.enqueueOk(b.id), w.updateOk(b.id));
      }
    }

    /** Budget k of the list, when the k before it have been visited. */
    method CheckNext(budgets: seq<Budget>, k: nat, userId: string, now: Instant, w: World,
                     ghost docs0: seq<Budget>, ghost rows0: seq<Row<OverspentEvent>>)
      requires repo.Valid() && k < |budgets|
      requires Listed(budgets, docs0, userId)
      requires repo.docs == MarkFirst(docs0, budgets, k, now, w)
      requires store.rows == rows0 + RowsOfFirst(budgets, k, userId, now, w)
      modifies repo, store
      ensures repo.Valid()
      ensures repo.docs == MarkFirst(docs0, budgets, k + 1, now, w)
      ensures store.rows == rows0 + RowsOfFirst(budgets, k + 1, userId, now, w)
    {
      ListedStep(docs0, budgets, k, userId, now, w);
      hide *;
      CheckBudget(budgets[k], now, w);
    }

    method CheckAll(budgets: seq<Budget>, userId: string, now: Instant, w: World)
      requires repo.Valid() && Listed(budgets, repo.docs, userId)
      modifies repo, store
      ensures repo.Valid()
      ensures repo.docs == MarkFirst(old(repo.docs), budgets, |budgets|, now, w)
      ensures store.rows == old(store.rows) + Rows(FiredEvents(budgets, userId, now, w))
    {
      ghost var docs0, rows0 := repo.docs, store.rows;
      hide *;
      NothingVisited(docs0, budgets, userId, now, w);
      for k := 0 to |budgets|
        invariant repo.Valid()
        invariant repo.docs == MarkFirst(docs0, budgets, k, now, w)
        invariant store.rows == rows0 + RowsOfFirst(budgets, k, userId, now, w)
      {
        CheckNext(budgets, k, userId, now, w, docs0, rows0);
      }
      RowsOfAll(budgets, userId, now, w);
    }

    /**
     One delivery.  The budgets are listed once and visited in that order, yet the outcome is
     the pointwise one: each budget is marked and announced according to its own state alone.
     */
    method HandleTransactionCreated(userId: string, now: Instant, w: World) returns (ok: bool)
      requires repo.Valid()
      modifies repo, store
      ensures repo.Valid()
      ensures ok == w.listOk
      ensures repo.docs == if ok then MarkAll(old(repo.docs), userId, now, w) else old(repo.docs)
      ensures store.rows == old(store.rows) + Rows(if ok then FiredEvents(old(repo.docs), userId, now, w) else [])
    {
      var listed := repo.ListByUser(userId, w.listOk);
      if listed.Err? {
        return false;
      }
      var budgets := listed.value;
      OwnedMembers(repo.docs, userId);
      FiredOfOwned(repo.docs, userId, now, w);
      AllMarked(repo.docs, userId, now, w);
      CheckAll(budgets, userId, now, w);
      ok := true;
    }
  }

  /** A listing of one user's documents, each once. */
  ghost predicate Listed(budgets: seq<Budget>, docs: seq<Budget>, userId: string) {
    && DistinctIds(docs) && DistinctIds(budgets)
    && (forall b :: b in budgets ==> b in docs && b.userId == userId)
  }

  /** What visiting budget k does to the collection and adds to the queue. */
  lemma ListedStep(docs: seq<Budget>, budgets: seq<Budget>, k: nat, userId: string, now: Instant, w: World)
    requires k < |budgets| && Listed(budgets, docs, userId)
    ensures var m := Marked(budgets[k], now, w);
            MarkFirst(docs, budgets, k + 1, now, w)
            == if m == budgets[k] then MarkFirst(docs, budgets, k, now, w)
               else SetDoc(MarkFirst(docs, budgets, k, now, w), m)
    ensures RowsOfFirst(budgets, k + 1, userId, now, w)
        == RowsOfFirst(budgets, k, userId, now, w) + Rows(Fired(budgets[k], now, w))
  {
    hide Marked, MarkFirst, RowsOfFirst, Rows, Fired;
    MarkFirstStep(docs, budgets, k, now, w);
    FiredStep(budgets, k, userId, now, w);
  }

  /** The events queued when only the first k listed budgets have been visited. */
  ghost function RowsOfFirst(budgets: seq<Budget>, k: nat, userId: string, now: Instant,
                             w: World): seq<Row<OverspentEvent>>
    requires k <= |budgets|
  {
    Rows(FiredEvents(budgets[..k], userId, now, w))
  }

  lemma RowsOfAll(budgets: seq<Budget>, userId: string, now: Instant, w: World)
    ensures RowsOfFirst(budgets, |budgets|, userId, now, w) == Rows(FiredEvents(budgets, userId, now, w))
  {
    assert budgets[..|budgets|] == budgets;
  }

  lemma NothingVisited(docs: seq<Budget>, budgets: seq<Budget>, userId: string, now: Instant, w: World)
    ensures MarkFirst(docs, budgets, 0, now, w) == docs
    ensures RowsOfFirst(budgets, 0, userId, now, w) == []
  {
  }

  lemma FiredSnoc(docs: seq<Budget>, d: Budget, userId: string, now: Instant, w: World)
    ensures FiredEvents(docs + [d], userId, now, w)
         == FiredEvents(docs, userId, now, w) + (if d.userId == userId then Fired(d, now, w) else [])
  {
    hide Fires, EventOf;
    assert (docs + [d])[..|docs + [d]| - 1] == docs;
  }

  lemma FiredStep(budgets: seq<Budget>, k: nat, userId: string, now: Instant, w: World)
    requires k < |budgets| && budgets[k].userId == userId
    ensures RowsOfFirst(budgets, k + 1, userId, now, w)
        == RowsOfFirst(budgets, k, userId, now, w) + Rows(Fired(budgets[k], now, w))
  {
    assert budgets[..k + 1] == budgets[..k] + [budgets[k]];
    FiredSnoc(budgets[..k], budgets[k], userId, now, w);
    RowsAppend(FiredEvents(budgets[..k], userId, now, w), Fired(budgets[k], now, w));
  }

  lemma RowsAppend(xs: seq<OverspentEvent>, ys: seq<OverspentEvent>)
    ensures Rows(xs + ys) == Rows(xs) + Rows(ys)
  {
    hide RowOf;
  }

  /** The collection when only the first k listed budgets have been visited. */
  ghost function MarkFirst(docs: seq<Budget>, budgets: seq<Budget>, k: nat, now: Instant, w: World): (r: seq<Budget>)
    requires k <= |budgets|
    ensures |r| == |docs|
  {
    seq(|docs|, i requires 0 <= i < |docs| => if docs[i] in budgets[..k] then Marked(docs[i], now, w) else docs[i])
  }

  /** Visiting budget k changes the one document that carries its id. */
  lemma MarkFirstStep(docs: seq<Budget>, budgets: seq<Budget>, k: nat, now: Instant, w: World)
    requires k < |budgets| && DistinctIds(docs) && DistinctIds(budgets)
    requires forall b :: b in budgets ==> b in docs
    ensures var m := Marked(budgets[k], now, w);
            MarkFirst(docs, budgets, k + 1, now, w)
            == if m == budgets[k] then MarkFirst(docs, budgets, k, now, w)
               else SetDoc(MarkFirst(docs, budgets, k, now, w), m)
  {
    hide CurrentPeriodStart, Fires;
    var b := budgets[k];
    assert budgets[..k + 1] == budgets[..k] + [b];
    var before, after := MarkFirst(docs, budgets, k, now, w), MarkFirst(docs, budgets, k + 1, now, w);
    forall i | 0 <= i < |docs|
      ensures docs[i] == b ==> before[i] == b
      ensures docs[i] != b ==> !Is(before[i], b.id, b.userId) && after[i] == before[i]
    {
      assert b in docs;
      var j :| 0 <= j < |docs| && docs[j] == b;
    }
  }

  lemma AllMarked(docs: seq<Budget>, userId: string, now: Instant, w: World)
    ensures var list := Owned(docs, userId);
            MarkFirst(docs, list, |list|, now, w) == MarkAll(docs, userId, now, w)
  {
    OwnedMembers(docs, userId);
    var list := Owned(docs, userId);
    assert list[..|list|] == list;
  }

  lemma {:induction false} FiredOfOwned(docs: seq<Budget>, userId: string, now: Instant, w: World)
    ensures FiredEvents(Owned(docs, userId), userId, now, w) == FiredEvents(docs, userId, now, w)
  {
    hide FiredEvents, Fired;
    if docs == [] {
      assert Owned(docs, userId) == docs;
    } else {
      var rest, d := docs[..|docs| - 1], docs[|docs| - 1];
      assert docs == rest + [d];
      FiredOfOwned(rest, userId, now, w);
      FiredSnoc(rest, d, userId, now, w);
      FiredSnoc(Owned(rest, userId), d, userId, now, w);
      var o := Owned(rest, userId);
      assert o + [] == o;
      assert FiredEvents(o, userId, now, w) + [] == FiredEvents(o, userId, now, w);
    }
  }
}
