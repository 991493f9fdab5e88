/** How one delivery relates to a second delivery, to another listing order and to a failed lookup. */
module Delivery {
  import opened Common
  import opened Calendar
  import opened Budgets
  import opened Overspend
  import opened OverspendRuns

  // ---------- Redelivery ----------

  /** Everything the first handling needed for this budget went through. */
  predicate Settled(b: Budget, now: Instant, w: World) {
    || b.lastNotifiedAt == Some(CurrentPeriodStart(b.period, now))
    || (w.lookupOk(b.id) && w.enqueueOk(b.id) && w.updateOk(b.id))
  }

  /** At one clock and ledger, a redelivery announces a budget exactly when the first try left it unsettled. */
  lemma RedeliveryFiresIff(b: Budget, now: Instant, w1: World, w2: World)
    requires w1.actual == w2.actual
    ensures Fires(Marked(b, now, w1), now, w2)
       <==> Overspent(b, now, w2) && w2.enqueueOk(b.id) && !Settled(b, now, w1)
  {
    hide CurrentPeriodStart;
  }

  lemma EmptyOrInhabited<T>(s: seq<T>)
    ensures s == [] || exists x :: x in s
  {
    if s != [] {
      assert s[0] in s;
    }
  }

  lemma {:induction false} NoFiringNoEvents(docs: seq<Budget>, u: string, now: Instant, w: World)
    requires forall d :: d in docs && d.userId == u ==> !Fires(d, now, w)
    ensures FiredEvents(docs, u, now, w) == []
    ensures MarkAll(docs, u, now, w) == docs
  {
    hide CurrentPeriodStart, Fires;
    FiredMembers(docs, u, now, w);
    EmptyOrInhabited(FiredEvents(docs, u, now, w));
    forall i | 0 <= i < |docs|
      ensures MarkAll(docs, u, now, w)[i] == docs[i]
    {
      assert docs[i] in docs;
    }
  }

  /** Redelivery after a settled first handling queues nothing and leaves every budget as it is. */
  lemma RedeliveryIsQuiet(docs: seq<Budget>, u: string, now: Instant, w1: World, w2: World)
    requires w1.actual == w2.actual
    requires forall d :: d in docs && d.userId == u ==> Settled(d, now, w1)
    ensures var once := MarkAll(docs, u, now, w1);
            FiredEvents(once, u, now, w2) == [] && MarkAll(once, u, now, w2) == once
  {
    hide CurrentPeriodStart, Fires, Settled;
    var once := MarkAll(docs, u, now, w1);
    forall d | d in once && d.userId == u
      ensures !Fires(d, now, w2)
    {
      var i :| 0 <= i < |once| && once[i] == d;
      assert docs[i] in docs;
      RedeliveryFiresIff(docs[i], now, w1, w2);
    }
    NoFiringNoEvents(once, u, now, w2);
  }

  // ---------- Listing order ----------

  function Visited(d: Budget, u: string, now: Instant, w: World): Budget {
    if d.userId == u then Marked(d, now, w) else d
  }

  /** Taking one budget out of the middle takes its own event out and nothing else. */
  lemma {:induction false} EventTakenOut(docs: seq<Budget>, k: nat, u: string, now: Instant, w: World)
    requires k < |docs|
    ensures multiset(FiredEvents(docs, u, now, w))
         == multiset(FiredEvents(docs[..k] + docs[k + 1..], u, now, w))
            + multiset(if docs[k].userId == u then Fired(docs[k], now, w) else [])
    decreases |docs|
  {
    hide Fired, FiredEvents;
    var n := |docs| - 1;
    var init, last := docs[..n], docs[n];
    assert docs == init + [last];
    FiredSnoc(init, last, u, now, w);
    if k == n {
      assert docs[..k] + docs[k + 1..] == init;
    } else {
      var rest := init[..k] + init[k + 1..];
      assert docs[..k] + docs[k + 1..] == rest + [last];
      EventTakenOut(init, k, u, now, w);
      FiredSnoc(rest, last, u, now, w);
    }
  }

  lemma MarkTakenOut(docs: seq<Budget>, k: nat, u: string, now: Instant, w: World)
    requires k < |docs|
    ensures multiset(MarkAll(docs, u, now, w))
         == multiset(MarkAll(docs[..k] + docs[k + 1..], u, now, w)) + multiset{Visited(docs[k], u, now, w)}
  {
    hide Marked;
    var marked := MarkAll(docs, u, now, w);
    assert MarkAll(docs[..k] + docs[k + 1..], u, now, w) == marked[..k] + marked[k + 1..];
    RemoveAt(marked, k);
  }

  lemma RemoveAt<T>(s: seq<T>, k: nat)
    requires k < |s|
    ensures multiset(s) == multiset(s[..k] + s[k + 1..]) + multiset{s[k]}
  {
    assert s == s[..k] + [s[k]] + s[k + 1..];
  }

  lemma Cancel<T>(x: multiset<T>, y: multiset<T>, e: T)
    requires x + multiset{e} == y + multiset{e}
    ensures x == y
  {
    assert x == x + multiset{e} - multiset{e};
    assert y == y + multiset{e} - multiset{e};
  }

  /** Whatever order the repository lists the budgets in, the same events are queued and the same marks written. */
  lemma {:induction false} OrderDoesNotMatter(a: seq<Budget>, b: seq<Budget>, u: string, now: Instant, w: World)
    requires multiset(a) == multiset(b)
    ensures multiset(FiredEvents(a, u, now, w)) == multiset(FiredEvents(b, u, now, w))
    ensures multiset(MarkAll(a, u, now, w)) == multiset(MarkAll(b, u, now, w))
    decreases |a|
  {
    hide MarkAll, FiredEvents, Fired, Visited;
    if a == [] {
      assert |b| == |multiset(b)| == |multiset(a)| == 0;
    } else {
      assert a[0] in multiset(b);
      var k :| 0 <= k < |b| && b[k] == a[0];
      RemoveAt(a, 0);
      RemoveAt(b, k);
      var restA, restB := a[..0] + a[1..], b[..k] + b[k + 1..];
      Cancel(multiset(restA), multiset(restB), a[0]);
      OrderDoesNotMatter(restA, restB, u, now, w);
      EventTakenOut(a, 0, u, now, w);
      EventTakenOut(b, k, u, now, w);
      MarkTakenOut(a, 0, u, now, w);
      MarkTakenOut(b, k, u, now, w);
    }
  }

  // ---------- One budget's failure ----------

  function EventsExcept(events: seq<OverspentEvent>, id: string): seq<OverspentEvent> {
    if events == [] then []
    else
      var e := events[|events| - 1];
      EventsExcept(events[..|events| - 1], id) + (if e.budgetId == id then [] else [e])
  }

  lemma {:induction false} ExceptAppend(xs: seq<OverspentEvent>, ys: seq<OverspentEvent>, id: string)
    ensures EventsExcept(xs + ys, id) == EventsExcept(xs, id) + EventsExcept(ys, id)
    decreases |ys|
  {
    if ys == [] {
      assert xs + ys == xs;
    } else {
      var n := |ys| - 1;
      assert (xs + ys)[..|xs + ys| - 1] == xs + ys[..n];
      ExceptAppend(xs, ys[..n], id);
    }
  }

  /** Worlds that answer alike about every budget but one. */
  ghost predicate AgreeExcept(w1: World, w2: World, id: string) {
    && w1.actual == w2.actual
    && forall x :: x != id ==>
         w1.lookupOk(x) == w2.lookupOk(x) && w1.enqueueOk(x) == w2.enqueueOk(x) && w1.updateOk(x) == w2.updateOk(x)
  }

  /** What goes wrong for one budget changes no other budget and no other budget's event. */
  lemma {:induction false} FailureIsLocal(docs: seq<Budget>, id: string, u: string, now: Instant, w1: World, w2: World)
    requires AgreeExcept(w1, w2, id)
    ensures forall i :: 0 <= i < |docs| && docs[i].id != id ==>
        MarkAll(docs, u, now, w1)[i] == MarkAll(docs, u, now, w2)[i]
    ensures EventsExcept(FiredEvents(docs, u, now, w1), id) == EventsExcept(FiredEvents(docs, u, now, w2), id)
  {
    hide CurrentPeriodStart;
    if docs != [] {
      var rest, d := docs[..|docs| - 1], docs[|docs| - 1];
      assert docs == rest + [d];
      FailureIsLocal(rest, id, u, now, w1, w2);
      FiredSnoc(rest, d, u, now, w1);
      FiredSnoc(rest, d, u, now, w2);
      ExceptAppend(FiredEvents(rest, u, now, w1), if d.userId == u then Fired(d, now, w1) else [], id);
      ExceptAppend(FiredEvents(rest, u, now, w2), if d.userId == u then Fired(d, now, w2) else [], id);
    }
  }

  /**
   After an edit the next delivery decides by the new fields: the spending in the new category over the new
   cadence's current period, against the new amount.
   */
  lemma EditDecides(docs: seq<Budget>, userId: string, id: string, input: BudgetInput, i: nat, now: Instant, w: World)
    requires i < |docs| && docs[i].id == id && docs[i].userId == userId
    ensures Overspent(Edited(docs, userId, id, input)[i], now, w)
       <==> w.lookupOk(id)
            && w.actual(userId, input.category, CurrentPeriodStart(input.period, now), now) > input.amount
  {
    hide CurrentPeriodStart;
    EditWrites(docs, userId, id, input, i);
    hide Edited;
  }
}
