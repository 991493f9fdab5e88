/** One poll-and-publish pass of the relay: its exact outcome, and that it is a run of the protocol. */
module Relay {
  import opened Common
  import opened Calendar
  import opened Outbox
  import opened EventBus
  import RelayMachine

  /** What the outside world answers for each row of one pass, and when. */
  datatype Faults = Faults(
    findOk: bool,
    decodeOk: nat -> bool,
    publish: nat -> PublishResult,
    markOk: nat -> bool,
    at: nat -> Instant
  )

  /** The stream after the listed rows were visited in order. */
  function StreamAfter<P>(rows: seq<Row<P>>, stream: seq<Message<P>>, visited: seq<nat>, f: Faults): seq<Message<P>>
    requires InRange(visited, |rows|)
  {
    if visited == [] then stream
    else
      var k := visited[|visited| - 1];
      var before := StreamAfter(rows, stream, visited[..|visited| - 1], f);
      if f.decodeOk(k) then AfterPublish(before, RelayMachine.MessageOf(rows[k], f.at(k)), f.publish(k)) else before
  }

  /** This pass gets row k both published and marked. */
  predicate Succeeds(f: Faults, k: nat) {
    f.decodeOk(k) && f.publish(k).Acked? && f.markOk(k)
  }

  function RowsAfter<P>(rows: seq<Row<P>>, visited: seq<nat>, f: Faults): (r: seq<Row<P>>)
    ensures |r| == |rows|
  {
    seq(|rows|, k requires 0 <= k < |rows| =>
      if k in visited && Succeeds(f, k) then rows[k].(publishedAt := Some(f.at(k))) else rows[k])
  }

  /** Rows and stream after visiting one row. */
  function VisitedRows<P>(rows: seq<Row<P>>, k: nat, f: Faults): (r: seq<Row<P>>)
    requires k < |rows|
    ensures |r| == |rows|
  {
    if Succeeds(f, k) then rows[k := rows[k].(publishedAt := Some(f.at(k)))] else rows
  }

  function VisitedStream<P>(rows: seq<Row<P>>, stream: seq<Message<P>>, k: nat, f: Faults): seq<Message<P>>
    requires k < |rows|
  {
    if f.decodeOk(k) then AfterPublish(stream, RelayMachine.MessageOf(rows[k], f.at(k)), f.publish(k)) else stream
  }

  /** A whole pass visits the rows that are unpublished when it starts. */
  function AfterPass<P>(rows: seq<Row<P>>, f: Faults): seq<Row<P>> {
    RowsAfter(rows, Unpublished(rows, |rows|), f)
  }

  class Relay<P> {
    const store: OutboxStore<P>
    const bus: Bus<P>

    constructor (store: OutboxStore<P>, bus: Bus<P>)
      ensures this.store == store && this.bus == bus
    {
      this.store := store;
      this.bus := bus;
    }

    /** The loop body: decode, publish, and mark only what was acknowledged. */
    method Visit(k: nat, f: Faults)
      requires k < |store.rows|
      modifies store, bus
      ensures store.rows == VisitedRows(old(store.rows), k, f)
      ensures bus.stream == VisitedStream(old(store.rows), old(bus.stream), k, f)
    {
      if !f.decodeOk(k) {
        return;
      }
      var ev := store.rows[k];
      var ok := bus.Publish(ev.subject, ev.payload, ev.msgId, f.at(k), f.publish(k));
      if ok {
        store.MarkPublished(k, f.at(k), f.markOk(k));
      }
    }

    method RelayOnce(f: Faults)
      modifies store, bus
      ensures store.rows == if f.findOk then AfterPass(old(store.rows), f) else old(store.rows)
      ensures bus.stream == if f.findOk
        then StreamAfter(old(store.rows), old(bus.stream), Unpublished(old(store.rows), |old(store.rows)|), f)
        else old(bus.stream)
    {
      if !f.findOk {
        return;
      }
      var cursor := store.FindUnpublished();
      ghost var rows0 := store.rows;
      UnpublishedMembers(rows0, |rows0|);
      hide VisitedRows, VisitedStream, Unpublished, StreamAfter, RowsAfter;
      EmptyPass(rows0, old(bus.stream), f);
      assert cursor[..0] == [];
      for i := 0 to |cursor|
        invariant store.rows == RowsAfter(rows0, cursor[..i], f)
        invariant bus.stream == StreamAfter(rows0, old(bus.stream), cursor[..i], f)
      {
        PassSnoc(rows0, old(bus.stream), cursor, i, f);
        Visit(cursor[i], f);
      }
      assert cursor[..|cursor|] == cursor;
    }
  }

  lemma EmptyPass<P>(rows: seq<Row<P>>, stream: seq<Message<P>>, f: Faults)
    ensures RowsAfter(rows, [], f) == rows && StreamAfter(rows, stream, [], f) == stream
  {
  }

  lemma PassSnoc<P>(rows: seq<Row<P>>, stream: seq<Message<P>>, cursor: seq<nat>, i: nat, f: Faults)
    requires i < |cursor| && InRange(cursor, |rows|) && Ascending(cursor)
    ensures var before := RowsAfter(rows, cursor[..i], f);
            var k := cursor[i];
            && RowsAfter(rows, cursor[..i + 1], f) == VisitedRows(before, k, f)
            && StreamAfter(rows, stream, cursor[..i + 1], f)
               == VisitedStream(before, StreamAfter(rows, stream, cursor[..i], f), k, f)
  {
    hide Succeeds, AfterPublish;
    var k := cursor[i];
    assert cursor[..i + 1] == cursor[..i] + [k];
    assert cursor[..i + 1][..i] == cursor[..i];
    assert k !in cursor[..i];
  }

  // ---------- Draining ----------

  function Pending<P>(rows: seq<Row<P>>): set<nat> {
    set k | 0 <= k < |rows| && rows[k].publishedAt.None?
  }

  /** A pass leaves pending exactly the pending rows it failed on; no other row becomes pending. */
  lemma PassDrains<P>(rows: seq<Row<P>>, f: Faults)
    ensures Pending(AfterPass(rows, f)) == set k | k in Pending(rows) && !Succeeds(f, k)
    ensures |Pending(AfterPass(rows, f))| <= |Pending(rows)|
    ensures (forall k :: k in Pending(rows) ==> Succeeds(f, k)) <==> Pending(AfterPass(rows, f)) == {}
  {
    hide Succeeds, Unpublished;
    UnpublishedMembers(rows, |rows|);
    var left := set k | k in Pending(rows) && !Succeeds(f, k);
    assert Pending(AfterPass(rows, f)) == left;
    Shrinks(left, Pending(rows));
    assert left == {} <==> forall k :: k in Pending(rows) ==> k !in left;
  }

  lemma Shrinks(a: set<nat>, b: set<nat>)
    requires a <= b
    ensures |a| <= |b|
  {
    assert b == a + (b - a);
  }

  // ---------- A pass is a run of the protocol ----------

  /** The steps relay w takes for row k. */
  function VisitSteps<P>(w: nat, k: nat, f: Faults): seq<RelayMachine.Step<P>> {
    if !f.decodeOk(k) then [RelayMachine.DecodeFails(w)]
    else if f.publish(k).Acked?
    then [RelayMachine.Publish(w, f.publish(k), f.at(k)), RelayMachine.Mark(w, f.markOk(k), f.at(k))]
    else [RelayMachine.Publish(w, f.publish(k), f.at(k))]
  }

  function PassSteps<P>(w: nat, todo: seq<nat>, f: Faults): seq<RelayMachine.Step<P>>
    decreases |todo|
  {
    if todo == [] then [] else VisitSteps(w, todo[0], f) + PassSteps(w, todo[1..], f)
  }

  /** One visit takes relay w from its list to the rest of it, doing exactly what the code does. */
  lemma VisitIsRun<P>(s: RelayMachine.State<P>, w: nat, f: Faults)
    requires RelayMachine.Valid(s) && w < |s.workers| && s.workers[w].todo != [] && !s.workers[w].published
    requires s.clock <= f.at(s.workers[w].todo[0])
    ensures var k := s.workers[w].todo[0];
            && RelayMachine.Runs(s, VisitSteps(w, k, f))
            && var t := RelayMachine.Exec(s, VisitSteps(w, k, f));
               && RelayMachine.Valid(t)
               && t.rows == VisitedRows(s.rows, k, f)
               && t.stream == VisitedStream(s.rows, s.stream, k, f)
               && t.workers == s.workers[w := RelayMachine.Rest(s.workers[w])]
               && t.clock <= f.at(k)
  {
    hide AfterPublish;
    var k := s.workers[w].todo[0];
    var steps := VisitSteps<P>(w, k, f);
    var t := RelayMachine.Next(s, steps[0]);
    RelayMachine.StepKeepsValid(s, steps[0]);
    if |steps| == 2 {
      RelayMachine.StepKeepsValid(t, steps[1]);
      TwoSteps(s, steps[0], steps[1]);
      assert steps == [steps[0], steps[1]];
    } else {
      assert steps[1..] == [];
      assert RelayMachine.Runs(t, steps[1..]);
    }
  }

  lemma TwoSteps<P>(s: RelayMachine.State<P>, a: RelayMachine.Step<P>, b: RelayMachine.Step<P>)
    requires RelayMachine.Valid(s) && RelayMachine.Enabled(s, a)
    requires RelayMachine.Valid(RelayMachine.Next(s, a)) && RelayMachine.Enabled(RelayMachine.Next(s, a), b)
    ensures RelayMachine.Runs(s, [a, b])
    ensures RelayMachine.Exec(s, [a, b]) == RelayMachine.Next(RelayMachine.Next(s, a), b)
  {
    hide RelayMachine.Valid, RelayMachine.Enabled, RelayMachine.Next;
    var t := RelayMachine.Next(s, a);
    RelayMachine.StepKeepsValid(t, b);
    assert [a, b][1..] == [b] && [b][1..] == [];
    assert RelayMachine.Runs(RelayMachine.Next(t, b), []);
    assert RelayMachine.Runs(t, [b]);
    assert RelayMachine.Exec(RelayMachine.Next(t, b), []) == RelayMachine.Next(t, b);
    assert RelayMachine.Exec(t, [b]) == RelayMachine.Next(t, b);
  }

  lemma {:induction false} RunsCompose<P>(s: RelayMachine.State<P>, xs: seq<RelayMachine.Step<P>>,
                                          ys: seq<RelayMachine.Step<P>>)
    requires RelayMachine.Valid(s) && RelayMachine.Runs(s, xs)
    ensures RelayMachine.Valid(RelayMachine.Exec(s, xs))
    ensures RelayMachine.Runs(RelayMachine.Exec(s, xs), ys) ==>
              && RelayMachine.Runs(s, xs + ys)
              && RelayMachine.Exec(s, xs + ys) == RelayMachine.Exec(RelayMachine.Exec(s, xs), ys)
    decreases |xs|
  {
    hide RelayMachine.Valid, RelayMachine.Next, RelayMachine.Enabled;
    if xs == [] {
      assert xs + ys == ys;
    } else {
      assert (xs + ys)[0] == xs[0] && (xs + ys)[1..] == xs[1..] + ys;
      RelayMachine.StepKeepsValid(s, xs[0]);
      RunsCompose(RelayMachine.Next(s, xs[0]), xs[1..], ys);
    }
  }

  lemma RowsAfterFirst<P>(rows: seq<Row<P>>, todo: seq<nat>, f: Faults)
    requires todo != [] && todo[0] < |rows| && todo[0] !in todo[1..]
    ensures RowsAfter(VisitedRows(rows, todo[0], f), todo[1..], f) == RowsAfter(rows, todo, f)
  {
    hide Succeeds;
    assert todo == [todo[0]] + todo[1..];
  }

  lemma {:induction false} StreamAfterFirst<P>(rows: seq<Row<P>>, stream: seq<Message<P>>, todo: seq<nat>, f: Faults)
    requires todo != [] && InRange(todo, |rows|)
    requires todo[0] !in todo[1..]
    ensures StreamAfter(VisitedRows(rows, todo[0], f), VisitedStream(rows, stream, todo[0], f), todo[1..], f)
         == StreamAfter(rows, stream, todo, f)
    decreases |todo|
  {
    hide AfterPublish, Succeeds;
    var n := |todo| - 1;
    if n == 0 {
      assert todo[..0] == [] && todo[1..] == [];
    } else {
      assert todo[..n][1..] == todo[1..][..n - 1];
      assert todo[1..][n - 1] == todo[n] && todo[n] in todo[1..];
      StreamAfterFirst(rows, stream, todo[..n], f);
    }
  }

  /**
   RelayOnce is a run of the step machine by one relay, so everything proved of all runs of the
   machine holds of passes, also when other relays' steps come in between passes.
   */
  lemma {:induction false} PassIsRun<P>(s: RelayMachine.State<P>, w: nat, f: Faults)
    requires RelayMachine.Valid(s) && w < |s.workers| && !s.workers[w].published
    requires Ascending(s.workers[w].todo)
    requires var todo := s.workers[w].todo; forall i :: 0 <= i < |todo| ==> s.clock <= f.at(todo[i])
    requires var todo := s.workers[w].todo; forall i, j :: 0 <= i < j < |todo| ==> f.at(todo[i]) <= f.at(todo[j])
    ensures var todo := s.workers[w].todo;
            && RelayMachine.Runs(s, PassSteps(w, todo, f))
            && var t := RelayMachine.Exec(s, PassSteps(w, todo, f));
               && t.rows == RowsAfter(s.rows, todo, f)
               && t.stream == StreamAfter(s.rows, s.stream, todo, f)
    decreases |s.workers[w].todo|
  {
    hide AfterPublish, Succeeds, VisitSteps, VisitedRows, VisitedStream;
    var todo := s.workers[w].todo;
    if todo == [] {
      assert RowsAfter(s.rows, todo, f) == s.rows;
    } else {
      VisitIsRun(s, w, f);
      var t := RelayMachine.Exec(s, VisitSteps(w, todo[0], f));
      assert t.workers[w].todo == todo[1..];
      PassIsRun(t, w, f);
      RunsCompose(s, VisitSteps(w, todo[0], f), PassSteps(w, todo[1..], f));
      RowsAfterFirst(s.rows, todo, f);
      StreamAfterFirst(s.rows, s.stream, todo, f);
    }
  }

  /** The pass relay w makes from s finds time running forwards. */
  ghost predicate PassInTime<P>(s: RelayMachine.State<P>, f: Faults) {
    var todo := Unpublished(s.rows, |s.rows|);
    && (forall i :: 0 <= i < |todo| ==> s.clock <= f.at(todo[i]))
    && (forall i, j :: 0 <= i < j < |todo| ==> f.at(todo[i]) <= f.at(todo[j]))
  }

  /** After any pass of RelayOnce from a safe state, every event that is not pending is represented in the stream. */
  lemma PassDelivers<P>(s: RelayMachine.State<P>, w: nat, f: Faults)
    requires RelayMachine.Safe(s) && w < |s.workers| && s.workers[w] == RelayMachine.IDLE && PassInTime(s, f)
    ensures var rows, stream := AfterPass(s.rows, f), StreamAfter(s.rows, s.stream, Unpublished(s.rows, |s.rows|), f);
            forall k :: 0 <= k < |rows| && k !in Pending(rows) ==> RelayMachine.Represented(rows[k], stream)
  {
    hide RelayMachine.Represented, RelayMachine.CameFrom, RelayMachine.Extends, Succeeds, StreamAfter, RowsAfter;
    hide PassSteps;
    var todo := Unpublished(s.rows, |s.rows|);
    UnpublishedMembers(s.rows, |s.rows|);
    var poll: RelayMachine.Step<P> := RelayMachine.Poll(w, todo);
    RelayMachine.StepKeepsSafe(s, poll);
    var t := RelayMachine.Next(s, poll);
    PassIsRun(t, w, f);
    RelayMachine.RelaySafety(t, PassSteps(w, todo, f));
  }

  /** A pass in which nothing fails leaves every event marked and represented in the stream. */
  lemma FaultFreePassDelivers<P>(s: RelayMachine.State<P>, w: nat, f: Faults)
    requires RelayMachine.Safe(s) && w < |s.workers| && s.workers[w] == RelayMachine.IDLE && PassInTime(s, f)
    requires forall k :: k in Pending(s.rows) ==> Succeeds(f, k)
    ensures var rows, stream := AfterPass(s.rows, f), StreamAfter(s.rows, s.stream, Unpublished(s.rows, |s.rows|), f);
            Pending(rows) == {} && forall k :: 0 <= k < |rows| ==> RelayMachine.Represented(rows[k], stream)
  {
    hide RelayMachine.Safe, PassInTime, RelayMachine.Represented, AfterPass, StreamAfter, Succeeds;
    PassDrains(s.rows, f);
    PassDelivers(s, w, f);
  }
}
