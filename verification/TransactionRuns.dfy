/** Whole runs of TransactionService: the queued events mirror the transactions ever stored. */
module TransactionRuns {
  import opened Common
  import opened Calendar
  import opened MessageId
  import opened Ledger
  import opened Outbox
  import opened Import
  import opened Transactions
  import Spending

  /** `history` records every insert since the beginning; deletions do not shorten it. */
  datatype State = State(docs: seq<Transaction>, rows: seq<Row<TransactionCreated>>, history: seq<Birth>)

  /**
   `done` rows of an import were processed: all of them, or fewer when the process died.
   A crash between a row's insert and its enqueue is a failed enqueue of the last row.
   `Publish` is the relay's mark on a row.
   */
  datatype Step =
    | Create(userId: string, input: Input, dir: Directory, insertOk: bool, newId: string, enqueueOk: bool)
    | ImportStep(call: Call, done: nat)
    | Update(k: nat, input: Input, dir: Directory)
    | Delete(userId: string, id: string)
    | Publish(k: nat, at: Instant)

  const INITIAL: State := State([], [], [])

  function Ids(births: seq<Birth>): (r: seq<string>)
    ensures |r| == |births|
  {
    seq(|births|, i requires 0 <= i < |births| => births[i].transaction.id)
  }

  function Born(births: seq<Birth>): (r: seq<Transaction>)
    ensures |r| == |births|
  {
    seq(|births|, i requires 0 <= i < |births| => births[i].transaction)
  }

  /** The inserts one step makes. */
  function BirthsOf(step: Step): seq<Birth> {
    match step
    case Create(userId, input, dir, insertOk, newId, enqueueOk) =>
      var r := CreateOutcome(userId, input, dir, insertOk, newId);
      if r.Ok? then [Birth(r.value, enqueueOk)] else []
    case ImportStep(call, done) => if done <= |call.rows| then Births(call, done) else []
    case _ => []
  }

  function Edits(docs: seq<Transaction>, step: Step): seq<Transaction> {
    match step
    case Update(k, input, dir) =>
      if k < |docs| && Edited(docs[k], input, dir).Ok?
      then Replaced(docs, Edited(docs[k], input, dir).value)
      else docs
    case Delete(userId, id) => Without(docs, id, userId)
    case _ => docs
  }

  function Marks(rows: seq<Row<TransactionCreated>>, step: Step): seq<Row<TransactionCreated>> {
    if step.Publish? && step.k < |rows| then rows[step.k := rows[step.k].(publishedAt := Some(step.at))] else rows
  }

  function Apply(s: State, step: Step): State {
    var births := BirthsOf(step);
    State(Edits(s.docs, step) + Born(births), Marks(s.rows, step) + Announcements(births), s.history + births)
  }

  function Run(steps: seq<Step>): State {
    if steps == [] then INITIAL else Apply(Run(steps[..|steps| - 1]), steps[|steps| - 1])
  }

  /** Every insert uses an ObjectID never used before. */
  ghost predicate FreshIds(steps: seq<Step>) {
    forall n :: 0 <= n <= |steps| ==> Distinct(Ids(Run(steps[..n]).history))
  }

  /** The rows as they were queued, without the relay's marks. */
  function Unmarked(rows: seq<Row<TransactionCreated>>): (r: seq<Row<TransactionCreated>>)
    ensures |r| == |rows|
  {
    seq(|rows|, i requires 0 <= i < |rows| => rows[i].(publishedAt := None))
  }

  ghost predicate AllStored(docs: seq<Transaction>) {
    forall t :: t in docs ==> Spending.Stored(t)
  }

  ghost predicate BornEarlier(docs: seq<Transaction>, history: seq<Birth>) {
    forall t :: t in docs ==> t.id in Ids(history)
  }

  ghost predicate Mirror(s: State) {
    && Unmarked(s.rows) == Announcements(s.history)
    && AllStored(s.docs)
    && BornEarlier(s.docs, s.history)
  }

  // ---------- Each step keeps the mirror ----------

  lemma {:induction false} AnnouncementsAppend(a: seq<Birth>, b: seq<Birth>)
    ensures Announcements(a + b) == Announcements(a) + Announcements(b)
    decreases |b|
  {
    hide EventRow;
    if b == [] {
      assert a + b == a;
    } else {
      var n := |b| - 1;
      assert (a + b)[..|a + b| - 1] == a + b[..n];
      AnnouncementsAppend(a, b[..n]);
    }
  }

  lemma {:induction false} AnnouncementsUnmarked(births: seq<Birth>)
    ensures Unmarked(Announcements(births)) == Announcements(births)
  {
    if births != [] {
      AnnouncementsUnmarked(births[..|births| - 1]);
      UnmarkedAppend(Announcements(births[..|births| - 1]), [EventRow(births[|births| - 1].transaction)]);
    }
  }

  lemma UnmarkedAppend(a: seq<Row<TransactionCreated>>, b: seq<Row<TransactionCreated>>)
    ensures Unmarked(a + b) == Unmarked(a) + Unmarked(b)
  {
  }

  lemma MarksAreInvisible(rows: seq<Row<TransactionCreated>>, step: Step)
    ensures Unmarked(Marks(rows, step)) == Unmarked(rows)
  {
  }

  lemma {:induction false} ImportedAreStored(c: Call, n: nat)
    requires n <= |c.rows|
    ensures AllStored(Born(Births(c, n)))
    ensures Born(Births(c, n)) == Accepted(c, n)
  {
    hide BuildImportedTransaction;
    if n > 0 {
      ImportedAreStored(c, n - 1);
      if Outcome(c, n - 1).Ok? {
        BuiltIsStored(c, n - 1);
        var t := Outcome(c, n - 1).value;
        assert Born(Births(c, n)) == Born(Births(c, n - 1)) + [t];
      } else {
        assert Births(c, n) == Births(c, n - 1);
      }
    }
  }

  lemma BuiltIsStored(c: Call, i: nat)
    requires i < |c.rows| && Outcome(c, i).Ok?
    ensures Spending.Stored(Outcome(c, i).value)
  {
  }

  lemma BirthsAreStored(step: Step)
    ensures AllStored(Born(BirthsOf(step)))
  {
    hide Births;
    match step
    case ImportStep(call, done) => if done <= |call.rows| { ImportedAreStored(call, done); }
    case _ =>
  }

  /** Edits keep every amount in range and bring in no new id. */
  lemma EditsKeep(docs: seq<Transaction>, step: Step, history: seq<Birth>)
    requires AllStored(docs) && BornEarlier(docs, history)
    ensures AllStored(Edits(docs, step)) && BornEarlier(Edits(docs, step), history)
  {
    match step
    case Delete(userId, id) => DroppedMembers(docs, (t: Transaction) => Is(t, id, userId));
    case Update(k, input, dir) =>
      if k < |docs| && Edited(docs[k], input, dir).Ok? {
        assert docs[k] in docs;
        var t := Edited(docs[k], input, dir).value;
        assert t.id == docs[k].id && Spending.Stored(t);
        forall x | x in Replaced(docs, t)
          ensures x == t || x in docs
        {
        }
      }
    case _ =>
  }

  lemma HistoryGrows(docs: seq<Transaction>, history: seq<Birth>, births: seq<Birth>)
    requires AllStored(docs) && BornEarlier(docs, history) && AllStored(Born(births))
    ensures AllStored(docs + Born(births)) && BornEarlier(docs + Born(births), history + births)
  {
    var ids := Ids(history + births);
    forall x | x in Ids(history)
      ensures x in ids
    {
      var i :| 0 <= i < |history| && Ids(history)[i] == x;
      assert ids[i] == x;
    }
    forall t | t in Born(births)
      ensures t.id in ids
    {
      var i :| 0 <= i < |births| && births[i].transaction == t;
      assert ids[|history| + i] == t.id;
    }
  }

  lemma StepKeepsMirror(s: State, step: Step)
    requires Mirror(s)
    ensures Mirror(Apply(s, step))
  {
    hide Edits, Marks, BirthsOf, Unmarked, Announcements, AllStored, BornEarlier;
    var births := BirthsOf(step);
    BirthsAreStored(step);
    EditsKeep(s.docs, step, s.history);
    HistoryGrows(Edits(s.docs, step), s.history, births);
    MarksAreInvisible(s.rows, step);
    UnmarkedAppend(Marks(s.rows, step), Announcements(births));
    AnnouncementsUnmarked(births);
    AnnouncementsAppend(s.history, births);
  }

  lemma InitialMirrors()
    ensures Mirror(INITIAL)
  {
  }

  /**
   After every run the outbox holds, in order and marks aside, exactly the events of the inserts
   whose enqueue succeeded; each names a transaction that was stored.
   */
  lemma {:induction false} EventsMirrorTheLedger(steps: seq<Step>)
    ensures Mirror(Run(steps))
  {
    hide Apply, Mirror;
    if steps == [] {
      InitialMirrors();
    } else {
      EventsMirrorTheLedger(steps[..|steps| - 1]);
      StepKeepsMirror(Run(steps[..|steps| - 1]), steps[|steps| - 1]);
    }
  }

  // ---------- One event per stored transaction ----------

  function MsgIds(rows: seq<Row<TransactionCreated>>): (r: seq<string>)
    ensures |r| == |rows|
  {
    seq(|rows|, i requires 0 <= i < |rows| => rows[i].msgId)
  }

  predicate AllAnnounced(births: seq<Birth>) {
    forall i :: 0 <= i < |births| ==> births[i].announced
  }

  lemma IdsSnoc(births: seq<Birth>)
    requires births != []
    ensures var n := |births| - 1; Ids(births) == Ids(births[..n]) + [births[n].transaction.id]
    ensures var n := |births| - 1; AllAnnounced(births) <==> AllAnnounced(births[..n]) && births[n].announced
  {
  }

  lemma AnnouncedSnoc(births: seq<Birth>)
    requires births != []
    ensures var n := |births| - 1;
            MsgIds(Announcements(births))
            == MsgIds(Announcements(births[..n])) + (if births[n].announced then [births[n].transaction.id] else [])
  {
    hide EventRow, MsgIds;
    var n := |births| - 1;
    var before := Announcements(births[..n]);
    EventRowId(births[n].transaction);
    MsgIdsAppend(before, if births[n].announced then [EventRow(births[n].transaction)] else []);
  }

  lemma EventRowId(t: Transaction)
    ensures MsgIds([EventRow(t)]) == [t.id]
    ensures MsgIds([]) == []
  {
    hide Rfc3339;
  }

  lemma MsgIdsAppend(a: seq<Row<TransactionCreated>>, b: seq<Row<TransactionCreated>>)
    ensures MsgIds(a + b) == MsgIds(a) + MsgIds(b)
  {
  }

  /** The announced ids are ids of the history, each once, and all of them when every enqueue succeeded. */
  lemma {:induction false} AnnouncedIds(births: seq<Birth>)
    requires Distinct(Ids(births))
    ensures Distinct(MsgIds(Announcements(births)))
    ensures forall x :: x in MsgIds(Announcements(births)) ==> x in Ids(births)
    ensures |MsgIds(Announcements(births))| <= |Ids(births)|
    ensures |MsgIds(Announcements(births))| == |Ids(births)| <==> AllAnnounced(births)
    ensures AllAnnounced(births) ==> MsgIds(Announcements(births)) == Ids(births)
  {
    hide Distinct;
    if births == [] {
      NoneAnnounced();
    } else {
      hide Ids, MsgIds, Announcements, AllAnnounced;
      var n := |births| - 1;
      IdsSnoc(births);
      AnnouncedSnoc(births);
      DistinctSnoc(Ids(births[..n]), births[n].transaction.id);
      DistinctSnoc(MsgIds(Announcements(births[..n])), births[n].transaction.id);
      AnnouncedIds(births[..n]);
      var before, id := MsgIds(Announcements(births[..n])), births[n].transaction.id;
      assert id !in before;
      assert before + [] == before;
    }
  }

  lemma NoneAnnounced()
    ensures Distinct(MsgIds(Announcements([])))
  {
  }

  /**
   Along every run with fresh ids: no two events share an id, every event names a transaction stored
   before it, and events and inserts correspond one to one exactly when no enqueue failed.
   */
  lemma OneEventPerTransaction(steps: seq<Step>)
    requires FreshIds(steps)
    ensures var s := Run(steps);
            && Distinct(MsgIds(s.rows))
            && (forall x :: x in MsgIds(s.rows) ==> x in Ids(s.history))
            && (MsgIds(s.rows) == Ids(s.history) <==> AllAnnounced(s.history))
            && BornEarlier(s.docs, s.history)
  {
    hide Run, Announcements, Distinct;
    var s := Run(steps);
    assert steps[..|steps|] == steps;
    EventsMirrorTheLedger(steps);
    AnnouncedIds(s.history);
    assert MsgIds(s.rows) == MsgIds(Unmarked(s.rows));
  }

  /** Without deletions the collection itself is what the events name. */
  lemma {:induction false} WithoutDeletionsNothingIsLost(steps: seq<Step>)
    requires forall i :: 0 <= i < |steps| ==> !steps[i].Delete?
    ensures DocIds(Run(steps).docs) == Ids(Run(steps).history)
  {
    if steps != [] {
      var n := |steps| - 1;
      var s := Run(steps[..n]);
      WithoutDeletionsNothingIsLost(steps[..n]);
      hide Run, BirthsOf, Announcements;
      UpdateKeepsIds(s.docs, steps[n]);
      assert Run(steps) == Apply(s, steps[n]) by {
        RunSnoc(steps);
      }
      IdsAppend(Edits(s.docs, steps[n]), s.history, BirthsOf(steps[n]));
    }
  }

  function DocIds(docs: seq<Transaction>): (r: seq<string>)
    ensures |r| == |docs|
  {
    seq(|docs|, i requires 0 <= i < |docs| => docs[i].id)
  }

  lemma RunSnoc(steps: seq<Step>)
    requires steps != []
    ensures Run(steps) == Apply(Run(steps[..|steps| - 1]), steps[|steps| - 1])
  {
  }

  lemma UpdateKeepsIds(docs: seq<Transaction>, step: Step)
    requires !step.Delete?
    ensures DocIds(Edits(docs, step)) == DocIds(docs)
  {
  }

  lemma IdsAppend(docs: seq<Transaction>, history: seq<Birth>, births: seq<Birth>)
    requires DocIds(docs) == Ids(history)
    ensures DocIds(docs + Born(births)) == Ids(history + births)
  {
    forall i | 0 <= i < |docs|
      ensures docs[i].id == history[i].transaction.id
    {
      assert DocIds(docs)[i] == Ids(history)[i];
    }
  }

  /** Category totals of whatever a run leaves behind stay within float64's exact whole numbers. */
  lemma RunsKeepTotalsExact(steps: seq<Step>, userId: string, category: string, from: Instant, to: Instant, k: nat)
    requires k <= |Spending.Listing(Run(steps).docs, userId, category, from, to)|
    requires k <= Spending.REPORT_PAGE_SIZE * Spending.MAX_REPORT_PAGES
    ensures var docs := Run(steps).docs;
            var running := Spending.Total(Spending.Listing(docs, userId, category, from, to)[..k]);
            && 0.0 <= running <= 5_000_000_000_000_000.0 < 9_007_199_254_740_992.0
            && ((forall t :: t in docs ==> Spending.Whole(t.amount)) ==> Spending.Whole(running))
  {
    hide Run;
    EventsMirrorTheLedger(steps);
    Spending.TotalsStayExact(Run(steps).docs, userId, category, from, to, k);
  }
}
