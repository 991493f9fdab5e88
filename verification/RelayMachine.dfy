/**
 The outbox protocol as a step machine: any number of relays poll one outbox, publish each event
 and mark it afterwards, and every step may fail or be cut short by a crash.
 */
module RelayMachine {
  import opened Common
  import opened Calendar
  import opened Outbox
  import opened EventBus

  /** todo lists the rows still to visit; published says the first one was acknowledged but not yet marked. */
  datatype Worker = Worker(todo: seq<nat>, published: bool)

  const IDLE: Worker := Worker([], false)

  datatype State<P> = State(rows: seq<Row<P>>, stream: seq<Message<P>>, workers: seq<Worker>, clock: Instant)

  datatype Step<P> =
    | Enqueue(subject: string, payload: P, msgId: string)
    | Poll(worker: nat, picks: seq<nat>)
    | DecodeFails(worker: nat)
    | Publish(worker: nat, result: PublishResult, at: Instant)
    | Mark(worker: nat, ok: bool, at: Instant)
    | Crash(worker: nat)

  /** A cursor may return any queued rows, stale ones included; time does not run backwards. */
  predicate Enabled<P>(s: State<P>, step: Step<P>) {
    match step
    case Enqueue(_, _, _) => true
    case Poll(w, picks) =>
      w < |s.workers| && s.workers[w] == IDLE && forall i :: 0 <= i < |picks| ==> picks[i] < |s.rows|
    case DecodeFails(w) => w < |s.workers| && s.workers[w].todo != [] && !s.workers[w].published
    case Publish(w, _, t) => w < |s.workers| && s.workers[w].todo != [] && !s.workers[w].published && s.clock <= t
    case Mark(w, _, t) => w < |s.workers| && s.workers[w].published && s.clock <= t
    case Crash(w) => w < |s.workers|
  }

  function MessageOf<P>(r: Row<P>, t: Instant): Message<P> {
    Message(r.subject, r.payload, r.msgId, t)
  }

  function Rest(w: Worker): Worker {
    if w.todo == [] then IDLE else Worker(w.todo[1..], false)
  }

  ghost predicate Valid<P>(s: State<P>) {
    forall w :: 0 <= w < |s.workers| ==>
      && (forall i :: 0 <= i < |s.workers[w].todo| ==> s.workers[w].todo[i] < |s.rows|)
      && (s.workers[w].published ==> s.workers[w].todo != [])
  }

  ghost function Next<P>(s: State<P>, step: Step<P>): State<P>
    requires Valid(s) && Enabled(s, step)
  {
    match step
    case Enqueue(subject, payload, msgId) => s.(rows := s.rows + [Row(subject, payload, msgId, None)])
    case Poll(w, picks) => s.(workers := s.workers[w := Worker(picks, false)])
    case DecodeFails(w) => s.(workers := s.workers[w := Rest(s.workers[w])])
    case Publish(w, result, t) =>
      var k := s.workers[w].todo[0];
      s.(stream := AfterPublish(s.stream, MessageOf(s.rows[k], t), result),
         workers := s.workers[w := if result.Acked? then s.workers[w].(published := true) else Rest(s.workers[w])],
         clock := t)
    case Mark(w, ok, t) =>
      var k := s.workers[w].todo[0];
      s.(rows := if ok then s.rows[k := s.rows[k].(publishedAt := Some(t))] else s.rows,
         workers := s.workers[w := Rest(s.workers[w])],
         clock := t)
    case Crash(w) => s.(workers := s.workers[w := IDLE])
  }

  ghost predicate Runs<P>(s: State<P>, run: seq<Step<P>>)
    requires Valid(s)
    decreases |run|
  {
    run != [] ==> Enabled(s, run[0]) && (StepKeepsValid(s, run[0]); Runs(Next(s, run[0]), run[1..]))
  }

  ghost function Exec<P>(s: State<P>, run: seq<Step<P>>): State<P>
    requires Valid(s) && Runs(s, run)
    decreases |run|
  {
    if run == [] then s else (StepKeepsValid(s, run[0]); Exec(Next(s, run[0]), run[1..]))
  }

  lemma StepKeepsValid<P>(s: State<P>, step: Step<P>)
    requires Valid(s) && Enabled(s, step)
    ensures Valid(Next(s, step))
  {
  }

  // ---------- Safety ----------

  /** A message carrying this row's event, or another one under the same message id, is in the stream. */
  ghost predicate Represented<P>(r: Row<P>, stream: seq<Message<P>>) {
    exists i :: 0 <= i < |stream| &&
      ((stream[i].subject == r.subject && stream[i].payload == r.payload && stream[i].msgId == r.msgId)
       || (r.msgId != "" && stream[i].msgId == r.msgId))
  }

  ghost predicate CameFrom<P>(m: Message<P>, rows: seq<Row<P>>) {
    exists k :: 0 <= k < |rows| && m == MessageOf(rows[k], m.at)
  }

  ghost predicate Safe<P>(s: State<P>) {
    && Valid(s)
    && (forall i :: 0 <= i < |s.stream| ==> CameFrom(s.stream[i], s.rows))
    && (forall k :: 0 <= k < |s.rows| && s.rows[k].publishedAt.Some? ==> Represented(s.rows[k], s.stream))
    && (forall w :: 0 <= w < |s.workers| && s.workers[w].published ==>
        Represented(s.rows[s.workers[w].todo[0]], s.stream))
  }

  /** What no step takes back: rows keep their content and their mark, the stream only grows. */
  ghost predicate Extends<P>(s: State<P>, t: State<P>) {
    && |s.rows| <= |t.rows|
    && (forall k :: 0 <= k < |s.rows| ==>
          && MessageOf(t.rows[k], 0) == MessageOf(s.rows[k], 0)
          && (s.rows[k].publishedAt.Some? ==> t.rows[k].publishedAt.Some?))
    && s.stream <= t.stream
    && |t.workers| == |s.workers|
  }

  lemma LongerStreamRepresents<P>(r: Row<P>, stream: seq<Message<P>>, longer: seq<Message<P>>)
    requires Represented(r, stream) && stream <= longer
    ensures Represented(r, longer)
  {
    var i :| 0 <= i < |stream| &&
      ((stream[i].subject == r.subject && stream[i].payload == r.payload && stream[i].msgId == r.msgId)
       || (r.msgId != "" && stream[i].msgId == r.msgId));
    assert longer[i] == stream[i];
  }

  /** An acknowledged publish leaves the row represented, by a new message or by the one it was folded into. */
  lemma StoredRepresents<P>(stream: seq<Message<P>>, r: Row<P>, t: Instant)
    ensures Represented(r, Stored(stream, MessageOf(r, t)))
  {
    var m := MessageOf(r, t);
    if !Duplicate(stream, m.msgId, m.at) {
      assert Stored(stream, m)[|stream|] == m;
    }
  }

  lemma StepExtends<P>(s: State<P>, step: Step<P>)
    requires Valid(s) && Enabled(s, step)
    ensures Extends(s, Next(s, step))
  {
  }

  lemma ExtendsComposes<P>(s: State<P>, t: State<P>, u: State<P>)
    requires Extends(s, t) && Extends(t, u)
    ensures Extends(s, u)
  {
  }

  lemma StillCameFrom<P>(s: State<P>, t: State<P>, i: nat)
    requires Extends(s, t) && i < |s.stream| && CameFrom(s.stream[i], s.rows)
    ensures CameFrom(s.stream[i], t.rows)
  {
    var k :| 0 <= k < |s.rows| && s.stream[i] == MessageOf(s.rows[k], s.stream[i].at);
    assert MessageOf(t.rows[k], 0) == MessageOf(s.rows[k], 0);
  }

  lemma StillRepresented<P>(s: State<P>, t: State<P>, k: nat)
    requires Extends(s, t) && k < |s.rows| && Represented(s.rows[k], s.stream)
    ensures Represented(t.rows[k], t.stream)
  {
    assert MessageOf(t.rows[k], 0) == MessageOf(s.rows[k], 0);
    LongerStreamRepresents(s.rows[k], s.stream, t.stream);
    var i :| 0 <= i < |t.stream| &&
      ((t.stream[i].subject == s.rows[k].subject && t.stream[i].payload == s.rows[k].payload
          && t.stream[i].msgId == s.rows[k].msgId)
       || (s.rows[k].msgId != "" && t.stream[i].msgId == s.rows[k].msgId));
  }

  lemma NewMessageCameFrom<P>(s: State<P>, step: Step<P>, i: nat)
    requires Safe(s) && Enabled(s, step) && |s.stream| <= i < |Next(s, step).stream|
    ensures CameFrom(Next(s, step).stream[i], Next(s, step).rows)
  {
    var k := s.workers[step.worker].todo[0];
    assert Next(s, step).stream[i] == MessageOf(s.rows[k], step.at);
  }

  lemma StepKeepsSafe<P>(s: State<P>, step: Step<P>)
    requires Safe(s) && Enabled(s, step)
    ensures Safe(Next(s, step))
  {
    hide Represented, CameFrom;
    var t := Next(s, step);
    StepKeepsValid(s, step);
    StepExtends(s, step);
    forall i | 0 <= i < |t.stream|
      ensures CameFrom(t.stream[i], t.rows)
    {
      if i < |s.stream| {
        StillCameFrom(s, t, i);
      } else {
        NewMessageCameFrom(s, step, i);
      }
    }
    if step.Publish? && step.result.Acked? {
      StoredRepresents(s.stream, s.rows[s.workers[step.worker].todo[0]], step.at);
    }
    forall k | 0 <= k < |t.rows| && t.rows[k].publishedAt.Some?
      ensures Represented(t.rows[k], t.stream)
    {
      StillRepresented(s, t, k);
    }
    forall w | 0 <= w < |t.workers| && t.workers[w].published
      ensures Represented(t.rows[t.workers[w].todo[0]], t.stream)
    {
      if s.workers[w].published {
        StillRepresented(s, t, t.workers[w].todo[0]);
      }
    }
  }

  /**
   Relay safety in every run, whatever the interleaving and the faults: nothing reaches the stream
   that was not queued, every marked event is represented there, and no mark is ever taken back.
   */
  lemma {:induction false} RelaySafety<P>(s: State<P>, run: seq<Step<P>>)
    requires Safe(s) && Runs(s, run)
    ensures Safe(Exec(s, run)) && Extends(s, Exec(s, run))
    decreases |run|
  {
    hide Safe, Extends, Next, Enabled;
    assert Valid(s) by { SafeIsValid(s); }
    if run == [] {
      ExtendsItself(s);
    } else {
      StepKeepsSafe(s, run[0]);
      StepExtends(s, run[0]);
      RelaySafety(Next(s, run[0]), run[1..]);
      ExtendsComposes(s, Next(s, run[0]), Exec(s, run));
    }
  }

  lemma SafeIsValid<P>(s: State<P>)
    requires Safe(s)
    ensures Valid(s)
  {
  }

  lemma ExtendsItself<P>(s: State<P>)
    ensures Extends(s, s)
  {
  }

  /** Queueing more rows, none of them marked, is as safe as the Enqueue steps it amounts to. */
  lemma MoreRowsKeepSafe<P>(s: State<P>, more: seq<Row<P>>)
    requires Safe(s) && forall i :: 0 <= i < |more| ==> more[i].publishedAt.None?
    ensures Safe(s.(rows := s.rows + more))
  {
    hide CameFrom, Represented;
    var t := s.(rows := s.rows + more);
    forall i | 0 <= i < |t.stream|
      ensures CameFrom(t.stream[i], t.rows)
    {
      StillCameFrom(s, t, i);
    }
  }

  // ---------- At most one message per id ----------

  ghost predicate UniqueIds<P>(stream: seq<Message<P>>) {
    forall i, j :: 0 <= i < j < |stream| && stream[i].msgId == stream[j].msgId ==> stream[i].msgId == ""
  }

  /** A publish that reaches the server does so within the window of every stored message with its id. */
  ghost predicate InWindow<P>(s: State<P>, step: Step<P>)
    requires Valid(s) && Enabled(s, step)
  {
    step.Publish? && !step.result.NotStored? ==>
      var id := s.rows[s.workers[step.worker].todo[0]].msgId;
      id != "" ==> forall i :: 0 <= i < |s.stream| && s.stream[i].msgId == id ==> step.at - s.stream[i].at <= WINDOW
  }

  ghost predicate Timely<P>(s: State<P>, run: seq<Step<P>>)
    requires Valid(s) && Runs(s, run)
    decreases |run|
  {
    run != [] ==> InWindow(s, run[0]) && (StepKeepsValid(s, run[0]); Timely(Next(s, run[0]), run[1..]))
  }

  lemma StoredUniqueIff<P>(stream: seq<Message<P>>, m: Message<P>)
    requires UniqueIds(stream)
    ensures UniqueIds(Stored(stream, m))
       <==> (m.msgId == "" || Duplicate(stream, m.msgId, m.at)
             || forall i :: 0 <= i < |stream| ==> stream[i].msgId != m.msgId)
  {
    var t := Stored(stream, m);
    if !Duplicate(stream, m.msgId, m.at) {
      assert t == stream + [m];
      if UniqueIds(t) && m.msgId != "" {
        forall i | 0 <= i < |stream|
          ensures stream[i].msgId != m.msgId
        {
          assert t[i] == stream[i] && t[|stream|] == m;
        }
      }
    }
  }

  /** With unique ids there is at most one stored copy, so being a duplicate of it means being in its window. */
  lemma StepUniqueIff<P>(s: State<P>, step: Step<P>)
    requires Valid(s) && Enabled(s, step) && UniqueIds(s.stream)
    ensures UniqueIds(Next(s, step).stream) <==> InWindow(s, step)
  {
    if step.Publish? && !step.result.NotStored? {
      var m := MessageOf(s.rows[s.workers[step.worker].todo[0]], step.at);
      StoredUniqueIff(s.stream, m);
    }
  }

  lemma PrefixUnique<P>(shorter: seq<Message<P>>, stream: seq<Message<P>>)
    requires shorter <= stream && UniqueIds(stream)
    ensures UniqueIds(shorter)
  {
    forall i, j | 0 <= i < j < |shorter| && shorter[i].msgId == shorter[j].msgId
      ensures shorter[i].msgId == ""
    {
      assert stream[i] == shorter[i] && stream[j] == shorter[j];
    }
  }

  /** A run stores at most one message per non-empty id exactly when no publish came after its id's window closed. */
  lemma {:induction false} UniqueIffTimely<P>(s: State<P>, run: seq<Step<P>>)
    requires Safe(s) && Runs(s, run) && UniqueIds(s.stream)
    ensures UniqueIds(Exec(s, run).stream) <==> Timely(s, run)
    decreases |run|
  {
    hide Safe, UniqueIds, InWindow, Next, Enabled;
    if run != [] {
      SafeIsValid(s);
      StepUniqueIff(s, run[0]);
      StepKeepsSafe(s, run[0]);
      StepKeepsValid(s, run[0]);
      if InWindow(s, run[0]) {
        UniqueIffTimely(Next(s, run[0]), run[1..]);
      } else if UniqueIds(Exec(s, run).stream) {
        RelaySafety(Next(s, run[0]), run[1..]);
        PrefixUnique(Next(s, run[0]).stream, Exec(s, run).stream);
      }
    }
  }

  /** The steps of a publish that is stored, reported as an error, and repeated by a later poll at late. */
  function LateRun<P>(subject: string, payload: P, msgId: string, late: Instant): (r: seq<Step<P>>)
    ensures |r| == 5
  {
    [Enqueue(subject, payload, msgId), Poll(0, [0]), Publish(0, StoredUnacked, 0), Poll(0, [0]), Publish(0, Acked,
        late)]
  }

  /** The states before, between and after them, for one relay and an empty outbox. */
  function LateStates<P>(subject: string, payload: P, msgId: string, late: Instant): (r: seq<State<P>>)
    ensures |r| == 6
  {
    var rows := [Row(subject, payload, msgId, None)];
    var first, second := Message(subject, payload, msgId, 0), Message(subject, payload, msgId, late);
    [ State([], [], [IDLE], 0),
      State(rows, [], [IDLE], 0),
      State(rows, [], [Worker([0], false)], 0),
      State(rows, [first], [IDLE], 0),
      State(rows, [first], [Worker([0], false)], 0),
      State(rows, if late > 120_000_000_000 then [first, second] else [first], [Worker([0], true)], late) ]
  }

  lemma LateStep<P>(subject: string, payload: P, msgId: string, late: Instant, k: nat)
    requires msgId != ""
    requires k < 5 && late >= 0
    ensures var states, run := LateStates(subject, payload, msgId, late), LateRun(subject, payload, msgId, late);
            && Valid(states[k]) && Enabled(states[k], run[k]) && Next(states[k], run[k]) == states[k + 1]
  {
    var states, run := LateStates(subject, payload, msgId, late), LateRun(subject, payload, msgId, late);
    if k == 2 || k == 4 {
      var s, t := states[k], Next(states[k], run[k]);
      LatePublish(s, run[k], MessageOf(s.rows[0], 0));
      assert t.stream == states[k + 1].stream;
      assert s.workers[0].todo[1..] == [];
      assert t.workers == states[k + 1].workers;
    }
  }

  lemma LatePublish<P>(s: State<P>, step: Step<P>, first: Message<P>)
    requires Valid(s) && Enabled(s, step) && step.Publish? && step.worker == 0
    requires s.stream == [] || (s.stream == [first] && first.at == 0)
    requires !step.result.NotStored? && first.msgId == s.rows[s.workers[0].todo[0]].msgId != ""
    ensures Next(s, step).stream
         == if s.stream == [] || step.at > 120_000_000_000
            then s.stream + [MessageOf(s.rows[s.workers[0].todo[0]], step.at)]
            else s.stream
  {
    var m := MessageOf(s.rows[s.workers[0].todo[0]], step.at);
    if s.stream != [] {
      assert s.stream[0].msgId == m.msgId;
      assert Duplicate(s.stream, m.msgId, m.at) <==> step.at <= WINDOW;
    }
  }

  /** The suffix of the run from its k-th state on. */
  lemma {:induction false} LateSuffix<P>(subject: string, payload: P, msgId: string, late: Instant, k: nat)
    requires msgId != ""
    requires k <= 5 && late >= 0
    ensures var states, run := LateStates(subject, payload, msgId, late), LateRun(subject, payload, msgId, late);
            Valid(states[k]) && Runs(states[k], run[k..]) && Exec(states[k], run[k..]) == states[5]
    decreases 5 - k
  {
    hide Enabled, Next, Valid;
    var states, run := LateStates(subject, payload, msgId, late), LateRun(subject, payload, msgId, late);
    if k < 5 {
      LateStep(subject, payload, msgId, late, k);
      LateSuffix(subject, payload, msgId, late, k + 1);
      OneStepEarlier(states[k], run[k], run[k + 1..]);
      assert run[k..] == [run[k]] + run[k + 1..];
    } else {
      LateStep(subject, payload, msgId, late, 4);
      StepKeepsValid(states[4], run[4]);
    }
  }

  /**
   A publish that is stored but reported as an error is repeated by a later poll.  The stream gets the event a
   second time exactly when the two minutes of the window are over.
   */
  lemma LateRepublishIsStoredAgain<P>(subject: string, payload: P, msgId: string, late: Instant)
    requires msgId != "" && late >= 0
    ensures var s, run := State([], [], [IDLE], 0), LateRun(subject, payload, msgId, late);
            && Valid(s) && Runs(s, run)
            && (Timely(s, run) <==> late <= 120_000_000_000)
            && Exec(s, run).stream
               == [Message(subject, payload, msgId, 0)]
                  + (if late > 120_000_000_000 then [Message(subject, payload, msgId, late)] else [])
  {
    var s: State<P> := State([], [], [IDLE], 0);
    var run := LateRun(subject, payload, msgId, late);
    LateSuffix(subject, payload, msgId, late, 0);
    assert run[0..] == run;
    hide Next, Enabled, Timely, LateRun;
    assert s == LateStates(subject, payload, msgId, late)[0];
    var stream := Exec(s, run).stream;
    if late > 120_000_000_000 {
      assert stream[0].msgId == stream[1].msgId;
    }
    assert Safe(s);
    UniqueIffTimely(s, run);
  }

  lemma OneStepEarlier<P>(s: State<P>, step: Step<P>, run: seq<Step<P>>)
    requires Valid(s) && Enabled(s, step) && Valid(Next(s, step)) && Runs(Next(s, step), run)
    ensures Runs(s, [step] + run) && Exec(s, [step] + run) == Exec(Next(s, step), run)
  {
    hide Valid, Enabled, Next;
    assert ([step] + run)[1..] == run;
  }
}
