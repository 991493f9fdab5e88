/** A durable JetStream consumer: bounded redelivery, and silence after an acknowledgement. */
module Consumer {

  const MAX_DELIVER: nat := 10

  /** Attempts made so far on one message, and whether an acknowledgement reached the server. */
  datatype Track = Track(attempts: nat, acked: bool)

  datatype Step =
    | Arrive
    | Attempt(message: nat, handlerOk: bool, ackArrives: bool)

  predicate Deliverable(t: Track) {
    !t.acked && t.attempts < MAX_DELIVER
  }

  /** A handler error is answered with Nak; success with an Ack, which may get lost. */
  function Attempted(t: Track, handlerOk: bool, ackArrives: bool): Track {
    Track(t.attempts + 1, handlerOk && ackArrives)
  }

  predicate Enabled(tracks: seq<Track>, step: Step) {
    step.Attempt? ==> step.message < |tracks| && Deliverable(tracks[step.message])
  }

  function Next(tracks: seq<Track>, step: Step): seq<Track>
    requires Enabled(tracks, step)
  {
    match step
    case Arrive => tracks + [Track(0, false)]
    case Attempt(i, ok, ack) => tracks[i := Attempted(tracks[i], ok, ack)]
  }

  ghost predicate Runs(tracks: seq<Track>, run: seq<Step>)
    decreases |run|
  {
    run != [] ==> Enabled(tracks, run[0]) && Runs(Next(tracks, run[0]), run[1..])
  }

  ghost function Exec(tracks: seq<Track>, run: seq<Step>): seq<Track>
    requires Runs(tracks, run)
    decreases |run|
  {
    if run == [] then tracks else Exec(Next(tracks, run[0]), run[1..])
  }

  ghost predicate Bounded(tracks: seq<Track>) {
    forall i :: 0 <= i < |tracks| ==> tracks[i].attempts <= MAX_DELIVER
  }

  /** Attempts the server may still make. */
  function Remaining(tracks: seq<Track>): int {
    if tracks == [] then 0
    else
      var t := tracks[|tracks| - 1];
      Remaining(tracks[..|tracks| - 1]) + (if t.acked then 0 else MAX_DELIVER - t.attempts)
  }

  function Attempts(run: seq<Step>): nat {
    if run == [] then 0 else (if run[0].Attempt? then 1 else 0) + Attempts(run[1..])
  }

  function Arrivals(run: seq<Step>): nat {
    if run == [] then 0 else (if run[0].Arrive? then 1 else 0) + Arrivals(run[1..])
  }

  lemma {:induction false} RemainingUpdated(tracks: seq<Track>, i: nat, t: Track)
    requires i < |tracks|
    ensures Remaining(tracks[i := t])
         == Remaining(tracks) - (if tracks[i].acked then 0 else MAX_DELIVER - tracks[i].attempts)
            + (if t.acked then 0 else MAX_DELIVER - t.attempts)
  {
    var n := |tracks| - 1;
    if i < n {
      assert tracks[i := t][..n] == tracks[..n][i := t];
      RemainingUpdated(tracks[..n], i, t);
    } else {
      assert tracks[i := t][..n] == tracks[..n];
    }
  }

  lemma {:induction false} RemainingNonNegative(tracks: seq<Track>)
    requires Bounded(tracks)
    ensures Remaining(tracks) >= 0
  {
    if tracks != [] {
      RemainingNonNegative(tracks[..|tracks| - 1]);
    }
  }

  /**
   Every attempt spends from a budget of ten per message: no message is attempted more than ten
   times, and a run makes at most as many attempts as its messages had left.
   */
  lemma {:induction false} AttemptsAreBounded(tracks: seq<Track>, run: seq<Step>)
    requires Bounded(tracks) && Runs(tracks, run)
    ensures Bounded(Exec(tracks, run))
    ensures Attempts(run) + Remaining(Exec(tracks, run)) <= Remaining(tracks) + MAX_DELIVER * Arrivals(run)
    ensures Attempts(run) <= Remaining(tracks) + MAX_DELIVER * Arrivals(run)
    decreases |run|
  {
    if run == [] {
      RemainingNonNegative(tracks);
    } else {
      match run[0] {
        case Arrive =>
          assert (tracks + [Track(0, false)])[..|tracks|] == tracks;
        case Attempt(i, ok, ack) =>
          RemainingUpdated(tracks, i, Attempted(tracks[i], ok, ack));
      }
      AttemptsAreBounded(Next(tracks, run[0]), run[1..]);
      RemainingNonNegative(Exec(tracks, run));
    }
  }

  /** Once an acknowledgement has arrived the message's record never changes again: it is not handled again. */
  lemma {:induction false} NothingAfterAck(tracks: seq<Track>, run: seq<Step>, i: nat)
    requires Runs(tracks, run) && i < |tracks| && tracks[i].acked
    ensures i < |Exec(tracks, run)| && Exec(tracks, run)[i] == tracks[i]
    ensures forall k :: 0 <= k < |run| && run[k].Attempt? ==> run[k].message != i
    decreases |run|
  {
    if run != [] {
      NothingAfterAck(Next(tracks, run[0]), run[1..], i);
      forall k | 0 <= k < |run| && run[k].Attempt?
        ensures run[k].message != i
      {
        if k > 0 {
          assert run[1..][k - 1] == run[k];
        }
      }
    }
  }

  /** Attempts a run makes on message i. */
  function AttemptsOn(run: seq<Step>, i: nat): nat {
    if run == [] then 0 else (if run[0].Attempt? && run[0].message == i then 1 else 0) + AttemptsOn(run[1..], i)
  }

  function AttemptsBefore(tracks: seq<Track>, i: nat): nat {
    if i < |tracks| then tracks[i].attempts else 0
  }

  /** Some step of the run handles message i successfully and its acknowledgement arrives. */
  ghost predicate Settles(run: seq<Step>, i: nat) {
    exists k :: 0 <= k < |run| && run[k] == Attempt(i, true, true)
  }

  lemma SettlesFirst(run: seq<Step>, i: nat)
    requires run != []
    ensures Settles(run, i) <==> run[0] == Attempt(i, true, true) || Settles(run[1..], i)
  {
    if k :| 0 <= k < |run[1..]| && run[1..][k] == Attempt(i, true, true) {
      assert run[k + 1] == Attempt(i, true, true);
    }
    if k :| 0 < k < |run| && run[k] == Attempt(i, true, true) {
      assert run[1..][k - 1] == Attempt(i, true, true);
    }
  }

  /**
   Over every run a message ends acknowledged exactly when it began so or some handling of it succeeded with
   its acknowledgement arriving; every handling counts as one attempt, whatever came of it.
   */
  lemma {:induction false} AckedIffSettled(tracks: seq<Track>, run: seq<Step>, i: nat)
    requires Runs(tracks, run) && i < |Exec(tracks, run)|
    ensures Exec(tracks, run)[i].acked <==> (i < |tracks| && tracks[i].acked) || Settles(run, i)
    ensures Exec(tracks, run)[i].attempts == AttemptsBefore(tracks, i) + AttemptsOn(run, i)
    decreases |run|
  {
    if run != [] {
      var next := Next(tracks, run[0]);
      AckedIffSettled(next, run[1..], i);
      SettlesFirst(run, i);
      hide Settles, AttemptsOn;
    }
  }

  /**
   So a message whose handlings all failed, or whose acknowledgements were lost, is delivered again up to ten
   times.
   */
  lemma UnsettledIsRedelivered(tracks: seq<Track>, run: seq<Step>, i: nat)
    requires Runs(tracks, run) && i < |Exec(tracks, run)|
    requires i < |tracks| ==> !tracks[i].acked
    requires !Settles(run, i)
    ensures Deliverable(Exec(tracks, run)[i]) <==> AttemptsBefore(tracks, i) + AttemptsOn(run, i) < 10
  {
    AckedIffSettled(tracks, run, i);
  }
}
