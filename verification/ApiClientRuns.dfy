/**
 One browser tab against the refresh endpoint, whose lookup, check, revoke and issue are separate
 steps that interleave with everything else.
 */
module ApiClientRuns {
  import opened Common
  import opened ApiClient

  /** How far the server has got with one refresh request; Answer(None) is any failure. */
  datatype Stage = Received | Found(revoked: bool) | Checked | Rotating | Answer(token: Option<nat>)

  datatype Request = Request(token: nat, stage: Stage)

  /**
   What happened so far, recorded for the theorems and read by no step.  spent: tokens logged out or
   rotated away; late: requests looked up after their token was spent; overtaken: one of those reached
   the check; abandoned: tokens whose refresh a reload cut off; resent: one of those was sent again.
   */
  datatype History = History(spent: set<nat>, late: set<nat>, overtaken: bool, abandoned: set<nat>, resent: bool)

  /**
   requests[i] answers the i-th refresh token the client ever sent.  records says of each stored
   token whether it is revoked; mail holds login answers on their way to the client.
   */
  datatype System = System(
    client: Client,
    records: map<nat, bool>,
    requests: seq<Request>,
    mail: set<nat>,
    next: nat,
    contained: nat,
    past: History
  )

  /** A logout may reach the server long after it was sent, so it may name any stored token. */
  datatype Step =
    | StartCall(id: nat, skipAuth: bool)
    | CallAnswered(id: nat, unauthorized: bool)
    | RetryAnswers(id: nat, unauthorized: bool)
    | RefreshSettles(delivered: bool)
    | LoginDelivered(token: nat)
    | ClearTokens
    | Reload
    | ServerLogin
    | ServerFind(r: nat)
    | ServerCheck(r: nat)
    | ServerRevoke(r: nat)
    | ServerIssue(r: nat)
    | ServerFails(r: nat)
    | ServerLogout(token: nat)

  predicate AtStage(s: System, r: nat) {
    r < |s.requests| && !s.requests[r].stage.Answer?
  }

  predicate Enabled(s: System, step: Step) {
    match step
    case StartCall(id, _) => id !in s.client.calls
    case CallAnswered(id, _) => InPhase(s.client, id, First)
    case RetryAnswers(id, _) => InPhase(s.client, id, Retrying)
    case RefreshSettles(delivered) =>
      s.client.refreshPromise.Some? && s.requests != []
      && (delivered ==> s.requests[|s.requests| - 1].stage.Answer?)
    case LoginDelivered(t) => t in s.mail
    case ClearTokens => true
    case Reload => true
    case ServerLogin => true
    case ServerFind(r) => AtStage(s, r) && s.requests[r].stage.Received?
    case ServerCheck(r) => AtStage(s, r) && s.requests[r].stage.Found?
    case ServerRevoke(r) => AtStage(s, r) && s.requests[r].stage.Checked?
    case ServerIssue(r) => AtStage(s, r) && s.requests[r].stage.Rotating?
    case ServerFails(r) => AtStage(s, r)
    case ServerLogout(t) => t in s.records
  }

  function At(s: System, r: nat, stage: Stage): System
    requires r < |s.requests|
  {
    s.(requests := s.requests[r := s.requests[r].(stage := stage)])
  }

  function RevokeAll(records: map<nat, bool>): map<nat, bool> {
    map t | t in records :: true
  }

  function Recorded(s: System, step: Step): History
    requires Enabled(s, step)
  {
    var h := s.past;
    match step
    case CallAnswered(id, unauthorized) =>
      if |Answered(s.client, id, unauthorized).sent| > |s.client.sent| && s.client.refreshToken.Some?
      then h.(resent := h.resent || s.client.refreshToken.value in h.abandoned)
      else h
    case Reload =>
      if s.client.refreshPromise.Some? then h.(abandoned := h.abandoned + {s.client.refreshPromise.value}) else h
    case ServerLogout(t) => h.(spent := h.spent + {t})
    case ServerRevoke(r) => h.(spent := h.spent + {s.requests[r].token})
    case ServerFind(r) => if s.requests[r].token in h.spent then h.(late := h.late + {r}) else h
    case ServerCheck(r) => h.(overtaken := h.overtaken || r in h.late)
    case _ => h
  }

  function Next(s: System, step: Step): System
    requires Enabled(s, step)
  {
    Moved(s, step).(past := Recorded(s, step))
  }

  function Moved(s: System, step: Step): System
    requires Enabled(s, step)
  {
    match step
    case StartCall(id, skipAuth) => s.(client := Started(s.client, id, skipAuth))
    case CallAnswered(id, unauthorized) =>
      var c := Answered(s.client, id, unauthorized);
      if |c.sent| == |s.client.sent| then s.(client := c)
      else s.(client := c, requests := s.requests + [Request(c.sent[|c.sent| - 1], Received)])
    case RetryAnswers(id, unauthorized) => s.(client := RetryAnswered(s.client, id, unauthorized))
    case RefreshSettles(delivered) =>
      s.(client := Settled(s.client, if delivered then s.requests[|s.requests| - 1].stage.token else None))
    case LoginDelivered(t) => s.(client := s.client.(refreshToken := Some(t)), mail := s.mail - {t})
    case ClearTokens => s.(client := s.client.(refreshToken := None))
    case Reload => s.(client := Reloaded(s.client), mail := {})
    case ServerLogin => s.(records := s.records[s.next := false], mail := s.mail + {s.next}, next := s.next + 1)
    case ServerFind(r) =>
      var t := s.requests[r].token;
      At(s, r, if t in s.records then Found(s.records[t]) else Answer(None))
    case ServerCheck(r) =>
      if s.requests[r].stage.revoked
      then At(s, r, Answer(None)).(records := RevokeAll(s.records), contained := s.contained + 1)
      else At(s, r, Checked)
    case ServerRevoke(r) => At(s, r, Rotating).(records := s.records[s.requests[r].token := true])
    case ServerIssue(r) => At(s, r, Answer(Some(s.next))).(records := s.records[s.next := false], next := s.next + 1)
    case ServerFails(r) => At(s, r, Answer(None))
    case ServerLogout(t) => s.(records := s.records[t := true])
  }

  ghost predicate Runs(s: System, run: seq<Step>)
    decreases |run|
  {
    run != [] ==> Enabled(s, run[0]) && Runs(Next(s, run[0]), run[1..])
  }

  function Exec(s: System, run: seq<Step>): System
    requires Runs(s, run)
    decreases |run|
  {
    if run == [] then s else Exec(Next(s, run[0]), run[1..])
  }

  const INITIAL: System :=
    System(Client(None, None, map[], [], 0), map[], [], {}, 0, 0, History({}, {}, false, {}, false))

  // ---------- The client's side ----------

  /** The request the client is waiting for has been answered with this token but not yet delivered. */
  ghost predicate Undelivered(s: System, t: nat) {
    s.client.refreshPromise.Some? && s.requests != [] && s.requests[|s.requests| - 1].stage == Answer(Some(t))
  }

  ghost predicate CallsInv(c: Client) {
    && (forall id :: id in c.calls && (c.calls[id].phase.First? || c.calls[id].phase.Waiting?) ==>
        c.calls[id].requests == 1)
    && (forall id :: id in c.calls && c.calls[id].phase.Retrying? ==> c.calls[id].requests == 2)
    && (forall id :: id in c.calls && c.calls[id].phase.Waiting? ==> c.refreshPromise.Some?)
    && (forall id :: id in c.calls ==> 1 <= c.calls[id].requests <= 2)
    && |c.sent| == c.settled + (if c.refreshPromise.Some? then 1 else 0)
  }

  ghost predicate SentInv(s: System) {
    && |s.requests| == |s.client.sent|
    && (forall i :: 0 <= i < |s.requests| ==> s.requests[i].token == s.client.sent[i])
    && (s.client.refreshPromise.Some? ==>
          s.client.sent != [] && s.client.sent[|s.client.sent| - 1] == s.client.refreshPromise.value)
  }

  /**
   Tokens on their way to the client were never sent and are not what it holds.  What it holds was
   sent only if it is being exchanged, or was when the page was reloaded.
   */
  ghost predicate FreshInv(s: System) {
    && (forall t :: t in s.client.sent ==> t < s.next)
    && (forall t :: t in s.mail ==> t < s.next && t !in s.client.sent && s.client.refreshToken != Some(t))
    && (forall t: nat :: Undelivered(s, t) ==>
          t < s.next && t !in s.client.sent && t !in s.mail && s.client.refreshToken != Some(t))
    && (s.client.refreshToken.Some? ==>
          var t := s.client.refreshToken.value;
          t < s.next && (t in s.client.sent ==> s.client.refreshPromise == Some(t) || t in s.past.abandoned))
  }

  /** A token is sent twice exactly when an abandoned one is sent again. */
  ghost predicate OnceInv(s: System) {
    && (forall t :: t in s.past.abandoned ==> t in s.client.sent)
    && (Distinct(s.client.sent) <==> !s.past.resent)
  }

  ghost predicate ClientInv(s: System) {
    CallsInv(s.client) && SentInv(s) && FreshInv(s) && OnceInv(s)
  }

  predicate ClientSide(step: Step) {
    || step.StartCall? || step.CallAnswered? || step.RetryAnswers? || step.RefreshSettles? || step.LoginDelivered?
    || step.ClearTokens? || step.Reload?
  }

  lemma CallsStep(s: System, step: Step)
    requires CallsInv(s.client) && Enabled(s, step)
    ensures CallsInv(Next(s, step).client)
  {
    match step
    case CallAnswered(id, unauthorized) => AnsweredKeepsCalls(s.client, id, unauthorized);
    case RefreshSettles(_) => SettledKeepsCalls(s.client, Next(s, step).client.refreshToken);
    case _ =>
  }

  lemma AnsweredKeepsCalls(c: Client, id: nat, unauthorized: bool)
    requires CallsInv(c) && InPhase(c, id, First)
    ensures CallsInv(Answered(c, id, unauthorized))
  {
  }

  lemma SettledKeepsCalls(c: Client, result: Option<nat>)
    requires CallsInv(c) && c.refreshPromise.Some?
    ensures CallsInv(Settled(c, result))
  {
  }

  lemma SentClientStep(s: System, step: Step)
    requires SentInv(s) && Enabled(s, step) && ClientSide(step)
    ensures SentInv(Next(s, step))
  {
    hide Resumed, Recorded;
  }

  lemma SentServerStep(s: System, step: Step)
    requires SentInv(s) && Enabled(s, step) && !ClientSide(step)
    ensures SentInv(Next(s, step))
  {
    hide Recorded;
  }

  lemma FreshAnswered(s: System, id: nat, unauthorized: bool)
    requires SentInv(s) && FreshInv(s) && InPhase(s.client, id, First)
    ensures FreshInv(Next(s, CallAnswered(id, unauthorized)))
  {
  }

  lemma FreshReloaded(s: System)
    requires SentInv(s) && FreshInv(s)
    ensures FreshInv(Next(s, Reload))
  {
  }

  lemma FreshClientStep(s: System, step: Step)
    requires SentInv(s) && FreshInv(s) && Enabled(s, step) && ClientSide(step)
    ensures FreshInv(Next(s, step))
  {
    hide Resumed, Answered;
    match step
    case CallAnswered(id, unauthorized) => FreshAnswered(s, id, unauthorized);
    case Reload => FreshReloaded(s);
    case _ =>
  }

  /** A token just issued has been sent, stored or mailed by nobody. */
  lemma FreshIssued(s: System, step: Step)
    requires SentInv(s) && FreshInv(s) && Enabled(s, step) && (step.ServerIssue? || step.ServerLogin?)
    ensures FreshInv(Next(s, step))
  {
  }

  lemma FreshServerStep(s: System, step: Step)
    requires SentInv(s) && FreshInv(s) && Enabled(s, step) && !ClientSide(step)
    ensures FreshInv(Next(s, step))
  {
    if step.ServerIssue? || step.ServerLogin? {
      FreshIssued(s, step);
    } else {
      var t := Next(s, step);
      assert forall k: nat :: Undelivered(t, k) ==> Undelivered(s, k);
    }
  }

  lemma OnceStep(s: System, step: Step)
    requires SentInv(s) && FreshInv(s) && OnceInv(s) && Enabled(s, step)
    ensures OnceInv(Next(s, step))
  {
    hide Distinct, Resumed;
    if step.CallAnswered? && s.client.refreshToken.Some? {
      DistinctSnoc(s.client.sent, s.client.refreshToken.value);
    }
  }

  lemma StepKeepsClientInv(s: System, step: Step)
    requires ClientInv(s) && Enabled(s, step)
    ensures ClientInv(Next(s, step))
  {
    hide CallsInv, SentInv, FreshInv, OnceInv, Next, Enabled;
    CallsStep(s, step);
    OnceStep(s, step);
    if ClientSide(step) {
      SentClientStep(s, step);
      FreshClientStep(s, step);
    } else {
      SentServerStep(s, step);
      FreshServerStep(s, step);
    }
  }

  // ---------- The server's side ----------

  /** Until containment the revoked records are the spent tokens, and a lookup saw that. */
  ghost predicate ServerInv(s: System) {
    && (forall t :: t in s.records ==> t < s.next)
    && (forall t :: t in s.past.spent ==> t in s.records && s.records[t])
    && (s.contained == 0 ==> forall t :: t in s.records && s.records[t] ==> t in s.past.spent)
    && (forall i :: 0 <= i < |s.requests| && !s.requests[i].stage.Received? && !s.requests[i].stage.Answer? ==>
          s.requests[i].token in s.records)
    && (forall i :: 0 <= i < |s.requests| && s.requests[i].stage.Received? ==> i !in s.past.late)
    && (s.contained == 0 ==>
          forall i :: 0 <= i < |s.requests| && s.requests[i].stage.Found? ==>
              (s.requests[i].stage.revoked <==> i in s.past.late))
    && (forall i :: i in s.past.late ==> i < |s.requests|)
    && (s.contained > 0 <==> s.past.overtaken)
  }

  lemma ServerClientStep(s: System, step: Step)
    requires ServerInv(s) && Enabled(s, step) && ClientSide(step)
    ensures ServerInv(Next(s, step))
  {
    hide Resumed;
  }

  lemma ServerLooksUp(s: System, r: nat)
    requires ServerInv(s) && Enabled(s, ServerFind(r))
    ensures ServerInv(Next(s, ServerFind(r)))
  {
  }

  lemma ServerChecks(s: System, r: nat)
    requires ServerInv(s) && Enabled(s, ServerCheck(r))
    ensures ServerInv(Next(s, ServerCheck(r)))
  {
  }

  lemma ServerSpends(s: System, step: Step)
    requires ServerInv(s) && Enabled(s, step) && (step.ServerRevoke? || step.ServerLogout?)
    ensures ServerInv(Next(s, step))
  {
  }

  lemma ServerServerStep(s: System, step: Step)
    requires ServerInv(s) && Enabled(s, step) && !ClientSide(step)
    ensures ServerInv(Next(s, step))
  {
    match step {
      case ServerFind(r) => ServerLooksUp(s, r);
      case ServerCheck(r) => ServerChecks(s, r);
      case ServerRevoke(_) => ServerSpends(s, step);
      case ServerLogout(_) => ServerSpends(s, step);
      case _ =>
        hide RevokeAll, Answered, Settled, Started, RetryAnswered, Reloaded;
    }
  }

  ghost predicate Inv(s: System) {
    ClientInv(s) && ServerInv(s)
  }

  lemma StepKeepsInv(s: System, step: Step)
    requires Inv(s) && Enabled(s, step)
    ensures Inv(Next(s, step))
  {
    hide ClientInv, ServerInv, Next, Enabled;
    StepKeepsClientInv(s, step);
    if ClientSide(step) {
      ServerClientStep(s, step);
    } else {
      ServerServerStep(s, step);
    }
  }

  lemma {:induction false} RunKeepsInv(s: System, run: seq<Step>)
    requires Inv(s) && Runs(s, run)
    ensures Inv(Exec(s, run))
    decreases |run|
  {
    hide Inv, Next, Enabled;
    if run != [] {
      StepKeepsInv(s, run[0]);
      RunKeepsInv(Next(s, run[0]), run[1..]);
    }
  }

  lemma InitialInv()
    ensures Inv(INITIAL)
  {
  }

  // ---------- Prefixes of a run ----------

  lemma {:induction false} PrefixRuns(s: System, run: seq<Step>, n: nat)
    requires Runs(s, run) && n < |run|
    ensures Runs(s, run[..n]) && Enabled(Exec(s, run[..n]), run[n])
    ensures Runs(s, run[..n + 1]) && Exec(s, run[..n + 1]) == Next(Exec(s, run[..n]), run[n])
    decreases n
  {
    hide Next, Enabled;
    if n == 0 {
      assert run[..1] == [run[0]] && run[..1][1..] == [];
      assert Runs(Next(s, run[0]), []);
    } else {
      PrefixRuns(Next(s, run[0]), run[1..], n - 1);
      assert run[..n][1..] == run[1..][..n - 1] && run[..n + 1][1..] == run[1..][..n];
    }
  }

  lemma {:induction false} PrefixOf(s: System, run: seq<Step>, n: nat)
    requires Runs(s, run) && n <= |run|
    ensures Runs(s, run[..n])
  {
    if n < |run| {
      PrefixRuns(s, run, n);
    } else {
      assert run[..n] == run;
    }
  }

  /** The state after the first n steps. */
  ghost function After(run: seq<Step>, n: nat): System
    requires Runs(INITIAL, run) && n <= |run|
  {
    PrefixOf(INITIAL, run, n);
    Exec(INITIAL, run[..n])
  }

  lemma AfterStep(run: seq<Step>, n: nat)
    requires Runs(INITIAL, run) && n < |run|
    ensures Enabled(After(run, n), run[n]) && After(run, n + 1) == Next(After(run, n), run[n])
  {
    hide Next, Enabled;
    PrefixRuns(INITIAL, run, n);
  }

  lemma AfterInv(run: seq<Step>, n: nat)
    requires Runs(INITIAL, run) && n <= |run|
    ensures Inv(After(run, n))
  {
    hide Inv;
    PrefixOf(INITIAL, run, n);
    InitialInv();
    RunKeepsInv(INITIAL, run[..n]);
  }

  lemma AfterAll(run: seq<Step>)
    requires Runs(INITIAL, run)
    ensures After(run, |run|) == Exec(INITIAL, run)
  {
    assert run[..|run|] == run;
  }

  lemma {:induction false} SentGrows(run: seq<Step>, n: nat, m: nat)
    requires Runs(INITIAL, run) && n <= m <= |run|
    ensures After(run, n).client.sent <= After(run, m).client.sent
    decreases m - n
  {
    hide After;
    if n < m {
      AfterStep(run, n);
      SentGrows(run, n + 1, m);
      hide Enabled, Settled, Started, RetryAnswered;
      OneMoreSent(After(run, n), run[n]);
    }
  }

  lemma OneMoreSent(s: System, step: Step)
    requires Enabled(s, step)
    ensures s.client.sent <= Next(s, step).client.sent
  {
    hide Recorded, Resumed;
  }

  // ---------- What the recorded past means ----------

  /** The step logs the token out, or rotates it away; toks[r] is the token of request r. */
  predicate Spends(step: Step, toks: seq<nat>, t: nat) {
    step == ServerLogout(t) || (step.ServerRevoke? && step.r < |toks| && toks[step.r] == t)
  }

  ghost predicate SpentBefore(run: seq<Step>, toks: seq<nat>, n: nat, t: nat) {
    exists i :: 0 <= i < n <= |run| && Spends(run[i], toks, t)
  }

  /** Request r was looked up when its token had been spent. */
  ghost predicate LateBefore(run: seq<Step>, toks: seq<nat>, n: nat, r: nat) {
    exists j :: 0 <= j < n <= |run| && run[j] == ServerFind(r) && r < |toks| && SpentBefore(run, toks, j, toks[r])
  }

  ghost predicate OvertakenBefore(run: seq<Step>, toks: seq<nat>, n: nat) {
    exists k :: 0 <= k < n <= |run| && run[k].ServerCheck? && LateBefore(run, toks, k, run[k].r)
  }

  ghost predicate PastMeans(h: History, run: seq<Step>, toks: seq<nat>, n: nat) {
    && (forall t :: t in h.spent <==> SpentBefore(run, toks, n, t))
    && (forall r :: r in h.late <==> LateBefore(run, toks, n, r))
    && (h.overtaken <==> OvertakenBefore(run, toks, n))
  }

  lemma SpentStep(run: seq<Step>, toks: seq<nat>, n: nat, t: nat)
    requires n < |run|
    ensures SpentBefore(run, toks, n + 1, t) <==> SpentBefore(run, toks, n, t) || Spends(run[n], toks, t)
  {
    hide Spends;
  }

  lemma LateStep(run: seq<Step>, toks: seq<nat>, n: nat, r: nat)
    requires n < |run|
    ensures LateBefore(run, toks, n + 1, r)
       <==> LateBefore(run, toks, n, r) || (run[n] == ServerFind(r) && r < |toks| && SpentBefore(run, toks, n, toks[r]))
  {
    hide SpentBefore;
  }

  lemma OvertakenStep(run: seq<Step>, toks: seq<nat>, n: nat)
    requires n < |run|
    ensures OvertakenBefore(run, toks, n + 1)
       <==> OvertakenBefore(run, toks, n) || (run[n].ServerCheck? && LateBefore(run, toks, n, run[n].r))
  {
    hide LateBefore;
  }

  /** One step's record against one more step of the run. */
  lemma RecordedMeans(s: System, run: seq<Step>, toks: seq<nat>, n: nat)
    requires n < |run| && SentInv(s) && Enabled(s, run[n]) && s.client.sent <= toks
    requires PastMeans(s.past, run, toks, n)
    ensures PastMeans(Recorded(s, run[n]), run, toks, n + 1)
  {
    hide SpentBefore, LateBefore, OvertakenBefore, Answered;
    var h := Recorded(s, run[n]);
    assert forall r :: 0 <= r < |s.requests| ==> r < |toks| && toks[r] == s.requests[r].token;
    forall t
      ensures t in h.spent <==> SpentBefore(run, toks, n + 1, t)
    {
      SpentStep(run, toks, n, t);
    }
    forall r
      ensures r in h.late <==> LateBefore(run, toks, n + 1, r)
    {
      LateStep(run, toks, n, r);
    }
    OvertakenStep(run, toks, n);
  }

  /** The step makes the client send token t to the refresh endpoint. */
  predicate SendsRefresh(s: System, step: Step, t: nat) {
    && step.CallAnswered? && InPhase(s.client, step.id, First) && step.unauthorized
    && !s.client.calls[step.id].skipAuth && s.client.refreshPromise.None? && s.client.refreshToken == Some(t)
  }

  /** A reload cut off the exchange of t. */
  ghost predicate AbandonedBefore(run: seq<Step>, n: nat, t: nat)
    requires Runs(INITIAL, run)
  {
    exists i :: 0 <= i < n <= |run| && run[i].Reload? && After(run, i).client.refreshPromise == Some(t)
  }

  /** A token whose exchange a reload cut off stayed in local storage and was sent again. */
  ghost predicate ResentBefore(run: seq<Step>, n: nat)
    requires Runs(INITIAL, run)
  {
    exists j, t :: 0 <= j < n <= |run| && SendsRefresh(After(run, j), run[j], t) && AbandonedBefore(run, j, t)
  }

  lemma AbandonedStep(run: seq<Step>, n: nat, t: nat)
    requires Runs(INITIAL, run) && n < |run|
    ensures AbandonedBefore(run, n + 1, t)
       <==> AbandonedBefore(run, n, t) || (run[n].Reload? && After(run, n).client.refreshPromise == Some(t))
  {
    hide After;
  }

  lemma ResentStep(run: seq<Step>, n: nat)
    requires Runs(INITIAL, run) && n < |run|
    ensures ResentBefore(run, n + 1)
       <==> ResentBefore(run, n) || exists t :: SendsRefresh(After(run, n), run[n], t) && AbandonedBefore(run, n, t)
  {
    hide After, SendsRefresh, AbandonedBefore;
  }

  lemma RecordedResent(s: System, step: Step)
    requires Enabled(s, step)
    ensures forall t :: t in Recorded(s, step).abandoned
              <==> t in s.past.abandoned || (step.Reload? && s.client.refreshPromise == Some(t))
    ensures Recorded(s, step).resent <==> s.past.resent || exists t :: SendsRefresh(s, step, t) && t in s.past.abandoned
  {
    if s.client.refreshToken.Some? {
      assert Recorded(s, step).resent && !s.past.resent ==> SendsRefresh(s, step, s.client.refreshToken.value);
    }
  }

  lemma {:induction false} ResentMeans(run: seq<Step>, n: nat)
    requires Runs(INITIAL, run) && n <= |run|
    ensures forall t :: t in After(run, n).past.abandoned <==> AbandonedBefore(run, n, t)
    ensures After(run, n).past.resent <==> ResentBefore(run, n)
  {
    if n == 0 {
      assert run[..0] == [];
    } else {
      hide After, Recorded, Enabled, Moved, SendsRefresh, AbandonedBefore, ResentBefore;
      var s := After(run, n - 1);
      ResentMeans(run, n - 1);
      AfterStep(run, n - 1);
      RecordedResent(s, run[n - 1]);
      ResentStep(run, n - 1);
      forall t
        ensures t in After(run, n).past.abandoned <==> AbandonedBefore(run, n, t)
      {
        AbandonedStep(run, n - 1, t);
      }
    }
  }

  lemma {:induction false} PastMeansWhatHappened(run: seq<Step>, n: nat)
    requires Runs(INITIAL, run) && n <= |run|
    ensures PastMeans(After(run, n).past, run, Exec(INITIAL, run).client.sent, n)
  {
    hide After, Recorded, Enabled, PastMeans, Moved;
    var toks := Exec(INITIAL, run).client.sent;
    if n == 0 {
      NothingPast(run, toks);
    } else {
      PastMeansWhatHappened(run, n - 1);
      AfterStep(run, n - 1);
      AfterInv(run, n - 1);
      AfterAll(run);
      SentGrows(run, n - 1, |run|);
      RecordedMeans(After(run, n - 1), run, toks, n - 1);
    }
  }

  lemma NothingPast(run: seq<Step>, toks: seq<nat>)
    requires Runs(INITIAL, run)
    ensures PastMeans(After(run, 0).past, run, toks, 0)
  {
    assert run[..0] == [];
  }

  // ---------- Main results ----------

  /**
   Any interleaving of calls, answers, logins, logouts and reloads in one tab: at most one refresh is
   in flight at any time and no call makes more than two requests.  A refresh token is sent twice exactly
   when one whose refresh a reload cut off, and which stayed in local storage, is sent again.
   */
  lemma SingleFlight(run: seq<Step>)
    requires Runs(INITIAL, run)
    ensures var s := Exec(INITIAL, run);
            var c := s.client;
            && (Distinct(c.sent) <==> !ResentBefore(run, |run|))
            && c.settled <= |c.sent| <= c.settled + 1
            && (|c.sent| == c.settled + 1 <==> c.refreshPromise.Some?)
            && forall id :: id in c.calls ==> c.calls[id].requests <= 2
  {
    hide SentInv, FreshInv, ServerInv, Next, Enabled, Distinct, ResentBefore;
    InitialInv();
    RunKeepsInv(INITIAL, run);
    ResentMeans(run, |run|);
    AfterAll(run);
  }

  /** The refresh's answer brings a token. */
  predicate Brings(s: System, step: Step)
    requires Enabled(s, step)
  {
    step == RefreshSettles(true) && s.requests[|s.requests| - 1].stage.token.Some?
  }

  /** The calls after a settlement, and whether a token is stored then. */
  ghost predicate GoesOn(s: System, step: Step, t: System)
    requires Enabled(s, step)
  {
    var before, after := s.client.calls, t.client.calls;
    && after.Keys == before.Keys
    && (forall id :: id in before && !before[id].phase.Waiting? ==> after[id] == before[id])
    && (forall id :: id in before && before[id].phase.Waiting? ==>
          && after[id].phase == (if Brings(s, step) then Retrying else Finished)
          && after[id].requests == (if Brings(s, step) then 2 else 1))
    && (t.client.refreshToken.Some? <==> Brings(s, step))
  }

  lemma SettlementGoesOn(s: System, delivered: bool)
    requires CallsInv(s.client) && Enabled(s, RefreshSettles(delivered))
    ensures GoesOn(s, RefreshSettles(delivered), Next(s, RefreshSettles(delivered)))
  {
    hide Recorded;
  }

  /**
   Over every run: when a refresh settles, every call that waits goes on, with its second request if a token
   came and to its end if none did; calls that do not wait are left alone.
   */
  lemma WaitingCallsGoOn(run: seq<Step>, delivered: bool)
    requires Runs(INITIAL, run) && Enabled(Exec(INITIAL, run), RefreshSettles(delivered))
    ensures var s, step := Exec(INITIAL, run), RefreshSettles(delivered); GoesOn(s, step, Next(s, step))
  {
    hide CallsInv, SentInv, FreshInv, OnceInv, ServerInv, Enabled, Next, GoesOn;
    InitialInv();
    RunKeepsInv(INITIAL, run);
    SettlementGoesOn(Exec(INITIAL, run), delivered);
  }

  /** And no call waits without a refresh in flight. */
  lemma NoCallWaitsAlone(run: seq<Step>, id: nat)
    requires Runs(INITIAL, run)
    ensures var c := Exec(INITIAL, run).client;
            id in c.calls && c.calls[id].phase.Waiting? ==> c.refreshPromise.Some?
  {
    hide SentInv, FreshInv, OnceInv, ServerInv, Next, Enabled;
    InitialInv();
    RunKeepsInv(INITIAL, run);
  }

  /** What a call's first answer does: it ends the call, or, a 401 that some refresh may heal, makes it wait. */
  lemma FirstAnswerDecides(s: System, id: nat, unauthorized: bool)
    requires CallsInv(s.client) && Enabled(s, CallAnswered(id, unauthorized))
    ensures var before, after := s.client, Next(s, CallAnswered(id, unauthorized)).client;
            var waits := unauthorized && !before.calls[id].skipAuth
                         && (before.refreshPromise.Some? || before.refreshToken.Some?);
            && after.calls[id].phase == (if waits then Waiting else Finished)
            && after.calls[id].requests == 1
            && (forall k :: k in before.calls && k != id ==> k in after.calls && after.calls[k] == before.calls[k])
            && (after.sent != before.sent <==> waits && before.refreshPromise.None?)
  {
  }

  /**
   The stored token is dropped by a logout here, a 401 without retry, a 401 on retry, a failed refresh, and by
   nothing else.
   */
  lemma DroppedOnlyThen(s: System, step: Step)
    requires Enabled(s, step) && s.client.refreshToken.Some?
    ensures Next(s, step).client.refreshToken.None? <==>
      || step.ClearTokens?
      || (step.CallAnswered? && step.unauthorized && s.client.calls[step.id].skipAuth)
      || (step.RetryAnswers? && step.unauthorized)
      || (step.RefreshSettles? && !Brings(s, step))
  {
    hide Recorded, Resumed;
  }

  /**
   The server takes a refresh for a replay exactly when a request is checked that was looked up after
   its token had been logged out or rotated away.
   */
  lemma ContainedIffOvertaken(run: seq<Step>)
    requires Runs(INITIAL, run)
    ensures Exec(INITIAL, run).contained > 0 <==> OvertakenBefore(run, Exec(INITIAL, run).client.sent, |run|)
  {
    hide ClientInv, Next, Enabled, OvertakenBefore;
    InitialInv();
    RunKeepsInv(INITIAL, run);
    PastMeansWhatHappened(run, |run|);
    AfterAll(run);
  }

  /** Steps i, j and k: a token is logged out, the request carrying it is looked up, and then checked. */
  ghost predicate LogoutOvertakesAt(run: seq<Step>, toks: seq<nat>, i: nat, j: nat, k: nat) {
    && i < j < k < |run| && run[k].ServerCheck? && run[k].r < |toks|
    && run[i] == ServerLogout(toks[run[k].r]) && run[j] == ServerFind(run[k].r)
  }

  ghost predicate LogoutOvertakes(run: seq<Step>, toks: seq<nat>) {
    exists i, j, k :: LogoutOvertakesAt(run, toks, i, j, k)
  }

  ghost predicate PastLookup(s: System, r: nat) {
    r < |s.requests| && (s.requests[r].stage.Rotating? || s.requests[r].stage.Answer?)
  }

  lemma PastLookupStays(s: System, step: Step, r: nat)
    requires Enabled(s, step) && (PastLookup(s, r) || step == ServerRevoke(r))
    ensures PastLookup(Next(s, step), r)
  {
    hide Recorded, Answered, Settled, Started, RetryAnswered, RevokeAll;
  }

  /** A request that was rotated is past its lookup for good. */
  lemma {:induction false} RotatedStays(run: seq<Step>, i: nat, n: nat, r: nat)
    requires Runs(INITIAL, run) && i < n <= |run| && run[i] == ServerRevoke(r)
    ensures PastLookup(After(run, n), r)
  {
    hide After, Next, Enabled, PastLookup;
    AfterStep(run, n - 1);
    if i < n - 1 {
      RotatedStays(run, i, n - 1, r);
    }
    PastLookupStays(After(run, n - 1), run[n - 1], r);
  }

  lemma NoLookupAfterRotation(run: seq<Step>, i: nat, j: nat, r: nat)
    requires Runs(INITIAL, run) && i < j < |run| && run[i] == ServerRevoke(r)
    ensures run[j] != ServerFind(r)
  {
    hide After, Next;
    RotatedStays(run, i, j, r);
    AfterStep(run, j);
  }

  lemma LogoutOvertaken(run: seq<Step>, toks: seq<nat>, i: nat, j: nat, k: nat)
    requires LogoutOvertakesAt(run, toks, i, j, k)
    ensures OvertakenBefore(run, toks, |run|)
  {
    var r := run[k].r;
    assert Spends(run[i], toks, toks[r]);
    assert SpentBefore(run, toks, j, toks[r]);
    assert LateBefore(run, toks, k, r);
  }

  lemma OvertakingLogout(run: seq<Step>, k: nat)
    requires Runs(INITIAL, run) && Distinct(Exec(INITIAL, run).client.sent)
    requires k < |run| && run[k].ServerCheck? && LateBefore(run, Exec(INITIAL, run).client.sent, k, run[k].r)
    ensures LogoutOvertakes(run, Exec(INITIAL, run).client.sent)
  {
    hide Enabled, Runs, Exec;
    var toks := Exec(INITIAL, run).client.sent;
    var r := run[k].r;
    var j :| 0 <= j < k && run[j] == ServerFind(r) && r < |toks| && SpentBefore(run, toks, j, toks[r]);
    var i :| 0 <= i < j && Spends(run[i], toks, toks[r]);
    if run[i].ServerRevoke? {
      assert run[i].r == r;
      NoLookupAfterRotation(run, i, j, r);
    }
    assert LogoutOvertakesAt(run, toks, i, j, k);
  }

  /** When no token is sent twice, only a logout can overtake. */
  lemma OvertakenByLogout(run: seq<Step>)
    requires Runs(INITIAL, run) && Distinct(Exec(INITIAL, run).client.sent)
    ensures var toks := Exec(INITIAL, run).client.sent;
            OvertakenBefore(run, toks, |run|) <==> LogoutOvertakes(run, toks)
  {
    hide LateBefore, LogoutOvertakesAt, Runs, Exec, Distinct;
    var toks := Exec(INITIAL, run).client.sent;
    if OvertakenBefore(run, toks, |run|) {
      var k :| 0 <= k < |run| && run[k].ServerCheck? && LateBefore(run, toks, k, run[k].r);
      OvertakingLogout(run, k);
    }
    if LogoutOvertakes(run, toks) {
      var i: nat, j: nat, k: nat :| LogoutOvertakesAt(run, toks, i, j, k);
      LogoutOvertaken(run, toks, i, j, k);
    }
  }

  /**
   Unless a reload makes the client send an abandoned token again, the server takes a refresh for theft
   exactly when a logout of its token comes before its lookup and it is then checked.
   */
  lemma ContainedIffLogoutOvertakes(run: seq<Step>)
    requires Runs(INITIAL, run) && !ResentBefore(run, |run|)
    ensures Exec(INITIAL, run).contained > 0 <==> LogoutOvertakes(run, Exec(INITIAL, run).client.sent)
  {
    hide LogoutOvertakes, OvertakenBefore, Distinct, ResentBefore;
    SingleFlight(run);
    ContainedIffOvertaken(run);
    OvertakenByLogout(run);
  }

  /** Without logouts and resent tokens the server never sees a revoked token, however its steps interleave. */
  lemma NeverContained(run: seq<Step>)
    requires Runs(INITIAL, run) && !ResentBefore(run, |run|)
    requires forall i :: 0 <= i < |run| ==> !run[i].ServerLogout?
    ensures Exec(INITIAL, run).contained == 0
  {
    ContainedIffLogoutOvertakes(run);
  }

  /** Without reloads nothing is abandoned, so nothing is resent. */
  lemma OnlyReloadsResend(run: seq<Step>)
    requires Runs(INITIAL, run)
    requires forall i :: 0 <= i < |run| ==> !run[i].Reload?
    ensures !ResentBefore(run, |run|) && Distinct(Exec(INITIAL, run).client.sent)
  {
    hide After, SendsRefresh, Distinct;
    SingleFlight(run);
  }

  // ---------- The two failures, step by step ----------

  lemma RunsSnoc(s: System, run: seq<Step>, step: Step)
    requires Runs(s, run) && Enabled(Exec(s, run), step)
    ensures Runs(s, run + [step]) && Exec(s, run + [step]) == Next(Exec(s, run), step)
    decreases |run|
  {
    hide Next, Enabled;
    if run == [] {
      assert run + [step] == [step] && [step][1..] == [];
      assert Runs(Next(s, step), []);
    } else {
      assert (run + [step])[0] == run[0] && (run + [step])[1..] == run[1..] + [step];
      RunsSnoc(Next(s, run[0]), run[1..], step);
    }
  }

  /** A user logs in, a call is answered 401, and the refresh of token 0 is on its way. */
  lemma RefreshUnderWay() returns (run: seq<Step>)
    ensures Runs(INITIAL, run)
    ensures var s := Exec(INITIAL, run);
            && s.client.refreshToken == Some(0) && s.requests == [Request(0, Received)]
            && s.records == map[0 := false] && s.contained == 0
    ensures forall i :: 0 <= i < |run| ==> !run[i].ServerLogout? && !run[i].Reload?
  {
    hide Recorded;
    run := [];
    RunsSnoc(INITIAL, run, ServerLogin);
    run := run + [ServerLogin];
    RunsSnoc(INITIAL, run, LoginDelivered(0));
    run := run + [LoginDelivered(0)];
    RunsSnoc(INITIAL, run, StartCall(0, false));
    run := run + [StartCall(0, false)];
    RunsSnoc(INITIAL, run, CallAnswered(0, true));
    run := run + [CallAnswered(0, true)];
  }

  /** A logout that overtakes a refresh on its way makes the server treat that refresh as a replay. */
  lemma LogoutDuringRefreshIsContained() returns (run: seq<Step>)
    ensures Runs(INITIAL, run) && Exec(INITIAL, run).contained == 1
    ensures forall i :: 0 <= i < |run| ==> !run[i].Reload?
  {
    hide Recorded;
    run := RefreshUnderWay();
    RunsSnoc(INITIAL, run, ServerLogout(0));
    run := run + [ServerLogout(0)];
    RunsSnoc(INITIAL, run, ServerFind(0));
    run := run + [ServerFind(0)];
    RunsSnoc(INITIAL, run, ServerCheck(0));
    run := run + [ServerCheck(0)];
  }

  /** A reload while the server rotates leaves the old token in local storage; sending it again is a replay. */
  lemma ReloadDuringRefreshIsContained() returns (run: seq<Step>)
    ensures Runs(INITIAL, run) && Exec(INITIAL, run).contained == 1
    ensures forall i :: 0 <= i < |run| ==> !run[i].ServerLogout?
  {
    hide Recorded;
    run := RefreshUnderWay();
    RunsSnoc(INITIAL, run, Reload);
    run := run + [Reload];
    RunsSnoc(INITIAL, run, StartCall(0, false));
    run := run + [StartCall(0, false)];
    RunsSnoc(INITIAL, run, CallAnswered(0, true));
    run := run + [CallAnswered(0, true)];
    var rest := SharedTokenIsContained(Exec(INITIAL, run), 0, 1);
    RunsCompose(INITIAL, run, rest);
    run := run + rest;
  }

  lemma {:induction false} RunsCompose(s: System, xs: seq<Step>, ys: seq<Step>)
    requires Runs(s, xs) && Runs(Exec(s, xs), ys)
    ensures Runs(s, xs + ys) && Exec(s, xs + ys) == Exec(Exec(s, xs), ys)
    decreases |xs|
  {
    hide Next, Enabled;
    if xs == [] {
      assert xs + ys == ys;
    } else {
      assert (xs + ys)[1..] == xs[1..] + ys;
      RunsCompose(Next(s, xs[0]), xs[1..], ys);
    }
  }

  /** Two requests carrying one token, as without the shared promise, end in containment on some schedule. */
  lemma SharedTokenIsContained(s: System, i: nat, j: nat) returns (run: seq<Step>)
    requires i < |s.requests| && j < |s.requests| && i != j
    requires s.requests[i] == s.requests[j] && s.requests[i].stage.Received?
    requires s.requests[i].token in s.records && !s.records[s.requests[i].token]
    ensures Runs(s, run) && Exec(s, run).contained == s.contained + 1
    ensures forall i :: 0 <= i < |run| ==> !run[i].ServerLogout?
  {
    hide Recorded;
    run := [];
    RunsSnoc(s, run, ServerFind(i));
    run := run + [ServerFind(i)];
    RunsSnoc(s, run, ServerCheck(i));
    run := run + [ServerCheck(i)];
    RunsSnoc(s, run, ServerRevoke(i));
    run := run + [ServerRevoke(i)];
    RunsSnoc(s, run, ServerFind(j));
    run := run + [ServerFind(j)];
    RunsSnoc(s, run, ServerCheck(j));
    run := run + [ServerCheck(j)];
  }
}
