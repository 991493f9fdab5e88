/**
 Deleting expired records at arbitrary moments changes nothing any caller can see: a simulation
 between the store the TTL monitor prunes and one that keeps every record for ever.
 */
module AuthReaping {
  import opened Calendar
  import opened Tokens
  import opened Auth
  import opened AuthRuns

  /** The same run with the TTL monitor switched off. */
  function WithoutReaps(run: seq<Step>): seq<Step> {
    if run == [] then []
    else (if run[0].Reap? then [] else [run[0]]) + WithoutReaps(run[1..])
  }

  /** The pruned store agrees with the full one except for records that have expired by now. */
  ghost predicate Pruned(pruned: Collection, full: Collection, now: Instant) {
    && pruned.Keys <= full.Keys
    && (forall h :: h in pruned ==> pruned[h] == full[h])
    && (forall h :: h in full && h !in pruned ==> full[h].expiresAt <= now)
  }

  /** The full store has the record of every refresh token it handed out. */
  ghost predicate KeepsAll(full: System, cfg: Config) {
    forall b :: b in full.handedOut && IsRefresh(cfg, b) ==> JtiHash(b.claims.jti) in full.core.col
  }

  ghost predicate Simulates(pruned: System, full: System, cfg: Config) {
    && Pruned(pruned.core.col, full.core.col, pruned.now)
    && pruned.core.next == full.core.next && pruned.users == full.users
    && pruned.handedOut == full.handedOut && pruned.chains == full.chains && pruned.refreshed == full.refreshed
    && full.now <= pruned.now
    && StoreInv(full, cfg) && KeepsAll(full, cfg)
  }

  /** A token that still parses has a record that has not expired, so no pruning can have removed it. */
  lemma ParsedIsPresent(pruned: System, full: System, cfg: Config, token: Bearer, clock: Clock)
    requires Simulates(pruned, full, cfg) && pruned.now <= clock.parse
    requires token.Signed? && token.secret == cfg.refreshSecret ==> token in full.handedOut
    requires Parse(cfg.refreshSecret, token, RefreshKind, clock.parse).Some?
    ensures JtiHash(token.claims.jti) in pruned.core.col
    ensures clock.parse < pruned.core.col[JtiHash(token.claims.jti)].expiresAt
    ensures Presented(pruned.core, token, cfg, clock) == Presented(full.core, token, cfg, clock)
  {
    assert CoveredBy(full, token);
  }

  lemma PrunedRevokes(pruned: Collection, full: Collection, now: Instant, id: nat, userId: string)
    requires Pruned(pruned, full, now)
    ensures Pruned(RevokedById(pruned, id), RevokedById(full, id), now)
    ensures Pruned(RevokedForUser(pruned, userId), RevokedForUser(full, userId), now)
  {
  }

  lemma PrunedLater(pruned: Collection, full: Collection, now: Instant, later: Instant)
    requires Pruned(pruned, full, now) && now <= later
    ensures Pruned(pruned, full, later)
  {
  }

  lemma IssueSimulates(c: Core, d: Core, now: Instant, userId: string, cfg: Config, clock: Clock, ok: bool)
    requires Pruned(c.col, d.col, now) && c.next == d.next && KeyedWell(d)
    ensures var (c', o) := AfterIssue(c, userId, cfg, clock, ok);
            var (d', p) := AfterIssue(d, userId, cfg, clock, ok);
            o == p && c'.next == d'.next && Pruned(c'.col, d'.col, now)
  {
    hide Generate, WholeMilli;
    assert JtiHash(c.next) !in d.col;
  }

  /** One call on the two stores: the same answer, and the stores stay related. */
  lemma CallSimulates(pruned: System, full: System, cfg: Config, step: Step)
    requires Simulates(pruned, full, cfg) && !step.Reap? && Possible(pruned, cfg, step)
    ensures Call(pruned, cfg, step).1 == Call(full, cfg, step).1
    ensures Call(pruned, cfg, step).0.next == Call(full, cfg, step).0.next
    ensures Pruned(Call(pruned, cfg, step).0.col, Call(full, cfg, step).0.col, pruned.now)
  {
    hide AfterIssue, Pruned, StoreInv, KeepsAll, Parse;
    match step
    case Login(cred, clock, st) =>
      if cred.Account? {
        StoreIsKeyedWell(full, cfg);
        IssueSimulates(pruned.core, full.core, pruned.now, cred.userId, cfg, clock, st.createOk);
      }
    case Refresh(token, clock, st) =>
      if Parse(cfg.refreshSecret, token, RefreshKind, clock.parse).Some? {
        RefreshSimulates(pruned, full, cfg, token, clock, st);
      }
    case Logout(token, clock, st) =>
      if Parse(cfg.refreshSecret, token, RefreshKind, clock.parse).Some? {
        LogoutSimulates(pruned, full, cfg, token, clock, st);
      }
  }

  lemma StoreIsKeyedWell(s: System, cfg: Config)
    requires StoreInv(s, cfg)
    ensures KeyedWell(s.core)
  {
  }

  lemma RefreshSimulates(pruned: System, full: System, cfg: Config, token: Bearer, clock: Clock, st: Storage)
    requires Simulates(pruned, full, cfg) && Possible(pruned, cfg, Refresh(token, clock, st))
    requires Parse(cfg.refreshSecret, token, RefreshKind, clock.parse).Some?
    ensures var (c, o) := AfterRefresh(pruned.core, pruned.users, token, cfg, clock, st);
            var (d, p) := AfterRefresh(full.core, full.users, token, cfg, clock, st);
            o == p && c.next == d.next && Pruned(c.col, d.col, pruned.now)
  {
    hide AfterIssue, Pruned, StoreInv, KeepsAll;
    ParsedIsPresent(pruned, full, cfg, token, clock);
    var rt := pruned.core.col[JtiHash(token.claims.jti)];
    PrunedRevokes(pruned.core.col, full.core.col, pruned.now, rt.id, rt.userId);
    StoreIsKeyedWell(full, cfg);
    RevokedKeyedWell(full.core, rt.id);
    IssueSimulates(pruned.core.(col := RevokedById(pruned.core.col, rt.id)),
        full.core.(col := RevokedById(full.core.col, rt.id)),
                   pruned.now, token.claims.userId, cfg, clock, st.createOk);
  }

  lemma LogoutSimulates(pruned: System, full: System, cfg: Config, token: Bearer, clock: Clock, st: Storage)
    requires Simulates(pruned, full, cfg) && Possible(pruned, cfg, Logout(token, clock, st))
    requires Parse(cfg.refreshSecret, token, RefreshKind, clock.parse).Some?
    ensures var (c, o) := AfterLogout(pruned.core, token, cfg, clock, st);
            var (d, p) := AfterLogout(full.core, token, cfg, clock, st);
            o == p && c.next == d.next && Pruned(c.col, d.col, pruned.now)
  {
    hide Pruned, StoreInv, KeepsAll;
    ParsedIsPresent(pruned, full, cfg, token, clock);
    var rt := pruned.core.col[JtiHash(token.claims.jti)];
    PrunedRevokes(pruned.core.col, full.core.col, pruned.now, rt.id, rt.userId);
  }

  lemma RevokedKeyedWell(c: Core, id: nat)
    requires KeyedWell(c)
    ensures KeyedWell(c.(col := RevokedById(c.col, id)))
  {
  }

  /** No call removes a record, and the record of a new token is stored before the token is handed out. */
  lemma CallKeepsAll(full: System, cfg: Config, step: Step)
    requires KeepsAll(full, cfg) && !step.Reap?
    ensures KeepsAll(Next(full, cfg, step), cfg)
  {
    hide WholeSecond, WholeMilli, Extended;
    var t := Next(full, cfg, step);
    assert full.core.col.Keys <= t.core.col.Keys;
    forall b | b in t.handedOut && IsRefresh(cfg, b)
      ensures JtiHash(b.claims.jti) in t.core.col
    {
      if b !in full.handedOut {
        assert b.claims.jti == full.core.next;
      }
    }
  }

  lemma FullCanFollow(pruned: System, full: System, cfg: Config, step: Step)
    requires Simulates(pruned, full, cfg) && !step.Reap? && Possible(pruned, cfg, step)
    ensures Possible(full, cfg, step)
  {
  }

  lemma StepSimulates(pruned: System, full: System, cfg: Config, step: Step)
    requires Simulates(pruned, full, cfg) && !step.Reap? && Possible(pruned, cfg, step)
    ensures Simulates(Next(pruned, cfg, step), Next(full, cfg, step), cfg)
  {
    hide AfterIssue, AfterLogin, AfterRefresh, AfterLogout, Pruned, StoreInv, KeepsAll;
    CallSimulates(pruned, full, cfg, step);
    FullCanFollow(pruned, full, cfg, step);
    StepKeepsStore(full, cfg, step);
    CallKeepsAll(full, cfg, step);
    NextUsesCall(pruned, cfg, step);
    NextUsesCall(full, cfg, step);
    PrunedLater(Call(pruned, cfg, step).0.col, Call(full, cfg, step).0.col, pruned.now, step.clock.store);
  }

  lemma NextUsesCall(s: System, cfg: Config, step: Step)
    requires !step.Reap?
    ensures Next(s, cfg, step).core == Call(s, cfg, step).0
    ensures Next(s, cfg, step).now == step.clock.store && Next(s, cfg, step).users == s.users
  {
  }

  lemma ReapSimulates(pruned: System, full: System, cfg: Config, t: Instant, victims: set<JtiHash>)
    requires Simulates(pruned, full, cfg) && Possible(pruned, cfg, Reap(t, victims))
    ensures Simulates(Next(pruned, cfg, Reap(t, victims)), full, cfg)
  {
    hide StoreInv, KeepsAll;
  }

  /**
   In every run of logins, refreshes and logouts, with storage failures, replays and records
   deleted any time after they expire, the callers see exactly what they would see had no record
   ever been deleted.
   */
  lemma {:induction false} ReapingIsUnobservable(pruned: System, full: System, cfg: Config, run: seq<Step>)
    requires Simulates(pruned, full, cfg) && Runs(pruned, cfg, run)
    ensures Runs(full, cfg, WithoutReaps(run))
    ensures Outcomes(pruned, cfg, run) == Outcomes(full, cfg, WithoutReaps(run))
    decreases |run|
  {
    hide Simulates, Possible, Next, Call;
    if run != [] {
      var step := run[0];
      if step.Reap? {
        ReapSimulates(pruned, full, cfg, step.at, step.victims);
        ReapingIsUnobservable(Next(pruned, cfg, step), full, cfg, run[1..]);
        assert WithoutReaps(run) == WithoutReaps(run[1..]);
      } else {
        SameAnswer(pruned, full, cfg, step);
        StepSimulates(pruned, full, cfg, step);
        ReapingIsUnobservable(Next(pruned, cfg, step), Next(full, cfg, step), cfg, run[1..]);
        assert WithoutReaps(run)[0] == step && WithoutReaps(run)[1..] == WithoutReaps(run[1..]);
      }
    }
  }

  lemma SameAnswer(pruned: System, full: System, cfg: Config, step: Step)
    requires Simulates(pruned, full, cfg) && !step.Reap? && Possible(pruned, cfg, step)
    ensures Call(pruned, cfg, step).1 == Call(full, cfg, step).1
    ensures Possible(full, cfg, step)
  {
    CallSimulates(pruned, full, cfg, step);
    FullCanFollow(pruned, full, cfg, step);
  }

  /** The simulation starts where every deployment starts: an empty collection. */
  lemma ReapingFromTheStart(users: set<string>, now: Instant, cfg: Config, run: seq<Step>)
    requires Runs(Initial(users, now), cfg, run)
    ensures Outcomes(Initial(users, now), cfg, run) == Outcomes(Initial(users, now), cfg, WithoutReaps(run))
  {
    ReapingIsUnobservable(Initial(users, now), Initial(users, now), cfg, run);
  }
}
