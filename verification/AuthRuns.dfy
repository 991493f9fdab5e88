/** Whole runs of the token store: rotation chains, and why expiry-driven deletion cannot be noticed. */
module AuthRuns {
  import opened Common
  import opened Calendar
  import opened Tokens
  import opened Auth

  /** One login and the refresh tokens that descended from it, oldest first. */
  datatype Chain = Chain(userId: string, jtis: seq<nat>)

  /** handedOut, chains and refreshed are the run's history; now is the latest clock reading. */
  datatype System = System(
    core: Core,
    users: set<string>,
    handedOut: set<Bearer>,
    chains: seq<Chain>,
    refreshed: seq<nat>,
    now: Instant
  )

  datatype Step =
    | Login(cred: Credential, clock: Clock, st: Storage)
    | Refresh(token: Bearer, clock: Clock, st: Storage)
    | Logout(token: Bearer, clock: Clock, st: Storage)
    | Reap(at: Instant, victims: set<JtiHash>)

  function Last(c: Chain): int {
    if c.jtis == [] then -1 else c.jtis[|c.jtis| - 1]
  }

  function Extended(chains: seq<Chain>, parent: nat, child: nat): (r: seq<Chain>)
    ensures |r| == |chains|
  {
    seq(|chains|, i requires 0 <= i < |chains| =>
      if Last(chains[i]) == parent then chains[i].(jtis := chains[i].jtis + [child]) else chains[i])
  }

  function Call(s: System, cfg: Config, step: Step): (Core, Outcome)
    requires !step.Reap?
  {
    match step
    case Login(cred, clock, st) => AfterLogin(s.core, cred, cfg, clock, st)
    case Refresh(token, clock, st) => AfterRefresh(s.core, s.users, token, cfg, clock, st)
    case Logout(token, clock, st) => AfterLogout(s.core, token, cfg, clock, st)
  }

  /** Reaping removes the victims; a call changes the core as proved of the service's methods. */
  function Next(s: System, cfg: Config, step: Step): System {
    match step
    case Reap(t, victims) => s.(core := s.core.(col := s.core.col - victims), now := t)
    case Login(cred, clock, st) =>
      var (core, o) := AfterLogin(s.core, cred, cfg, clock, st);
      var t := s.(core := core, now := clock.store);
      if o.Pair?
      then t.(handedOut := s.handedOut + {o.access, o.refresh},
              chains := s.chains + [Chain(cred.userId, [s.core.next])])
      else t
    case Refresh(token, clock, st) =>
      var (core, o) := AfterRefresh(s.core, s.users, token, cfg, clock, st);
      var t := s.(core := core, now := clock.store);
      if o.Pair?
      then t.(handedOut := s.handedOut + {o.access, o.refresh},
              chains := Extended(s.chains, token.claims.jti, s.core.next),
              refreshed := s.refreshed + [token.claims.jti])
      else t
    case Logout(token, clock, st) =>
      s.(core := AfterLogout(s.core, token, cfg, clock, st).0, now := clock.store)
  }

  predicate Ordered(c: Clock) {
    c.parse <= c.check <= c.sign <= c.store
  }

  /** Nobody else can sign under our refresh secret; the TTL monitor removes only expired records. */
  ghost predicate Possible(s: System, cfg: Config, step: Step) {
    match step
    case Reap(t, victims) => s.now <= t && forall h :: h in victims && h in s.core.col ==> s.core.col[h].expiresAt <= t
    case Login(cred, clock, _) => s.now <= clock.parse && Ordered(clock) && (cred.Account? ==> cred.userId in s.users)
    case _ =>
      && s.now <= step.clock.parse && Ordered(step.clock)
      && (step.token.Signed? && step.token.secret == cfg.refreshSecret ==> step.token in s.handedOut)
  }

  ghost predicate Runs(s: System, cfg: Config, run: seq<Step>)
    decreases |run|
  {
    run != [] ==> Possible(s, cfg, run[0]) && Runs(Next(s, cfg, run[0]), cfg, run[1..])
  }

  function Exec(s: System, cfg: Config, run: seq<Step>): System
    decreases |run|
  {
    if run == [] then s else Exec(Next(s, cfg, run[0]), cfg, run[1..])
  }

  /** What the callers see, in order. */
  function Outcomes(s: System, cfg: Config, run: seq<Step>): seq<Outcome>
    decreases |run|
  {
    if run == [] then []
    else (if run[0].Reap? then [] else [Call(s, cfg, run[0]).1]) + Outcomes(Next(s, cfg, run[0]), cfg, run[1..])
  }

  // ---------- The store's invariant ----------

  predicate IsRefresh(cfg: Config, b: Bearer) {
    b.Signed? && b.secret == cfg.refreshSecret && b.claims.kind == RefreshKind
  }

  /** Records sit under their own hash and their ids are derived from it one to one. */
  ghost predicate KeyedWell(c: Core) {
    forall h :: h in c.col ==> h.jti < c.next && c.col[h].jtiHash == h && c.col[h].id == h.jti + 1
  }

  /** A handed-out refresh token expires no later than its record, and names the same user. */
  ghost predicate CoveredBy(s: System, b: Bearer) {
    b.Signed? ==>
      var h := JtiHash(b.claims.jti);
      && h.jti < s.core.next
      && (h in s.core.col ==> b.claims.exp <= s.core.col[h].expiresAt && b.claims.userId == s.core.col[h].userId)
      && (h !in s.core.col ==> b.claims.exp <= s.now)
  }

  ghost predicate StoreInv(s: System, cfg: Config) {
    && KeyedWell(s.core)
    && forall b :: b in s.handedOut && IsRefresh(cfg, b) ==> CoveredBy(s, b)
  }

  /** Records may have been revoked on the way, nothing else: keys, users and expiries are the same. */
  ghost predicate OnlyRevoked(before: Collection, after: Collection) {
    && after.Keys == before.Keys
    && (forall h :: h in after ==> after[h].(revoked := true) == before[h].(revoked := true))
    && (forall h :: h in after && before[h].revoked ==> after[h].revoked)
  }

  lemma IssueKeepsStore(s: System, t: System, cfg: Config, col: Collection, userId: string, clock: Clock, ok: bool)
    requires StoreInv(s, cfg) && Ordered(clock) && s.now <= clock.parse && OnlyRevoked(s.core.col, col)
    requires var (core, o) := AfterIssue(s.core.(col := col), userId, cfg, clock, ok);
             && t.core == core && t.now == clock.store
             && t.handedOut == s.handedOut + (if o.Pair? then {o.access, o.refresh} else {})
    ensures StoreInv(t, cfg)
  {
    var o := AfterIssue(s.core.(col := col), userId, cfg, clock, ok).1;
    forall b | b in t.handedOut && IsRefresh(cfg, b)
      ensures CoveredBy(t, b)
    {
      if b in s.handedOut {
        assert CoveredBy(s, b);
      } else {
        WholeSecondBeforeMilli(clock.sign + cfg.refreshTtl, clock.store + cfg.refreshTtl);
      }
    }
  }

  /** The expiry claim, cut to seconds and computed first, never exceeds the stored one, cut to milliseconds. */
  lemma WholeSecondBeforeMilli(a: Instant, b: Instant)
    requires a <= b
    ensures WholeSecond(a) <= WholeMilli(b)
  {
    assert b / 1_000_000 * 1_000_000 >= b / 1_000_000_000 * 1_000_000_000;
  }

  /** Calls that issue nothing leave every key, user and expiry as it was. */
  lemma QuietKeepsStore(s: System, cfg: Config, col: Collection, now: Instant)
    requires StoreInv(s, cfg) && s.now <= now && OnlyRevoked(s.core.col, col)
    ensures StoreInv(s.(core := s.core.(col := col), now := now), cfg)
  {
    var t := s.(core := s.core.(col := col), now := now);
    forall b | b in s.handedOut && IsRefresh(cfg, b)
      ensures CoveredBy(t, b)
    {
      assert CoveredBy(s, b);
    }
  }

  /** The call gets as far as revoking the presented record and issuing its successor. */
  predicate Rotates(s: System, cfg: Config, token: Bearer, clock: Clock, st: Storage) {
    && Parse(cfg.refreshSecret, token, RefreshKind, clock.parse).Some?
    && st.findOk && st.userOk && st.revokeOk
    && Presented(s.core, token, cfg, clock).Some?
    && !Presented(s.core, token, cfg, clock).value.revoked
    && clock.check <= Presented(s.core, token, cfg, clock).value.expiresAt
    && token.claims.userId in s.users
  }

  lemma RefreshKeepsStore(s: System, cfg: Config, token: Bearer, clock: Clock, st: Storage)
    requires StoreInv(s, cfg) && Possible(s, cfg, Refresh(token, clock, st))
    ensures StoreInv(Next(s, cfg, Refresh(token, clock, st)), cfg)
  {
    hide WholeSecond, WholeMilli, AfterIssue, Extended;
    var t := Next(s, cfg, Refresh(token, clock, st));
    if Rotates(s, cfg, token, clock, st) {
      var rt := Presented(s.core, token, cfg, clock).value;
      IssueKeepsStore(s, t, cfg, RevokedById(s.core.col, rt.id), token.claims.userId, clock, st.createOk);
    } else {
      QuietKeepsStore(s, cfg, t.core.col, clock.store);
    }
  }

  lemma ReapKeepsStore(s: System, cfg: Config, t: Instant, victims: set<JtiHash>)
    requires StoreInv(s, cfg) && Possible(s, cfg, Reap(t, victims))
    ensures StoreInv(Next(s, cfg, Reap(t, victims)), cfg)
  {
    forall b | b in s.handedOut && IsRefresh(cfg, b)
      ensures CoveredBy(Next(s, cfg, Reap(t, victims)), b)
    {
      assert CoveredBy(s, b);
    }
  }

  lemma StepKeepsStore(s: System, cfg: Config, step: Step)
    requires StoreInv(s, cfg) && Possible(s, cfg, step)
    ensures StoreInv(Next(s, cfg, step), cfg)
  {
    hide WholeSecond, WholeMilli, AfterIssue, Extended, StoreInv;
    match step
    case Reap(t, victims) => ReapKeepsStore(s, cfg, t, victims);
    case Login(cred, clock, st) =>
      if cred.Account? {
        IssueKeepsStore(s, Next(s, cfg, step), cfg, s.core.col, cred.userId, clock, st.createOk);
      } else {
        QuietKeepsStore(s, cfg, s.core.col, clock.store);
      }
    case Refresh(token, clock, st) => RefreshKeepsStore(s, cfg, token, clock, st);
    case Logout(token, clock, st) =>
      QuietKeepsStore(s, cfg, AfterLogout(s.core, token, cfg, clock, st).0.col, clock.store);
  }

  // ---------- Rotation chains ----------

  /** No token occurs twice, within one chain or across chains. */
  ghost predicate Disjoint(chains: seq<Chain>) {
    forall i, p, j, q :: At(chains, i, p) && At(chains, j, q) && chains[i].jtis[p] == chains[j].jtis[q] ==>
        i == j && p == q
  }

  ghost predicate At(chains: seq<Chain>, i: int, p: int) {
    0 <= i < |chains| && 0 <= p < |chains[i].jtis|
  }

  ghost predicate Below(chains: seq<Chain>, n: nat) {
    forall i :: 0 <= i < |chains| ==> chains[i].jtis != [] && forall k :: k in chains[i].jtis ==> k < n
  }

  ghost predicate InChain(c: Chain, rt: RefreshToken, jti: nat) {
    c.userId == rt.userId && jti in c.jtis
  }

  /** Every record is in a chain of its user. */
  ghost predicate Covered(chains: seq<Chain>, col: Collection) {
    forall h :: h in col ==> exists i :: 0 <= i < |chains| && InChain(chains[i], col[h], h.jti)
  }

  /** Only the last token of a chain can be live. */
  ghost predicate LiveIsLast(chains: seq<Chain>, col: Collection) {
    forall h, i :: h in col && !col[h].revoked && 0 <= i < |chains| && h.jti in chains[i].jtis ==>
        Last(chains[i]) == h.jti
  }

  ghost predicate ChainInv(s: System) {
    && Disjoint(s.chains)
    && Below(s.chains, s.core.next)
    && Covered(s.chains, s.core.col)
    && LiveIsLast(s.chains, s.core.col)
  }

  /** A token that was refreshed stays dead: its record is revoked or gone. */
  ghost predicate SpentInv(s: System) {
    && Distinct(s.refreshed)
    && forall k :: k in s.refreshed ==>
         k < s.core.next && (JtiHash(k) in s.core.col ==> s.core.col[JtiHash(k)].revoked)
  }

  lemma RevokedOnly(s: System, t: System)
    requires ChainInv(s) && SpentInv(s) && OnlyRevoked(s.core.col, t.core.col)
    requires t.chains == s.chains && t.refreshed == s.refreshed && t.core.next >= s.core.next
    ensures ChainInv(t) && SpentInv(t)
  {
    forall h | h in t.core.col
      ensures exists i :: 0 <= i < |t.chains| && InChain(t.chains[i], t.core.col[h], h.jti)
    {
      var i :| 0 <= i < |s.chains| && InChain(s.chains[i], s.core.col[h], h.jti);
      assert t.core.col[h].(revoked := true).userId == s.core.col[h].(revoked := true).userId;
      assert InChain(t.chains[i], t.core.col[h], h.jti);
    }
  }

  lemma ReapKeepsChains(s: System, cfg: Config, t: Instant, victims: set<JtiHash>)
    requires ChainInv(s) && SpentInv(s)
    ensures ChainInv(Next(s, cfg, Reap(t, victims))) && SpentInv(Next(s, cfg, Reap(t, victims)))
  {
    forall h | h in s.core.col - victims
      ensures exists i :: 0 <= i < |s.chains| && InChain(s.chains[i], s.core.col[h], h.jti)
    {
    }
  }

  lemma NewChain(chains: seq<Chain>, col: Collection, n: nat, rt: RefreshToken)
    requires Disjoint(chains) && Below(chains, n) && Covered(chains, col) && LiveIsLast(chains, col)
    requires forall h :: h in col ==> h.jti < n
    ensures var more := chains + [Chain(rt.userId, [n])];
            && Disjoint(more) && Below(more, n + 2)
            && Covered(more, col[JtiHash(n) := rt]) && LiveIsLast(more, col[JtiHash(n) := rt])
  {
    var more := chains + [Chain(rt.userId, [n])];
    forall i, p, j, q | At(more, i, p) && At(more, j, q) && more[i].jtis[p] == more[j].jtis[q]
      ensures i == j && p == q
    {
      assert i < |chains| ==> At(chains, i, p) && chains[i].jtis[p] in chains[i].jtis;
      assert j < |chains| ==> At(chains, j, q) && chains[j].jtis[q] in chains[j].jtis;
    }
    forall h | h in col[JtiHash(n) := rt]
      ensures exists i :: 0 <= i < |more| && InChain(more[i], col[JtiHash(n) := rt][h], h.jti)
    {
      if h == JtiHash(n) {
        assert InChain(more[|chains|], rt, n);
      } else {
        var i :| 0 <= i < |chains| && InChain(chains[i], col[h], h.jti);
        assert InChain(more[i], col[h], h.jti);
      }
    }
  }

  lemma LoginKeepsChains(s: System, cfg: Config, cred: Credential, clock: Clock, st: Storage)
    requires ChainInv(s) && SpentInv(s) && KeyedWell(s.core) && cred.Account?
    ensures ChainInv(Next(s, cfg, Login(cred, clock, st))) && SpentInv(Next(s, cfg, Login(cred, clock, st)))
  {
    hide Generate, WholeMilli, Disjoint, Below, Covered, LiveIsLast;
    if st.createOk {
      NewChain(s.chains, s.core.col, s.core.next, IssuedRecord(s.core.next, cred.userId, cfg, clock.store));
    } else {
      RevokedOnly(s, Next(s, cfg, Login(cred, clock, st)));
    }
  }

  lemma ExtendedMembers(chains: seq<Chain>, k: nat, n: nat)
    ensures forall i, x :: 0 <= i < |chains| ==>
              (x in Extended(chains, k, n)[i].jtis <==> x in chains[i].jtis || (x == n && Last(chains[i]) == k))
  {
  }

  lemma ExtendedDisjoint(chains: seq<Chain>, k: nat, n: nat)
    requires Disjoint(chains) && Below(chains, n)
    ensures Disjoint(Extended(chains, k, n)) && Below(Extended(chains, k, n), n + 2)
  {
    var t := Extended(chains, k, n);
    ExtendedMembers(chains, k, n);
    forall i, p, j, q | At(t, i, p) && At(t, j, q) && t[i].jtis[p] == t[j].jtis[q]
      ensures i == j && p == q
    {
      assert p < |chains[i].jtis| ==> At(chains, i, p) && chains[i].jtis[p] in chains[i].jtis;
      assert q < |chains[j].jtis| ==> At(chains, j, q) && chains[j].jtis[q] in chains[j].jtis;
      assert At(chains, i, |chains[i].jtis| - 1) && At(chains, j, |chains[j].jtis| - 1);
    }
  }

  /** The presented live token is the tail of its chain, so its successor joins that chain. */
  lemma SuccessorCovered(chains: seq<Chain>, col: Collection, after: Collection, k: nat, n: nat, rt: RefreshToken)
    requires Covered(chains, col) && LiveIsLast(chains, col) && OnlyRevoked(col, after)
    requires JtiHash(k) in col && !col[JtiHash(k)].revoked && col[JtiHash(k)].userId == rt.userId
    ensures Covered(Extended(chains, k, n), after[JtiHash(n) := rt])
  {
    var longer := Extended(chains, k, n);
    ExtendedMembers(chains, k, n);
    LastOfExtended(chains, k, n);
    hide Extended;
    forall h | h in after[JtiHash(n) := rt]
      ensures exists i :: 0 <= i < |longer| && InChain(longer[i], after[JtiHash(n) := rt][h], h.jti)
    {
      var g := if h == JtiHash(n) then JtiHash(k) else h;
      var i :| 0 <= i < |chains| && InChain(chains[i], col[g], g.jti);
      assert after[g].(revoked := true).userId == col[g].(revoked := true).userId;
      assert InChain(longer[i], after[JtiHash(n) := rt][h], h.jti);
    }
  }

  /** The successor is the tail of the one chain it joins; every other live token keeps its place. */
  lemma SuccessorIsLast(chains: seq<Chain>, col: Collection, after: Collection, k: nat, n: nat, rt: RefreshToken)
    requires Below(chains, n) && LiveIsLast(chains, col) && OnlyRevoked(col, after)
    requires JtiHash(k) in col && after[JtiHash(k)].revoked
    ensures LiveIsLast(Extended(chains, k, n), after[JtiHash(n) := rt])
  {
    var longer := Extended(chains, k, n);
    ExtendedMembers(chains, k, n);
    LastOfExtended(chains, k, n);
    hide Extended, Last;
    forall h, i | h in after[JtiHash(n) := rt] && !after[JtiHash(n) := rt][h].revoked
                  && 0 <= i < |longer| && h.jti in longer[i].jtis
      ensures Last(longer[i]) == h.jti
    {
      if h == JtiHash(n) {
        assert n !in chains[i].jtis;
      } else {
        assert h in col && !col[h].revoked && h != JtiHash(k) && h.jti in chains[i].jtis;
      }
    }
  }

  lemma LastOfExtended(chains: seq<Chain>, k: nat, n: nat)
    ensures forall i :: 0 <= i < |chains| ==>
              && Extended(chains, k, n)[i].userId == chains[i].userId
              && Last(Extended(chains, k, n)[i]) == if Last(chains[i]) == k then n else Last(chains[i])
  {
  }

  lemma RotateKeepsChains(s: System, cfg: Config, token: Bearer, clock: Clock, st: Storage)
    requires ChainInv(s) && SpentInv(s) && StoreInv(s, cfg)
    requires Possible(s, cfg, Refresh(token, clock, st)) && Rotates(s, cfg, token, clock, st) && st.createOk
    ensures ChainInv(Next(s, cfg, Refresh(token, clock, st))) && SpentInv(Next(s, cfg, Refresh(token, clock, st)))
  {
    hide Generate, WholeMilli, Disjoint, Below, Covered, LiveIsLast, Extended;
    var k, n := token.claims.jti, s.core.next;
    var after := RevokedById(s.core.col, s.core.col[JtiHash(k)].id);
    assert CoveredBy(s, token);
    var rt := IssuedRecord(n, token.claims.userId, cfg, clock.store);
    ExtendedDisjoint(s.chains, k, n);
    SuccessorCovered(s.chains, s.core.col, after, k, n, rt);
    SuccessorIsLast(s.chains, s.core.col, after, k, n, rt);
    assert k !in s.refreshed;
  }

  /** A refresh that does not rotate, or whose insert fails, revokes at most. */
  lemma NoRotation(s: System, cfg: Config, token: Bearer, clock: Clock, st: Storage)
    requires !(Rotates(s, cfg, token, clock, st) && st.createOk)
    ensures var t := Next(s, cfg, Refresh(token, clock, st));
            && OnlyRevoked(s.core.col, t.core.col) && t.core.next >= s.core.next
            && t.chains == s.chains && t.refreshed == s.refreshed && t.handedOut == s.handedOut
  {
    hide Generate, WholeMilli, Extended;
  }

  lemma StepKeepsChains(s: System, cfg: Config, step: Step)
    requires ChainInv(s) && SpentInv(s) && StoreInv(s, cfg) && Possible(s, cfg, step)
    ensures ChainInv(Next(s, cfg, step)) && SpentInv(Next(s, cfg, step))
  {
    hide ChainInv, SpentInv, Generate, WholeMilli, Extended, AfterRefresh, Rotates, CoveredBy, Presented;
    match step
    case Reap(t, victims) => ReapKeepsChains(s, cfg, t, victims);
    case Login(cred, clock, st) =>
      if cred.Account? {
        LoginKeepsChains(s, cfg, cred, clock, st);
      } else {
        RevokedOnly(s, Next(s, cfg, step));
      }
    case Refresh(token, clock, st) =>
      if Rotates(s, cfg, token, clock, st) && st.createOk {
        RotateKeepsChains(s, cfg, token, clock, st);
      } else {
        NoRotation(s, cfg, token, clock, st);
        RevokedOnly(s, Next(s, cfg, step));
      }
    case Logout(token, clock, st) =>
      RevokedOnly(s, Next(s, cfg, step));
  }

  ghost predicate Inv(s: System, cfg: Config) {
    StoreInv(s, cfg) && ChainInv(s) && SpentInv(s)
  }

  function Initial(users: set<string>, now: Instant): System {
    System(Core(map[], 1), users, {}, [], [], now)
  }

  lemma {:induction false} RunKeepsInv(s: System, cfg: Config, run: seq<Step>)
    requires Inv(s, cfg) && Runs(s, cfg, run)
    ensures Inv(Exec(s, cfg, run), cfg)
    decreases |run|
  {
    hide StoreInv, ChainInv, SpentInv, Next, Possible;
    if run != [] {
      StepKeepsStore(s, cfg, run[0]);
      StepKeepsChains(s, cfg, run[0]);
      RunKeepsInv(Next(s, cfg, run[0]), cfg, run[1..]);
    }
  }

  ghost predicate Live(s: System, h: JtiHash) {
    h in s.core.col && !s.core.col[h].revoked
  }

  /**
   In every run the records form disjoint chains, one per login and all of one user; the only
   record of a chain that can be live is its last, and no token is ever refreshed twice.
   */
  lemma RotationChains(users: set<string>, now: Instant, cfg: Config, run: seq<Step>)
    requires Runs(Initial(users, now), cfg, run)
    ensures var t := Exec(Initial(users, now), cfg, run);
            && Disjoint(t.chains)
            && (forall h :: h in t.core.col ==>
                  exists i :: 0 <= i < |t.chains| && InChain(t.chains[i], t.core.col[h], h.jti))
            && (forall h, i :: Live(t, h) && 0 <= i < |t.chains| && h.jti in t.chains[i].jtis ==>
                Last(t.chains[i]) == h.jti)
            && Distinct(t.refreshed)
  {
    hide StoreInv, Next, Possible;
    assert Inv(Initial(users, now), cfg) by { InitialInv(users, now, cfg); }
    RunKeepsInv(Initial(users, now), cfg, run);
  }

  lemma InitialInv(users: set<string>, now: Instant, cfg: Config)
    ensures Inv(Initial(users, now), cfg)
  {
  }

  // ---------- What single calls do to the rest of the store ----------

  /**
   Revocation is never undone, in any step: a revoked record stays revoked until it is reaped, and no hash
   returns.
   */
  lemma StepNeverUnrevokes(s: System, cfg: Config, step: Step, h: JtiHash)
    requires KeyedWell(s.core) && h.jti < s.core.next && !Live(s, h)
    ensures !Live(Next(s, cfg, step), h) && h.jti < Next(s, cfg, step).core.next
  {
    hide Generate, WholeMilli, Extended;
  }

  lemma {:induction false} NeverUnrevoked(s: System, cfg: Config, run: seq<Step>, h: JtiHash)
    requires StoreInv(s, cfg) && Runs(s, cfg, run) && h.jti < s.core.next && !Live(s, h)
    ensures !Live(Exec(s, cfg, run), h)
    decreases |run|
  {
    hide Next, Possible, Live;
    if run != [] {
      StepKeepsStore(s, cfg, run[0]);
      StepNeverUnrevokes(s, cfg, run[0], h);
      NeverUnrevoked(Next(s, cfg, run[0]), cfg, run[1..], h);
    }
  }

  /**
   What a pair is good for.  At any instant the access token parses under the access secret exactly before its
   own lifetime ends, and names the user; the refresh token likewise, for its lifetime and its record.
   Neither passes for the other, even if both secrets were the same.
   */
  ghost predicate PairOf(o: Outcome, userId: string, jti: nat, cfg: Config, sign: Instant) {
    && o.Pair?
    && GoodFor(cfg.accessSecret, o.access, AccessKind, userId, WholeSecond(sign + cfg.accessTtl))
    && GoodFor(cfg.refreshSecret, o.refresh, RefreshKind, userId, WholeSecond(sign + cfg.refreshTtl))
    && (forall t :: t < WholeSecond(sign + cfg.refreshTtl) ==>
          Parse(cfg.refreshSecret, o.refresh, RefreshKind, t).value.jti == jti)
    && (forall secret, t :: Parse(secret, o.access, RefreshKind, t).None?)
    && (forall secret, t :: Parse(secret, o.refresh, AccessKind, t).None?)
  }

  /** The token parses at exactly the instants before its end, and names the user. */
  ghost predicate GoodFor(secret: string, token: Bearer, kind: TokenKind, userId: string, end: Instant) {
    && (forall t :: Parse(secret, token, kind, t).Some? <==> t < end)
    && (forall t :: t < end ==> Parse(secret, token, kind, t).value.userId == userId)
  }

  /** One more record: live, of this user, under its own hash, expiring in the last millisecond of its lifetime. */
  ghost predicate AddsRecord(before: Collection, after: Collection, h: JtiHash, userId: string, cfg: Config,
                             store: Instant) {
    && after.Keys == before.Keys + {h} && h !in before
    && after[h].userId == userId && !after[h].revoked && after[h].jtiHash == h && after[h].createdAt == store
    && after[h].expiresAt <= store + cfg.refreshTtl < after[h].expiresAt + 1_000_000
  }

  /**
   A login succeeds exactly for a known pair whose record can be stored.  It adds one live record of
   that user, to which the returned refresh token leads as long as it parses; the access token leads
   to none.
   */
  lemma LoginIssues(c: Core, cred: Credential, cfg: Config, clock: Clock, st: Storage, later: Clock)
    requires KeyedWell(c)
    ensures AfterLogin(c, cred, cfg, clock, st).1.Pair? <==> cred.Account? && st.createOk
    ensures AfterLogin(c, cred, cfg, clock, st).1.Pair? ==>
              var (core, o) := AfterLogin(c, cred, cfg, clock, st);
              var h := JtiHash(c.next);
              && PairOf(o, cred.userId, c.next, cfg, clock.sign)
              && AddsRecord(c.col, core.col, h, cred.userId, cfg, clock.store)
              && (forall k :: k in c.col ==> core.col[k] == c.col[k])
              && Presented(core, o.access, cfg, later).None?
              && Presented(core, o.refresh, cfg, later)
                 == if later.parse < WholeSecond(clock.sign + cfg.refreshTtl) then Some(core.col[h]) else None
    ensures cred == NoSuchPair ==> AfterLogin(c, cred, cfg, clock, st) == (c, InvalidCredentials)
    ensures cred == LookupFails ==> AfterLogin(c, cred, cfg, clock, st) == (c, StorageError)
  {
    hide WholeSecond;
  }

  /** No fault of ours or of the storage in the way. */
  predicate AllOk(st: Storage) {
    st.findOk && st.revokeAllOk && st.userOk && st.revokeOk && st.createOk
  }

  /**
   The refresh token of a login works once: the first use before its expiry gives a new pair, the
   second gives nothing and ends every session of the user, the new one included.
   */
  lemma TokenWorksOnce(s: System, cfg: Config, userId: string, st: Storage, login: Clock, first: Clock, second: Clock)
    requires KeyedWell(s.core) && userId in s.users && AllOk(st)
    requires Ordered(login) && Ordered(first) && Ordered(second)
    requires login.store <= first.parse && first.store <= second.parse
    requires first.check < WholeSecond(login.sign + cfg.refreshTtl)
        && second.parse < WholeSecond(login.sign + cfg.refreshTtl)
    ensures var (c1, o1) := AfterLogin(s.core, Account(userId), cfg, login, st);
            && o1.Pair?
            && var (c2, o2) := AfterRefresh(c1, s.users, o1.refresh, cfg, first, st);
               && o2.Pair?
               && var (c3, o3) := AfterRefresh(c2, s.users, o1.refresh, cfg, second, st);
                  o3 == InvalidToken && forall h :: h in c3.col && c3.col[h].userId == userId ==> c3.col[h].revoked
  {
    LoginIssues(s.core, Account(userId), cfg, login, st, first);
    LoginIssues(s.core, Account(userId), cfg, login, st, second);
    WholeSecondBeforeMilli(login.sign + cfg.refreshTtl, login.store + cfg.refreshTtl);
    hide WholeSecond, WholeMilli;
    var (c1, o1) := AfterLogin(s.core, Account(userId), cfg, login, st);
    assert c1.next == s.core.next + 2;
    assert JtiHash(c1.next) !in c1.col;
    assert c1.col[JtiHash(s.core.next)].id == s.core.next + 1;
  }

  /** A replayed token leaves its user without a live token and every other user's records as they were. */
  lemma ReplayIsContained(s: System, cfg: Config, token: Bearer, clock: Clock, st: Storage)
    requires st.findOk && st.revokeAllOk
    requires Presented(s.core, token, cfg, clock).Some? && Presented(s.core, token, cfg, clock).value.revoked
    ensures var u := Presented(s.core, token, cfg, clock).value.userId;
            var (core, o) := AfterRefresh(s.core, s.users, token, cfg, clock, st);
            && o == InvalidToken
            && core.col.Keys == s.core.col.Keys
            && (forall h :: h in core.col && s.core.col[h].userId == u ==> core.col[h].revoked)
            && (forall h :: h in core.col && s.core.col[h].userId != u ==> core.col[h] == s.core.col[h])
  {
  }

  /**
   A refresh succeeds under exactly these conditions.  It retires the presented record, adds one live record
   for the same user and answers with a pair for that user and that record; all other records stay.
   */
  lemma RefreshRotates(s: System, cfg: Config, token: Bearer, clock: Clock, st: Storage)
    requires StoreInv(s, cfg) && Possible(s, cfg, Refresh(token, clock, st))
    ensures AfterRefresh(s.core, s.users, token, cfg, clock, st).1.Pair?
        <==> Rotates(s, cfg, token, clock, st) && st.createOk
    ensures Rotates(s, cfg, token, clock, st) && st.createOk ==>
              var (core, o) := AfterRefresh(s.core, s.users, token, cfg, clock, st);
              var parent, child := JtiHash(token.claims.jti), JtiHash(s.core.next);
              var userId := s.core.col[parent].userId;
              && PairOf(o, userId, child.jti, cfg, clock.sign)
              && AddsRecord(s.core.col, core.col, child, userId, cfg, clock.store)
              && core.col[parent] == s.core.col[parent].(revoked := true)
              && forall h :: h in s.core.col && h != parent ==> core.col[h] == s.core.col[h]
  {
    hide WholeSecond;
    if Rotates(s, cfg, token, clock, st) {
      assert CoveredBy(s, token);
    }
  }

  /**
   A refresh that does not get a pair answers InvalidToken unless the storage failed it, and revokes nothing but
   on replay.
   */
  lemma RefreshRefuses(s: System, cfg: Config, token: Bearer, clock: Clock, st: Storage)
    requires KeyedWell(s.core) && !AfterRefresh(s.core, s.users, token, cfg, clock, st).1.Pair?
    ensures var (core, o) := AfterRefresh(s.core, s.users, token, cfg, clock, st);
            var rt := Presented(s.core, token, cfg, clock);
            && (AllOk(st) ==> o == InvalidToken)
            && (o == InvalidToken || o == StorageError)
            && (core.col != s.core.col ==> rt.Some? && (rt.value.revoked || (st.revokeOk && !st.createOk)))
  {
    hide WholeSecond, WholeMilli;
  }

  /** Logging out answers alike whatever token is presented; only a failing storage shows. */
  lemma LogoutAnswersAlike(c: Core, token: Bearer, cfg: Config, clock: Clock, st: Storage)
    requires KeyedWell(c)
    ensures var (core, o) := AfterLogout(c, token, cfg, clock, st);
            && (AllOk(st) ==> o == Done)
            && (o == Done || o == StorageError)
            && (Presented(c, token, cfg, clock).None? || Presented(c, token, cfg, clock).value.revoked ==> core == c)
  {
  }

  /** Only a token signed under the secret, of the kind asked for and not expired, parses, and to its own claims. */
  lemma ParsesIffOwn(secret: string, token: Bearer, kind: TokenKind, now: Instant, claims: Claims)
    ensures Parse(secret, token, kind, now) == Some(claims)
       <==> token == Signed(secret, claims) && claims.kind == kind && now < claims.exp
  {
  }

  /** Logging out revokes the presented record alone. */
  lemma LogoutRevokesOne(s: System, cfg: Config, token: Bearer, clock: Clock, st: Storage)
    requires KeyedWell(s.core) && st.findOk && st.revokeOk && Presented(s.core, token, cfg, clock).Some?
    ensures var core := AfterLogout(s.core, token, cfg, clock, st).0;
            var k := JtiHash(token.claims.jti);
            && core.col.Keys == s.core.col.Keys
            && core.col[k].revoked
            && forall h :: h in s.core.col && h != k ==> core.col[h] == s.core.col[h]
  {
  }

  /** With one clock reading the explicit expiry check never fires: Parse has already turned the token away. */
  lemma ExpiryCheckIsRedundant(s: System, cfg: Config, token: Bearer, clock: Clock)
    requires StoreInv(s, cfg) && clock.check == clock.parse
    requires token.Signed? && token.secret == cfg.refreshSecret ==> token in s.handedOut
    requires Presented(s.core, token, cfg, clock).Some?
    ensures clock.check < Presented(s.core, token, cfg, clock).value.expiresAt
  {
    assert CoveredBy(s, token);
  }
}
