/**
 The limiter over whole traces.  Creating buckets lazily and sweeping idle ones is invisible
 exactly when an idle bucket is full again by the time it may be swept.
 */
module RateLimitTraces {
  import opened Common
  import opened RateLimit

  datatype Event = Request(ip: string, at: real) | Sweep(at: real)

  ghost predicate InOrder(trace: seq<Event>, now: real)
    decreases |trace|
  {
    trace != [] ==> now <= trace[0].at && InOrder(trace[1..], trace[0].at)
  }

  function After(l: Limits, v: Visitors, e: Event): Visitors {
    match e
    case Request(ip, t) => AfterRequest(l, v, ip, t)
    case Sweep(t) => Swept(v, t)
  }

  /** The limiter's answers to one client, in order. */
  function Answers(l: Limits, v: Visitors, trace: seq<Event>, ip: string): seq<bool>
    decreases |trace|
  {
    if trace == [] then []
    else
      var e := trace[0];
      (if e.Request? && e.ip == ip then [Admits(l, BucketOf(l, v, ip, e.at), e.at)] else [])
      + Answers(l, After(l, v, e), trace[1..], ip)
  }

  /** When that client asked. */
  function Times(trace: seq<Event>, ip: string): seq<real>
    decreases |trace|
  {
    if trace == [] then []
    else (if trace[0].Request? && trace[0].ip == ip then [trace[0].at] else []) + Times(trace[1..], ip)
  }

  /** The trace as if nobody else had asked. */
  function Alone(trace: seq<Event>, ip: string): seq<Event> {
    if trace == [] then []
    else (if trace[0].Request? && trace[0].ip != ip then [] else [trace[0]]) + Alone(trace[1..], ip)
  }

  predicate SameFor(v: Visitors, w: Visitors, ip: string) {
    (ip in v <==> ip in w) && (ip in v ==> v[ip] == w[ip])
  }

  lemma AloneStep(l: Limits, v: Visitors, w: Visitors, ip: string, e: Event)
    requires SameFor(v, w, ip)
    ensures e.Request? && e.ip != ip ==> SameFor(After(l, v, e), w, ip)
    ensures e.Request? && e.ip == ip ==> BucketOf(l, v, ip, e.at) == BucketOf(l, w, ip, e.at)
    ensures e.Sweep? || e.ip == ip ==> SameFor(After(l, v, e), After(l, w, e), ip)
  {
    hide Taken;
  }

  /** Under any limits, no client's answers depend on what the others ask. */
  lemma {:induction false} OthersDoNotMatter(l: Limits, v: Visitors, w: Visitors, trace: seq<Event>, ip: string)
    requires SameFor(v, w, ip)
    ensures Answers(l, v, trace, ip) == Answers(l, w, Alone(trace, ip), ip)
    decreases |trace|
  {
    hide After, Admits, BucketOf, SameFor;
    if trace != [] {
      var e, rest := trace[0], trace[1..];
      AloneStep(l, v, w, ip, e);
      if e.Request? && e.ip != ip {
        OthersDoNotMatter(l, After(l, v, e), w, rest, ip);
        assert Alone(trace, ip) == Alone(rest, ip);
        assert Answers(l, v, trace, ip) == Answers(l, After(l, v, e), rest, ip);
      } else {
        OthersDoNotMatter(l, After(l, v, e), After(l, w, e), rest, ip);
        assert Alone(trace, ip)[1..] == Alone(rest, ip);
      }
    }
  }

  /** One private bucket, created full at the first request and kept for ever. */
  function Ideal(l: Limits, b: Option<Bucket>, times: seq<real>): seq<bool>
    decreases |times|
  {
    if times == [] then []
    else
      var now := times[0];
      var bucket := if b.Some? then b.value else Fresh(l, now);
      [Admits(l, bucket, now)] + Ideal(l, Some(Taken(l, bucket, now)), times[1..])
  }

  // ---------- The limiter against the private bucket ----------

  ghost predicate Sane(l: Limits, v: Visitor, now: real) {
    0.0 <= v.bucket.tokens && v.bucket.last <= v.lastSeen <= now
  }

  /** The map's bucket is the private one, or there is none because the private one is full or unused. */
  ghost predicate Matches(l: Limits, v: Visitors, ip: string, b: Option<Bucket>, now: real) {
    if ip in v then b == Some(v[ip].bucket) && Sane(l, v[ip], now)
    else b.None? || (b.value.last <= now && Refilled(l, b.value, now) >= l.burst as real)
  }

  lemma TimesProduct(a: real, b: real, r: real)
    requires a <= b && r > 0.0
    ensures a * r <= b * r
  {
  }

  /** Refilling only adds. */
  lemma RefillGrows(l: Limits, b: Bucket, now: real, later: real)
    requires l.rate > 0.0 && now <= later
    ensures Refilled(l, b, now) <= Refilled(l, b, later)
  {
    TimesProduct(now - b.last, later - b.last, l.rate);
  }

  /** A bucket idle for more than three minutes has refilled completely. */
  lemma IdleIsFull(l: Limits, v: Visitor, now: real)
    requires Enabled(l) && l.burst as real <= STALE_AFTER * l.rate
    requires Sane(l, v, now) && Stale(v, now)
    ensures Refilled(l, v.bucket, now) >= l.burst as real
  {
    var idle := now - v.bucket.last;
    TimesProduct(STALE_AFTER, idle, l.rate);
    assert Refilled(l, v.bucket, now) == v.bucket.tokens + idle * l.rate;
  }

  lemma SweepMatches(l: Limits, v: Visitors, ip: string, b: Option<Bucket>, now: real, t: real)
    requires Enabled(l) && l.burst as real <= STALE_AFTER * l.rate
    requires Matches(l, v, ip, b, now) && now <= t
    ensures Matches(l, Swept(v, t), ip, b, t)
  {
    hide Refilled;
    if ip in v {
      if Stale(v[ip], t) {
        IdleIsFull(l, v[ip], t);
      }
    } else if b.Some? {
      RefillGrows(l, b.value, now, t);
    }
  }

  lemma TakenIsSane(l: Limits, b: Bucket, now: real)
    requires 0.0 <= b.tokens && b.last <= now
    ensures 0.0 <= Taken(l, b, now).tokens && Taken(l, b, now).last <= now
  {
    hide Level;
  }

  /** Private and shared bucket answer alike and are the same bucket afterwards. */
  lemma RequestMatches(l: Limits, v: Visitors, ip: string, b: Option<Bucket>, now: real, t: real)
    requires Enabled(l) && Matches(l, v, ip, b, now) && now <= t
    ensures var bucket := if b.Some? then b.value else Fresh(l, t);
            && Admits(l, BucketOf(l, v, ip, t), t) == Admits(l, bucket, t)
            && Matches(l, AfterRequest(l, v, ip, t), ip, Some(Taken(l, bucket, t)), t)
  {
    hide Refilled;
    if ip in v {
      TakenIsSane(l, v[ip].bucket, t);
    } else {
      FreshIsFull(l, t);
      if b.Some? {
        RefillGrows(l, b.value, now, t);
      }
    }
  }

  lemma FreshIsFull(l: Limits, t: real)
    ensures Refilled(l, Fresh(l, t), t) == l.burst as real
  {
  }

  lemma OthersUntouched(l: Limits, v: Visitors, ip: string, b: Option<Bucket>, now: real, other: string, t: real)
    requires Enabled(l) && Matches(l, v, ip, b, now) && now <= t && other != ip
    ensures Matches(l, AfterRequest(l, v, other, t), ip, b, t)
  {
    hide Refilled;
    if ip !in v && b.Some? {
      RefillGrows(l, b.value, now, t);
    }
  }

  /**
   On every trace each client gets the answers of its own private bucket, whatever the others do and whenever
   sweeps run.
   */
  lemma {:induction false} RefinesPrivateBuckets(l: Limits, v: Visitors, trace: seq<Event>, ip: string,
                                                 b: Option<Bucket>, now: real)
    requires Enabled(l) && l.burst as real <= STALE_AFTER * l.rate
    requires Matches(l, v, ip, b, now) && InOrder(trace, now)
    ensures Answers(l, v, trace, ip) == Ideal(l, b, Times(trace, ip))
    decreases |trace|
  {
    hide Matches, AfterRequest, Admits, Taken, Swept;
    if trace != [] {
      var e := trace[0];
      match e {
        case Sweep(t) =>
          SweepMatches(l, v, ip, b, now, t);
          RefinesPrivateBuckets(l, Swept(v, t), trace[1..], ip, b, t);
          assert Times(trace, ip) == Times(trace[1..], ip);
          assert Answers(l, v, trace, ip) == Answers(l, Swept(v, t), trace[1..], ip);
        case Request(who, t) =>
          if who == ip {
            RequestMatches(l, v, ip, b, now, t);
            var bucket := if b.Some? then b.value else Fresh(l, t);
            RefinesPrivateBuckets(l, AfterRequest(l, v, ip, t), trace[1..], ip, Some(Taken(l, bucket, t)), t);
            assert Times(trace, ip)[1..] == Times(trace[1..], ip);
          } else {
            OthersUntouched(l, v, ip, b, now, who, t);
            RefinesPrivateBuckets(l, AfterRequest(l, v, who, t), trace[1..], ip, b, t);
            assert Times(trace, ip) == Times(trace[1..], ip);
            assert Answers(l, v, trace, ip) == Answers(l, AfterRequest(l, v, who, t), trace[1..], ip);
          }
      }
    }
  }

  /**
   Every request, admitted or not, keeps its client's entry for three minutes; others' entries keep their own
   time.
   */
  lemma RequestKeepsEntry(l: Limits, v: Visitors, ip: string, t: real, other: string, sweep: real)
    ensures ip in Swept(AfterRequest(l, v, ip, t), sweep) <==> sweep - t <= 180.0
    ensures other != ip ==>
      (other in Swept(AfterRequest(l, v, ip, t), sweep) <==> other in v && sweep - v[other].lastSeen <= 180.0)
  {
    hide Taken;
  }

  // ---------- Admissions in a window ----------

  function Count(answers: seq<bool>): nat {
    if answers == [] then 0 else (if answers[0] then 1 else 0) + Count(answers[1..])
  }

  ghost predicate NonDecreasing(times: seq<real>) {
    forall i, j :: 0 <= i < j < |times| ==> times[i] <= times[j]
  }

  /** What a bucket holds after a request is at most what it held, less the token taken, plus the refill since. */
  lemma LevelAfterTaken(l: Limits, b: Bucket, t: real, later: real)
    requires Enabled(l) && t <= later
    ensures Level(l, Taken(l, b, t), later)
         <= Level(l, b, t) - (if Admits(l, b, t) then 1.0 else 0.0) + (later - t) * l.rate
  {
    if !Admits(l, b, t) {
      assert (later - b.last) * l.rate == (t - b.last) * l.rate + (later - t) * l.rate;
    }
  }

  lemma {:induction false} AdmissionsFrom(l: Limits, b: Bucket, times: seq<real>)
    requires Enabled(l) && times != [] && NonDecreasing(times)
    requires 0.0 <= b.tokens && b.last <= times[0]
    ensures Count(Ideal(l, Some(b), times)) as real <= Level(l, b, times[0]) + (times[|times| - 1] - times[0]) * l.rate
    decreases |times|
  {
    hide Taken, Level;
    var t := times[0];
    var c := Taken(l, b, t);
    TakenIsSane(l, b, t);
    var rest := Ideal(l, Some(c), times[1..]);
    assert Ideal(l, Some(b), times) == [Admits(l, b, t)] + rest;
    assert Count(Ideal(l, Some(b), times)) == (if Admits(l, b, t) then 1 else 0) + Count(rest);
    if |times| == 1 {
      assert rest == [];
      LevelNonNegative(l, b, t);
      NoTimeNoRefill(l, times[|times| - 1], t);
    } else {
      AdmissionsFrom(l, c, times[1..]);
      LevelAfterTaken(l, b, t, times[1]);
      var n := |times| - 1;
      assert (times[n] - t) * l.rate == (times[1] - t) * l.rate + (times[n] - times[1]) * l.rate;
    }
  }

  lemma NoTimeNoRefill(l: Limits, a: real, b: real)
    requires a == b
    ensures (a - b) * l.rate == 0.0
  {
    var gap := a - b;
    assert gap * l.rate == 0.0;
  }

  lemma LevelNonNegative(l: Limits, b: Bucket, t: real)
    requires Enabled(l) && 0.0 <= b.tokens && b.last <= t
    ensures 0.0 <= Level(l, b, t) <= l.burst as real
  {
    var idle := t - b.last;
    TimesProduct(0.0, idle, l.rate);
    assert Refilled(l, b, t) == b.tokens + idle * l.rate;
  }

  /** The bucket from request i on, seen from the start of the run. */
  lemma {:induction false} Later(l: Limits, b: Option<Bucket>, times: seq<real>, i: nat) returns (c: Option<Bucket>)
    requires Enabled(l) && NonDecreasing(times) && i <= |times|
    requires b.Some? ==> 0.0 <= b.value.tokens && (times != [] ==> b.value.last <= times[0])
    ensures |Ideal(l, b, times)| == |times| && Ideal(l, b, times)[i..] == Ideal(l, c, times[i..])
    ensures c.Some? ==> 0.0 <= c.value.tokens && (i < |times| ==> c.value.last <= times[i])
    decreases |times|
  {
    hide Taken;
    if times == [] {
      c := b;
    } else {
      var bucket := if b.Some? then b.value else Fresh(l, times[0]);
      TakenIsSane(l, bucket, times[0]);
      var j := if i == 0 then 0 else i - 1;
      c := Later(l, Some(Taken(l, bucket, times[0])), times[1..], j);
      if i == 0 {
        c := b;
        assert times[0..] == times;
      } else {
        assert times[1..][j..] == times[i..];
        assert Ideal(l, b, times)[i..] == Ideal(l, Some(Taken(l, bucket, times[0])), times[1..])[j..];
      }
    }
  }

  lemma {:induction false} IdealPrefix(l: Limits, b: Option<Bucket>, times: seq<real>, n: nat)
    requires n <= |times|
    ensures |Ideal(l, b, times)| == |times| && Ideal(l, b, times[..n]) == Ideal(l, b, times)[..n]
    decreases |times|
  {
    hide Taken, Admits;
    if times != [] {
      var bucket := if b.Some? then b.value else Fresh(l, times[0]);
      var next := Some(Taken(l, bucket, times[0]));
      if n == 0 {
        IdealPrefix(l, next, times[1..], 0);
      } else {
        IdealPrefix(l, next, times[1..], n - 1);
        assert times[..n][1..] == times[1..][..n - 1];
        assert Ideal(l, b, times[..n]) == [Admits(l, bucket, times[0])] + Ideal(l, next, times[1..][..n - 1]);
      }
    }
  }

  lemma FreshFirst(l: Limits, c: Option<Bucket>, times: seq<real>)
    requires times != []
    ensures Ideal(l, c, times) == Ideal(l, Some(if c.Some? then c.value else Fresh(l, times[0])), times)
  {
    hide Admits, Taken;
  }

  /** Between any two of its requests a client is admitted at most burst times plus the rate over the time between. */
  lemma AdmissionsInWindow(l: Limits, times: seq<real>, i: nat, j: nat)
    requires Enabled(l) && NonDecreasing(times) && i < j <= |times|
    ensures |Ideal(l, None, times)| == |times|
    ensures Count(Ideal(l, None, times)[i..j]) as real <= l.burst as real + (times[j - 1] - times[i]) * l.rate
  {
    hide Ideal, Count, Level;
    IdealPrefix(l, None, times, j);
    var head := times[..j];
    var c := Later(l, None, head, i);
    var w := head[i..];
    assert w[0] == times[i] && w[|w| - 1] == times[j - 1] && NonDecreasing(w);
    var answers := Ideal(l, None, times);
    assert answers[i..j] == answers[..j][i..];
    FreshFirst(l, c, w);
    var bucket := if c.Some? then c.value else Fresh(l, w[0]);
    AdmissionsFrom(l, bucket, w);
    LevelNonNegative(l, bucket, w[0]);
  }

  lemma {:induction false} TimesAscend(trace: seq<Event>, ip: string, now: real)
    requires InOrder(trace, now)
    ensures NonDecreasing(Times(trace, ip))
    ensures forall i :: 0 <= i < |Times(trace, ip)| ==> now <= Times(trace, ip)[i]
    decreases |trace|
  {
    if trace != [] {
      TimesAscend(trace[1..], ip, trace[0].at);
    }
  }

  /** The same bound for the limiter itself, on every trace. */
  lemma LimiterAdmissions(l: Limits, trace: seq<Event>, ip: string, now: real, i: nat, j: nat)
    requires Enabled(l) && l.burst as real <= STALE_AFTER * l.rate
    requires InOrder(trace, now) && i < j <= |Times(trace, ip)|
    ensures |Answers(l, map[], trace, ip)| == |Times(trace, ip)|
    ensures Count(Answers(l, map[], trace, ip)[i..j]) as real
         <= l.burst as real + (Times(trace, ip)[j - 1] - Times(trace, ip)[i]) * l.rate
  {
    hide Answers, Ideal, Times, Count;
    RefinesPrivateBuckets(l, map[], trace, ip, None, now);
    TimesAscend(trace, ip, now);
    AdmissionsInWindow(l, Times(trace, ip), i, j);
  }

  // ---------- What a bucket grants ----------

  /** Between two requests the level rises by the refill, less the token taken, unless it stops at burst. */
  lemma LevelGrows(l: Limits, b: Bucket, t: real, later: real)
    requires Enabled(l) && t <= later
    ensures var after := Level(l, Taken(l, b, t), later);
            || after == l.burst as real
            || after == Level(l, b, t) - (if Admits(l, b, t) then 1.0 else 0.0) + (later - t) * l.rate
  {
    assert (later - b.last) * l.rate == (t - b.last) * l.rate + (later - t) * l.rate;
    TimesProduct(t, later, l.rate);
  }

  /** Counting from request i, more was admitted before request j than leaves it a token. */
  ghost predicate Exhausted(l: Limits, answers: seq<bool>, times: seq<real>, i: nat, j: nat)
    requires |answers| == |times|
  {
    && i <= j < |times|
    && Count(answers[i..j]) as real > l.burst as real + (times[j] - times[i]) * l.rate - 1.0
  }

  /** Counting from some request, the bucket has no token left for request j. */
  ghost predicate UsedUp(l: Limits, answers: seq<bool>, times: seq<real>, j: nat)
    requires |answers| == |times|
  {
    exists i :: Exhausted(l, answers, times, i, j)
  }

  lemma {:induction false} IdealLength(l: Limits, b: Option<Bucket>, times: seq<real>)
    ensures |Ideal(l, b, times)| == |times|
    decreases |times|
  {
    hide Taken, Admits;
    if times != [] {
      var bucket := if b.Some? then b.value else Fresh(l, times[0]);
      IdealLength(l, Some(Taken(l, bucket, times[0])), times[1..]);
    }
  }

  lemma CountFirst(answers: seq<bool>, j: nat)
    requires 0 < j <= |answers|
    ensures Count(answers[..j]) == (if answers[0] then 1 else 0) + Count(answers[1..][..j - 1])
  {
    assert answers[..j][1..] == answers[1..][..j - 1];
  }

  lemma UsedUpLater(l: Limits, answers: seq<bool>, times: seq<real>, j: nat)
    requires |answers| == |times| > 0 && UsedUp(l, answers[1..], times[1..], j)
    ensures UsedUp(l, answers, times, j + 1)
  {
    hide Count;
    var i: nat :| Exhausted(l, answers[1..], times[1..], i, j);
    assert answers[1..][i..j] == answers[i + 1..j + 1];
    assert times[1..][i] == times[i + 1] && times[1..][j] == times[j + 1];
    assert Exhausted(l, answers, times, i + 1, j + 1);
  }

  lemma UsedUpFromNext(l: Limits, answers: seq<bool>, times: seq<real>, j: nat)
    requires |answers| == |times| > 0 && j + 1 < |times|
    requires Count(answers[1..][..j]) as real > l.burst as real + (times[j + 1] - times[1]) * l.rate - 1.0
    ensures UsedUp(l, answers, times, j + 1)
  {
    hide Count;
    assert answers[1..][..j] == answers[1..j + 1];
    assert Exhausted(l, answers, times, 1, j + 1);
  }

  lemma NothingAdmittedYet(answers: seq<bool>)
    ensures Count(answers[..0]) == 0
  {
  }

  /**
   A refusal of request j by a bucket that held at least start at request 0: either the bucket was full at some
   request since and has been used up since then, or start itself has been used up.
   */
  lemma {:induction false} RefusedFrom(l: Limits, b: Bucket, times: seq<real>, start: real, j: nat)
    requires Enabled(l) && NonDecreasing(times) && j < |times|
    requires start <= Level(l, b, times[0])
    requires |Ideal(l, Some(b), times)| == |times| && !Ideal(l, Some(b), times)[j]
    ensures var answers := Ideal(l, Some(b), times);
            || UsedUp(l, answers, times, j)
            || Count(answers[..j]) as real > start + (times[j] - times[0]) * l.rate - 1.0
    decreases j
  {
    hide Level, Taken, Count, UsedUp, NonDecreasing;
    var answers := Ideal(l, Some(b), times);
    if j == 0 {
      NoTimeNoRefill(l, times[j], times[0]);
      NothingAdmittedYet(answers);
    } else {
      var c, rest := Taken(l, b, times[0]), times[1..];
      var later := Ideal(l, Some(c), rest);
      assert answers == [Admits(l, b, times[0])] + later && answers[1..] == later;
      TailOrdered(times);
      LevelGrows(l, b, times[0], times[1]);
      var left := start - (if Admits(l, b, times[0]) then 1.0 else 0.0) + (times[1] - times[0]) * l.rate;
      var full := Level(l, c, times[1]) == l.burst as real;
      RefusedFrom(l, c, rest, if full then l.burst as real else left, j - 1);
      if UsedUp(l, later, rest, j - 1) {
        UsedUpLater(l, answers, times, j - 1);
      } else if full {
        UsedUpFromNext(l, answers, times, j - 1);
      } else {
        CountFirst(answers, j);
        SplitElapsed(l, times[0], times[1], times[j]);
      }
    }
  }

  lemma TailOrdered(times: seq<real>)
    requires NonDecreasing(times) && |times| > 1
    ensures NonDecreasing(times[1..]) && times[0] <= times[1]
  {
  }

  lemma SplitElapsed(l: Limits, a: real, b: real, c: real)
    ensures (c - a) * l.rate == (b - a) * l.rate + (c - b) * l.rate
  {
  }

  /** A full bucket refuses only what has been used up since some request. */
  lemma RefusedMeansExhausted(l: Limits, times: seq<real>, j: nat)
    requires Enabled(l) && NonDecreasing(times) && j < |times|
    ensures |Ideal(l, None, times)| == |times|
    ensures !Ideal(l, None, times)[j] ==> UsedUp(l, Ideal(l, None, times), times, j)
  {
    hide Ideal, Level, Taken, Count;
    IdealLength(l, None, times);
    if !Ideal(l, None, times)[j] {
      FreshFirst(l, None, times);
      FreshLevel(l, times[0]);
      var answers := Ideal(l, None, times);
      RefusedFrom(l, Fresh(l, times[0]), times, l.burst as real, j);
      assert answers[0..j] == answers[..j];
      assert Exhausted(l, answers, times, 0, j) || UsedUp(l, answers, times, j);
    }
  }

  lemma FreshLevel(l: Limits, t: real)
    ensures Level(l, Fresh(l, t), t) == l.burst as real
  {
    FreshIsFull(l, t);
  }

  lemma {:induction false} CountSnoc(answers: seq<bool>, x: bool)
    ensures Count(answers + [x]) == Count(answers) + (if x then 1 else 0)
  {
    if answers == [] {
      assert answers + [x] == [x] && [x][1..] == [];
    } else {
      assert (answers + [x])[1..] == answers[1..] + [x];
      CountSnoc(answers[1..], x);
    }
  }

  /**
   A private bucket's answers from its requests alone: request j is admitted exactly when, counted from every
   earlier request, what was admitted since leaves a whole token of burst plus rate times the time between.
   */
  lemma AdmittedIffNotExhausted(l: Limits, times: seq<real>, j: nat)
    requires Enabled(l) && NonDecreasing(times) && j < |times|
    ensures |Ideal(l, None, times)| == |times|
    ensures Ideal(l, None, times)[j] <==> !UsedUp(l, Ideal(l, None, times), times, j)
  {
    hide Ideal, Count;
    RefusedMeansExhausted(l, times, j);
    var answers := Ideal(l, None, times);
    if answers[j] {
      forall i | 0 <= i <= j
        ensures !Exhausted(l, answers, times, i, j)
      {
        AdmissionsInWindow(l, times, i, j + 1);
        assert answers[i..j + 1] == answers[i..j] + [answers[j]];
        CountSnoc(answers[i..j], answers[j]);
      }
    }
  }

  /** The same of the limiter, on every trace: the promised rate is granted, and no more. */
  lemma LimiterGrants(l: Limits, trace: seq<Event>, ip: string, now: real, j: nat)
    requires Enabled(l) && l.burst as real <= 180.0 * l.rate
    requires InOrder(trace, now) && j < |Times(trace, ip)|
    ensures |Answers(l, map[], trace, ip)| == |Times(trace, ip)|
    ensures Answers(l, map[], trace, ip)[j]
       <==> !UsedUp(l, Answers(l, map[], trace, ip), Times(trace, ip), j)
  {
    hide Answers, Ideal, Times, Count;
    RefinesPrivateBuckets(l, map[], trace, ip, None, now);
    TimesAscend(trace, ip, now);
    AdmittedIffNotExhausted(l, Times(trace, ip), j);
  }

  // ---------- The condition is exact ----------

  function Burst(ip: string, t: real, n: nat): seq<Event> {
    if n == 0 then [] else [Request(ip, t)] + Burst(ip, t, n - 1)
  }

  function Trues(n: nat): (r: seq<bool>)
    ensures |r| == n
  {
    if n == 0 then [] else [true] + Trues(n - 1)
  }

  lemma OneAdmitted(l: Limits, v: Visitors, ip: string, t: real)
    requires Level(l, BucketOf(l, v, ip, t), t) >= 1.0
    ensures var left := Level(l, BucketOf(l, v, ip, t), t) - 1.0;
            && Admits(l, BucketOf(l, v, ip, t), t)
            && AfterRequest(l, v, ip, t) == v[ip := Visitor(Bucket(left, t), t)]
            && Level(l, BucketOf(l, AfterRequest(l, v, ip, t), ip, t), t) == left
  {
    var left := Level(l, BucketOf(l, v, ip, t), t) - 1.0;
    NoIdleTime(l, left, t);
  }

  lemma NoIdleTime(l: Limits, tokens: real, t: real)
    ensures Refilled(l, Bucket(tokens, t), t) == tokens
  {
    var idle := t - t;
    assert idle * l.rate == 0.0;
  }

  /** A client with n tokens gets n requests admitted at one instant. */
  lemma {:induction false} BurstAdmitted(l: Limits, v: Visitors, ip: string, t: real, n: nat, rest: seq<Event>)
    requires n > 0 && Level(l, BucketOf(l, v, ip, t), t) >= n as real
    ensures var left := Level(l, BucketOf(l, v, ip, t), t) - n as real;
            Answers(l, v, Burst(ip, t, n) + rest, ip)
            == Trues(n) + Answers(l, v[ip := Visitor(Bucket(left, t), t)], rest, ip)
    decreases n
  {
    hide Level, Admits, AfterRequest, BucketOf;
    var u := AfterRequest(l, v, ip, t);
    var tail := Burst(ip, t, n - 1) + rest;
    var level := Level(l, BucketOf(l, v, ip, t), t);
    OneAdmitted(l, v, ip, t);
    assert Burst(ip, t, n) + rest == [Request(ip, t)] + tail;
    FirstAnswer(l, v, ip, t, tail);
    if n == 1 {
      assert tail == rest && Trues(1) == [true];
    } else {
      BurstAdmitted(l, u, ip, t, n - 1, rest);
      assert u[ip := Visitor(Bucket(level - n as real, t), t)] == v[ip := Visitor(Bucket(level - n as real, t), t)];
      assert Trues(n) == [true] + Trues(n - 1);
    }
  }

  lemma FirstAnswer(l: Limits, v: Visitors, ip: string, t: real, tail: seq<Event>)
    ensures Answers(l, v, [Request(ip, t)] + tail, ip)
         == [Admits(l, BucketOf(l, v, ip, t), t)] + Answers(l, AfterRequest(l, v, ip, t), tail, ip)
  {
    hide Admits, AfterRequest, BucketOf;
    assert ([Request(ip, t)] + tail)[1..] == tail;
  }

  lemma {:induction false} CountTrues(n: nat)
    ensures Count(Trues(n)) == n
  {
    if n > 0 {
      assert Trues(n)[1..] == Trues(n - 1);
      CountTrues(n - 1);
    }
  }

  lemma {:induction false} TruesAppend(m: nat, n: nat)
    ensures Trues(m) + Trues(n) == Trues(m + n)
  {
    if m > 0 {
      TruesAppend(m - 1, n);
      assert Trues(m) + Trues(n) == [true] + (Trues(m - 1) + Trues(n));
    } else {
      assert Trues(0) + Trues(n) == Trues(n);
    }
  }

  lemma {:induction false} BurstTimes(ip: string, t: real, n: nat, rest: seq<Event>, now: real)
    requires now <= t
    ensures Times(Burst(ip, t, n) + rest, ip) == Same(n, t) + Times(rest, ip)
    ensures n > 0 && InOrder(rest, t) ==> InOrder(Burst(ip, t, n) + rest, now)
  {
    hide *;
    if n == 0 {
      NoBurst(ip, t, rest);
    } else {
      var tail := Burst(ip, t, n - 1) + rest;
      BurstTimes(ip, t, n - 1, rest, t);
      BurstStep(ip, t, n, rest);
      OneMoreRequest(ip, t, tail, now);
      SameStep(n, t, Times(rest, ip));
    }
  }

  lemma NoBurst(ip: string, t: real, rest: seq<Event>)
    ensures Burst(ip, t, 0) + rest == rest
    ensures Times(Burst(ip, t, 0) + rest, ip) == Same(0, t) + Times(rest, ip)
  {
    assert Burst(ip, t, 0) + rest == rest;
  }

  lemma BurstStep(ip: string, t: real, n: nat, rest: seq<Event>)
    requires n > 0
    ensures Burst(ip, t, n) + rest == [Request(ip, t)] + (Burst(ip, t, n - 1) + rest)
    ensures n == 1 ==> Burst(ip, t, n - 1) + rest == rest
  {
  }

  function Same(n: nat, t: real): (r: seq<real>)
    ensures |r| == n
    ensures forall i :: 0 <= i < n ==> r[i] == t
  {
    seq(n, _ => t)
  }

  lemma SameStep(n: nat, t: real, more: seq<real>)
    requires n > 0
    ensures Same(n, t) + more == [t] + (Same(n - 1, t) + more)
  {
  }

  lemma OneMoreRequest(ip: string, t: real, tail: seq<Event>, now: real)
    requires now <= t
    ensures Times([Request(ip, t)] + tail, ip) == [t] + Times(tail, ip)
    ensures InOrder(tail, t) ==> InOrder([Request(ip, t)] + tail, now)
  {
    assert ([Request(ip, t)] + tail)[1..] == tail;
  }

  /** A moment after the sweep limit at which a drained bucket is still not full. */
  lemma TooEarly(burst: real, rate: real) returns (t: real)
    requires rate > 0.0 && burst > STALE_AFTER * rate
    ensures t > STALE_AFTER && t * rate < burst
  {
    var q := burst / rate;
    assert q * rate == burst;
    if q <= STALE_AFTER {
      TimesProduct(q, STALE_AFTER, rate);
    }
    t := (q + STALE_AFTER) / 2.0;
    assert t * rate == (q * rate + STALE_AFTER * rate) / 2.0;
  }

  /** Drain at 0, sweep at t, drain again at t. */
  function TwoBursts(n: nat, t: real): seq<Event> {
    Burst("a", 0.0, n) + ([Sweep(t)] + Burst("a", t, n))
  }

  lemma TwoBurstsTimes(n: nat, t: real)
    requires n > 0 && t >= 0.0
    ensures InOrder(TwoBursts(n, t), 0.0)
    ensures Times(TwoBursts(n, t), "a") == Same(n, 0.0) + Same(n, t)
  {
    var second := Burst("a", t, n);
    assert second + [] == second;
    BurstTimes("a", t, n, [], t);
    assert Same(n, t) + [] == Same(n, t);
    assert ([Sweep(t)] + second)[1..] == second;
    BurstTimes("a", 0.0, n, [Sweep(t)] + second, 0.0);
  }

  lemma SweepAnswer(l: Limits, v: Visitors, t: real, tail: seq<Event>, ip: string)
    ensures Answers(l, v, [Sweep(t)] + tail, ip) == Answers(l, Swept(v, t), tail, ip)
  {
    hide Swept;
    assert ([Sweep(t)] + tail)[1..] == tail;
  }

  lemma LimiterAdmitsBoth(l: Limits, t: real)
    requires Enabled(l) && t > STALE_AFTER
    ensures Answers(l, map[], TwoBursts(l.burst, t), "a") == Trues(2 * l.burst)
  {
    var n := l.burst as nat;
    var second := Burst("a", t, n);
    var empty: Visitors := map[];
    var drained := empty["a" := Visitor(Bucket(0.0, 0.0), 0.0)];
    FreshIsFull(l, 0.0);
    FreshIsFull(l, t);
    assert Swept(drained, t) == empty;
    hide Swept, Answers;
    BurstAdmitted(l, empty, "a", 0.0, n, [Sweep(t)] + second);
    SweepAnswer(l, drained, t, second, "a");
    BurstAdmitted(l, empty, "a", t, n, []);
    assert second + [] == second;
    NoEventsNoAnswers(l, empty["a" := Visitor(Bucket(0.0, t), t)]);
    assert Trues(n) + [] == Trues(n);
    TruesAppend(n, n);
  }

  lemma NoEventsNoAnswers(l: Limits, v: Visitors)
    ensures Answers(l, v, [], "a") == []
  {
  }

  lemma PrivateBucketRefusesOne(l: Limits, t: real)
    requires Enabled(l) && t >= 0.0 && t * l.rate < l.burst as real
    ensures var n := l.burst as nat;
            Ideal(l, None, Same(n, 0.0) + Same(n, t)) != Trues(2 * n)
  {
    hide Ideal, Count, Trues;
    var n := l.burst as nat;
    var times := Same(n, 0.0) + Same(n, t);
    AdmissionsInWindow(l, times, 0, 2 * n);
    var answers := Ideal(l, None, times);
    assert answers[0..2 * n] == answers;
    CountTrues(2 * n);
  }

  /**
   If an idle bucket may be swept before it is full, draining it twice around a sweep shows the difference,
   and admits more than burst plus the rate over the time between.
   */
  lemma SweptTooEarly(l: Limits) returns (trace: seq<Event>)
    requires Enabled(l) && l.burst as real > STALE_AFTER * l.rate
    ensures InOrder(trace, 0.0)
    ensures Answers(l, map[], trace, "a") != Ideal(l, None, Times(trace, "a"))
    ensures |Times(trace, "a")| == 2 * l.burst && !RateKeptBetween(l, trace, "a", 0, 2 * l.burst)
  {
    hide Answers, Ideal, Times, TwoBursts;
    var t := TooEarly(l.burst as real, l.rate);
    var n := l.burst as nat;
    trace := TwoBursts(n, t);
    TwoBurstsTimes(n, t);
    LimiterAdmitsBoth(l, t);
    PrivateBucketRefusesOne(l, t);
    CountTrues(2 * n);
    assert Trues(2 * n)[0..2 * n] == Trues(2 * n);
    var times := Times(trace, "a");
    assert times[0] == 0.0 && times[2 * n - 1] == t;
    hide *;
    assert (t - 0.0) * l.rate == t * l.rate;
  }

  /** From request i to request j the limiter admitted no more than burst plus the rate over the time between. */
  ghost predicate RateKeptBetween(l: Limits, trace: seq<Event>, ip: string, i: nat, j: nat) {
    i < j <= |Times(trace, ip)| && j <= |Answers(l, map[], trace, ip)| ==>
      Count(Answers(l, map[], trace, ip)[i..j]) as real
      <= l.burst as real + (Times(trace, ip)[j - 1] - Times(trace, ip)[i]) * l.rate
  }

  ghost predicate RateKept(l: Limits) {
    forall trace: seq<Event>, ip: string, now: real, i: nat, j: nat
      {:trigger RateKeptBetween(l, trace, ip, i, j), InOrder(trace, now)} ::
      InOrder(trace, now) ==> RateKeptBetween(l, trace, ip, i, j)
  }

  /** The promised rate holds on every trace exactly when burst <= 180 * rate. */
  lemma RateKeptIffRefilledWhenSwept(l: Limits)
    requires Enabled(l)
    ensures RateKept(l) <==> l.burst as real <= 180.0 * l.rate
  {
    hide Answers, Times, InOrder, Count;
    if l.burst as real <= STALE_AFTER * l.rate {
      forall trace: seq<Event>, ip: string, now: real, i: nat, j: nat | InOrder(trace, now)
        ensures RateKeptBetween(l, trace, ip, i, j)
      {
        if i < j <= |Times(trace, ip)| {
          LimiterAdmissions(l, trace, ip, now, i, j);
        }
      }
    } else {
      hide RateKeptBetween;
      var trace := SweptTooEarly(l);
      assert InOrder(trace, 0.0);
    }
  }

  ghost predicate AgreesOnEveryTrace(l: Limits) {
    forall trace: seq<Event>, ip: string, now: real {:trigger Answers(l, map[], trace, ip), InOrder(trace, now)} ::
      InOrder(trace, now) ==> Answers(l, map[], trace, ip) == Ideal(l, None, Times(trace, ip))
  }

  /** Lazy creation and sweeping are invisible on every trace exactly when burst <= 180 * rate. */
  lemma AgreesIffRefilledWhenSwept(l: Limits)
    requires Enabled(l)
    ensures AgreesOnEveryTrace(l) <==> l.burst as real <= 180.0 * l.rate
  {
    hide Answers, Ideal, Times, InOrder;
    if l.burst as real <= STALE_AFTER * l.rate {
      forall trace: seq<Event>, ip: string, now: real | InOrder(trace, now)
        ensures Answers(l, map[], trace, ip) == Ideal(l, None, Times(trace, ip))
      {
        RefinesPrivateBuckets(l, map[], trace, ip, None, now);
      }
    } else {
      var trace := SweptTooEarly(l);
      assert InOrder(trace, 0.0);
    }
  }
}
