/**
 How far apart the stamps of two deliveries under one key are: more than twice the tolerance on all runs
 exactly when a request holds the lock in the instant it is stamped and no flight outlives its claim.
 */
module StampLimits {
  import opened Routes
  import opened Signatures
  import opened ReplayCache
  import opened ReplayProtocol
  import opened ReplayLimits

  /** Any two deliveries under one key that may have left are stamped more than twice the tolerance apart. */
  ghost predicate StampsApart(s: State) {
    forall i, j | 0 <= i < |s.requests| && 0 <= j < |s.requests| && i != j
      && MayHaveLeft(s.requests[i]) && Timestamped(s.requests[i].delivery)
      && MayHaveLeft(s.requests[j]) && HasKey(s.requests[j], ReplayKey(s.requests[i].delivery)) ::
      FarApart(s.requests[i].progress.claim.now, s.requests[j].progress.claim.now)
  }

  predicate FarApart(a: Instant, b: Instant) {
    a - b > 2 * SIGNATURE_TOLERANCE || b - a > 2 * SIGNATURE_TOLERANCE
  }

  predicate NoRelease(steps: seq<Step>) {
    forall n | 0 <= n < |steps| :: !steps[n].Release?
  }

  lemma ClaimsInOneInstantAreApart(p: Setting, states: seq<State>, steps: seq<Step>)
    requires IsRun(p, states, steps) && p.lag == 0 && p.flight <= LIFETIME
    ensures StampsApart(states[|steps|])
  {
    var s := states[|steps|];
    forall i, j | 0 <= i < |s.requests| && 0 <= j < |s.requests| && i != j
      && MayHaveLeft(s.requests[i]) && Timestamped(s.requests[i].delivery)
      && MayHaveLeft(s.requests[j]) && HasKey(s.requests[j], ReplayKey(s.requests[i].delivery))
      ensures FarApart(s.requests[i].progress.claim.now, s.requests[j].progress.claim.now)
    {
      DeliveriesSpaced(p, states, steps, i, j);
    }
  }

  /** Flights matter at releases only. */
  lemma WithoutReleaseFlightsAreFree(p: Setting, states: seq<State>, steps: seq<Step>)
    requires IsRun(p, states, steps) && NoRelease(steps)
    ensures IsRun(p.(flight := 0), states, steps)
  {
    var p' := p.(flight := 0);
    forall n | 0 <= n < |steps|
      ensures Enabled(p', states[n], steps[n]) && states[n + 1] == Apply(p', states[n], steps[n])
    {
      assert Enabled(p, states[n], steps[n]) && !steps[n].Release?;
    }
  }

  /* Runs in which stamps come too close */

  /** A run leads to this state; a quiet one without any release. */
  ghost predicate Reached(p: Setting, s: State, quiet: bool) {
    exists states, steps :: LeadsTo(p, states, steps, s, quiet)
  }

  ghost predicate LeadsTo(p: Setting, states: seq<State>, steps: seq<Step>, s: State, quiet: bool) {
    IsRun(p, states, steps) && states[|steps|] == s && (quiet ==> NoRelease(steps))
  }

  lemma ReachStart(p: Setting, t: Instant, quiet: bool)
    ensures Reached(p, State(t, map[], []), quiet)
  {
    assert LeadsTo(p, [State(t, map[], [])], [], State(t, map[], []), quiet);
  }

  lemma ReachNext(p: Setting, s: State, step: Step, s': State, quiet: bool)
    requires Reached(p, s, quiet) && Enabled(p, s, step) && s' == Apply(p, s, step) && (quiet ==> !step.Release?)
    ensures Reached(p, s', quiet)
  {
    var states, steps :| LeadsTo(p, states, steps, s, quiet);
    var states', steps', last := Take(p, states, steps, step);
    assert LeadsTo(p, states', steps', s', quiet);
  }

  /** A waiting request verifies and reads the clock at once. */
  lemma StampNow(p: Setting, s: State, i: nat, quiet: bool)
    requires Reached(p, s, quiet) && i < |s.requests| && s.requests[i].progress.Arrived?
    requires VerifySignature(p.mac, s.requests[i].delivery, s.clock)
    ensures Reached(p, With(s, i, Stamped(s.clock, s.clock)), quiet)
  {
    var verified := With(s, i, Verified(s.clock));
    ReachNext(p, s, Verify(i), verified, quiet);
    ReachNext(p, verified, ReadClock(i), With(s, i, Stamped(s.clock, s.clock)), quiet);
  }

  /** A stamped request holds the lock and finds its key free. */
  lemma ClaimStamped(p: Setting, s: State, i: nat, keys: Entries, quiet: bool)
    requires Reached(p, s, quiet) && i < |s.requests| && s.requests[i].progress.Stamped?
    requires s.clock - s.requests[i].progress.seen <= p.lag && Timestamped(s.requests[i].delivery)
    requires Recorded(s.keys, ReplayKey(s.requests[i].delivery), s.requests[i].progress.now) == (Admitted, keys)
    ensures var Stamped(seen, now) := s.requests[i].progress;
      Reached(p, With(s, i, Forwarding(Claim(seen, now, s.clock))).(keys := keys), quiet)
  {
    var Stamped(seen, now) := s.requests[i].progress;
    ReachNext(p, s, RecordKey(i), With(s, i, Forwarding(Claim(seen, now, s.clock))).(keys := keys), quiet);
  }

  /** A waiting request verifies, reads the clock and claims its key at once. */
  lemma ClaimNow(p: Setting, s: State, i: nat, keys: Entries, quiet: bool)
    requires Reached(p, s, quiet) && i < |s.requests| && s.requests[i].progress.Arrived?
    requires Timestamped(s.requests[i].delivery) && VerifySignature(p.mac, s.requests[i].delivery, s.clock)
    requires Recorded(s.keys, ReplayKey(s.requests[i].delivery), s.clock) == (Admitted, keys)
    ensures Reached(p, With(s, i, Forwarding(Claim(s.clock, s.clock, s.clock))).(keys := keys), quiet)
  {
    var stamped := With(s, i, Stamped(s.clock, s.clock));
    StampNow(p, s, i, quiet);
    ClaimStamped(p, stamped, i, keys, quiet);
    assert With(stamped, i, Forwarding(Claim(s.clock, s.clock, s.clock))).(keys := keys)
      == With(s, i, Forwarding(Claim(s.clock, s.clock, s.clock))).(keys := keys);
  }

  /** The forward of a claimed request does not leave, and its claim is released in the same instant. */
  lemma RefuseNow(p: Setting, s: State, i: nat)
    requires Reached(p, s, false) && i < |s.requests| && s.requests[i].progress.Forwarding?
    requires s.clock - s.requests[i].progress.claim.at <= p.flight
    ensures Reached(p, With(s, i, Dropped(s.requests[i].progress.claim))
                       .(keys := Forgotten(s.keys, ReplayKey(s.requests[i].delivery))), false)
  {
    var claim, key := s.requests[i].progress.claim, ReplayKey(s.requests[i].delivery);
    assert NeverSent(REFUSED.err);
    ReachNext(p, s, Answer(i, false, REFUSED), With(s, i, Releasing(claim)), false);
    ReachNext(p, With(s, i, Releasing(claim)), Release(i),
              With(s, i, Dropped(claim)).(keys := Forgotten(s.keys, key)), false);
  }

  /** Request `i` is stamped a lifetime later, and then the clock moves on once more. */
  lemma StampAndWait(p: Setting, s: State, i: nat, quiet: bool)
    requires Reached(p, s, quiet) && i < |s.requests| && s.requests[i].progress.Arrived?
    requires VerifySignature(p.mac, s.requests[i].delivery, s.clock + LIFETIME)
    ensures var stamp := s.clock + LIFETIME;
      Reached(p, With(s, i, Stamped(stamp, stamp)).(clock := stamp + 1), quiet)
  {
    var stamp := s.clock + LIFETIME;
    ReachNext(p, s, Tick(LIFETIME), s.(clock := stamp), quiet);
    StampNow(p, s.(clock := stamp), i, quiet);
    ReachNext(p, With(s.(clock := stamp), i, Stamped(stamp, stamp)), Tick(1),
              With(s, i, Stamped(stamp, stamp)).(clock := stamp + 1), quiet);
  }

  function Three(d: Progress, e: Progress, f: Progress, of: (Delivery, Delivery, Delivery)): seq<Request> {
    [Request(of.0, d), Request(of.1, e), Request(of.2, f)]
  }

  lemma FreeKeyIsClaimed(key: string, now: Instant)
    ensures Recorded(map[], key, now) == (Admitted, map[key := now + LIFETIME])
  {
    assert map[][key := now + LIFETIME] == map[key := now + LIFETIME];
  }

  predicate Named(d: Delivery) {
    ValidRouteName(d.agent) && ValidRouteName(d.route) && Timestamped(d)
  }

  /** Three requests have arrived, and the first has claimed its key. */
  lemma FirstOfThree(p: Setting, d: Delivery, e: Delivery, f: Delivery, key: string, t: Instant, quiet: bool)
    requires Named(d) && Named(e) && Named(f) && ReplayKey(d) == key && VerifySignature(p.mac, d, t)
    ensures Reached(p, State(t, map[key := t + LIFETIME],
                             Three(Forwarding(Claim(t, t, t)), Arrived, Arrived, (d, e, f))), quiet)
  {
    var one, two := State(t, map[], [Request(d, Arrived)]), State(t, map[], [Request(d, Arrived), Request(e, Arrived)]);
    var three := State(t, map[], Three(Arrived, Arrived, Arrived, (d, e, f)));
    ReachStart(p, t, quiet);
    ReachNext(p, State(t, map[], []), Arrive(d), one, quiet);
    ReachNext(p, one, Arrive(e), two, quiet);
    ReachNext(p, two, Arrive(f), three, quiet);
    FreeKeyIsClaimed(key, t);
    ClaimNow(p, three, 0, map[key := t + LIFETIME], quiet);
    assert With(three, 0, Forwarding(Claim(t, t, t))).requests
      == Three(Forwarding(Claim(t, t, t)), Arrived, Arrived, (d, e, f));
  }

  /** The second of three requests claims an expired key. */
  lemma SecondClaimsExpired(p: Setting, s: State, e: Delivery, key: string, expires: Instant)
    requires Reached(p, s, false) && |s.requests| == 3 && s.requests[1] == Request(e, Arrived)
    requires Named(e) && ReplayKey(e) == key && VerifySignature(p.mac, e, s.clock)
    requires s.keys == map[key := expires] && expires < s.clock
    ensures Reached(p, With(s, 1, Forwarding(Claim(s.clock, s.clock, s.clock)))
                       .(keys := map[key := s.clock + LIFETIME]), false)
  {
    ExpiredEntryIsReplaced(key, expires, s.clock);
    ClaimNow(p, s, 1, map[key := s.clock + LIFETIME], false);
  }

  lemma NotApart(s: State, i: nat, j: nat)
    requires i < |s.requests| && j < |s.requests| && i != j
    requires MayHaveLeft(s.requests[i]) && Timestamped(s.requests[i].delivery) && MayHaveLeft(s.requests[j])
    requires HasKey(s.requests[j], ReplayKey(s.requests[i].delivery))
    requires !FarApart(s.requests[i].progress.claim.now, s.requests[j].progress.claim.now)
    ensures !StampsApart(s)
  {
  }

  /** Messages under one key, the one verified at `t` and the other once its claim has expired. */
  predicate SecondMayFollow(p: Setting, d: Delivery, e: Delivery, key: string, t: Instant) {
    && Named(d) && Named(e) && ReplayKey(d) == key && ReplayKey(e) == key
    && VerifySignature(p.mac, d, t) && VerifySignature(p.mac, e, t + LIFETIME + 1)
  }

  /** Nothing is left in the cache once its only claim is released. */
  lemma RefuseLast(p: Setting, s: State, i: nat, key: string, expires: Instant)
    requires Reached(p, s, false) && i < |s.requests| && s.requests[i].progress.Forwarding?
    requires s.clock - s.requests[i].progress.claim.at <= p.flight
    requires HasKey(s.requests[i], key) && key != "" && s.keys == map[key := expires]
    ensures Reached(p, With(s, i, Dropped(s.requests[i].progress.claim)).(keys := map[]), false)
  {
    RefuseNow(p, s, i);
    assert Forgotten(s.keys, key) == map[];
  }

  /** The third request is stamped much later, and waits. */
  lemma ThirdWaits(p: Setting, s: State, e: Delivery) returns (s': State)
    requires Reached(p, s, false) && |s.requests| == 3 && s.requests[2] == Request(e, Arrived)
    requires VerifySignature(p.mac, e, s.clock + LIFETIME)
    ensures Reached(p, s', false) && s'.clock == s.clock + LIFETIME + 1 && s'.keys == s.keys && |s'.requests| == 3
    ensures s'.requests[0] == s.requests[0] && s'.requests[1] == s.requests[1]
    ensures s'.requests[2] == Request(e, Stamped(s.clock + LIFETIME, s.clock + LIFETIME))
  {
    StampAndWait(p, s, 2, false);
    s' := With(s, 2, Stamped(s.clock + LIFETIME, s.clock + LIFETIME)).(clock := s.clock + LIFETIME + 1);
  }

  /** The second request claims the expired key, and its claim is released at once. */
  lemma SecondIsRefused(p: Setting, s: State, e: Delivery, key: string, expires: Instant) returns (s': State)
    requires Reached(p, s, false) && |s.requests| == 3 && s.requests[1] == Request(e, Arrived)
    requires Named(e) && ReplayKey(e) == key != "" && VerifySignature(p.mac, e, s.clock)
    requires s.keys == map[key := expires] && expires < s.clock
    ensures Reached(p, s', false) && s'.clock == s.clock && s'.keys == map[] && |s'.requests| == 3
    ensures s'.requests[0] == s.requests[0] && s'.requests[2] == s.requests[2]
  {
    var claim := Claim(s.clock, s.clock, s.clock);
    var claimed := With(s, 1, Forwarding(claim)).(keys := map[key := s.clock + LIFETIME]);
    SecondClaimsExpired(p, s, e, key, expires);
    assert claimed.requests[1] == Request(e, Forwarding(claim)) && HasKey(claimed.requests[1], key);
    RefuseLast(p, claimed, 1, key, s.clock + LIFETIME);
    s' := With(claimed, 1, Dropped(claim)).(keys := map[]);
  }

  /** The third request finds its key free, and is admitted with its earlier stamp. */
  lemma ThirdIsAdmitted(p: Setting, s: State, key: string, first: Claim, stamp: Instant) returns (s': State)
    requires Reached(p, s, false) && |s.requests| == 3 && s.keys == map[] && s.clock == stamp + 1 && p.lag > 0
    requires s.requests[0].progress == Forwarding(first) && s.requests[2].progress == Stamped(stamp, stamp)
    requires Timestamped(s.requests[0].delivery) && Timestamped(s.requests[2].delivery)
    requires HasKey(s.requests[0], key) && HasKey(s.requests[2], key) && !FarApart(first.now, stamp)
    ensures Reached(p, s', false) && !StampsApart(s')
  {
    var keys := map[key := stamp + LIFETIME];
    FreeKeyIsClaimed(key, stamp);
    ClaimStamped(p, s, 2, keys, false);
    s' := With(s, 2, Forwarding(Claim(stamp, stamp, s.clock))).(keys := keys);
    NotApart(s', 0, 2);
  }

  /**
   A claim released by another request lets an earlier stamp in: the second request claims the expired
   key and is refused, while the third one, stamped just before, still waits for the lock.
   */
  lemma ReleaseAdmitsEarlierStamp(p: Setting, d: Delivery, e: Delivery, key: string, t: Instant) returns (s: State)
    requires SecondMayFollow(p, d, e, key, t) && VerifySignature(p.mac, e, t + LIFETIME) && p.lag > 0
    ensures Reached(p, s, false) && !StampsApart(s)
  {
    var stamp := t + LIFETIME;
    s := State(t, map[key := stamp], Three(Forwarding(Claim(t, t, t)), Arrived, Arrived, (d, e, e)));
    FirstOfThree(p, d, e, e, key, t, false);
    s := ThirdWaits(p, s, e);
    s := SecondIsRefused(p, s, e, key, stamp);
    s := ThirdIsAdmitted(p, s, key, Claim(t, t, t), stamp);
  }

  /** The second request claims the expired key of the first one, whose release then forgets that claim. */
  lemma SecondIsForgotten(p: Setting, s: State, e: Delivery, key: string, expires: Instant) returns (s': State)
    requires Reached(p, s, false) && |s.requests| == 3 && s.requests[1] == Request(e, Arrived)
    requires Named(e) && ReplayKey(e) == key != "" && VerifySignature(p.mac, e, s.clock)
    requires s.keys == map[key := expires] && expires < s.clock
    requires s.requests[0].progress.Forwarding? && HasKey(s.requests[0], key)
    requires s.clock - s.requests[0].progress.claim.at <= p.flight
    ensures Reached(p, s', false) && s'.clock == s.clock && s'.keys == map[] && |s'.requests| == 3
    ensures s'.requests[1] == Request(e, Forwarding(Claim(s.clock, s.clock, s.clock)))
    ensures s'.requests[2] == s.requests[2]
  {
    var claimed := With(s, 1, Forwarding(Claim(s.clock, s.clock, s.clock))).(keys := map[key := s.clock + LIFETIME]);
    SecondClaimsExpired(p, s, e, key, expires);
    assert claimed.requests[0] == s.requests[0] && claimed.requests[2] == s.requests[2];
    RefuseLast(p, claimed, 0, key, s.clock + LIFETIME);
    s' := With(claimed, 0, Dropped(s.requests[0].progress.claim)).(keys := map[]);
  }

  /** A flight that outlives its claim releases the claim of a second delivery, and a third follows at once. */
  lemma LongFlightAdmitsTwo(p: Setting, d: Delivery, e: Delivery, key: string, t: Instant) returns (s: State)
    requires SecondMayFollow(p, d, e, key, t) && p.flight > LIFETIME
    ensures Reached(p, s, false) && !StampsApart(s)
  {
    var late := t + LIFETIME + 1;
    s := State(t, map[key := t + LIFETIME], Three(Forwarding(Claim(t, t, t)), Arrived, Arrived, (d, e, e)));
    FirstOfThree(p, d, e, e, key, t, false);
    ReachNext(p, s, Tick(LIFETIME + 1), s.(clock := late), false);
    s := SecondIsForgotten(p, s.(clock := late), e, key, t + LIFETIME);
    s := ThirdFollows(p, s, e, key);
  }

  lemma ThirdFollows(p: Setting, s: State, e: Delivery, key: string) returns (s': State)
    requires Reached(p, s, false) && |s.requests| == 3 && s.keys == map[]
    requires s.requests[1] == Request(e, Forwarding(Claim(s.clock, s.clock, s.clock)))
    requires s.requests[2] == Request(e, Arrived) && Named(e) && ReplayKey(e) == key
    requires VerifySignature(p.mac, e, s.clock)
    ensures Reached(p, s', false) && !StampsApart(s')
  {
    var keys := map[key := s.clock + LIFETIME];
    FreeKeyIsClaimed(key, s.clock);
    ClaimNow(p, s, 2, keys, false);
    s' := With(s, 2, Forwarding(Claim(s.clock, s.clock, s.clock))).(keys := keys);
    NotApart(s', 1, 2);
  }

  const ANOTHER := Delivery("agent", "svix", "route", "", "9", "other", "", "secret", true)

  /** The sample messages verify whenever the runs below need them to. */
  lemma MoreSamplesVerify(mac: Mac)
    ensures ReplayKey(EARLIER) == ReplayKey(LATER) && VerifySignature(mac, EARLIER, EARLY)
    ensures VerifySignature(mac, LATER, EARLY + LIFETIME) && VerifySignature(mac, LATER, EARLY + LIFETIME + 1)
    ensures VerifySignature(mac, ANOTHER, EARLY + LIFETIME + 1)
    ensures Named(EARLIER) && Named(LATER) && Named(ANOTHER)
  {
    ZeroIsParsed();
  }

  /** On all runs stamps under one key are more than twice the tolerance apart: exactly then. */
  lemma StampsApartExactly(p: Setting)
    ensures (forall states, steps | IsRun(p, states, steps) :: StampsApart(states[|steps|]))
            <==> p.lag == 0 && p.flight <= LIFETIME
  {
    if p.lag == 0 && p.flight <= LIFETIME {
      forall states, steps | IsRun(p, states, steps) ensures StampsApart(states[|steps|]) {
        ClaimsInOneInstantAreApart(p, states, steps);
      }
    } else {
      var s: State;
      MoreSamplesVerify(p.mac);
      if p.lag > 0 {
        s := ReleaseAdmitsEarlierStamp(p, EARLIER, LATER, ReplayKey(LATER), EARLY);
      } else {
        s := LongFlightAdmitsTwo(p, EARLIER, LATER, ReplayKey(LATER), EARLY);
      }
      var states, steps :| LeadsTo(p, states, steps, s, false);
    }
  }

  /* A full cache */

  function Letters(n: nat): (text: string)
    ensures |text| == n
  {
    seq(n, _ => 'm')
  }

  /** One more message under a key of its own. */
  function Filler(n: nat): Delivery {
    Delivery("agent", "svix", "route", "", "0", Letters(n + 8), "", "secret", true)
  }

  lemma FillerKey(n: nat)
    ensures |ReplayKey(Filler(n))| == n + 25 && |ReplayKey(EARLIER)| == 24 && |ReplayKey(ANOTHER)| == 22
  {
  }

  /** All entries were claimed at this instant, each under a key no longer than their number allows. */
  ghost predicate Filling(s: State, n: nat) {
    && |s.keys| == n + 1 && ReplayKey(EARLIER) in s.keys && ReplayKey(ANOTHER) !in s.keys
    && forall k | k in s.keys :: s.keys[k] == s.clock + LIFETIME && |k| < n + 25
  }

  lemma FillerFits(s: State, n: nat, keys: Entries)
    requires Filling(s, n) && n + 1 < MAX_REPLAY_CACHE_KEYS
    requires keys == s.keys[ReplayKey(Filler(n)) := s.clock + LIFETIME]
    ensures Recorded(s.keys, ReplayKey(Filler(n)), s.clock) == (Admitted, keys)
    ensures forall s': State | s'.clock == s.clock && s'.keys == keys :: Filling(s', n + 1)
  {
    FillerKey(n);
  }

  lemma FillerVerifies(mac: Mac, n: nat)
    ensures VerifySignature(mac, Filler(n), EARLY) && Named(Filler(n))
  {
    ZeroIsParsed();
  }

  /** One more request arrives and claims its key at once. */
  lemma OneMore(p: Setting, s: State, d: Delivery, keys: Entries) returns (s': State)
    requires Reached(p, s, true) && Named(d) && VerifySignature(p.mac, d, s.clock)
    requires Recorded(s.keys, ReplayKey(d), s.clock) == (Admitted, keys)
    ensures Reached(p, s', true) && s'.keys == keys && s'.clock == s.clock && s.requests <= s'.requests
  {
    var arrived := s.(requests := s.requests + [Request(d, Arrived)]);
    ReachNext(p, s, Arrive(d), arrived, true);
    ClaimNow(p, arrived, |s.requests|, keys, true);
    s' := With(arrived, |s.requests|, Forwarding(Claim(s.clock, s.clock, s.clock))).(keys := keys);
  }

  lemma {:induction false} Fill(p: Setting, s: State, n: nat, size: nat) returns (s': State)
    requires Reached(p, s, true) && Filling(s, n) && s.clock == EARLY && n <= size < MAX_REPLAY_CACHE_KEYS
    ensures Reached(p, s', true) && Filling(s', size) && s'.clock == EARLY && s.requests <= s'.requests
    decreases size - n
  {
    if n == size {
      return s;
    }
    var keys := s.keys[ReplayKey(Filler(n)) := s.clock + LIFETIME];
    FillerFits(s, n, keys);
    FillerVerifies(p.mac, n);
    s' := OneMore(p, s, Filler(n), keys);
    s' := Fill(p, s', n + 1, size);
  }

  /** A request finds the cache full of expired entries under other keys. */
  predicate Sweeps(keys: Entries, other: string, now: Instant) {
    Recorded(keys, other, now) == (Admitted, map[other := now + LIFETIME])
  }

  lemma FullCacheIsSwept(s: State, now: Instant)
    requires Filling(s, MAX_REPLAY_CACHE_KEYS - 1) && now == s.clock + LIFETIME + 1
    ensures Sweeps(s.keys, ReplayKey(ANOTHER), now)
  {
    assert Swept(s.keys, now) == map[];
    FreeKeyIsClaimed(ReplayKey(ANOTHER), now);
  }

  /** The cache is full of claims of one instant, the first of three requests holds one of them. */
  lemma FillUp(p: Setting) returns (s: State)
    ensures Reached(p, s, true) && s.clock == EARLY && Sweeps(s.keys, ReplayKey(ANOTHER), EARLY + LIFETIME + 1)
    ensures Three(Forwarding(Claim(EARLY, EARLY, EARLY)), Arrived, Arrived, (EARLIER, LATER, ANOTHER)) <= s.requests
  {
    var three := Three(Forwarding(Claim(EARLY, EARLY, EARLY)), Arrived, Arrived, (EARLIER, LATER, ANOTHER));
    MoreSamplesVerify(p.mac);
    FirstOfThree(p, EARLIER, LATER, ANOTHER, ReplayKey(EARLIER), EARLY, true);
    s := State(EARLY, map[ReplayKey(EARLIER) := EARLY + LIFETIME], three);
    FillerKey(0);
    s := Fill(p, s, 0, MAX_REPLAY_CACHE_KEYS - 1);
    FullCacheIsSwept(s, EARLY + LIFETIME + 1);
  }

  /** The second request is stamped and waits; the third one, stamped later, sweeps the cache. */
  lemma ThirdSweeps(p: Setting, s: State, g: Delivery, other: string) returns (s': State)
    requires Reached(p, s, true) && |s.requests| >= 3 && s.requests[1].progress.Arrived?
    requires VerifySignature(p.mac, s.requests[1].delivery, s.clock + LIFETIME)
    requires s.requests[2] == Request(g, Arrived) && VerifySignature(p.mac, g, s.clock + LIFETIME + 1)
    requires Named(g) && ReplayKey(g) == other && Sweeps(s.keys, other, s.clock + LIFETIME + 1)
    ensures Reached(p, s', true) && s'.clock == s.clock + LIFETIME + 1
    ensures s'.keys == map[other := s'.clock + LIFETIME] && |s'.requests| == |s.requests|
    ensures s'.requests[0] == s.requests[0]
    ensures s'.requests[1] == s.requests[1].(progress := Stamped(s.clock + LIFETIME, s.clock + LIFETIME))
  {
    var stamp := s.clock + LIFETIME;
    StampAndWait(p, s, 1, true);
    s' := With(s, 1, Stamped(stamp, stamp)).(clock := stamp + 1);
    ClaimNow(p, s', 2, map[other := stamp + 1 + LIFETIME], true);
    s' := With(s', 2, Forwarding(Claim(stamp + 1, stamp + 1, stamp + 1))).(keys := map[other := stamp + 1 + LIFETIME]);
  }

  /** The second request finds its key gone, and is admitted with its earlier stamp. */
  lemma SecondIsAdmitted(p: Setting, s: State, key: string, other: string, first: Claim, stamp: Instant)
      returns (s': State)
    requires Reached(p, s, true) && |s.requests| >= 2 && p.lag > 0
    requires s.clock == stamp + 1 && s.keys == map[other := s.clock + LIFETIME] && other != key
    requires s.requests[0].progress == Forwarding(first) && s.requests[1].progress == Stamped(stamp, stamp)
    requires Timestamped(s.requests[0].delivery) && Timestamped(s.requests[1].delivery)
    requires HasKey(s.requests[0], key) && HasKey(s.requests[1], key) && !FarApart(first.now, stamp)
    ensures Reached(p, s', true) && !StampsApart(s')
  {
    var keys := s.keys[key := stamp + LIFETIME];
    assert |s.keys| == 1;
    ClaimStamped(p, s, 1, keys, true);
    s' := With(s, 1, Forwarding(Claim(stamp, stamp, s.clock))).(keys := keys);
    NotApart(s', 0, 1);
  }

  /**
   A sweep lets an earlier stamp in: a request under another key finds the cache full of expired entries and
   removes them all, while the second request, stamped just before, still waits for the lock.
   */
  lemma SweepAdmitsEarlierStamp(p: Setting) returns (s: State)
    requires p.lag > 0
    ensures Reached(p, s, true) && !StampsApart(s)
  {
    var key, other, first := ReplayKey(LATER), ReplayKey(ANOTHER), Claim(EARLY, EARLY, EARLY);
    MoreSamplesVerify(p.mac);
    FillerKey(0);
    s := FillUp(p);
    assert s.requests[0] == Request(EARLIER, Forwarding(first)) && s.requests[1] == Request(LATER, Arrived);
    s := ThirdSweeps(p, s, ANOTHER, other);
    s := SecondIsAdmitted(p, s, key, other, first, EARLY + LIFETIME);
  }

  /** Where nothing is ever released, waiting for the lock alone decides. */
  lemma UnreleasedStampsApartExactly(p: Setting)
    ensures (forall states, steps | IsRun(p, states, steps) && NoRelease(steps) :: StampsApart(states[|steps|]))
            <==> p.lag == 0
  {
    if p.lag > 0 {
      var s := SweepAdmitsEarlierStamp(p);
      var states, steps :| LeadsTo(p, states, steps, s, true);
    } else {
      forall states, steps | IsRun(p, states, steps) && NoRelease(steps) ensures StampsApart(states[|steps|]) {
        WithoutReleaseFlightsAreFree(p, states, steps);
        ClaimsInOneInstantAreApart(p.(flight := 0), states, steps);
      }
    }
  }
}
