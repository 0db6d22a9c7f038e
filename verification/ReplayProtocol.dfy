/**
 Concurrent deliveries of the webhook listener as a step system: each request
 verifies its signature against one clock reading, takes a second reading, claims
 its replay key under the cache's lock, forwards, and releases the key only when
 the forward provably never left the process. Any interleaving is a run.
 */
module ReplayProtocol {
  import opened Routes
  import opened Signatures
  import opened ReplayCache

  /* Forwarding errors */

  /** A Go error and the chain `errors.Unwrap` walks down from it. */
  datatype ErrorChain =
    | NoError
    | UpstreamBadGateway
    | NetOpError(op: string, wrapped: ErrorChain)
    | OtherError(wrapped: ErrorChain)

  function Unwrap(e: ErrorChain): ErrorChain {
    if e.NetOpError? || e.OtherError? then e.wrapped else NoError
  }

  predicate IsDialLink(e: ErrorChain) {
    e.NetOpError? && (e.op == "dial" || e.op == "proxyconnect")
  }

  /** `link` is `e` itself or an error further down its chain. */
  ghost predicate LinkOf(link: ErrorChain, e: ErrorChain)
    decreases e
  {
    link == e || ((e.NetOpError? || e.OtherError?) && LinkOf(link, e.wrapped))
  }

  function NeverSent(e: ErrorChain): (r: bool)
    ensures r <==> exists link :: LinkOf(link, e) && IsDialLink(link)
  {
    if IsDialLink(e) then
      assert LinkOf(e, e);
      true
    else if e.NetOpError? || e.OtherError? then
      assert forall link :: LinkOf(link, e.wrapped) ==> LinkOf(link, e);
      NeverSent(e.wrapped)
    else false
  }

  /** The chain is walked link by link, since the outermost match need not be the telling one. */
  method WalkNeverSent(err: ErrorChain) returns (r: bool)
    ensures r == NeverSent(err)
  {
    var current := err;
    while current != NoError
      invariant NeverSent(current) == NeverSent(err)
      decreases current
    {
      if IsDialLink(current) {
        return true;
      }
      if !(current.NetOpError? || current.OtherError?) {
        return false;
      }
      current := Unwrap(current);
    }
    return false;
  }

  predicate IsBadGateway(e: ErrorChain) {
    e.UpstreamBadGateway? || ((e.NetOpError? || e.OtherError?) && IsBadGateway(e.wrapped))
  }

  datatype ForwardResult = ForwardResult(headerWritten: bool, err: ErrorChain)

  /** The branches of `ServeHTTP` after a forward; one of them forgets the claim. */
  predicate ReleasesClaim(result: ForwardResult) {
    if result.err == NoError then false
    else if result.headerWritten then false
    else if IsBadGateway(result.err) then false
    else NeverSent(result.err)
  }

  /** No answer came, and a dial failed: the request did not leave the process. */
  predicate ProvesUnsent(result: ForwardResult) {
    !result.headerWritten && !IsBadGateway(result.err) && NeverSent(result.err)
  }

  /** Every other result is compatible with a delivery that left and with one that did not. */
  predicate Possible(left: bool, result: ForwardResult) {
    ProvesUnsent(result) ==> !left
  }

  /* Requests and steps */

  /**
   `seen` is the clock reading the signature was checked against, `now` the reading
   the cache was given, and `at` the instant the cache's lock was held.
   */
  datatype Claim = Claim(seen: Instant, now: Instant, at: Instant)

  datatype Progress =
    | Arrived
    | Verified(seen: Instant)
    | Stamped(seen: Instant, now: Instant)
    | Forwarding(claim: Claim)
    | Releasing(claim: Claim)
    | Kept(claim: Claim, left: bool)
    | Dropped(claim: Claim)
    | Rejected

  datatype Request = Request(delivery: Delivery, progress: Progress)

  datatype State = State(clock: Instant, keys: Entries, requests: seq<Request>)

  /**
   `lag` bounds the time from checking a signature to holding the cache's lock,
   `flight` the time from the claim to the release that follows a failed dial.
   */
  datatype Setting = Setting(mac: Mac, lag: nat, flight: nat)

  datatype Step =
    | Tick(elapsed: nat)
    | Arrive(delivery: Delivery)
    | Verify(i: nat)
    | ReadClock(i: nat)
    | RecordKey(i: nat)
    | Answer(i: nat, left: bool, result: ForwardResult)
    | Release(i: nat)

  predicate Enabled(p: Setting, s: State, step: Step) {
    match step
    case Tick(_) => true
    case Arrive(d) => ValidRouteName(d.agent) && ValidRouteName(d.route)
    case Verify(i) => i < |s.requests| && s.requests[i].progress.Arrived?
    case ReadClock(i) => i < |s.requests| && s.requests[i].progress.Verified?
    case RecordKey(i) =>
      i < |s.requests| && s.requests[i].progress.Stamped? && s.clock - s.requests[i].progress.seen <= p.lag
    case Answer(i, left, result) => i < |s.requests| && s.requests[i].progress.Forwarding? && Possible(left, result)
    case Release(i) =>
      i < |s.requests| && s.requests[i].progress.Releasing? && s.clock - s.requests[i].progress.claim.at <= p.flight
  }

  function With(s: State, i: nat, progress: Progress): State
    requires i < |s.requests|
  {
    s.(requests := s.requests[i := s.requests[i].(progress := progress)])
  }

  function Apply(p: Setting, s: State, step: Step): State
    requires Enabled(p, s, step)
  {
    match step
    case Tick(elapsed) => s.(clock := s.clock + elapsed)
    case Arrive(d) => s.(requests := s.requests + [Request(d, Arrived)])
    case Verify(i) =>
      With(s, i, if VerifySignature(p.mac, s.requests[i].delivery, s.clock) then Verified(s.clock) else Rejected)
    case ReadClock(i) => With(s, i, Stamped(s.requests[i].progress.seen, s.clock))
    case RecordKey(i) =>
      var Stamped(seen, now) := s.requests[i].progress;
      var claim := Claim(seen, now, s.clock);
      var key := ReplayKey(s.requests[i].delivery);
      if key == "" then With(s, i, Forwarding(claim)) else
      var (verdict, keys) := Recorded(s.keys, key, now);
      With(s, i, if verdict == Admitted then Forwarding(claim) else Rejected).(keys := keys)
    case Answer(i, left, result) =>
      var claim := s.requests[i].progress.claim;
      With(s, i, if ReleasesClaim(result) then Releasing(claim) else Kept(claim, left))
    case Release(i) =>
      With(s, i, Dropped(s.requests[i].progress.claim))
      .(keys := Forgotten(s.keys, ReplayKey(s.requests[i].delivery)))
  }

  /** A run lists its states from an empty listener on, and the steps between them. */
  ghost predicate IsRun(p: Setting, states: seq<State>, steps: seq<Step>) {
    && |states| == |steps| + 1
    && states[0].keys == map[] && states[0].requests == []
    && forall n | 0 <= n < |steps| :: Enabled(p, states[n], steps[n]) && states[n + 1] == Apply(p, states[n], steps[n])
  }

  /* What a run keeps */

  predicate HasClaim(r: Request) {
    r.progress.Forwarding? || r.progress.Releasing? || r.progress.Kept? || r.progress.Dropped?
  }

  /** The request owns a claim that has not been forgotten. */
  predicate Unreleased(r: Request) {
    HasClaim(r) && !r.progress.Dropped?
  }

  /** The delivery left the process, or is being forwarded and still may. */
  predicate MayHaveLeft(r: Request) {
    r.progress.Forwarding? || (r.progress.Kept? && r.progress.left)
  }

  predicate HasKey(r: Request, key: string) {
    ReplayKey(r.delivery) == key
  }

  ghost predicate RequestOk(p: Setting, clock: Instant, r: Request) {
    && ValidRouteName(r.delivery.agent) && ValidRouteName(r.delivery.route)
    && match r.progress
       case Arrived | Rejected => true
       case Verified(seen) => seen <= clock && VerifySignature(p.mac, r.delivery, seen)
       case Stamped(seen, now) => seen <= now <= clock && VerifySignature(p.mac, r.delivery, seen)
       case _ =>
         var c := r.progress.claim;
         c.seen <= c.now <= c.at <= clock && c.at - c.seen <= p.lag && VerifySignature(p.mac, r.delivery, c.seen)
  }

  ghost predicate RequestsOk(p: Setting, s: State) {
    forall i | 0 <= i < |s.requests| :: RequestOk(p, s.clock, s.requests[i])
  }

  /** While a claim of `key` is not forgotten the cache holds the key for its whole lifetime. */
  ghost predicate Remembered(s: State, key: string) {
    forall i | 0 <= i < |s.requests| && Unreleased(s.requests[i]) && HasKey(s.requests[i], key) ::
      Holds(s, key, s.requests[i].progress.claim)
  }

  predicate Holds(s: State, key: string, claim: Claim) {
    s.clock > claim.now + LIFETIME || (key in s.keys && s.keys[key] >= claim.now + LIFETIME)
  }

  predicate Spaced(a: Claim, b: Claim) {
    b.at > a.now + LIFETIME || a.at > b.now + LIFETIME
  }

  /** Any two claims of `key` that are not forgotten are more than a lifetime apart. */
  ghost predicate Apart(s: State, key: string) {
    forall i, j | 0 <= i < j < |s.requests|
      && Unreleased(s.requests[i]) && HasKey(s.requests[i], key)
      && Unreleased(s.requests[j]) && HasKey(s.requests[j], key) ::
      Spaced(s.requests[i].progress.claim, s.requests[j].progress.claim)
  }

  /** Releasing `i` takes no live claim of another request away. */
  ghost predicate ReleaseIsOwn(s: State, i: nat)
    requires i < |s.requests|
  {
    forall j | 0 <= j < |s.requests| && j != i && Unreleased(s.requests[j])
      && HasKey(s.requests[j], ReplayKey(s.requests[i].delivery)) ::
      s.clock > s.requests[j].progress.claim.now + LIFETIME
  }

  lemma StepKeepsRequestsOk(p: Setting, s: State, step: Step)
    requires Enabled(p, s, step) && RequestsOk(p, s)
    ensures RequestsOk(p, Apply(p, s, step))
  {
    var s' := Apply(p, s, step);
    forall i | 0 <= i < |s'.requests| ensures RequestOk(p, s'.clock, s'.requests[i]) {
      if i < |s.requests| {
        assert RequestOk(p, s.clock, s.requests[i]);
      }
    }
  }

  /** Recording one key at `now` drops no entry that is still live at the clock, except to renew it. */
  lemma RecordKeepsHolding(s: State, k: string, key: string, now: Instant, claim: Claim)
    requires now <= s.clock && Holds(s, key, claim)
    ensures Holds(s.(keys := Recorded(s.keys, k, now).1), key, claim)
  {
  }

  lemma RecordStepRemembers(p: Setting, s: State, i: nat, key: string)
    requires Enabled(p, s, RecordKey(i)) && RequestsOk(p, s) && key != "" && Remembered(s, key)
    ensures Remembered(Apply(p, s, RecordKey(i)), key)
  {
    var s' := Apply(p, s, RecordKey(i));
    var r := s.requests[i];
    assert RequestOk(p, s.clock, r);
    var Stamped(seen, now) := r.progress;
    var k := ReplayKey(r.delivery);
    forall j | 0 <= j < |s'.requests| && Unreleased(s'.requests[j]) && HasKey(s'.requests[j], key)
      ensures Holds(s', key, s'.requests[j].progress.claim)
    {
      if j != i {
        assert s'.requests[j] == s.requests[j];
        if k != "" {
          RecordKeepsHolding(s, k, key, now, s.requests[j].progress.claim);
        }
      }
    }
  }

  /** A key is admitted only after every unforgotten claim of it has expired. */
  lemma RecordStepSpaces(p: Setting, s: State, i: nat, key: string)
    requires Enabled(p, s, RecordKey(i)) && RequestsOk(p, s) && key != "" && Remembered(s, key) && Apart(s, key)
    ensures Apart(Apply(p, s, RecordKey(i)), key)
  {
    var s' := Apply(p, s, RecordKey(i));
    var r := s.requests[i];
    assert RequestOk(p, s.clock, r);
    if HasKey(r, key) && Unreleased(s'.requests[i]) {
      forall j | 0 <= j < |s.requests| && j != i && Unreleased(s.requests[j]) && HasKey(s.requests[j], key)
        ensures Spaced(s.requests[j].progress.claim, s'.requests[i].progress.claim)
      {
        assert Holds(s, key, s.requests[j].progress.claim);
      }
    }
  }

  lemma RecordStepKeepsKey(p: Setting, s: State, i: nat, key: string)
    requires Enabled(p, s, RecordKey(i)) && RequestsOk(p, s) && key != ""
    requires Remembered(s, key) && Apart(s, key)
    ensures Remembered(Apply(p, s, RecordKey(i)), key) && Apart(Apply(p, s, RecordKey(i)), key)
  {
    RecordStepRemembers(p, s, i, key);
    RecordStepSpaces(p, s, i, key);
  }

  lemma ReleaseStepKeepsKey(p: Setting, s: State, i: nat, key: string)
    requires Enabled(p, s, Release(i)) && Remembered(s, key) && Apart(s, key)
    requires HasKey(s.requests[i], key) ==> ReleaseIsOwn(s, i)
    ensures Remembered(Apply(p, s, Release(i)), key) && Apart(Apply(p, s, Release(i)), key)
  {
    var s' := Apply(p, s, Release(i));
    forall j | 0 <= j < |s'.requests| && Unreleased(s'.requests[j]) && HasKey(s'.requests[j], key)
      ensures Holds(s', key, s'.requests[j].progress.claim)
    {
      assert j != i && s'.requests[j] == s.requests[j];
      assert Holds(s, key, s.requests[j].progress.claim);
    }
  }

  lemma StepKeepsKey(p: Setting, s: State, step: Step, key: string)
    requires Enabled(p, s, step) && RequestsOk(p, s) && key != ""
    requires Remembered(s, key) && Apart(s, key)
    requires step.Release? && HasKey(s.requests[step.i], key) ==> ReleaseIsOwn(s, step.i)
    ensures Remembered(Apply(p, s, step), key) && Apart(Apply(p, s, step), key)
  {
    var s' := Apply(p, s, step);
    if step.RecordKey? {
      RecordStepKeepsKey(p, s, step.i, key);
    } else if step.Release? {
      ReleaseStepKeepsKey(p, s, step.i, key);
    } else {
      forall j | 0 <= j < |s'.requests| && Unreleased(s'.requests[j]) && HasKey(s'.requests[j], key)
        ensures Holds(s', key, s'.requests[j].progress.claim)
      {
        assert Unreleased(s.requests[j]) && s.requests[j].progress.claim == s'.requests[j].progress.claim;
        assert Holds(s, key, s.requests[j].progress.claim);
      }
      forall i, j | 0 <= i < j < |s'.requests|
        && Unreleased(s'.requests[i]) && HasKey(s'.requests[i], key)
        && Unreleased(s'.requests[j]) && HasKey(s'.requests[j], key)
        ensures Spaced(s'.requests[i].progress.claim, s'.requests[j].progress.claim)
      {
        assert Unreleased(s.requests[i]) && s.requests[i].progress.claim == s'.requests[i].progress.claim;
        assert Unreleased(s.requests[j]) && s.requests[j].progress.claim == s'.requests[j].progress.claim;
      }
    }
  }

  /* Claim ownership: no forget takes away what another delivery claimed */

  /** An entry of `key` was written by a claim that is not forgotten. */
  ghost predicate Owned(s: State, key: string) {
    key in s.keys ==> exists i :: 0 <= i < |s.requests| && Owns(s, i, key)
  }

  predicate Owns(s: State, i: nat, key: string)
    requires i < |s.requests| && key in s.keys
  {
    && Unreleased(s.requests[i]) && HasKey(s.requests[i], key)
    && s.keys[key] == s.requests[i].progress.claim.now + LIFETIME
  }

  lemma StepKeepsOwner(p: Setting, s: State, step: Step, key: string)
    requires Enabled(p, s, step) && key != "" && Owned(s, key)
    ensures Owned(Apply(p, s, step), key)
  {
    var s' := Apply(p, s, step);
    if key in s'.keys {
      if key in s.keys && s'.keys[key] == s.keys[key] {
        var i :| 0 <= i < |s.requests| && Owns(s, i, key);
        if step.RecordKey? && step.i == i {
          assert false;
        }
        assert Owns(s', i, key);
      } else {
        assert step.RecordKey? && Owns(s', step.i, key);
      }
    }
  }

  ghost predicate KeyOk(s: State, key: string) {
    Remembered(s, key) && Apart(s, key) && Owned(s, key)
  }

  lemma TimelyReleaseIsOwn(p: Setting, s: State, i: nat)
    requires RequestsOk(p, s) && Enabled(p, s, Release(i)) && p.lag + p.flight <= LIFETIME
    requires Apart(s, ReplayKey(s.requests[i].delivery))
    ensures ReleaseIsOwn(s, i)
  {
    var key, mine := ReplayKey(s.requests[i].delivery), s.requests[i].progress.claim;
    assert RequestOk(p, s.clock, s.requests[i]);
    forall j | 0 <= j < |s.requests| && j != i && Unreleased(s.requests[j]) && HasKey(s.requests[j], key)
      ensures s.clock > s.requests[j].progress.claim.now + LIFETIME
    {
      assert RequestOk(p, s.clock, s.requests[j]);
      assert if i < j then Spaced(mine, s.requests[j].progress.claim) else Spaced(s.requests[j].progress.claim, mine);
    }
  }

  lemma {:induction false} RunKeepsKeys(p: Setting, states: seq<State>, steps: seq<Step>, n: nat, key: string)
    requires IsRun(p, states, steps) && n <= |steps| && p.lag + p.flight <= LIFETIME && key != ""
    ensures RequestsOk(p, states[n]) && KeyOk(states[n], key)
  {
    if n > 0 {
      RunKeepsKeys(p, states, steps, n - 1, key);
      var s, step := states[n - 1], steps[n - 1];
      assert Enabled(p, s, step) && states[n] == Apply(p, s, step);
      StepKeepsRequestsOk(p, s, step);
      if step.Release? && HasKey(s.requests[step.i], key) {
        TimelyReleaseIsOwn(p, s, step.i);
      }
      StepKeepsKey(p, s, step, key);
      StepKeepsOwner(p, s, step, key);
    }
  }

  /**
   On every run whose flights end before the claim can expire, any two deliveries
   under one key that may have left were claimed more than twice the tolerance apart: from
   the one's stamp to the instant the other held the lock, or, stamp to stamp, less `lag`.
   */
  lemma DeliveriesSpaced(p: Setting, states: seq<State>, steps: seq<Step>, i: nat, j: nat)
    requires IsRun(p, states, steps) && p.lag + p.flight <= LIFETIME
    requires var s := states[|steps|];
      && i < |s.requests| && j < |s.requests| && i != j
      && MayHaveLeft(s.requests[i]) && MayHaveLeft(s.requests[j])
      && Timestamped(s.requests[i].delivery)
      && HasKey(s.requests[j], ReplayKey(s.requests[i].delivery))
    ensures var s := states[|steps|];
      Spaced(s.requests[i].progress.claim, s.requests[j].progress.claim)
    ensures var s := states[|steps|]; var a, b := s.requests[i].progress.claim, s.requests[j].progress.claim;
      a.now - b.now > 2 * SIGNATURE_TOLERANCE - p.lag || b.now - a.now > 2 * SIGNATURE_TOLERANCE - p.lag
  {
    var s := states[|steps|];
    var key := ReplayKey(s.requests[i].delivery);
    RunKeepsKeys(p, states, steps, |steps|, key);
    assert RequestOk(p, s.clock, s.requests[i]) && RequestOk(p, s.clock, s.requests[j]);
    assert Spaced(s.requests[if i < j then i else j].progress.claim, s.requests[if i < j then j else i].progress.claim);
  }

  /** This step admits a request under `key`. */
  predicate Admits(p: Setting, s: State, step: Step, key: string) {
    && step.RecordKey? && Enabled(p, s, step) && HasKey(s.requests[step.i], key)
    && Apply(p, s, step).requests[step.i].progress.Forwarding?
  }

  function Stamp(s: State, step: Step): Instant
    requires step.RecordKey? && step.i < |s.requests| && s.requests[step.i].progress.Stamped?
  {
    s.requests[step.i].progress.now
  }

  /** This step removes the entry of `key`. */
  predicate Drops(p: Setting, s: State, step: Step, key: string) {
    Enabled(p, s, step) && key in s.keys && key !in Apply(p, s, step).keys
  }

  /** The step is a release under `key`, or a sweep of a full cache in which the entry of `key` has expired. */
  predicate ReleasedOrSwept(s: State, step: Step, key: string) {
    match step
    case Release(i) => i < |s.requests| && HasKey(s.requests[i], key)
    case RecordKey(i) =>
      && i < |s.requests| && s.requests[i].progress.Stamped?
      && |s.keys| >= MAX_REPLAY_CACHE_KEYS && key in s.keys && s.keys[key] < Stamp(s, step)
    case _ => false
  }

  lemma DroppedBy(p: Setting, s: State, step: Step, key: string)
    requires Drops(p, s, step, key)
    ensures ReleasedOrSwept(s, step, key)
  {
  }

  predicate EntryFrom(s: State, key: string, stamp: Instant) {
    key in s.keys && s.keys[key] >= stamp + LIFETIME
  }

  lemma StepKeepsEntry(p: Setting, s: State, step: Step, key: string, stamp: Instant)
    requires Enabled(p, s, step) && EntryFrom(s, key, stamp) && !Drops(p, s, step, key)
    ensures EntryFrom(Apply(p, s, step), key, stamp)
  {
  }

  lemma AdmittedAfter(p: Setting, s: State, step: Step, key: string, stamp: Instant)
    requires Admits(p, s, step, key) && key != "" && EntryFrom(s, key, stamp)
    ensures Stamp(s, step) > stamp + LIFETIME
  {
  }

  lemma AdmittedEnters(p: Setting, s: State, step: Step, key: string, stamp: Instant)
    requires Admits(p, s, step, key) && key != "" && stamp == Stamp(s, step)
    ensures EntryFrom(Apply(p, s, step), key, stamp)
  {
  }

  lemma {:induction false} EntryStays(p: Setting, states: seq<State>, steps: seq<Step>, a: nat, b: nat, key: string,
      stamp: Instant)
    requires IsRun(p, states, steps) && a <= b <= |steps| && EntryFrom(states[a], key, stamp)
    requires forall n | a <= n < b :: !Drops(p, states[n], steps[n], key)
    ensures EntryFrom(states[b], key, stamp)
  {
    if b > a {
      EntryStays(p, states, steps, a, b - 1, key, stamp);
      EntryStaysOnce(p, states, steps, b - 1, key, stamp);
    }
  }

  lemma EntryStaysOnce(p: Setting, states: seq<State>, steps: seq<Step>, n: nat, key: string, stamp: Instant)
    requires IsRun(p, states, steps) && n < |steps| && EntryFrom(states[n], key, stamp)
    requires !Drops(p, states[n], steps[n], key)
    ensures EntryFrom(states[n + 1], key, stamp)
  {
    RunStep(p, states, steps, n);
    StepKeepsEntry(p, states[n], steps[n], key, stamp);
  }

  lemma RunStep(p: Setting, states: seq<State>, steps: seq<Step>, n: nat)
    requires IsRun(p, states, steps) && n < |steps|
    ensures Enabled(p, states[n], steps[n]) && states[n + 1] == Apply(p, states[n], steps[n])
  {
  }

  /**
   Stamp to stamp: of two requests admitted under one key the later one is stamped more than twice the
   tolerance after the earlier one, for every lag and every flight, or else some step between them
   has removed the key: a release under it, or a sweep of the full cache by another stamp.
   */
  lemma StampsSpaced(p: Setting, states: seq<State>, steps: seq<Step>, a: nat, b: nat, key: string)
    requires IsRun(p, states, steps) && a < b < |steps| && key != ""
    requires Admits(p, states[a], steps[a], key) && Admits(p, states[b], steps[b], key)
    ensures Stamp(states[b], steps[b]) > Stamp(states[a], steps[a]) + 2 * SIGNATURE_TOLERANCE
      || exists n | a < n < b :: Drops(p, states[n], steps[n], key) && ReleasedOrSwept(states[n], steps[n], key)
  {
    if n :| a < n < b && Drops(p, states[n], steps[n], key) {
      DroppedBy(p, states[n], steps[n], key);
    } else {
      RunStep(p, states, steps, a);
      AdmittedEnters(p, states[a], steps[a], key, Stamp(states[a], steps[a]));
      EntryStays(p, states, steps, a + 1, b, key, Stamp(states[a], steps[a]));
      AdmittedAfter(p, states[b], steps[b], key, Stamp(states[a], steps[a]));
    }
  }

  /** What `forget` deletes at this step is the entry its own request wrote. */
  ghost predicate ReleasesOwnEntry(s: State, i: nat)
    requires i < |s.requests| && s.requests[i].progress.Releasing?
  {
    var key := ReplayKey(s.requests[i].delivery);
    key != "" ==> key in s.keys && s.keys[key] == s.requests[i].progress.claim.now + LIFETIME && ReleaseIsOwn(s, i)
  }

  lemma ForgetOwnsItsEntry(p: Setting, states: seq<State>, steps: seq<Step>, n: nat)
    requires IsRun(p, states, steps) && p.lag + p.flight <= LIFETIME
    requires n < |steps| && steps[n].Release?
    ensures Enabled(p, states[n], steps[n]) && ReleasesOwnEntry(states[n], steps[n].i)
  {
    var s, i := states[n], steps[n].i;
    assert Enabled(p, s, steps[n]);
    var key := ReplayKey(s.requests[i].delivery);
    if key != "" {
      RunKeepsKeys(p, states, steps, n, key);
      TimelyReleaseIsOwn(p, s, i);
      assert RequestOk(p, s.clock, s.requests[i]);
      assert Holds(s, key, s.requests[i].progress.claim);
      var owner :| 0 <= owner < |s.requests| && Owns(s, owner, key);
      assert owner == i;
    }
  }

  /** A claim of `key` that was not forgotten is within its lifetime at `now`. */
  ghost predicate LiveClaim(s: State, key: string, now: Instant) {
    exists i :: 0 <= i < |s.requests| && Unreleased(s.requests[i]) && HasKey(s.requests[i], key)
      && now <= s.requests[i].progress.claim.now + LIFETIME
  }

  /**
   At any moment of a run, whatever reading `now` of the clock a request was stamped with: it is
   refused as a replay if an unforgotten claim of its key is live at the clock, and only if one is
   live at its stamp. So a retry of a delivery that provably never left is let through, a redelivery
   of any other one is not; for a stamp that is no older than the clock the two conditions are one.
   */
  lemma ReplayRefusedExactly(p: Setting, states: seq<State>, steps: seq<Step>, n: nat, key: string, now: Instant)
    requires IsRun(p, states, steps) && n <= |steps| && p.lag + p.flight <= LIFETIME && key != ""
    requires now <= states[n].clock
    ensures LiveClaim(states[n], key, states[n].clock) ==> Recorded(states[n].keys, key, now).0 == ReplayDetected
    ensures Recorded(states[n].keys, key, now).0 == ReplayDetected ==> LiveClaim(states[n], key, now)
  {
    var s := states[n];
    RunKeepsKeys(p, states, steps, n, key);
    if LiveClaim(s, key, s.clock) {
      var i :| 0 <= i < |s.requests| && Unreleased(s.requests[i]) && HasKey(s.requests[i], key)
               && s.clock <= s.requests[i].progress.claim.now + LIFETIME;
      assert Holds(s, key, s.requests[i].progress.claim);
    }
    if key in s.keys && now <= s.keys[key] {
      var i :| 0 <= i < |s.requests| && Owns(s, i, key);
    }
  }

  /* At most one delivery per generic-v2 key */

  /** The instant a parsable timestamp names. */
  function SignedAt(d: Delivery): Instant
    requires ParseInt64(d.timestamp).Some?
  {
    ParseInt64(d.timestamp).value * SECOND
  }

  /** Every claim under `key` was stamped at `from` or later. */
  ghost predicate ClaimedFrom(s: State, key: string, from: Instant) {
    forall i | 0 <= i < |s.requests| && HasClaim(s.requests[i]) && HasKey(s.requests[i], key) ::
      s.requests[i].progress.claim.now >= from
  }

  ghost predicate Authentic(mac: Mac, d: Delivery) {
    && d.provider == "generic-v2" && d.secret != ""
    && ValidRouteName(d.agent) && ValidRouteName(d.route)
    && ParseInt64(d.timestamp).Some?
    && VerifySignature(mac, d, SignedAt(d))
  }

  /** Everything claimed under the key of an authentic delivery verified within its window. */
  lemma ClaimsInWindow(p: Setting, clock: Instant, d: Delivery, r: Request)
    requires CollisionFree(p.mac) && Authentic(p.mac, d)
    requires RequestOk(p, clock, r) && HasClaim(r) && HasKey(r, ReplayKey(d))
    ensures SignedAt(d) - SIGNATURE_TOLERANCE <= r.progress.claim.seen <= SignedAt(d) + SIGNATURE_TOLERANCE
  {
    var e := r.delivery;
    assert Timestamped(e) by {
      assert ReplayKey(d) != "";
    }
    ReplayKeySeparates(d, e);
    KeyBindsTimestamp(p.mac, d, SignedAt(d), e, r.progress.claim.seen);
  }

  /** With claims late enough, two claims of the key cannot both be unforgotten. */
  lemma AloneUnderKey(p: Setting, s: State, d: Delivery, i: nat, j: nat)
    requires CollisionFree(p.mac) && Authentic(p.mac, d) && RequestsOk(p, s)
    requires ClaimedFrom(s, ReplayKey(d), SignedAt(d) - SIGNATURE_TOLERANCE + p.lag) && Apart(s, ReplayKey(d))
    requires i < |s.requests| && j < |s.requests|
    requires Unreleased(s.requests[i]) && HasKey(s.requests[i], ReplayKey(d))
    requires Unreleased(s.requests[j]) && HasKey(s.requests[j], ReplayKey(d))
    ensures i == j
  {
    ClaimsInWindow(p, s.clock, d, s.requests[i]);
    ClaimsInWindow(p, s.clock, d, s.requests[j]);
    assert RequestOk(p, s.clock, s.requests[i]) && RequestOk(p, s.clock, s.requests[j]);
    var a, b := s.requests[i].progress.claim, s.requests[j].progress.claim;
    assert i < j ==> Spaced(a, b);
    assert j < i ==> Spaced(b, a);
  }

  lemma ClaimedFromBefore(p: Setting, s: State, step: Step, key: string, from: Instant)
    requires Enabled(p, s, step) && ClaimedFrom(Apply(p, s, step), key, from)
    ensures ClaimedFrom(s, key, from)
  {
    var s' := Apply(p, s, step);
    forall i | 0 <= i < |s.requests| && HasClaim(s.requests[i]) && HasKey(s.requests[i], key)
      ensures s.requests[i].progress.claim.now >= from
    {
      assert HasClaim(s'.requests[i]) && s'.requests[i].progress.claim == s.requests[i].progress.claim;
    }
  }

  ghost predicate TimelyKeyOk(p: Setting, s: State, key: string) {
    RequestsOk(p, s) && Remembered(s, key) && Apart(s, key)
  }

  /** The only unforgotten claim under a timely key is the one being released. */
  lemma TimelyKeyReleaseIsOwn(p: Setting, s: State, i: nat, d: Delivery)
    requires CollisionFree(p.mac) && Authentic(p.mac, d) && TimelyKeyOk(p, s, ReplayKey(d))
    requires ClaimedFrom(s, ReplayKey(d), SignedAt(d) - SIGNATURE_TOLERANCE + p.lag)
    requires i < |s.requests| && s.requests[i].progress.Releasing? && HasKey(s.requests[i], ReplayKey(d))
    ensures ReleaseIsOwn(s, i)
  {
    forall j | 0 <= j < |s.requests| && Unreleased(s.requests[j]) && HasKey(s.requests[j], ReplayKey(d))
      ensures j == i {
      AloneUnderKey(p, s, d, j, i);
    }
  }

  lemma StepKeepsTimelyKey(p: Setting, s: State, step: Step, s': State, d: Delivery)
    requires CollisionFree(p.mac) && Authentic(p.mac, d) && TimelyKeyOk(p, s, ReplayKey(d))
    requires ClaimedFrom(s, ReplayKey(d), SignedAt(d) - SIGNATURE_TOLERANCE + p.lag)
    requires Enabled(p, s, step) && s' == Apply(p, s, step)
    ensures TimelyKeyOk(p, s', ReplayKey(d))
  {
    StepKeepsRequestsOk(p, s, step);
    if step.Release? && HasKey(s.requests[step.i], ReplayKey(d)) {
      TimelyKeyReleaseIsOwn(p, s, step.i, d);
    }
    StepKeepsKey(p, s, step, ReplayKey(d));
  }

  lemma {:induction false} RunKeepsTimelyKey(p: Setting, states: seq<State>, steps: seq<Step>, n: nat, d: Delivery)
    requires IsRun(p, states, steps) && n <= |steps| && CollisionFree(p.mac) && Authentic(p.mac, d)
    requires ClaimedFrom(states[n], ReplayKey(d), SignedAt(d) - SIGNATURE_TOLERANCE + p.lag)
    ensures TimelyKeyOk(p, states[n], ReplayKey(d))
  {
    if n > 0 {
      var s, step, key := states[n - 1], steps[n - 1], ReplayKey(d);
      assert Enabled(p, s, step) && states[n] == Apply(p, s, step);
      ClaimedFromBefore(p, s, step, key, SignedAt(d) - SIGNATURE_TOLERANCE + p.lag);
      RunKeepsTimelyKey(p, states, steps, n - 1, d);
      StepKeepsTimelyKey(p, s, step, states[n], d);
    }
  }

  ghost predicate AtMostOneLeft(s: State, key: string) {
    forall i, j | 0 <= i < |s.requests| && 0 <= j < |s.requests|
      && MayHaveLeft(s.requests[i]) && HasKey(s.requests[i], key)
      && MayHaveLeft(s.requests[j]) && HasKey(s.requests[j], key) :: i == j
  }

  /**
   On every run in which the key of an authentic delivery is claimed no earlier than
   `lag` after the start of its window, at most one delivery under it ever leaves.
   No bound on the flight is needed.
   */
  lemma AtMostOnce(p: Setting, states: seq<State>, steps: seq<Step>, d: Delivery)
    requires IsRun(p, states, steps) && CollisionFree(p.mac) && Authentic(p.mac, d)
    requires ClaimedFrom(states[|steps|], ReplayKey(d), SignedAt(d) - SIGNATURE_TOLERANCE + p.lag)
    ensures AtMostOneLeft(states[|steps|], ReplayKey(d))
  {
    var s, key := states[|steps|], ReplayKey(d);
    RunKeepsTimelyKey(p, states, steps, |steps|, d);
    forall i, j | 0 <= i < |s.requests| && 0 <= j < |s.requests|
      && MayHaveLeft(s.requests[i]) && HasKey(s.requests[i], key)
      && MayHaveLeft(s.requests[j]) && HasKey(s.requests[j], key)
      ensures i == j
    {
      AloneUnderKey(p, s, d, i, j);
    }
  }

  lemma {:induction false} RunKeepsRequestsOk(p: Setting, states: seq<State>, steps: seq<Step>, n: nat)
    requires IsRun(p, states, steps) && n <= |steps|
    ensures RequestsOk(p, states[n])
  {
    if n > 0 {
      RunKeepsRequestsOk(p, states, steps, n - 1);
      assert Enabled(p, states[n - 1], steps[n - 1]) && states[n] == Apply(p, states[n - 1], steps[n - 1]);
      StepKeepsRequestsOk(p, states[n - 1], steps[n - 1]);
    }
  }

  /** When a signature is checked and its key claimed in one instant, nothing more is needed. */
  lemma AtMostOnceInOneInstant(p: Setting, states: seq<State>, steps: seq<Step>, d: Delivery)
    requires IsRun(p, states, steps) && CollisionFree(p.mac) && Authentic(p.mac, d) && p.lag == 0
    ensures AtMostOneLeft(states[|steps|], ReplayKey(d))
  {
    var s, key := states[|steps|], ReplayKey(d);
    RunKeepsRequestsOk(p, states, steps, |steps|);
    forall i | 0 <= i < |s.requests| && HasClaim(s.requests[i]) && HasKey(s.requests[i], key)
      ensures s.requests[i].progress.claim.now >= SignedAt(d) - SIGNATURE_TOLERANCE
    {
      assert RequestOk(p, s.clock, s.requests[i]);
      ClaimsInWindow(p, s.clock, d, s.requests[i]);
    }
    AtMostOnce(p, states, steps, d);
  }
}
