/**
 What a forward's outcome does to the claim it was made under: a delivery that provably never left can be
 retried, any other one cannot, and nothing is forwarded that was not verified.
 */
module ReplayRetries {
  import opened Prelude
  import opened Signatures
  import opened ReplayCache
  import opened ReplayProtocol

  /** Nothing was answered, and the chain of errors shows that the connection was never established. */
  ghost predicate NeverLeft(result: ForwardResult) {
    && !result.headerWritten
    && (forall link | LinkOf(link, result.err) :: !link.UpstreamBadGateway?)
    && exists link :: LinkOf(link, result.err) && link.NetOpError? && link.op in {"dial", "proxyconnect"}
  }

  lemma {:induction false} BadGatewayLinks(e: ErrorChain)
    ensures IsBadGateway(e) <==> exists link :: LinkOf(link, e) && link.UpstreamBadGateway?
  {
    if e.NetOpError? || e.OtherError? {
      BadGatewayLinks(e.wrapped);
      if IsBadGateway(e) {
        var link :| LinkOf(link, e.wrapped) && link.UpstreamBadGateway?;
        assert LinkOf(link, e);
      }
    } else {
      assert LinkOf(e, e);
    }
  }

  lemma NeverSentMeans(result: ForwardResult)
    ensures ProvesUnsent(result) <==> NeverLeft(result)
  {
    BadGatewayLinks(result.err);
    if NeverLeft(result) {
      var link :| LinkOf(link, result.err) && link.NetOpError? && link.op in {"dial", "proxyconnect"};
      assert IsDialLink(link) && NeverSent(result.err);
    }
    if NeverSent(result.err) {
      var link :| LinkOf(link, result.err) && IsDialLink(link);
      assert link.NetOpError? && link.op in {"dial", "proxyconnect"};
    }
  }

  /** The one thing an outcome tells about a delivery is that it did not leave; any other outcome leaves it open. */
  lemma AnsweredExactly(p: Setting, s: State, i: nat, left: bool, result: ForwardResult)
    ensures Enabled(p, s, Answer(i, left, result)) <==>
      i < |s.requests| && s.requests[i].progress.Forwarding? && (left ==> !NeverLeft(result))
  {
    NeverSentMeans(result);
  }

  /**
   The claim of an answered forward is released exactly when the delivery never left, wherever in the chain
   of errors the dial failed. A delivery that left never loses its claim.
   */
  lemma ReleasedExactly(p: Setting, s: State, i: nat, left: bool, result: ForwardResult)
    requires Enabled(p, s, Answer(i, left, result))
    ensures var claim := s.requests[i].progress.claim;
      Apply(p, s, Answer(i, left, result)).requests[i].progress ==
        if NeverLeft(result) then Releasing(claim) else Kept(claim, left)
    ensures NeverLeft(result) ==> !left
  {
    NeverSentMeans(result);
  }

  /** The keys whose entries have not expired. */
  function Unexpired(keys: Entries, now: Instant): set<string> {
    set k | k in keys && keys[k] >= now
  }

  /** There is room for one more key beside those that have not expired. */
  predicate HasRoom(s: State, now: Instant) {
    |Unexpired(s.keys, now)| < 10_000
  }

  lemma FreeKeyIsAdmitted(keys: Entries, key: string, now: Instant)
    requires key !in keys
    ensures Recorded(keys, key, now).0 == if |Unexpired(keys, now)| < 10_000 then Admitted else ReplayCacheFull
  {
    assert Swept(keys, now).Keys == Unexpired(keys, now);
    SubsetSize(Unexpired(keys, now), keys.Keys);
  }

  lemma FreeRequestIsAdmitted(p: Setting, s: State, j: nat, key: string)
    requires Enabled(p, s, RecordKey(j)) && HasKey(s.requests[j], key) && key != "" && key !in s.keys
    ensures Admits(p, s, RecordKey(j), key) <==> HasRoom(s, Stamp(s, RecordKey(j)))
  {
    FreeKeyIsAdmitted(s.keys, key, Stamp(s, RecordKey(j)));
  }

  /** The claim waits for its release, or is released and its key is free. */
  predicate Retriable(s: State, i: nat, claim: Claim, key: string) {
    && i < |s.requests| && HasKey(s.requests[i], key)
    && (s.requests[i].progress == Releasing(claim)
        || (s.requests[i].progress == Dropped(claim) && key !in s.keys))
  }

  lemma StepKeepsRetriable(p: Setting, s: State, step: Step, i: nat, claim: Claim, key: string)
    requires Enabled(p, s, step) && key != "" && Retriable(s, i, claim, key) && !Admits(p, s, step, key)
    ensures Retriable(Apply(p, s, step), i, claim, key)
  {
  }

  lemma {:induction false} StaysRetriable(p: Setting, states: seq<State>, steps: seq<Step>, a: nat, b: nat, i: nat,
      claim: Claim, key: string)
    requires IsRun(p, states, steps) && a <= b <= |steps| && key != "" && Retriable(states[a], i, claim, key)
    requires forall n | a <= n < b :: !Admits(p, states[n], steps[n], key)
    ensures Retriable(states[b], i, claim, key)
  {
    if b > a {
      StaysRetriable(p, states, steps, a, b - 1, i, claim, key);
      RunStep(p, states, steps, b - 1);
      StepKeepsRetriable(p, states[b - 1], steps[b - 1], i, claim, key);
    }
  }

  /**
   A delivery that never left is retried. From the answer on, its claim waits for its release or is gone; and
   once it is gone, the next request under its key to hold the lock is admitted, exactly if there is room.
   */
  lemma RetryIsAdmitted(p: Setting, states: seq<State>, steps: seq<Step>, a: nat, b: nat, i: nat, left: bool,
      result: ForwardResult, key: string)
    requires IsRun(p, states, steps) && a < b < |steps| && steps[a] == Answer(i, left, result) && NeverLeft(result)
    requires i < |states[a].requests| && HasKey(states[a].requests[i], key) && key != ""
    requires steps[b].RecordKey? && steps[b].i < |states[b].requests| && HasKey(states[b].requests[steps[b].i], key)
    requires forall n | a < n < b :: !Admits(p, states[n], steps[n], key)
    ensures i < |states[b].requests| && Enabled(p, states[b], steps[b])
    ensures states[b].requests[i].progress.Releasing? || states[b].requests[i].progress.Dropped?
    ensures states[b].requests[i].progress.Dropped? ==>
      (Admits(p, states[b], steps[b], key) <==> HasRoom(states[b], Stamp(states[b], steps[b])))
  {
    RunStep(p, states, steps, a);
    RunStep(p, states, steps, b);
    ReleasedExactly(p, states[a], i, left, result);
    StaysRetriable(p, states, steps, a + 1, b, i, states[a].requests[i].progress.claim, key);
    if states[b].requests[i].progress.Dropped? {
      FreeRequestIsAdmitted(p, states[b], steps[b].i, key);
    }
  }

  /* Nothing unverified is forwarded */

  /** The text names an instant, counted in seconds, that is at most five minutes away. */
  predicate Near(raw: string, now: Instant) {
    match ParseInt64(raw)
    case None => false
    case Some(seconds) => -300_000_000_000 <= now - seconds * 1_000_000_000 <= 300_000_000_000
  }

  /** What each provider asks of a delivery at `now`: a secret, and the provider's own proof that it knows it. */
  ghost predicate Proven(mac: Mac, d: Delivery, now: Instant) {
    && d.secret != ""
    && d.provider in {"pagerduty", "github", "gitlab", "svix", "generic-v2", "alertmanager"}
    && (d.provider == "generic-v2" ==>
          && d.signature != "" && HexDecode(d.signature) == Some(mac(d.secret, d.timestamp + "." + d.body))
          && Near(d.timestamp, now))
    && (d.provider == "svix" ==> d.messageId != "" && Near(d.timestamp, now))
    && (d.provider != "generic-v2" ==> d.vouched)
  }

  lemma VerifiedExactly(mac: Mac, d: Delivery, now: Instant)
    ensures VerifySignature(mac, d, now) <==> Proven(mac, d, now)
  {
    assert ParseInt64("") == None;
    assert ['.'] == ".";
  }

  /** On every run: whatever is forwarded was proven, no longer than `lag` before its key was claimed. */
  lemma ForwardedIsProven(p: Setting, states: seq<State>, steps: seq<Step>, n: nat, i: nat)
    requires IsRun(p, states, steps) && n <= |steps| && i < |states[n].requests| && HasClaim(states[n].requests[i])
    ensures var r := states[n].requests[i]; var claim := r.progress.claim;
      Proven(p.mac, r.delivery, claim.seen) && 0 <= claim.at - claim.seen <= p.lag
  {
    RunKeepsRequestsOk(p, states, steps, n);
    assert RequestOk(p, states[n].clock, states[n].requests[i]);
    VerifiedExactly(p.mac, states[n].requests[i].delivery, states[n].requests[i].progress.claim.seen);
  }

  /** A delivery that is proven is not turned away by its check, and any other one is. */
  lemma CheckedExactly(p: Setting, s: State, i: nat)
    requires Enabled(p, s, Verify(i))
    ensures Apply(p, s, Verify(i)).requests[i].progress ==
      if Proven(p.mac, s.requests[i].delivery, s.clock) then Verified(s.clock) else Rejected
  {
    VerifiedExactly(p.mac, s.requests[i].delivery, s.clock);
  }

  /** A provider that signs no timestamp gets no key, and its deliveries are never refused as replays. */
  lemma UntimestampedAlwaysForwarded(p: Setting, s: State, i: nat)
    requires Enabled(p, s, RecordKey(i)) && s.requests[i].delivery.provider !in {"generic-v2", "svix"}
    ensures Apply(p, s, RecordKey(i)).requests[i].progress.Forwarding? && Apply(p, s, RecordKey(i)).keys == s.keys
  {
  }
}
