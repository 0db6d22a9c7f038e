/**
 The conditions of the replay protocol's two guarantees are exact: where one
 fails, a run is built in which the guarantee fails.
 */
module ReplayLimits {
  import opened Prelude
  import opened Signatures
  import opened ReplayCache
  import opened ReplayProtocol

  /** Appends one step to a run; `last` is the state it leads to. */
  lemma Take(p: Setting, states: seq<State>, steps: seq<Step>, step: Step)
      returns (states': seq<State>, steps': seq<Step>, last: State)
    requires IsRun(p, states, steps) && Enabled(p, states[|steps|], step)
    ensures last == Apply(p, states[|steps|], step)
    ensures states' == states + [last] && steps' == steps + [step]
    ensures IsRun(p, states', steps') && states'[|steps'|] == last
  {
    last := Apply(p, states[|steps|], step);
    states', steps' := states + [last], steps + [step];
    forall n | 0 <= n < |steps'|
      ensures Enabled(p, states'[n], steps'[n]) && states'[n + 1] == Apply(p, states'[n], steps'[n])
    {
      assert n < |steps| ==> Enabled(p, states[n], steps[n]) && states[n + 1] == Apply(p, states[n], steps[n]);
    }
  }

  const SENT := ForwardResult(true, NoError)
  const REFUSED := ForwardResult(false, NetOpError("dial", NoError))

  /** Two requests have arrived; the first has verified, stamped, waited for the lock and claimed its key. */
  lemma FirstClaims(p: Setting, d: Delivery, e: Delivery, r: Instant, wait: nat)
      returns (states: seq<State>, steps: seq<Step>, last: State)
    requires Enabled(p, State(r, map[], []), Arrive(d)) && Enabled(p, State(r, map[], []), Arrive(e))
    requires Timestamped(d) && VerifySignature(p.mac, d, r) && wait <= p.lag
    ensures IsRun(p, states, steps) && last == states[|steps|]
    ensures last == State(r + wait, map[ReplayKey(d) := r + LIFETIME],
                          [Request(d, Forwarding(Claim(r, r, r + wait))), Request(e, Arrived)])
  {
    states, steps, last := FirstIsStamped(p, d, e, r);
    states, steps, last := Take(p, states, steps, Tick(wait));
    assert Recorded(map[], ReplayKey(d), r) == (Admitted, map[ReplayKey(d) := r + LIFETIME]);
    states, steps, last := Take(p, states, steps, RecordKey(0));
    assert last.requests == [Request(d, Forwarding(Claim(r, r, r + wait))), Request(e, Arrived)];
  }

  lemma FirstIsStamped(p: Setting, d: Delivery, e: Delivery, r: Instant)
      returns (states: seq<State>, steps: seq<Step>, last: State)
    requires Enabled(p, State(r, map[], []), Arrive(d)) && Enabled(p, State(r, map[], []), Arrive(e))
    requires VerifySignature(p.mac, d, r)
    ensures IsRun(p, states, steps) && last == states[|steps|]
    ensures last == State(r, map[], [Request(d, Stamped(r, r)), Request(e, Arrived)])
  {
    last := State(r, map[], []);
    states, steps := [last], [];
    states, steps, last := Take(p, states, steps, Arrive(d));
    states, steps, last := Take(p, states, steps, Arrive(e));
    assert last.requests == [Request(d, Arrived), Request(e, Arrived)];
    states, steps, last := Take(p, states, steps, Verify(0));
    assert last.requests == [Request(d, Verified(r)), Request(e, Arrived)];
    states, steps, last := Take(p, states, steps, ReadClock(0));
    assert last.requests == [Request(d, Stamped(r, r)), Request(e, Arrived)];
  }

  lemma ExpiredEntryIsReplaced(key: string, expires: Instant, now: Instant)
    requires expires < now
    ensures Recorded(map[key := expires], key, now) == (Admitted, map[key := now + LIFETIME])
  {
    assert |map[key := expires]| == 1;
    assert map[key := expires][key := now + LIFETIME] == map[key := now + LIFETIME];
  }

  /** An expired entry does not stop the second request, once it is verified. */
  lemma SecondClaims(p: Setting, states: seq<State>, steps: seq<Step>, e: Delivery, first: Request, r: Instant,
      seen: Instant)
      returns (states': seq<State>, steps': seq<Step>, last: State)
    requires IsRun(p, states, steps) && Timestamped(e) && seen <= r + LIFETIME + 1 <= seen + p.lag
    requires states[|steps|] == State(seen, map[ReplayKey(e) := r + LIFETIME], [first, Request(e, Verified(seen))])
    ensures IsRun(p, states', steps') && last == states'[|steps'|]
    ensures last.clock == r + LIFETIME + 1
    ensures last.requests == [first, Request(e, Forwarding(Claim(seen, r + LIFETIME + 1, r + LIFETIME + 1)))]
    ensures last.keys == map[ReplayKey(e) := r + LIFETIME + 1 + LIFETIME]
  {
    var late := r + LIFETIME + 1;
    var key := ReplayKey(e);
    states', steps', last := Take(p, states, steps, Tick(late - seen));
    states', steps', last := Take(p, states', steps', ReadClock(1));
    assert last.requests == [first, Request(e, Stamped(seen, late))];
    ExpiredEntryIsReplaced(key, r + LIFETIME, late);
    states', steps', last := Take(p, states', steps', RecordKey(1));
    assert last.requests == [first, Request(e, Forwarding(Claim(seen, late, late)))];
  }

  lemma VerifiesToTheEnd(mac: Mac, d: Delivery)
    requires Authentic(mac, d)
    ensures VerifySignature(mac, d, SignedAt(d) + SIGNATURE_TOLERANCE)
  {
  }

  /** The first delivery leaves; later the second request verifies at `seen`. */
  lemma FirstIsSent(p: Setting, states: seq<State>, steps: seq<Step>, d: Delivery, claim: Claim, seen: Instant)
      returns (states': seq<State>, steps': seq<Step>, last: State)
    requires IsRun(p, states, steps) && states[|steps|].clock <= seen && VerifySignature(p.mac, d, seen)
    requires states[|steps|].requests == [Request(d, Forwarding(claim)), Request(d, Arrived)]
    ensures IsRun(p, states', steps') && last == states'[|steps'|]
    ensures last == State(seen, states[|steps|].keys, [Request(d, Kept(claim, true)), Request(d, Verified(seen))])
  {
    states', steps', last := Take(p, states, steps, Answer(0, true, SENT));
    assert last.requests == [Request(d, Kept(claim, true)), Request(d, Arrived)];
    states', steps', last := Take(p, states', steps', Tick(seen - last.clock));
    states', steps', last := Take(p, states', steps', Verify(1));
    assert last.requests == [Request(d, Kept(claim, true)), Request(d, Verified(seen))];
  }

  /** A claim earlier than `lag` after the start of the window lets a second copy through. */
  lemma EarlyClaimAdmitsASecond(p: Setting, d: Delivery, r: Instant)
      returns (states: seq<State>, steps: seq<Step>)
    requires Authentic(p.mac, d) && VerifySignature(p.mac, d, r)
    requires r < SignedAt(d) - SIGNATURE_TOLERANCE + p.lag
    ensures IsRun(p, states, steps) && ClaimedFrom(states[|steps|], ReplayKey(d), r)
    ensures !AtMostOneLeft(states[|steps|], ReplayKey(d))
  {
    var seen := SignedAt(d) + SIGNATURE_TOLERANCE;
    var last;
    states, steps, last := FirstClaims(p, d, d, r, 0);
    VerifiesToTheEnd(p.mac, d);
    states, steps, last := FirstIsSent(p, states, steps, d, Claim(r, r, r), seen);
    var first := Request(d, Kept(Claim(r, r, r), true));
    states, steps, last := SecondClaims(p, states, steps, d, first, r, seen);
    assert MayHaveLeft(last.requests[0]) && MayHaveLeft(last.requests[1]);
  }

  /** No run whose claims of the key all start at `r` or later delivers twice under it. */
  ghost predicate DeliversOnceFrom(p: Setting, d: Delivery, r: Instant) {
    forall states, steps | IsRun(p, states, steps) && ClaimedFrom(states[|steps|], ReplayKey(d), r) ::
      AtMostOneLeft(states[|steps|], ReplayKey(d))
  }

  /** At-most-once delivery holds exactly for claims no earlier than `lag` after the start of the window. */
  lemma AtMostOnceExactly(p: Setting, d: Delivery, r: Instant)
    requires CollisionFree(p.mac) && Authentic(p.mac, d) && VerifySignature(p.mac, d, r)
    ensures DeliversOnceFrom(p, d, r) <==> r >= SignedAt(d) - SIGNATURE_TOLERANCE + p.lag
  {
    if r >= SignedAt(d) - SIGNATURE_TOLERANCE + p.lag {
      forall states, steps | IsRun(p, states, steps) && ClaimedFrom(states[|steps|], ReplayKey(d), r)
        ensures AtMostOneLeft(states[|steps|], ReplayKey(d))
      {
        AtMostOnce(p, states, steps, d);
      }
    } else {
      var states, steps := EarlyClaimAdmitsASecond(p, d, r);
    }
  }

  /** An ideal digest and a delivery signed at instant 0. */
  const PLAIN_MAC: Mac := (key: string, message: string) => message
  const SAMPLE := Delivery("agent", "generic-v2", "route", "302e", "0", "", "", "secret", false)

  lemma SampleIsAuthentic()
    ensures CollisionFree(PLAIN_MAC) && Authentic(PLAIN_MAC, SAMPLE) && SignedAt(SAMPLE) == 0
    ensures VerifySignature(PLAIN_MAC, SAMPLE, -SIGNATURE_TOLERANCE)
  {
    ZeroIsParsed();
    assert "302e"[2..] == "2e" && "2e"[2..] == "" && HexDecode("") == Some("");
    HexStep("2e", "");
    assert HexDecode("2e") == Some(".") by {
      assert ['.'] + "" == ".";
    }
    HexStep("302e", ".");
    assert ['0'] + "." == "0.";
    assert SignedText(SAMPLE) == "0.";
  }

  lemma HexStep(text: string, rest: string)
    requires |text| >= 2 && HexDigit(text[0]).Some? && HexDigit(text[1]).Some? && HexDecode(text[2..]) == Some(rest)
    ensures HexDecode(text) == Some([(16 * HexDigit(text[0]).value + HexDigit(text[1]).value) as char] + rest)
  {
  }

  lemma ZeroIsParsed()
    ensures ParseInt64("0") == Some(0) && ParseInt64("9") == Some(9)
  {
    assert "0"[..0] == "" && "9"[..0] == "";
    assert DigitsValue("") == 0;
    assert DigitsValue("0") == 0 && DigitsValue("9") == 9;
  }

  /**
   Without any condition on the claims, at-most-once delivery holds on all runs of all ideal digests
   exactly when a signature is checked and its key claimed in one instant.
   */
  lemma UnconditionallyAtMostOnceExactly(lag: nat, flight: nat)
    ensures (forall mac: Mac, d, states, steps |
               && CollisionFree(mac) && Authentic(mac, d)
               && IsRun(Setting(mac, lag, flight), states, steps) ::
               AtMostOneLeft(states[|steps|], ReplayKey(d)))
            <==> lag == 0
  {
    if lag == 0 {
      forall mac: Mac, d, states, steps |
        CollisionFree(mac) && Authentic(mac, d) && IsRun(Setting(mac, lag, flight), states, steps)
        ensures AtMostOneLeft(states[|steps|], ReplayKey(d))
      {
        AtMostOnceInOneInstant(Setting(mac, lag, flight), states, steps, d);
      }
    } else {
      SampleIsAuthentic();
      var states, steps := EarlyClaimAdmitsASecond(Setting(PLAIN_MAC, lag, flight), SAMPLE, -SIGNATURE_TOLERANCE);
    }
  }

  /* Ownership of claims */

  ghost predicate ForgetsOnlyOwnClaims(p: Setting) {
    forall states: seq<State>, steps: seq<Step>, n | IsRun(p, states, steps) && 0 <= n < |steps| && steps[n].Release? ::
      OwnRelease(p, states[n], steps[n])
  }

  ghost predicate OwnRelease(p: Setting, s: State, step: Step) {
    step.Release? && Enabled(p, s, step) && ReleasesOwnEntry(s, step.i)
  }

  /** The first forward fails to dial; meanwhile the second request verifies at `late`. */
  lemma FirstIsRefused(p: Setting, states: seq<State>, steps: seq<Step>, d: Delivery, e: Delivery, claim: Claim,
      late: Instant)
      returns (states': seq<State>, steps': seq<Step>, last: State)
    requires IsRun(p, states, steps) && states[|steps|].clock <= late && VerifySignature(p.mac, e, late)
    requires states[|steps|].requests == [Request(d, Forwarding(claim)), Request(e, Arrived)]
    ensures IsRun(p, states', steps') && last == states'[|steps'|]
    ensures last == State(late, states[|steps|].keys, [Request(d, Releasing(claim)), Request(e, Verified(late))])
  {
    assert NeverSent(REFUSED.err);
    states', steps', last := Take(p, states, steps, Answer(0, false, REFUSED));
    assert last.requests == [Request(d, Releasing(claim)), Request(e, Arrived)];
    states', steps', last := Take(p, states', steps', Tick(late - last.clock));
    states', steps', last := Take(p, states', steps', Verify(1));
    assert last.requests == [Request(d, Releasing(claim)), Request(e, Verified(late))];
  }

  lemma SecondIsStillLive(p: Setting, s: State, d: Delivery, e: Delivery, claim: Claim, other: Claim)
    requires s.requests == [Request(d, Releasing(claim)), Request(e, Forwarding(other))]
    requires Timestamped(d) && ReplayKey(d) == ReplayKey(e) && s.clock <= other.now + LIFETIME
    requires s.clock - claim.at <= p.flight
    ensures Enabled(p, s, Release(0)) && !OwnRelease(p, s, Release(0))
  {
    assert Unreleased(s.requests[1]) && HasKey(s.requests[1], ReplayKey(s.requests[0].delivery));
  }

  /**
   A flight that outlives its claim forgets the claim of the next delivery under the key.
   The first delivery waits for the lock after stamping, the second one not at all.
   */
  lemma LongFlightForgetsAnother(p: Setting, d: Delivery, e: Delivery, t: Instant)
      returns (states: seq<State>, steps: seq<Step>)
    requires Enabled(p, State(t, map[], []), Arrive(d)) && Enabled(p, State(t, map[], []), Arrive(e))
    requires Timestamped(d) && Timestamped(e) && ReplayKey(d) == ReplayKey(e)
    requires VerifySignature(p.mac, d, t) && VerifySignature(p.mac, e, t + LIFETIME + 1)
    requires p.lag + p.flight > LIFETIME
    ensures IsRun(p, states, steps) && |steps| > 0
    ensures steps[|steps| - 1].Release? && !OwnRelease(p, states[|steps| - 1], steps[|steps| - 1])
  {
    var late := t + LIFETIME + 1;
    var wait := if p.lag <= LIFETIME then p.lag else LIFETIME + 1;
    var claim := Claim(t, t, t + wait);
    var last;
    states, steps, last := FirstClaims(p, d, e, t, wait);
    states, steps, last := FirstIsRefused(p, states, steps, d, e, claim, late);
    var first := Request(d, Releasing(claim));
    states, steps, last := SecondClaims(p, states, steps, e, first, t, late);
    SecondIsStillLive(p, last, d, e, claim, Claim(late, late, late));
    var before := steps;
    states, steps, last := Take(p, states, steps, Release(0));
    assert steps[|before|] == Release(0);
  }

  /** Two messages under one key, and an instant from which their windows are a claim's lifetime apart. */
  const EARLIER := Delivery("agent", "svix", "route", "", "0", "message", "", "secret", true)
  const LATER := Delivery("agent", "svix", "route", "", "9", "message", "", "secret", true)
  const EARLY := -291 * SECOND - 1

  lemma SamplesVerify(mac: Mac)
    ensures ReplayKey(EARLIER) == ReplayKey(LATER)
    ensures VerifySignature(mac, EARLIER, EARLY) && VerifySignature(mac, LATER, EARLY + LIFETIME + 1)
  {
    ZeroIsParsed();
  }

  /**
   `forget` releases only its own delivery's claim, on all runs, exactly when waiting for the lock
   and the flight together fit into the lifetime of a claim.
   */
  lemma OwnershipExactly(p: Setting)
    ensures ForgetsOnlyOwnClaims(p) <==> p.lag + p.flight <= LIFETIME
  {
    if p.lag + p.flight <= LIFETIME {
      forall states: seq<State>, steps: seq<Step>, n |
        IsRun(p, states, steps) && 0 <= n < |steps| && steps[n].Release?
        ensures OwnRelease(p, states[n], steps[n])
      {
        ForgetOwnsItsEntry(p, states, steps, n);
      }
    } else {
      SamplesVerify(p.mac);
      var states, steps := LongFlightForgetsAnother(p, EARLIER, LATER, EARLY);
      assert !OwnRelease(p, states[|steps| - 1], steps[|steps| - 1]);
    }
  }
}
