/**
 Waiting for the workloads to run: a workload observed in `error` is stopped, and
 started again once it is observed `stopped`, a bounded number of times.
 */
module RecoveryLoop {

  const MAX_ERROR_RETRIES := 3

  type States = map<string, string>

  /** A ToolHive call, and the poll that prompted it. */
  datatype Command = Stop(name: string, poll: nat) | Start(name: string, poll: nat)

  predicate Observed(states: States, name: string, state: string) {
    name in states && states[name] == state
  }

  function Pending(want: seq<string>, states: States): seq<string> {
    if want == [] then []
    else
      var before := Pending(want[..|want| - 1], states);
      var name := want[|want| - 1];
      if Observed(states, name, "running") then before else before + [name]
  }

  /* The policy, as a rule about the commands issued so far */

  /** The commands for one workload. */
  function For(issued: seq<Command>, name: string): seq<Command> {
    if issued == [] then []
    else
      var before := For(issued[..|issued| - 1], name);
      var last := issued[|issued| - 1];
      if last.name == name then before + [last] else before
  }

  function Stops(issued: seq<Command>, name: string): nat {
    if issued == [] then 0
    else Stops(issued[..|issued| - 1], name)
         + if issued[|issued| - 1].Stop? && issued[|issued| - 1].name == name then 1 else 0
  }

  /** The workload was stopped by this loop and has not been started since. */
  function Stopped(issued: seq<Command>, name: string): bool {
    var own := For(issued, name);
    own != [] && own[|own| - 1].Stop?
  }

  function Policy(issued: seq<Command>, states: States, name: string, poll: nat): seq<Command> {
    if Observed(states, name, "error") && !Stopped(issued, name) && Stops(issued, name) < MAX_ERROR_RETRIES then
      [Stop(name, poll)]
    else if Observed(states, name, "stopped") && Stopped(issued, name) then [Start(name, poll)]
    else []
  }

  /** What has been issued once the first `k` of the pending names have been visited. */
  function AfterNames(issued: seq<Command>, states: States, names: seq<string>, k: nat, poll: nat): seq<Command>
    requires k <= |names|
  {
    if k == 0 then issued
    else
      var before := AfterNames(issued, states, names, k - 1, poll);
      before + Policy(before, states, names[k - 1], poll)
  }

  lemma OneMoreName(issued: seq<Command>, states: States, names: seq<string>, k: nat, poll: nat)
    requires k < |names|
    ensures var before := AfterNames(issued, states, names, k, poll);
      AfterNames(issued, states, names, k + 1, poll) == before + Policy(before, states, names[k], poll)
  {
  }

  function AfterPoll(issued: seq<Command>, want: seq<string>, states: States, poll: nat): seq<Command> {
    var pending := Pending(want, states);
    AfterNames(issued, states, pending, |pending|, poll)
  }

  /** Everything issued during the first `n` polls. */
  function Trace(want: seq<string>, polls: seq<States>, n: nat): seq<Command>
    requires n <= |polls|
  {
    if n == 0 then []
    else AfterPoll(Trace(want, polls, n - 1), want, polls[n - 1], n - 1)
  }

  lemma TraceGrows(want: seq<string>, polls: seq<States>, n: nat)
    requires n < |polls|
    ensures Trace(want, polls, n + 1) == AfterPoll(Trace(want, polls, n), want, polls[n], n)
  {
  }

  /** The loop keeps counters and a set instead of the commands themselves. */
  class Recovery {
    var retries: map<string, nat>
    var stopping: set<string>
    var issued: seq<Command>

    constructor ()
      ensures retries == map[] && stopping == {} && issued == []
    {
      retries, stopping, issued := map[], {}, [];
    }

    ghost predicate Tracks()
      reads this
    {
      retries == RetriesAfter(issued) && stopping == StoppingAfter(issued)
    }

    method Visit(states: States, name: string, poll: nat)
      requires Tracks()
      modifies this
      ensures Tracks()
      ensures issued == old(issued) + Policy(old(issued), states, name, poll)
    {
      var count := if name in retries then retries[name] else 0;
      CountersAgree(issued, name);
      if name in states && states[name] == "error" && name !in stopping && count < MAX_ERROR_RETRIES {
        OneMoreCommand(issued, Stop(name, poll));
        retries := retries[name := count + 1];
        stopping := stopping + {name};
        issued := issued + [Stop(name, poll)];
      } else if name in states && states[name] == "stopped" && name in stopping {
        OneMoreCommand(issued, Start(name, poll));
        stopping := stopping - {name};
        issued := issued + [Start(name, poll)];
      }
    }

    method VisitEach(states: States, pending: seq<string>, poll: nat)
      requires Tracks()
      modifies this
      ensures Tracks()
      ensures issued == AfterNames(old(issued), states, pending, |pending|, poll)
    {
      for i := 0 to |pending|
        invariant Tracks()
        invariant issued == AfterNames(old(issued), states, pending, i, poll)
      {
        Visit(states, pending[i], poll);
        OneMoreName(old(issued), states, pending, i, poll);
      }
    }

    /** One turn of the loop; it ends the loop when nothing is pending. */
    method Turn(want: seq<string>, polls: seq<States>, n: nat) returns (finished: bool)
      requires Tracks() && n < |polls| && issued == Trace(want, polls, n) && NeverAllRunning(want, polls, n)
      modifies this
      ensures Tracks() && issued == Trace(want, polls, n + 1)
      ensures if finished then AllRunning(want, polls[n]) else NeverAllRunning(want, polls, n + 1)
    {
      var pending := Pending(want, polls[n]);
      VisitEach(polls[n], pending, n);
      TraceGrows(want, polls, n);
      AllRunningMeans(want, polls[n]);
      finished := pending == [];
    }

    method Watch(want: seq<string>, polls: seq<States>) returns (done: nat, running: bool)
      requires Tracks() && issued == []
      modifies this
      ensures done <= |polls| && issued == Trace(want, polls, done)
      ensures if running then done > 0 && AllRunning(want, polls[done - 1])
              else done == |polls| && NeverAllRunning(want, polls, |polls|)
    {
      done, running := 0, false;
      while done < |polls| && !running
        invariant done <= |polls| && Tracks() && issued == Trace(want, polls, done)
        invariant if running then done > 0 && AllRunning(want, polls[done - 1]) else NeverAllRunning(want, polls, done)
        decreases |polls| - done
      {
        running := Turn(want, polls, done);
        done := done + 1;
      }
    }
  }

  /** The counters and the set after the commands issued so far. */
  function RetriesAfter(issued: seq<Command>): map<string, nat> {
    if issued == [] then map[]
    else
      var before, last := RetriesAfter(issued[..|issued| - 1]), issued[|issued| - 1];
      if last.Stop? then before[last.name := Retries(before, last.name) + 1] else before
  }

  function StoppingAfter(issued: seq<Command>): set<string> {
    if issued == [] then {}
    else
      var before, last := StoppingAfter(issued[..|issued| - 1]), issued[|issued| - 1];
      if last.Stop? then before + {last.name} else before - {last.name}
  }

  function Retries(retries: map<string, nat>, name: string): nat {
    if name in retries then retries[name] else 0
  }

  lemma OneMoreCommand(issued: seq<Command>, c: Command)
    ensures RetriesAfter(issued + [c]) ==
      var before := RetriesAfter(issued); if c.Stop? then before[c.name := Retries(before, c.name) + 1] else before
    ensures StoppingAfter(issued + [c]) ==
      if c.Stop? then StoppingAfter(issued) + {c.name} else StoppingAfter(issued) - {c.name}
  {
    assert (issued + [c])[..|issued|] == issued;
  }

  /** The counters and the set say of each workload what the commands say. */
  lemma {:induction false} CountersAgree(issued: seq<Command>, name: string)
    ensures Retries(RetriesAfter(issued), name) == Stops(issued, name)
    ensures name in StoppingAfter(issued) <==> Stopped(issued, name)
    decreases |issued|
  {
    if issued != [] {
      var init, last := issued[..|issued| - 1], issued[|issued| - 1];
      CountersAgree(init, name);
      assert issued == init + [last];
      Issue(init, last, name);
      OneMoreCommand(init, last);
    }
  }

  lemma Issue(issued: seq<Command>, c: Command, n: string)
    ensures Stops(issued + [c], n) == Stops(issued, n) + if c.Stop? && c.name == n then 1 else 0
    ensures For(issued + [c], n) == if c.name == n then For(issued, n) + [c] else For(issued, n)
    ensures Stopped(issued + [c], n) == if c.name == n then c.Stop? else Stopped(issued, n)
  {
    assert (issued + [c])[..|issued|] == issued;
  }

  /**
   `polls` are the listings seen before the deadline. The loop ends early once every wanted
   workload runs, and `done` tells how many listings it used.
   */
  method WaitForWorkloads(want: seq<string>, polls: seq<States>)
      returns (issued: seq<Command>, done: nat, running: bool)
    ensures done <= |polls| && issued == Trace(want, polls, done)
    ensures running ==> done > 0 && AllRunning(want, polls[done - 1])
    ensures !running ==> want == [] || (done == |polls| && NeverAllRunning(want, polls, |polls|))
  {
    done := 0;
    if want == [] {
      return [], 0, false;
    }
    var recovery := new Recovery();
    done, running := recovery.Watch(want, polls);
    issued := recovery.issued;
  }

  /** No listing showed every wanted workload running. */
  predicate NeverAllRunning(want: seq<string>, polls: seq<States>, n: nat)
    requires n <= |polls|
  {
    forall i | 0 <= i < n :: !AllRunning(want, polls[i])
  }

  predicate AllRunning(want: seq<string>, states: States) {
    forall n | n in want :: Observed(states, n, "running")
  }

  /** Nothing is pending exactly when every wanted workload is observed running. */
  lemma {:induction false} AllRunningMeans(want: seq<string>, states: States)
    ensures Pending(want, states) == [] <==> AllRunning(want, states)
    decreases |want|
  {
    if want != [] {
      var init, last := want[..|want| - 1], want[|want| - 1];
      AllRunningMeans(init, states);
      assert want == init + [last];
    }
  }

  /* What the policy guarantees */

  /** Stop, start, stop, and so on: one recovery at a time. */
  predicate Alternates(own: seq<Command>) {
    forall i | 0 <= i < |own| :: own[i].Stop? <==> i % 2 == 0
  }

  predicate Bounded(issued: seq<Command>, name: string) {
    && Alternates(For(issued, name))
    && Stops(issued, name) == (|For(issued, name)| + 1) / 2
    && Stops(issued, name) <= 3
  }

  /** A stop answers an observed error, a start an observed stop. */
  predicate Prompted(c: Command, polls: seq<States>) {
    c.poll < |polls| && Observed(polls[c.poll], c.name, if c.Stop? then "error" else "stopped")
  }

  predicate AllPrompted(issued: seq<Command>, polls: seq<States>) {
    forall i | 0 <= i < |issued| :: Prompted(issued[i], polls)
  }

  lemma AlternatesFurther(own: seq<Command>, c: Command)
    requires Alternates(own) && (c.Stop? <==> |own| % 2 == 0)
    ensures Alternates(own + [c])
  {
  }

  /** A workload is being stopped when it has had an odd number of commands. */
  lemma StoppedIsOdd(issued: seq<Command>, name: string)
    requires Alternates(For(issued, name))
    ensures Stopped(issued, name) <==> |For(issued, name)| % 2 == 1
  {
    var own := For(issued, name);
    assert own != [] ==> (own[|own| - 1].Stop? <==> (|own| - 1) % 2 == 0);
  }

  lemma PolicyKeepsBound(issued: seq<Command>, states: States, visited: string, poll: nat, name: string)
    requires Bounded(issued, name)
    ensures Bounded(issued + Policy(issued, states, visited, poll), name)
  {
    var own, more := For(issued, name), Policy(issued, states, visited, poll);
    StoppedIsOdd(issued, name);
    if more == [] {
      assert issued + more == issued;
    } else {
      Issue(issued, more[0], name);
      if visited == name {
        AlternatesFurther(own, more[0]);
      }
    }
  }

  lemma {:induction false} NamesKeepBound(issued: seq<Command>, states: States, names: seq<string>, k: nat, poll: nat,
      name: string)
    requires k <= |names| && Bounded(issued, name)
    ensures Bounded(AfterNames(issued, states, names, k, poll), name)
    decreases k
  {
    if k > 0 {
      NamesKeepBound(issued, states, names, k - 1, poll, name);
      PolicyKeepsBound(AfterNames(issued, states, names, k - 1, poll), states, names[k - 1], poll, name);
    }
  }

  lemma {:induction false} NamesKeepPrompted(issued: seq<Command>, polls: seq<States>, names: seq<string>, k: nat,
      poll: nat)
    requires k <= |names| && poll < |polls| && AllPrompted(issued, polls)
    ensures AllPrompted(AfterNames(issued, polls[poll], names, k, poll), polls)
    decreases k
  {
    if k > 0 {
      NamesKeepPrompted(issued, polls, names, k - 1, poll);
    }
  }

  predicate Disciplined(issued: seq<Command>, polls: seq<States>, name: string) {
    Bounded(issued, name) && AllPrompted(issued, polls)
  }

  lemma NothingIsDisciplined(polls: seq<States>, name: string)
    ensures Disciplined([], polls, name)
  {
  }

  lemma PollKeepsDiscipline(
      issued: seq<Command>, issued': seq<Command>, want: seq<string>, polls: seq<States>, poll: nat, name: string)
    requires poll < |polls| && Disciplined(issued, polls, name)
    requires issued' == AfterPoll(issued, want, polls[poll], poll)
    ensures Disciplined(issued', polls, name)
  {
    var pending := Pending(want, polls[poll]);
    NamesKeepBound(issued, polls[poll], pending, |pending|, poll, name);
    NamesKeepPrompted(issued, polls, pending, |pending|, poll);
  }

  /**
   For every sequence of observed listings and every workload: its commands alternate,
   beginning with a stop, there are at most three stops, and every command answers the
   state observed in its poll.
   */
  lemma {:induction false} RecoveryIsBounded(want: seq<string>, polls: seq<States>, n: nat, name: string)
    requires n <= |polls|
    ensures Disciplined(Trace(want, polls, n), polls, name)
  {
    if n == 0 {
      NothingIsDisciplined(polls, name);
    } else {
      RecoveryIsBounded(want, polls, n - 1, name);
      TraceGrows(want, polls, n - 1);
      PollKeepsDiscipline(Trace(want, polls, n - 1), Trace(want, polls, n), want, polls, n - 1, name);
    }
  }

  /** A workload is started only after this loop's own stop of it, with nothing in between. */
  lemma StartFollowsOwnStop(want: seq<string>, polls: seq<States>, n: nat, name: string, i: nat)
    requires n <= |polls| && i < |For(Trace(want, polls, n), name)| && For(Trace(want, polls, n), name)[i].Start?
    ensures i > 0 && For(Trace(want, polls, n), name)[i - 1].Stop?
  {
    RecoveryIsBounded(want, polls, n, name);
    AlternationBeforeStart(For(Trace(want, polls, n), name), i);
  }

  lemma AlternationBeforeStart(own: seq<Command>, i: nat)
    requires Alternates(own) && i < |own| && own[i].Start?
    ensures i > 0 && own[i - 1].Stop?
  {
    assert own[i].Stop? <==> i % 2 == 0;
    assert i > 0 ==> (own[i - 1].Stop? <==> (i - 1) % 2 == 0);
  }

  /**
   After a listing that shows `error` the workload is being stopped, unless three stops are used up;
   after one that shows `stopped` no start is owed.
   */
  predicate Answered(issued: seq<Command>, states: States, name: string) {
    && (Observed(states, name, "error") ==> Stopped(issued, name) || Stops(issued, name) == 3)
    && (Observed(states, name, "stopped") ==> !Stopped(issued, name))
  }

  lemma PolicyAnswers(issued: seq<Command>, states: States, visited: string, poll: nat, name: string)
    requires Stops(issued, name) <= 3 && (visited == name || Answered(issued, states, name))
    ensures Answered(issued + Policy(issued, states, visited, poll), states, name)
  {
    var more := Policy(issued, states, visited, poll);
    if more == [] {
      assert issued + more == issued;
    } else {
      Issue(issued, more[0], name);
    }
  }

  lemma {:induction false} NamesAreAnswered(issued: seq<Command>, states: States, names: seq<string>, k: nat,
      poll: nat, name: string)
    requires k <= |names| && Stops(issued, name) <= 3
    ensures Stops(AfterNames(issued, states, names, k, poll), name) <= 3
    ensures name in names[..k] ==> Answered(AfterNames(issued, states, names, k, poll), states, name)
    decreases k
  {
    if k > 0 {
      NamesAreAnswered(issued, states, names, k - 1, poll, name);
      var before := AfterNames(issued, states, names, k - 1, poll);
      assert names[..k] == names[..k - 1] + [names[k - 1]];
      StopsBound(before, states, names[k - 1], poll, name);
      if names[k - 1] == name || name in names[..k - 1] {
        PolicyAnswers(before, states, names[k - 1], poll, name);
      }
    }
  }

  lemma StopsBound(issued: seq<Command>, states: States, visited: string, poll: nat, name: string)
    requires Stops(issued, name) <= 3
    ensures Stops(issued + Policy(issued, states, visited, poll), name) <= 3
  {
    var more := Policy(issued, states, visited, poll);
    if more == [] {
      assert issued + more == issued;
    } else {
      Issue(issued, more[0], name);
    }
  }

  lemma {:induction false} PendingMeans(want: seq<string>, states: States, name: string)
    ensures name in Pending(want, states) <==> name in want && !Observed(states, name, "running")
    decreases |want|
  {
    if want != [] {
      PendingMeans(want[..|want| - 1], states, name);
      assert want == want[..|want| - 1] + [want[|want| - 1]];
    }
  }

  /** After every poll the workload is in the state of recovery that the observation calls for. */
  lemma EveryObservationIsAnswered(want: seq<string>, polls: seq<States>, n: nat, name: string)
    requires n < |polls| && name in want
    ensures Answered(Trace(want, polls, n + 1), polls[n], name)
  {
    RecoveryIsBounded(want, polls, n, name);
    TraceGrows(want, polls, n);
    var pending := Pending(want, polls[n]);
    PendingMeans(want, polls[n], name);
    NamesAreAnswered(Trace(want, polls, n), polls[n], pending, |pending|, n, name);
    assert pending[..|pending|] == pending;
    assert Observed(polls[n], name, "running") ==> polls[n][name] != "error" && polls[n][name] != "stopped";
  }

  /* When an error gets a stop */

  lemma {:induction false} StopsOfOwn(issued: seq<Command>, name: string)
    ensures Stops(For(issued, name), name) == Stops(issued, name)
    decreases |issued|
  {
    if issued != [] {
      var init, last := issued[..|issued| - 1], issued[|issued| - 1];
      StopsOfOwn(init, name);
      assert issued == init + [last];
      Issue(init, last, name);
      Issue(For(init, name), last, name);
    }
  }

  /** The policy looks at nothing but the workload's own commands. */
  lemma PolicyOfOwn(a: seq<Command>, b: seq<Command>, states: States, name: string, poll: nat)
    requires For(a, name) == For(b, name)
    ensures Policy(a, states, name, poll) == Policy(b, states, name, poll)
  {
    StopsOfOwn(a, name);
    StopsOfOwn(b, name);
  }

  lemma {:induction false} OwnAfter(issued: seq<Command>, more: seq<Command>, name: string)
    requires |more| <= 1
    ensures For(issued + more, name) == For(issued, name) + if more != [] && more[0].name == name then more else []
  {
    if more == [] {
      assert issued + more == issued;
    } else {
      Issue(issued, more[0], name);
    }
  }

  /** What the policy has just done, it does not do again in the same poll. */
  lemma PolicyActsOnce(issued: seq<Command>, states: States, name: string, poll: nat)
    ensures Policy(issued + Policy(issued, states, name, poll), states, name, poll) == []
  {
    var more := Policy(issued, states, name, poll);
    if more == [] {
      assert issued + more == issued;
    } else {
      Issue(issued, more[0], name);
    }
  }

  lemma VisitAgain(issued: seq<Command>, before: seq<Command>, states: States, name: string, poll: nat, seen: bool)
    requires For(before, name) == For(issued, name) + if seen then Policy(issued, states, name, poll) else []
    ensures For(before + Policy(before, states, name, poll), name) ==
      For(issued, name) + Policy(issued, states, name, poll)
  {
    var own := Policy(issued, states, name, poll);
    OwnAfter(before, Policy(before, states, name, poll), name);
    if seen {
      OwnAfter(issued, own, name);
      PolicyOfOwn(before, issued + own, states, name, poll);
      PolicyActsOnce(issued, states, name, poll);
    } else {
      PolicyOfOwn(before, issued, states, name, poll);
    }
  }

  /** The commands for `name` after the first `k` names of a poll have been visited. */
  predicate CountsOnce(issued: seq<Command>, after: seq<Command>, states: States, seen: seq<string>, poll: nat,
      name: string) {
    For(after, name) == For(issued, name) + if name in seen then Policy(issued, states, name, poll) else []
  }

  lemma VisitCountsOnce(
      issued: seq<Command>, before: seq<Command>, states: States, seen: seq<string>, visited: string, poll: nat,
        name: string)
    requires CountsOnce(issued, before, states, seen, poll, name)
    ensures CountsOnce(issued, before + Policy(before, states, visited, poll), states, seen + [visited], poll, name)
  {
    if visited == name {
      VisitAgain(issued, before, states, name, poll, name in seen);
    } else {
      OwnAfter(before, Policy(before, states, visited, poll), name);
    }
  }

  lemma {:induction false} VisitsCountOnce(
      issued: seq<Command>, states: States, names: seq<string>, k: nat, poll: nat, name: string)
    requires k <= |names|
    ensures CountsOnce(issued, AfterNames(issued, states, names, k, poll), states, names[..k], poll, name)
    decreases k
  {
    if k == 0 {
      assert For(issued, name) + [] == For(issued, name);
    } else {
      VisitsCountOnce(issued, states, names, k - 1, poll, name);
      OneMoreName(issued, states, names, k - 1, poll);
      var before := AfterNames(issued, states, names, k - 1, poll);
      VisitCountsOnce(issued, before, states, names[..k - 1], names[k - 1], poll, name);
      assert names[..k] == names[..k - 1] + [names[k - 1]];
    }
  }

  /** One poll adds to a wanted workload's commands exactly what the policy says. */
  lemma PollAdds(want: seq<string>, polls: seq<States>, n: nat, name: string)
    requires n < |polls| && name in want
    ensures For(Trace(want, polls, n + 1), name) ==
      For(Trace(want, polls, n), name) + Policy(Trace(want, polls, n), polls[n], name, n)
  {
    var pending := Pending(want, polls[n]);
    TraceGrows(want, polls, n);
    VisitsCountOnce(Trace(want, polls, n), polls[n], pending, |pending|, n, name);
    assert pending[..|pending|] == pending;
    PendingMeans(want, polls[n], name);
  }

  /** `own` are commands for the workload from polls before `n`. */
  predicate Earlier(own: seq<Command>, name: string, n: nat) {
    forall c | c in own :: c.poll < n && c.name == name
  }

  /** The workload was stopped in poll `p`, and has not been observed `stopped` since. */
  predicate Awaited(own: seq<Command>, polls: seq<States>, n: nat, name: string, p: nat)
    requires n <= |polls|
  {
    p < n && Stop(name, p) in own && forall q | p < q < n :: !Observed(polls[q], name, "stopped")
  }

  predicate StillAwaited(own: seq<Command>, polls: seq<States>, n: nat, name: string)
    requires n <= |polls|
  {
    exists p | 0 <= p < n :: Awaited(own, polls, n, name, p)
  }

  predicate EndsInStop(own: seq<Command>) {
    own != [] && own[|own| - 1].Stop?
  }

  /** What one poll may add: nothing unless owed, a stop, or a start that answers an observed stop. */
  predicate MayAdd(own: seq<Command>, more: seq<Command>, states: States, name: string, n: nat) {
    || (more == [] && !(EndsInStop(own) && Observed(states, name, "stopped")))
    || more == [Stop(name, n)]
    || (more == [Start(name, n)] && Observed(states, name, "stopped"))
  }

  lemma AwaitedWithNothing(own: seq<Command>, polls: seq<States>, n: nat, name: string)
    requires n < |polls| && Earlier(own, name, n) && MayAdd(own, [], polls[n], name, n)
    requires EndsInStop(own) <==> StillAwaited(own, polls, n, name)
    ensures EndsInStop(own) <==> StillAwaited(own, polls, n + 1, name)
  {
    var n' := n + 1;
    if p :| 0 <= p < n' && Awaited(own, polls, n', name, p) {
      assert Stop(name, p) in own;
      assert Awaited(own, polls, n, name, p);
    }
    if p :| 0 <= p < n && Awaited(own, polls, n, name, p) {
      assert Awaited(own, polls, n', name, p);
    }
  }

  lemma AwaitedWithStart(own: seq<Command>, polls: seq<States>, n: nat, name: string)
    requires n < |polls| && Earlier(own, name, n) && Observed(polls[n], name, "stopped")
    ensures !StillAwaited(own + [Start(name, n)], polls, n + 1, name)
  {
    var own', n' := own + [Start(name, n)], n + 1;
    forall p | 0 <= p < n' ensures !Awaited(own', polls, n', name, p) {
      if Stop(name, p) in own' {
        assert Stop(name, p) in own;
      }
    }
  }

  lemma AwaitedFurther(own: seq<Command>, more: seq<Command>, own': seq<Command>, polls: seq<States>, n: nat,
      name: string)
    requires n < |polls| && Earlier(own, name, n) && MayAdd(own, more, polls[n], name, n) && own' == own + more
    requires EndsInStop(own) <==> StillAwaited(own, polls, n, name)
    ensures Earlier(own', name, n + 1)
    ensures EndsInStop(own') <==> StillAwaited(own', polls, n + 1, name)
  {
    if more == [] {
      assert own' == own;
      AwaitedWithNothing(own, polls, n, name);
    } else if more[0].Stop? {
      assert own'[|own|] == Stop(name, n);
      assert Awaited(own', polls, n + 1, name, n);
    } else {
      AwaitedWithStart(own, polls, n, name);
    }
  }

  /** The policy, as a rule about the workload's own commands. */
  function OwnPolicy(own: seq<Command>, states: States, name: string, poll: nat): seq<Command> {
    if Observed(states, name, "error") && !EndsInStop(own) &&
      Stops(own, name) < 3 then [Stop(name, poll)]
    else if Observed(states, name, "stopped") && EndsInStop(own) then [Start(name, poll)]
    else []
  }

  /** The commands for a wanted workload during the first `n` polls. */
  function Own(polls: seq<States>, n: nat, name: string): seq<Command>
    requires n <= |polls|
  {
    if n == 0 then [] else Own(polls, n - 1, name) + OwnPolicy(Own(polls, n - 1, name), polls[n - 1], name, n - 1)
  }

  lemma PolicyIsOwn(issued: seq<Command>, states: States, name: string, poll: nat)
    ensures Policy(issued, states, name, poll) == OwnPolicy(For(issued, name), states, name, poll)
  {
    StopsOfOwn(issued, name);
  }

  lemma OwnIsForFurther(want: seq<string>, polls: seq<States>, n: nat, name: string)
    requires n < |polls| && name in want
    requires For(Trace(want, polls, n), name) == Own(polls, n, name)
    ensures For(Trace(want, polls, n + 1), name) == Own(polls, n + 1, name)
  {
    PollAdds(want, polls, n, name);
    PolicyIsOwn(Trace(want, polls, n), polls[n], name, n);
  }

  lemma {:induction false} OwnIsFor(want: seq<string>, polls: seq<States>, n: nat, name: string)
    requires n <= |polls| && name in want
    ensures For(Trace(want, polls, n), name) == Own(polls, n, name)
  {
    if n > 0 {
      OwnIsFor(want, polls, n - 1, name);
      OwnIsForFurther(want, polls, n - 1, name);
    }
  }

  predicate Bookkept(own: seq<Command>, polls: seq<States>, n: nat, name: string)
    requires n <= |polls|
  {
    Earlier(own, name, n) && (EndsInStop(own) <==> StillAwaited(own, polls, n, name))
  }

  lemma NothingIsBookkept(polls: seq<States>, name: string)
    ensures Bookkept([], polls, 0, name)
  {
  }

  lemma StaysBookkept(own: seq<Command>, own': seq<Command>, polls: seq<States>, n: nat, name: string)
    requires 0 < n <= |polls| && Bookkept(own, polls, n - 1, name)
    requires own' == own + OwnPolicy(own, polls[n - 1], name, n - 1)
    ensures Bookkept(own', polls, n, name)
  {
    AwaitedFurther(own, OwnPolicy(own, polls[n - 1], name, n - 1), own', polls, n - 1, name);
  }

  /** A stop is outstanding exactly as long as `stopped` has not been observed since. */
  lemma {:induction false} StopIsAwaited(polls: seq<States>, n: nat, name: string)
    requires n <= |polls|
    ensures Bookkept(Own(polls, n, name), polls, n, name)
  {
    if n == 0 {
      NothingIsBookkept(polls, name);
    } else {
      StopIsAwaited(polls, n - 1, name);
      StaysBookkept(Own(polls, n - 1, name), Own(polls, n, name), polls, n, name);
    }
  }

  /**
   When an observed error gets a stop: exactly when fewer than three have been issued and none of
   them is outstanding, that is, `stopped` has been observed since the last one.
   */
  lemma ErrorGetsStopExactly(want: seq<string>, polls: seq<States>, n: nat, name: string)
    requires n < |polls| && name in want
    ensures Stop(name, n) in For(Trace(want, polls, n + 1), name) <==>
      && Observed(polls[n], name, "error")
      && Stops(Trace(want, polls, n), name) < 3
      && !StillAwaited(For(Trace(want, polls, n), name), polls, n, name)
  {
    OwnIsFor(want, polls, n, name);
    OwnIsFor(want, polls, n + 1, name);
    StopsOfOwn(Trace(want, polls, n), name);
    OwnGetsStop(polls, n, name);
  }

  lemma OwnGetsStop(polls: seq<States>, n: nat, name: string)
    requires n < |polls|
    ensures Stop(name, n) in Own(polls, n + 1, name) <==>
      && Observed(polls[n], name, "error")
      && Stops(Own(polls, n, name), name) < 3
      && !StillAwaited(Own(polls, n, name), polls, n, name)
  {
    StopIsAwaited(polls, n, name);
  }

  /** A workload that comes back by itself after the stop and fails again is left alone. */
  lemma RepeatedErrorIsLeftAlone(name: string)
    ensures var polls := [map[name := "error"], map[name := "running"], map[name := "error"]];
      For(Trace([name], polls, 3), name) == [Stop(name, 0)]
  {
    var polls := [map[name := "error"], map[name := "running"], map[name := "error"]];
    OwnIsFor([name], polls, 3, name);
    assert Own(polls, 0, name) == [];
    assert Own(polls, 1, name) == [Stop(name, 0)];
    assert Own(polls, 2, name) == [Stop(name, 0)];
  }
}
