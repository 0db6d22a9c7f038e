/**
 The replay cache of the webhook listener: a bounded map from replay keys to
 expiry instants that is swept only when it would otherwise turn a delivery
 away. The cache is proved to answer like an unbounded history of claims.
 */
module ReplayCache {
  import opened Prelude

  // Instants and durations are counted in nanoseconds.
  type Instant = int

  const SECOND := 1_000_000_000
  const SIGNATURE_TOLERANCE := 300 * SECOND
  const LIFETIME := 2 * SIGNATURE_TOLERANCE
  const MAX_REPLAY_CACHE_KEYS := 10_000

  datatype Verdict = Admitted | ReplayDetected | ReplayCacheFull

  type Entries = map<string, Instant>

  /** The entries that have not expired at `now`; the bound is inclusive. */
  function Swept(keys: Entries, now: Instant): Entries {
    map k | k in keys && keys[k] >= now :: keys[k]
  }

  /** What one call of `record` answers and leaves behind. */
  function Recorded(keys: Entries, key: string, now: Instant): (Verdict, Entries) {
    if key in keys && keys[key] >= now then
      (ReplayDetected, keys)
    else
      var room := if |keys| >= MAX_REPLAY_CACHE_KEYS then Swept(keys, now) else keys;
      if |room| >= MAX_REPLAY_CACHE_KEYS then
        (ReplayCacheFull, room)
      else
        (Admitted, room[key := now + LIFETIME])
  }

  function Forgotten(keys: Entries, key: string): Entries {
    if key == "" then keys else keys - {key}
  }

  class ReplayCache {
    var keys: Entries

    constructor ()
      ensures keys == map[]
    {
      keys := map[];
    }

    /** Both methods run under the cache's mutex, so each is one atomic step. */
    method Record(key: string, now: Instant) returns (verdict: Verdict)
      modifies this
      ensures (verdict, keys) == Recorded(old(keys), key, now)
    {
      if key in keys && keys[key] >= now {
        return ReplayDetected;
      }
      if |keys| >= MAX_REPLAY_CACHE_KEYS {
        // The range visits the entries in no particular order.
        var unvisited := keys.Keys;
        while unvisited != {}
          invariant unvisited <= keys.Keys
          invariant keys == map k | k in old(keys) && (k in unvisited || old(keys)[k] >= now) :: old(keys)[k]
          decreases |unvisited|
        {
          var existing :| existing in unvisited;
          unvisited := unvisited - {existing};
          if keys[existing] < now {
            keys := keys - {existing};
          }
        }
        assert keys == Swept(old(keys), now);
        if |keys| >= MAX_REPLAY_CACHE_KEYS {
          return ReplayCacheFull;
        }
      }
      keys := keys[key := now + LIFETIME];
      return Admitted;
    }

    method Forget(key: string)
      modifies this
      ensures keys == Forgotten(old(keys), key)
    {
      if key == "" {
        return;
      }
      keys := keys - {key};
    }
  }

  /* The reference: every claim and every release since the process started. */

  datatype Event = Claimed(key: string, at: Instant) | Released(key: string)

  /** `key` has a claim that no later event released and that is at most ten minutes old at `now`. */
  ghost predicate Live(log: seq<Event>, key: string, now: Instant) {
    exists i ::
      && 0 <= i < |log|
      && log[i].Claimed? && log[i].key == key && now <= log[i].at + 600 * SECOND
      && forall j | i < j < |log| :: log[j] != Released(key)
  }

  ghost function LiveKeys(log: seq<Event>, now: Instant): set<string> {
    set i | 0 <= i < |log| && Live(log, log[i].key, now) :: log[i].key
  }

  ghost function HistoryVerdict(log: seq<Event>, key: string, now: Instant): Verdict {
    if Live(log, key, now) then ReplayDetected
    else if |LiveKeys(log, now)| >= 10_000 then ReplayCacheFull
    else Admitted
  }

  datatype Call = Record(key: string, now: Instant) | Forget(key: string)

  /** The calls of one process, in lock order, read a nondecreasing clock from `start` on. */
  predicate Nondecreasing(calls: seq<Call>, start: Instant) {
    calls == [] ||
    match calls[0]
    case Record(_, now) => start <= now && Nondecreasing(calls[1..], now)
    case Forget(_) => Nondecreasing(calls[1..], start)
  }

  function CacheStep(keys: Entries, call: Call): (seq<Verdict>, Entries) {
    match call
    case Record(key, now) => var (v, keys') := Recorded(keys, key, now); ([v], keys')
    case Forget(key) => ([], Forgotten(keys, key))
  }

  ghost function HistoryStep(log: seq<Event>, call: Call): (seq<Verdict>, seq<Event>) {
    match call
    case Record(key, now) =>
      var v := HistoryVerdict(log, key, now);
      ([v], if v == Admitted then log + [Claimed(key, now)] else log)
    case Forget(key) => ([], if key == "" then log else log + [Released(key)])
  }

  /** The verdicts of a whole run, and the final entries. */
  function CacheRun(keys: Entries, calls: seq<Call>): (seq<Verdict>, Entries)
    decreases |calls|
  {
    if calls == [] then ([], keys) else
    var (v, keys') := CacheStep(keys, calls[0]);
    var (vs, end) := CacheRun(keys', calls[1..]);
    (v + vs, end)
  }

  ghost function HistoryRun(log: seq<Event>, calls: seq<Call>): (seq<Verdict>, seq<Event>)
    decreases |calls|
  {
    if calls == [] then ([], log) else
    var (v, log') := HistoryStep(log, calls[0]);
    var (vs, end) := HistoryRun(log', calls[1..]);
    (v + vs, end)
  }

  /** From instant `from` on, the cache and the history know the same live keys. */
  ghost predicate Agrees(keys: Entries, log: seq<Event>, from: Instant) {
    forall k, now {:trigger Live(log, k, now)} :: now >= from ==> (Live(log, k, now) <==> k in keys && now <= keys[k])
  }

  lemma LiveAfterClaim(log: seq<Event>, key: string, at: Instant, k: string, now: Instant)
    ensures Live(log + [Claimed(key, at)], k, now) <==> Live(log, k, now) || (k == key && now <= at + LIFETIME)
  {
    var log' := log + [Claimed(key, at)];
    if Live(log, k, now) {
      var i :| && 0 <= i < |log| && log[i].Claimed? && log[i].key == k && now <= log[i].at + LIFETIME
               && forall j | i < j < |log| :: log[j] != Released(k);
      assert log'[i] == log[i];
      assert Live(log', k, now);
    }
    if k == key && now <= at + LIFETIME {
      assert log'[|log|] == Claimed(key, at);
      assert Live(log', k, now);
    }
    if Live(log', k, now) {
      var i :| && 0 <= i < |log'| && log'[i].Claimed? && log'[i].key == k && now <= log'[i].at + LIFETIME
               && forall j | i < j < |log'| :: log'[j] != Released(k);
      if i < |log| {
        assert log[i] == log'[i];
        forall j | i < j < |log| ensures log[j] != Released(k) {
          assert log'[j] == log[j];
        }
      }
    }
  }

  lemma LiveAfterRelease(log: seq<Event>, key: string, k: string, now: Instant)
    ensures Live(log + [Released(key)], k, now) <==> Live(log, k, now) && k != key
  {
    var log' := log + [Released(key)];
    if Live(log, k, now) && k != key {
      var i :| && 0 <= i < |log| && log[i].Claimed? && log[i].key == k && now <= log[i].at + LIFETIME
               && forall j | i < j < |log| :: log[j] != Released(k);
      assert log'[i] == log[i];
      assert Live(log', k, now);
    }
    if Live(log', k, now) {
      var i :| && 0 <= i < |log'| && log'[i].Claimed? && log'[i].key == k && now <= log'[i].at + LIFETIME
               && forall j | i < j < |log'| :: log'[j] != Released(k);
      assert i < |log| && log[i] == log'[i];
      assert log'[|log|] == Released(key);
      forall j | i < j < |log| ensures log[j] != Released(k) {
        assert log'[j] == log[j];
      }
    }
  }

  lemma LiveKeysMembers(log: seq<Event>, now: Instant)
    ensures forall k :: k in LiveKeys(log, now) <==> Live(log, k, now)
  {
    forall k | Live(log, k, now) ensures k in LiveKeys(log, now) {
      var i :| 0 <= i < |log| && log[i].Claimed? && log[i].key == k;
    }
  }

  lemma SameVerdict(keys: Entries, log: seq<Event>, from: Instant, key: string, now: Instant)
    requires Agrees(keys, log, from) && |keys| <= MAX_REPLAY_CACHE_KEYS && from <= now
    ensures Recorded(keys, key, now).0 == HistoryVerdict(log, key, now)
  {
    LiveKeysMembers(log, now);
    var live := Swept(keys, now);
    assert live.Keys == LiveKeys(log, now);
    assert |live| == |live.Keys|;
    SweptIsSmaller(keys, now);
  }

  lemma ClaimAgrees(keys: Entries, log: seq<Event>, from: Instant, key: string, now: Instant)
    requires Agrees(keys, log, from) && |keys| <= MAX_REPLAY_CACHE_KEYS && from <= now
    requires Recorded(keys, key, now).0 == Admitted
    ensures |Recorded(keys, key, now).1| <= MAX_REPLAY_CACHE_KEYS
    ensures Agrees(Recorded(keys, key, now).1, log + [Claimed(key, now)], now)
  {
    var room := if |keys| >= MAX_REPLAY_CACHE_KEYS then Swept(keys, now) else keys;
    var keys' := room[key := now + LIFETIME];
    assert keys'.Keys == room.Keys + {key};
    assert |keys'| == |keys'.Keys| && |room| == |room.Keys|;
    forall k, t {:trigger Live(log + [Claimed(key, now)], k, t)} | t >= now
      ensures Live(log + [Claimed(key, now)], k, t) <==> k in keys' && t <= keys'[k]
    {
      LiveAfterClaim(log, key, now, k, t);
      assert Live(log, k, t) <==> k in keys && t <= keys[k];
      assert Live(log, key, now) <==> key in keys && now <= keys[key];
    }
  }

  /** A refused call may sweep, which takes away nothing that is live now or later. */
  lemma RefusalAgrees(keys: Entries, log: seq<Event>, from: Instant, key: string, now: Instant)
    requires Agrees(keys, log, from) && |keys| <= MAX_REPLAY_CACHE_KEYS && from <= now
    requires Recorded(keys, key, now).0 != Admitted
    ensures |Recorded(keys, key, now).1| <= MAX_REPLAY_CACHE_KEYS
    ensures Agrees(Recorded(keys, key, now).1, log, now)
  {
    SweptIsSmaller(keys, now);
    var keys' := Recorded(keys, key, now).1;
    assert keys' == keys || keys' == Swept(keys, now);
    forall k, t {:trigger Live(log, k, t)} | t >= now ensures Live(log, k, t) <==> k in keys' && t <= keys'[k] {
      assert Live(log, k, t) <==> k in keys && t <= keys[k];
    }
  }

  lemma ReleaseAgrees(keys: Entries, log: seq<Event>, from: Instant, key: string)
    requires Agrees(keys, log, from)
    ensures Agrees(keys - {key}, log + [Released(key)], from) && |keys - {key}| <= |keys|
  {
    forall k, t {:trigger Live(log + [Released(key)], k, t)} | t >= from
      ensures Live(log + [Released(key)], k, t) <==> k in keys - {key} && t <= (keys - {key})[k]
    {
      LiveAfterRelease(log, key, k, t);
    }
    SubsetSize((keys - {key}).Keys, keys.Keys);
  }

  lemma StepAgrees(keys: Entries, log: seq<Event>, from: Instant, call: Call)
    requires Agrees(keys, log, from) && |keys| <= MAX_REPLAY_CACHE_KEYS
    requires call.Record? ==> from <= call.now
    ensures CacheStep(keys, call).0 == HistoryStep(log, call).0
    ensures |CacheStep(keys, call).1| <= MAX_REPLAY_CACHE_KEYS
    ensures Agrees(CacheStep(keys, call).1, HistoryStep(log, call).1, if call.Record? then call.now else from)
  {
    match call
    case Record(key, now) =>
      SameVerdict(keys, log, from, key, now);
      if Recorded(keys, key, now).0 == Admitted {
        ClaimAgrees(keys, log, from, key, now);
      } else {
        RefusalAgrees(keys, log, from, key, now);
      }
    case Forget(key) =>
      ReleaseAgrees(keys, log, from, key);
  }

  lemma SweptIsSmaller(keys: Entries, now: Instant)
    ensures |Swept(keys, now)| <= |keys|
  {
    SubsetSize(Swept(keys, now).Keys, keys.Keys);
  }

  /**
   For every run of calls with a nondecreasing clock, started on an empty cache,
   the lazily swept cache gives the verdicts of the unbounded history, never holds
   more than MAX_REPLAY_CACHE_KEYS entries, and holds every key that is still live.
   */
  lemma CacheRefinesHistory(calls: seq<Call>, start: Instant)
    requires Nondecreasing(calls, start)
    ensures CacheRun(map[], calls).0 == HistoryRun([], calls).0
    ensures forall n | 0 <= n <= |calls| :: |CacheRun(map[], calls[..n]).1| <= MAX_REPLAY_CACHE_KEYS
    ensures forall n, k, now | 0 <= n <= |calls| && LastClock(calls[..n], start) <= now ::
      Live(HistoryRun([], calls[..n]).1, k, now) <==>
        k in CacheRun(map[], calls[..n]).1 && now <= CacheRun(map[], calls[..n]).1[k]
  {
    RunAgrees(map[], [], start, calls);
    forall n | 0 <= n <= |calls|
      ensures |CacheRun(map[], calls[..n]).1| <= MAX_REPLAY_CACHE_KEYS
      ensures Agrees(CacheRun(map[], calls[..n]).1, HistoryRun([], calls[..n]).1, LastClock(calls[..n], start))
    {
      NondecreasingPrefix(calls, start, n);
      RunAgrees(map[], [], start, calls[..n]);
    }
  }

  function LastClock(calls: seq<Call>, start: Instant): Instant {
    if calls == [] then start else
    LastClock(calls[1..], if calls[0].Record? then calls[0].now else start)
  }

  lemma {:induction false} NondecreasingPrefix(calls: seq<Call>, start: Instant, n: nat)
    requires Nondecreasing(calls, start) && n <= |calls|
    ensures Nondecreasing(calls[..n], start)
  {
    if n > 0 {
      NondecreasingPrefix(calls[1..], if calls[0].Record? then calls[0].now else start, n - 1);
      assert calls[..n][1..] == calls[1..][..n - 1];
    }
  }

  lemma {:induction false} RunAgrees(keys: Entries, log: seq<Event>, from: Instant, calls: seq<Call>)
    requires Agrees(keys, log, from) && |keys| <= MAX_REPLAY_CACHE_KEYS && Nondecreasing(calls, from)
    ensures CacheRun(keys, calls).0 == HistoryRun(log, calls).0
    ensures |CacheRun(keys, calls).1| <= MAX_REPLAY_CACHE_KEYS
    ensures Agrees(CacheRun(keys, calls).1, HistoryRun(log, calls).1, LastClock(calls, from))
    decreases |calls|
  {
    if calls != [] {
      StepAgrees(keys, log, from, calls[0]);
      RunAgrees(CacheStep(keys, calls[0]).1, HistoryStep(log, calls[0]).1,
                if calls[0].Record? then calls[0].now else from, calls[1..]);
    }
  }
}
