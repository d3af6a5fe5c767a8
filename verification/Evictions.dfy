/** When room for a new key has to be made, whether anybody can tell. */
module Evictions {
  import opened Tables
  import opened Throttle
  import opened ThrottleRefinement

  // ----- asking about one key

  /** So many failures of one key at one moment, and then the question. */
  function Probe(key: Key, now: nat, failures: nat): seq<Call>
  {
    if failures == 0 then [Retry(key, now)] else [Fail(key, now)] + Probe(key, now, failures - 1)
  }

  /** The buckets know about one key what the uncapped counters know. */
  predicate AgreesOn(buckets: seq<Entry>, u: Counters, key: Key, now: nat)
  {
    var live := Evicted(buckets, now);
    var i := Find(WithKey(key), live);
    Current(u, key, now) == if i < |live| then Some(live[i].bucket) else None
  }

  lemma LiveStays(buckets: seq<Entry>, now: nat)
    ensures Evicted(Evicted(buckets, now), now) == Evicted(buckets, now)
  {
    FilterAll(LiveAt(now), Evicted(buckets, now));
  }

  lemma FoundAt(buckets: seq<Entry>, key: Key, i: nat)
    requires i < |buckets| && buckets[i].key == key
    requires forall j | 0 <= j < i :: buckets[j].key != key
    ensures Find(WithKey(key), buckets) == i
  {
  }

  lemma GrownIsFound(l: Limits, live: seq<Entry>, key: Key, now: nat, i: nat)
    requires l.Ok() && i == Find(WithKey(key), live) < |live| && Evicted(live, now) == live
    ensures var after := live[i := Entry(key, Failed(l, live[i].bucket, now))];
      Evicted(after, now) == after && Find(WithKey(key), after) == i
  {
    var after := live[i := Entry(key, Failed(l, live[i].bucket, now))];
    forall e | e in after
      ensures LiveAt(now)(e)
    {
      assert e == after[i] || e in Evicted(live, now);
    }
    FilterAll(LiveAt(now), after);
    assert forall j | 0 <= j < i :: !WithKey(key)(live[j]);
    FoundAt(after, key, i);
  }

  lemma NewIsFound(l: Limits, live: seq<Entry>, key: Key, now: nat, bucket: Bucket)
    requires l.Ok() && Find(WithKey(key), live) == |live| && Evicted(live, now) == live && bucket.expiresAt > now
    ensures var after := WithRoom(live, l.maxBuckets) + [Entry(key, bucket)];
      Evicted(after, now) == after && Find(WithKey(key), after) == |after| - 1
  {
    var kept := WithRoom(live, l.maxBuckets);
    assert forall e | e in kept :: e in Evicted(live, now);
    FilterAll(LiveAt(now), kept + [Entry(key, bucket)]);
    assert forall j | 0 <= j < |live| :: !WithKey(key)(live[j]);
    KeptWithout(live, key, l.maxBuckets);
    FoundAt(kept + [Entry(key, bucket)], key, |kept|);
  }

  lemma KeptWithout(live: seq<Entry>, key: Key, maxBuckets: nat)
    requires maxBuckets > 0 && forall j | 0 <= j < |live| :: live[j].key != key
    ensures var kept := WithRoom(live, maxBuckets); forall j | 0 <= j < |kept| :: kept[j].key != key
  {
  }

  /** A failure of a key leaves its newest bucket where the look-up finds it. */
  lemma FailedIsFound(l: Limits, buckets: seq<Entry>, key: Key, now: nat)
    requires l.Ok() && RetryAfter(buckets, key, now).None?
    ensures var live := Evicted(buckets, now);
      var after := Recorded(l, buckets, key, now);
      var i, j := Find(WithKey(key), live), Find(WithKey(key), after);
      && Evicted(after, now) == after && j < |after|
      && after[j].bucket == Failed(l, if i < |live| then live[i].bucket else Bucket(0, None, now + l.cooldown), now)
  {
    var live := Evicted(buckets, now);
    var i := Find(WithKey(key), live);
    LiveStays(buckets, now);
    if i < |live| {
      GrownIsFound(l, live, key, now, i);
    } else {
      NewIsFound(l, live, key, now, Failed(l, Bucket(0, None, now + l.cooldown), now));
    }
  }

  lemma FailAgrees(l: Limits, buckets: seq<Entry>, u: Counters, key: Key, now: nat)
    requires l.Ok() && AgreesOn(buckets, u, key, now)
    ensures AgreesOn(Recorded(l, buckets, key, now), Count(l, u, key, now), key, now)
  {
    LiveStays(buckets, now);
    if RetryAfter(buckets, key, now).None? {
      FailedIsFound(l, buckets, key, now);
    }
  }

  /** The buckets after so many failures of a key at one moment. */
  function Failing(l: Limits, buckets: seq<Entry>, key: Key, now: nat, failures: nat): seq<Entry>
    requires l.Ok()
    decreases failures
  {
    if failures == 0 then buckets else Failing(l, Recorded(l, buckets, key, now), key, now, failures - 1)
  }

  /** The counters after them. */
  function Counting(l: Limits, u: Counters, key: Key, now: nat, failures: nat): Counters
    decreases failures
  {
    if failures == 0 then u else Counting(l, Count(l, u, key, now), key, now, failures - 1)
  }

  lemma CappedAsk(l: Limits, buckets: seq<Entry>, key: Key, now: nat)
    requires l.Ok()
    ensures CappedAnswers(l, buckets, [Retry(key, now)]) == [RetryAfter(buckets, key, now)]
  {
    assert [Retry(key, now)][1..] == [];
    assert CappedAnswers(l, Evicted(buckets, now), []) == [];
  }

  lemma CappedFail(l: Limits, buckets: seq<Entry>, key: Key, now: nat, rest: seq<Call>)
    requires l.Ok()
    ensures CappedAnswers(l, buckets, [Fail(key, now)] + rest) == CappedAnswers(l, Recorded(l, buckets, key, now), rest)
  {
    assert ([Fail(key, now)] + rest)[1..] == rest;
  }

  lemma UncappedAsk(l: Limits, u: Counters, key: Key, now: nat)
    ensures UncappedAnswers(l, u, [Retry(key, now)]) == [Answer(u, key, now)]
  {
    assert [Retry(key, now)][1..] == [];
    assert UncappedAnswers(l, u, []) == [];
  }

  lemma UncappedFail(l: Limits, u: Counters, key: Key, now: nat, rest: seq<Call>)
    ensures UncappedAnswers(l, u, [Fail(key, now)] + rest) == UncappedAnswers(l, Count(l, u, key, now), rest)
  {
    assert ([Fail(key, now)] + rest)[1..] == rest;
  }

  /** The one answer to a probe. */
  predicate CappedGives(l: Limits, buckets: seq<Entry>, key: Key, now: nat, failures: nat, answer: Option<nat>)
    requires l.Ok()
  {
    CappedAnswers(l, buckets, Probe(key, now, failures)) == [answer]
  }

  predicate UncappedGives(l: Limits, u: Counters, key: Key, now: nat, failures: nat, answer: Option<nat>)
  {
    UncappedAnswers(l, u, Probe(key, now, failures)) == [answer]
  }

  lemma ProbeIs(key: Key, now: nat, failures: nat)
    ensures Probe(key, now, 0) == [Retry(key, now)]
    ensures failures > 0 ==> Probe(key, now, failures) == [Fail(key, now)] + Probe(key, now, failures - 1)
  {
  }

  /** The failures of a probe lead from some buckets to others. */
  predicate Leads(l: Limits, buckets: seq<Entry>, key: Key, now: nat, failures: nat, end: seq<Entry>)
  {
    l.Ok() && Failing(l, buckets, key, now, failures) == end
  }

  lemma CappedBase(l: Limits, buckets: seq<Entry>, key: Key, now: nat, end: seq<Entry>)
    requires l.Ok() && Leads(l, buckets, key, now, 0, end)
    ensures CappedGives(l, buckets, key, now, 0, RetryAfter(end, key, now))
  {
    ProbeIs(key, now, 0);
    CappedAsk(l, buckets, key, now);
  }

  lemma LeadsOn(l: Limits, buckets: seq<Entry>, key: Key, now: nat, failures: nat, end: seq<Entry>)
      returns (after: seq<Entry>)
    requires l.Ok() && failures > 0 && Leads(l, buckets, key, now, failures, end)
    ensures after == Recorded(l, buckets, key, now) && Leads(l, after, key, now, failures - 1, end)
  {
    after := Recorded(l, buckets, key, now);
  }

  lemma CappedStep(
      l: Limits, buckets: seq<Entry>, after: seq<Entry>, key: Key, now: nat, failures: nat, answer: Option<nat>)
    requires l.Ok() && failures > 0 && after == Recorded(l, buckets, key, now)
    requires CappedGives(l, after, key, now, failures - 1, answer)
    ensures CappedGives(l, buckets, key, now, failures, answer)
  {
    ProbeIs(key, now, failures);
    CappedFail(l, buckets, key, now, Probe(key, now, failures - 1));
  }

  lemma {:induction false} CappedProbe(
      l: Limits, buckets: seq<Entry>, key: Key, now: nat, failures: nat, end: seq<Entry>, answer: Option<nat>)
    requires l.Ok() && Leads(l, buckets, key, now, failures, end) && answer == RetryAfter(end, key, now)
    ensures CappedGives(l, buckets, key, now, failures, answer)
    decreases failures
  {
    if failures == 0 {
      CappedBase(l, buckets, key, now, end);
    } else {
      var after := LeadsOn(l, buckets, key, now, failures, end);
      CappedProbe(l, after, key, now, failures - 1, end, answer);
      CappedStep(l, buckets, after, key, now, failures, answer);
    }
  }

  lemma UncappedBase(l: Limits, u: Counters, key: Key, now: nat)
    ensures UncappedGives(l, u, key, now, 0, Answer(u, key, now))
  {
    ProbeIs(key, now, 0);
    UncappedAsk(l, u, key, now);
  }

  lemma UncappedStep(l: Limits, u: Counters, key: Key, now: nat, failures: nat, answer: Option<nat>)
    requires failures > 0 && UncappedGives(l, Count(l, u, key, now), key, now, failures - 1, answer)
    ensures UncappedGives(l, u, key, now, failures, answer)
  {
    ProbeIs(key, now, failures);
    UncappedFail(l, u, key, now, Probe(key, now, failures - 1));
  }

  lemma {:induction false} UncappedProbe(l: Limits, u: Counters, key: Key, now: nat, failures: nat)
    ensures UncappedGives(l, u, key, now, failures, Answer(Counting(l, u, key, now, failures), key, now))
    decreases failures
  {
    if failures == 0 {
      UncappedBase(l, u, key, now);
    } else {
      var after := Count(l, u, key, now);
      UncappedProbe(l, after, key, now, failures - 1);
      UncappedStep(l, u, key, now, failures, Answer(Counting(l, after, key, now, failures - 1), key, now));
    }
  }

  /** After so many failures, the answer betrays the cap. */
  predicate Shows(l: Limits, buckets: seq<Entry>, u: Counters, key: Key, now: nat, failures: nat)
    requires l.Ok()
  {
    RetryAfter(Failing(l, buckets, key, now, failures), key, now)
    != Answer(Counting(l, u, key, now, failures), key, now)
  }

  lemma ProbeShows(l: Limits, buckets: seq<Entry>, u: Counters, key: Key, now: nat, failures: nat)
    requires l.Ok()
    ensures Shows(l, buckets, u, key, now, failures) <==>
      CappedAnswers(l, buckets, Probe(key, now, failures)) != UncappedAnswers(l, u, Probe(key, now, failures))
  {
    var end := Failing(l, buckets, key, now, failures);
    CappedProbe(l, buckets, key, now, failures, end, RetryAfter(end, key, now));
    UncappedProbe(l, u, key, now, failures);
    OneAnswerEach(RetryAfter(Failing(l, buckets, key, now, failures), key, now),
                  Answer(Counting(l, u, key, now, failures), key, now));
  }

  lemma OneAnswerEach(a: Option<nat>, b: Option<nat>)
    ensures [a] == [b] <==> a == b
  {
    assert [a][0] == a && [b][0] == b;
  }

  lemma AgreeNow(buckets: seq<Entry>, u: Counters, key: Key, now: nat)
    requires AgreesOn(buckets, u, key, now)
    ensures RetryAfter(buckets, key, now) == Answer(u, key, now)
  {
  }

  lemma {:induction false} StaysAgreed(l: Limits, buckets: seq<Entry>, u: Counters, key: Key, now: nat, failures: nat)
    requires l.Ok() && AgreesOn(buckets, u, key, now)
    ensures AgreesOn(Failing(l, buckets, key, now, failures), Counting(l, u, key, now, failures), key, now)
    decreases failures
  {
    if failures > 0 {
      FailAgrees(l, buckets, u, key, now);
      StaysAgreed(l, Recorded(l, buckets, key, now), Count(l, u, key, now), key, now, failures - 1);
    }
  }

  lemma ProbeAgrees(l: Limits, buckets: seq<Entry>, u: Counters, key: Key, now: nat, failures: nat)
    requires l.Ok() && AgreesOn(buckets, u, key, now)
    ensures !Shows(l, buckets, u, key, now, failures)
  {
    StaysAgreed(l, buckets, u, key, now, failures);
    AgreeNow(Failing(l, buckets, key, now, failures), Counting(l, u, key, now, failures), key, now);
  }

  // ----- a bucket that went missing

  /** The counters know failures of a key that its bucket, if it has one, has not all counted. */
  predicate Behind(l: Limits, buckets: seq<Entry>, u: Counters, key: Key, now: nat, failures: nat)
  {
    var live := Evicted(buckets, now);
    var i := Find(WithKey(key), live);
    && Current(u, key, now).Some?
    && BucketOk(l, Current(u, key, now).value)
    && Current(u, key, now).value.failures + failures == l.maxFailures
    && (i < |live| ==> live[i].bucket.failures + failures < l.maxFailures && live[i].bucket.blockedUntil.None?)
  }

  lemma StillBehind(l: Limits, buckets: seq<Entry>, u: Counters, key: Key, now: nat, failures: nat)
    requires l.Ok() && failures > 0 && Behind(l, buckets, u, key, now, failures)
    ensures Behind(l, Recorded(l, buckets, key, now), Count(l, u, key, now), key, now, failures - 1)
  {
    FailedIsFound(l, buckets, key, now);
    CountedOnce(l, u, key, now);
  }

  lemma CountedOnce(l: Limits, u: Counters, key: Key, now: nat)
    requires l.Ok() && Current(u, key, now).Some? && BucketOk(l, Current(u, key, now).value)
    requires Current(u, key, now).value.failures < l.maxFailures
    ensures Current(Count(l, u, key, now), key, now) == Some(Failed(l, Current(u, key, now).value, now))
  {
  }

  lemma BehindNow(l: Limits, buckets: seq<Entry>, u: Counters, key: Key, now: nat)
    requires l.Ok() && Behind(l, buckets, u, key, now, 0)
    ensures RetryAfter(buckets, key, now).None? && Answer(u, key, now).Some?
  {
  }

  lemma {:induction false} StaysBehind(l: Limits, buckets: seq<Entry>, u: Counters, key: Key, now: nat, failures: nat)
    requires l.Ok() && Behind(l, buckets, u, key, now, failures)
    ensures Behind(l, Failing(l, buckets, key, now, failures), Counting(l, u, key, now, failures), key, now, 0)
    decreases failures
  {
    if failures > 0 {
      StillBehind(l, buckets, u, key, now, failures);
      StaysBehind(l, Recorded(l, buckets, key, now), Count(l, u, key, now), key, now, failures - 1);
    }
  }

  lemma BehindShows(l: Limits, buckets: seq<Entry>, u: Counters, key: Key, now: nat, failures: nat)
    requires l.Ok() && Behind(l, buckets, u, key, now, failures)
    ensures Shows(l, buckets, u, key, now, failures)
  {
    StaysBehind(l, buckets, u, key, now, failures);
    BehindNow(l, Failing(l, buckets, key, now, failures), Counting(l, u, key, now, failures), key, now);
  }

  // ----- exactly when making room shows

  /** Whoever asks about whichever key at that moment, after however many more failures of it, is
      answered as by the uncapped counters. */
  ghost predicate Unnoticed(l: Limits, buckets: seq<Entry>, u: Counters, now: nat)
    requires l.Ok()
  {
    forall key, failures: nat ::
      CappedAnswers(l, buckets, Probe(key, now, failures)) == UncappedAnswers(l, u, Probe(key, now, failures))
  }

  lemma LiveKeysAreHeld(l: Limits, buckets: seq<Entry>, u: Counters, clock: nat, now: nat)
    requires Sound(l, buckets) && StandsFor(buckets, u, clock) && clock <= now
    ensures LiveKeys(u, now) == KeySet(Evicted(buckets, now))
    ensures |LiveKeys(u, now)| == |Evicted(buckets, now)|
  {
    var live := Evicted(buckets, now);
    EvictedSound(l, buckets, now);
    EvictedStandsFor(buckets, u, clock, now);
    KeysCounted(live);
    forall key | key in LiveKeys(u, now)
      ensures key in KeySet(live)
    {
      assert Entry(key, u[key]) in live;
    }
  }

  lemma FullWithout(l: Limits, buckets: seq<Entry>, u: Counters, clock: nat, key: Key, now: nat)
    requires l.Ok() && Sound(l, buckets) && StandsFor(buckets, u, clock) && clock <= now
    requires |LiveKeys(u, now) + {key}| > l.maxBuckets
    ensures |Evicted(buckets, now)| == l.maxBuckets && key !in LiveKeys(u, now)
    ensures Find(WithKey(key), Evicted(buckets, now)) == l.maxBuckets
  {
    LiveKeysAreHeld(l, buckets, u, clock, now);
    EvictedSound(l, buckets, now);
    assert key in LiveKeys(u, now) ==> LiveKeys(u, now) + {key} == LiveKeys(u, now);
    FindNone(WithKey(key), Evicted(buckets, now));
  }

  lemma OldestGoes(l: Limits, live: seq<Entry>, key: Key, bucket: Bucket)
    requires l.Ok() && |live| == l.maxBuckets && KeysDistinct(KeyOf(), live) && live[0].key != key
    ensures forall e | e in WithRoom(live, l.maxBuckets) + [Entry(key, bucket)] :: e.key != live[0].key
  {
    forall e | e in live[1..]
      ensures e.key != live[0].key
    {
      var k :| 1 <= k < |live| && live[k] == e;
      assert KeyOf()(live[0]) != KeyOf()(live[k]);
    }
  }

  lemma HeldIsCurrent(l: Limits, buckets: seq<Entry>, u: Counters, clock: nat, e: Entry, now: nat)
    requires Sound(l, buckets) && StandsFor(buckets, u, clock) && clock <= now && e in Evicted(buckets, now)
    ensures Current(u, e.key, now) == Some(e.bucket) && BucketOk(l, e.bucket) && e.key in LiveKeys(u, now)
  {
  }

  lemma KeyIsUnknown(l: Limits, buckets: seq<Entry>, u: Counters, key: Key, now: nat)
    requires l.Ok() && key !in LiveKeys(u, now) && Find(WithKey(key), Evicted(buckets, now)) == |Evicted(buckets, now)|
    ensures var bucket := Failed(l, Bucket(0, None, now + l.cooldown), now);
      && Recorded(l, buckets, key, now) == WithRoom(Evicted(buckets, now), l.maxBuckets) + [Entry(key, bucket)]
      && Count(l, u, key, now) == u[key := bucket]
  {
  }

  /** Without room for the failing key, the oldest bucket goes while its key still counts. */
  lemma OldestIsLost(l: Limits, buckets: seq<Entry>, u: Counters, clock: nat, key: Key, now: nat) returns (victim: Key)
    requires l.Ok() && Sound(l, buckets) && StandsFor(buckets, u, clock) && clock <= now
    requires |LiveKeys(u, now) + {key}| > l.maxBuckets
    ensures victim != key && Current(u, victim, now).Some? && BucketOk(l, Current(u, victim, now).value)
    ensures forall e | e in Recorded(l, buckets, key, now) :: e.key != victim
    ensures Current(Count(l, u, key, now), victim, now) == Current(u, victim, now)
  {
    var live := Evicted(buckets, now);
    FullWithout(l, buckets, u, clock, key, now);
    HeldIsCurrent(l, buckets, u, clock, live[0], now);
    victim := live[0].key;
    KeyIsUnknown(l, buckets, u, key, now);
    EvictedSound(l, buckets, now);
    OldestGoes(l, live, key, Failed(l, Bucket(0, None, now + l.cooldown), now));
  }

  lemma Noticed(l: Limits, buckets: seq<Entry>, u: Counters, now: nat, key: Key, failures: nat)
    requires l.Ok() && Shows(l, buckets, u, key, now, failures)
    ensures !Unnoticed(l, buckets, u, now)
  {
    ProbeShows(l, buckets, u, key, now, failures);
  }

  lemma NeverNoticed(l: Limits, buckets: seq<Entry>, u: Counters, now: nat)
    requires l.Ok() && forall key :: AgreesOn(buckets, u, key, now)
    ensures Unnoticed(l, buckets, u, now)
  {
    forall key, failures: nat
      ensures CappedAnswers(l, buckets, Probe(key, now, failures)) == UncappedAnswers(l, u, Probe(key, now, failures))
    {
      ProbeAgrees(l, buckets, u, key, now, failures);
      ProbeShows(l, buckets, u, key, now, failures);
    }
  }

  /** While the buckets stand for the counters, a failure goes unnoticed if and only if the keys still
      counting and the failing one fit under the cap. */
  lemma EvictionShowsIff(l: Limits, buckets: seq<Entry>, u: Counters, clock: nat, key: Key, now: nat)
    requires l.Ok() && Sound(l, buckets) && StandsFor(buckets, u, clock) && clock <= now
    ensures Unnoticed(l, Recorded(l, buckets, key, now), Count(l, u, key, now), now)
       <==> |LiveKeys(u, now) + {key}| <= l.maxBuckets
  {
    var after, counted := Recorded(l, buckets, key, now), Count(l, u, key, now);
    if |LiveKeys(u, now) + {key}| <= l.maxBuckets {
      FailStandsFor(l, buckets, u, clock, key, now);
      forall k
        ensures AgreesOn(after, counted, k, now)
      {
        SameBucket(after, counted, now, k, now);
      }
      NeverNoticed(l, after, counted, now);
    } else {
      var victim := OldestIsLost(l, buckets, u, clock, key, now);
      FindNone(WithKey(victim), Evicted(after, now));
      var failures := l.maxFailures - Current(u, victim, now).value.failures;
      BehindShows(l, after, counted, victim, now, failures);
      Noticed(l, after, counted, now, victim, failures);
    }
  }

  /** A cap of one bucket, one failure allowed. */
  const NARROW := Limits(1, 1000, 1)

  const BLOCKED := Bucket(1, Some(1000), 1000)

  lemma FailAlone(key: Key)
    ensures Recorded(NARROW, [], key, 0) == [Entry(key, BLOCKED)]
    ensures Count(NARROW, map[], key, 0) == map[key := BLOCKED]
  {
  }

  lemma FailOver(other: Key, key: Key)
    requires other != key
    ensures Recorded(NARROW, [Entry(other, BLOCKED)], key, 0) == [Entry(key, BLOCKED)]
    ensures Count(NARROW, map[other := BLOCKED], key, 0) == map[other := BLOCKED, key := BLOCKED]
  {
    FilterAll(LiveAt(0), [Entry(other, BLOCKED)]);
  }

  lemma CappedForgets()
    ensures CappedAnswers(NARROW, [], [Fail("a", 0)] + ([Fail("b", 0)] + [Retry("a", 0)])) == [None]
  {
    FailAlone("a");
    FailOver("a", "b");
    CappedFail(NARROW, [], "a", 0, [Fail("b", 0)] + [Retry("a", 0)]);
    CappedFail(NARROW, [Entry("a", BLOCKED)], "b", 0, [Retry("a", 0)]);
    CappedAsk(NARROW, [Entry("b", BLOCKED)], "a", 0);
  }

  lemma UncappedRemembers()
    ensures UncappedAnswers(NARROW, map[], [Fail("a", 0)] + ([Fail("b", 0)] + [Retry("a", 0)])) == [Some(1)]
  {
    FailAlone("a");
    FailOver("a", "b");
    UncappedFail(NARROW, map[], "a", 0, [Fail("b", 0)] + [Retry("a", 0)]);
    UncappedFail(NARROW, map["a" := BLOCKED], "b", 0, [Retry("a", 0)]);
    UncappedAsk(NARROW, map["a" := BLOCKED, "b" := BLOCKED], "a", 0);
  }

  lemma EvictionCanShow()
    ensures NARROW.Ok()
    ensures CappedAnswers(NARROW, [], [Fail("a", 0), Fail("b", 0), Retry("a", 0)]) == [None]
    ensures UncappedAnswers(NARROW, map[], [Fail("a", 0), Fail("b", 0), Retry("a", 0)]) == [Some(1)]
  {
    assert [Fail("a", 0), Fail("b", 0), Retry("a", 0)] == [Fail("a", 0)] + ([Fail("b", 0)] + [Retry("a", 0)]);
    CappedForgets();
    UncappedRemembers();
  }
}
