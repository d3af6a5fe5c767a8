/** While the keys still counting fit under the cap, the throttle answers like one counter per key
    that never runs out of room. */
module ThrottleRefinement {
  import opened Tables
  import opened Throttle

  type Counters = map<Key, Bucket>

  // ----- counters without a cap

  function Current(u: Counters, key: Key, now: nat): Option<Bucket>
  {
    if key in u && u[key].expiresAt > now then Some(u[key]) else None
  }

  function Answer(u: Counters, key: Key, now: nat): Option<nat>
  {
    match Current(u, key, now)
    case Some(b) => Remaining(b.blockedUntil, now)
    case None => None
  }

  function Count(l: Limits, u: Counters, key: Key, now: nat): Counters
  {
    if Answer(u, key, now).Some? then u
    else
      var before := match Current(u, key, now) case Some(b) => b case None => Bucket(0, None, now + l.cooldown);
      u[key := Failed(l, before, now)]
  }

  // ----- calls

  datatype Call = Retry(key: Key, now: nat) | Fail(key: Key, now: nat) | Reset(key: Key)

  function Capped(l: Limits, buckets: seq<Entry>, c: Call): seq<Entry>
    requires l.Ok()
  {
    match c
    case Retry(_, now) => Evicted(buckets, now)
    case Fail(key, now) => Recorded(l, buckets, key, now)
    case Reset(key) => Cleared(buckets, key)
  }

  function Uncapped(l: Limits, u: Counters, c: Call): Counters
  {
    match c
    case Retry(_, _) => u
    case Fail(key, now) => Count(l, u, key, now)
    case Reset(key) => u - {key}
  }

  function CappedAnswers(l: Limits, buckets: seq<Entry>, calls: seq<Call>): seq<Option<nat>>
    requires l.Ok()
    decreases |calls|
  {
    if calls == [] then []
    else
      (if calls[0].Retry? then [RetryAfter(buckets, calls[0].key, calls[0].now)] else [])
      + CappedAnswers(l, Capped(l, buckets, calls[0]), calls[1..])
  }

  function UncappedAnswers(l: Limits, u: Counters, calls: seq<Call>): seq<Option<nat>>
    decreases |calls|
  {
    if calls == [] then []
    else
      (if calls[0].Retry? then [Answer(u, calls[0].key, calls[0].now)] else [])
      + UncappedAnswers(l, Uncapped(l, u, calls[0]), calls[1..])
  }

  function LiveKeys(u: Counters, now: nat): set<Key>
  {
    set key | key in u && u[key].expiresAt > now
  }

  /** At every failure, the keys still counting and the failing one fit under the cap. */
  predicate FitsCap(l: Limits, u: Counters, calls: seq<Call>)
    decreases |calls|
  {
    calls == [] ||
    (&& (calls[0].Fail? ==> |LiveKeys(u, calls[0].now) + {calls[0].key}| <= l.maxBuckets)
     && FitsCap(l, Uncapped(l, u, calls[0]), calls[1..]))
  }

  function ClockAfter(c: Call, clock: nat): nat
  {
    if c.Reset? then clock else c.now
  }

  predicate NeverBack(calls: seq<Call>, clock: nat)
    decreases |calls|
  {
    calls == [] || (clock <= ClockAfter(calls[0], clock) && NeverBack(calls[1..], ClockAfter(calls[0], clock)))
  }

  // ----- the buckets stand for the counters

  predicate StandsFor(buckets: seq<Entry>, u: Counters, clock: nat)
  {
    && (forall e | e in buckets :: e.key in u && u[e.key] == e.bucket)
    && (forall key | key in u && u[key].expiresAt > clock :: Entry(key, u[key]) in buckets)
  }

  lemma SameBucket(buckets: seq<Entry>, u: Counters, clock: nat, key: Key, now: nat)
    requires StandsFor(buckets, u, clock) && clock <= now
    ensures var live := Evicted(buckets, now);
      var i := Find(WithKey(key), live);
      Current(u, key, now) == if i < |live| then Some(live[i].bucket) else None
  {
    var live := Evicted(buckets, now);
    var i := Find(WithKey(key), live);
    if i < |live| {
      assert live[i] in live && live[i] in buckets;
    } else {
      forall e | e in live
        ensures e.key != key
      {
        var j :| 0 <= j < |live| && live[j] == e;
        assert !WithKey(key)(live[j]);
      }
      assert forall e | e in buckets && e.key == key :: !LiveAt(now)(e);
    }
  }

  lemma EvictedStandsFor(buckets: seq<Entry>, u: Counters, clock: nat, now: nat)
    requires StandsFor(buckets, u, clock) && clock <= now
    ensures StandsFor(Evicted(buckets, now), u, now)
  {
  }

  function KeySet(buckets: seq<Entry>): set<Key>
  {
    set e | e in buckets :: e.key
  }

  lemma FirstKeyIsNew(buckets: seq<Entry>)
    requires buckets != [] && KeysDistinct(KeyOf(), buckets)
    ensures buckets[0].key !in KeySet(buckets[1..])
    ensures KeySet(buckets) == KeySet(buckets[1..]) + {buckets[0].key}
  {
    forall e | e in buckets[1..]
      ensures e.key != buckets[0].key
    {
      var k :| 1 <= k < |buckets| && buckets[k] == e;
      assert KeyOf()(buckets[0]) != KeyOf()(buckets[k]);
    }
  }

  lemma {:induction false} KeysCounted(buckets: seq<Entry>)
    requires KeysDistinct(KeyOf(), buckets)
    ensures |KeySet(buckets)| == |buckets|
  {
    if buckets != [] {
      KeysCounted(buckets[1..]);
      FirstKeyIsNew(buckets);
    }
  }

  lemma SubsetSize(small: set<Key>, large: set<Key>)
    requires small <= large
    ensures |small| <= |large|
  {
    assert large == small + (large - small);
  }

  lemma RoomForOneMore(l: Limits, live: seq<Entry>, u: Counters, key: Key, now: nat)
    requires KeysDistinct(KeyOf(), live) && StandsFor(live, u, now)
    requires forall e | e in live :: e.bucket.expiresAt > now && e.key != key
    requires |LiveKeys(u, now) + {key}| <= l.maxBuckets
    ensures |live| < l.maxBuckets
  {
    KeysCounted(live);
    var keys := KeySet(live);
    SubsetSize(keys + {key}, LiveKeys(u, now) + {key});
    assert |keys + {key}| == |keys| + 1;
  }

  /** An unblocked failure, on either side. */
  lemma UnblockedFails(l: Limits, buckets: seq<Entry>, u: Counters, key: Key, now: nat)
    requires l.Ok() && RetryAfter(buckets, key, now).None? && Answer(u, key, now).None?
    ensures var live := Evicted(buckets, now);
      var i, first := Find(WithKey(key), live), Bucket(0, None, now + l.cooldown);
      && Recorded(l, buckets, key, now)
         == (if i < |live| then live[i := Entry(key, Failed(l, live[i].bucket, now))]
             else WithRoom(live, l.maxBuckets) + [Entry(key, Failed(l, first, now))])
      && Count(l, u, key, now)
         == u[key := Failed(l, if Current(u, key, now).Some? then Current(u, key, now).value else first, now)]
  {
  }

  lemma BlockedFails(l: Limits, buckets: seq<Entry>, u: Counters, key: Key, now: nat)
    requires l.Ok() && RetryAfter(buckets, key, now).Some? && Answer(u, key, now).Some?
    ensures Recorded(l, buckets, key, now) == Evicted(buckets, now) && Count(l, u, key, now) == u
  {
  }

  lemma SameAnswer(buckets: seq<Entry>, u: Counters, clock: nat, key: Key, now: nat)
    requires StandsFor(buckets, u, clock) && clock <= now
    ensures RetryAfter(buckets, key, now) == Answer(u, key, now)
  {
    SameBucket(buckets, u, clock, key, now);
  }

  lemma LiveStandsFor(l: Limits, buckets: seq<Entry>, u: Counters, clock: nat, now: nat)
    requires Sound(l, buckets) && StandsFor(buckets, u, clock) && clock <= now
    ensures var live := Evicted(buckets, now);
      && StandsFor(live, u, now) && KeysDistinct(KeyOf(), live)
      && forall e | e in live :: e.bucket.expiresAt > now
  {
    EvictedStandsFor(buckets, u, clock, now);
    EvictedSound(l, buckets, now);
  }

  lemma FailStandsFor(l: Limits, buckets: seq<Entry>, u: Counters, clock: nat, key: Key, now: nat)
    requires l.Ok() && Sound(l, buckets) && StandsFor(buckets, u, clock) && clock <= now
    requires |LiveKeys(u, now) + {key}| <= l.maxBuckets
    ensures StandsFor(Recorded(l, buckets, key, now), Count(l, u, key, now), now)
  {
    SameAnswer(buckets, u, clock, key, now);
    LiveStandsFor(l, buckets, u, clock, now);
    if RetryAfter(buckets, key, now).Some? {
      BlockedFails(l, buckets, u, key, now);
    } else {
      UnblockedFails(l, buckets, u, key, now);
      SameBucket(buckets, u, clock, key, now);
      UnblockedStandsFor(l, Evicted(buckets, now), u, key, now);
    }
  }

  lemma UnblockedStandsFor(l: Limits, live: seq<Entry>, u: Counters, key: Key, now: nat)
    requires l.Ok() && KeysDistinct(KeyOf(), live) && StandsFor(live, u, now)
    requires forall e | e in live :: e.bucket.expiresAt > now
    requires |LiveKeys(u, now) + {key}| <= l.maxBuckets
    ensures var i, first := Find(WithKey(key), live), Bucket(0, None, now + l.cooldown);
      var bucket := Failed(l, if i < |live| then live[i].bucket else first, now);
      StandsFor(if i < |live| then live[i := Entry(key, bucket)]
                else WithRoom(live, l.maxBuckets) + [Entry(key, bucket)], u[key := bucket], now)
  {
    var i := Find(WithKey(key), live);
    if i < |live| {
      ReplacedStandsFor(live, u, now, i, Failed(l, live[i].bucket, now));
    } else {
      NewStandsFor(l, live, u, key, now);
    }
  }

  lemma NewStandsFor(l: Limits, live: seq<Entry>, u: Counters, key: Key, now: nat)
    requires l.Ok() && KeysDistinct(KeyOf(), live) && StandsFor(live, u, now)
    requires forall e | e in live :: e.bucket.expiresAt > now
    requires Find(WithKey(key), live) == |live|
    requires |LiveKeys(u, now) + {key}| <= l.maxBuckets
    ensures var bucket := Failed(l, Bucket(0, None, now + l.cooldown), now);
      StandsFor(WithRoom(live, l.maxBuckets) + [Entry(key, bucket)], u[key := bucket], now)
  {
    forall e | e in live
      ensures e.key != key
    {
      var j :| 0 <= j < |live| && live[j] == e;
      assert !WithKey(key)(live[j]);
    }
    RoomForOneMore(l, live, u, key, now);
    AddedStandsFor(live, u, now, key, Failed(l, Bucket(0, None, now + l.cooldown), now));
  }

  lemma ReplacedStandsFor(live: seq<Entry>, u: Counters, now: nat, i: nat, bucket: Bucket)
    requires KeysDistinct(KeyOf(), live) && StandsFor(live, u, now) && i < |live|
    ensures StandsFor(live[i := Entry(live[i].key, bucket)], u[live[i].key := bucket], now)
  {
    var after := live[i := Entry(live[i].key, bucket)];
    forall e | e in after
      ensures e == Entry(live[i].key, bucket) || (e in live && e.key != live[i].key)
    {
      var j :| 0 <= j < |after| && after[j] == e;
      assert j != i ==> KeyOf()(live[j]) != KeyOf()(live[i]);
    }
    forall k | k in u && k != live[i].key && u[k].expiresAt > now
      ensures Entry(k, u[k]) in after
    {
      var j :| 0 <= j < |live| && live[j] == Entry(k, u[k]);
      assert after[j] == live[j];
    }
    assert after[i] in after;
  }

  lemma AddedStandsFor(live: seq<Entry>, u: Counters, now: nat, key: Key, bucket: Bucket)
    requires StandsFor(live, u, now) && forall e | e in live :: e.key != key
    ensures StandsFor(live + [Entry(key, bucket)], u[key := bucket], now)
  {
    var after := u[key := bucket];
    forall k | k in after && after[k].expiresAt > now
      ensures Entry(k, after[k]) in live + [Entry(key, bucket)]
    {
      assert k != key ==> Entry(k, u[k]) in live;
    }
  }

  lemma ClearedIs(l: Limits, buckets: seq<Entry>, key: Key, e: Entry)
    requires Sound(l, buckets) && e in buckets
    ensures e in Cleared(buckets, key) <==> e.key != key
  {
    var i := Find(WithKey(key), buckets);
    var j :| 0 <= j < |buckets| && buckets[j] == e;
    if i < |buckets| {
      ClearedAt(buckets, i, j);
    } else {
      assert !WithKey(key)(buckets[j]);
    }
  }

  lemma ClearedAt(buckets: seq<Entry>, i: nat, j: nat)
    requires KeysDistinct(KeyOf(), buckets) && i < |buckets| && j < |buckets|
    ensures buckets[j] in Without(buckets, i) <==> buckets[j].key != buckets[i].key
  {
    var rest := Without(buckets, i);
    if j != i {
      assert rest[if j < i then j else j - 1] == buckets[j];
      assert KeyOf()(buckets[if i < j then i else j]) != KeyOf()(buckets[if i < j then j else i]);
    } else {
      forall k | 0 <= k < |rest|
        ensures rest[k] != buckets[i]
      {
        var m := if k < i then k else k + 1;
        assert rest[k] == buckets[m];
        assert KeyOf()(buckets[if i < m then i else m]) != KeyOf()(buckets[if i < m then m else i]);
      }
    }
  }

  lemma ResetStandsFor(l: Limits, buckets: seq<Entry>, u: Counters, clock: nat, key: Key)
    requires Sound(l, buckets) && StandsFor(buckets, u, clock)
    ensures StandsFor(Cleared(buckets, key), u - {key}, clock)
  {
    forall e | e in buckets
      ensures e in Cleared(buckets, key) <==> e.key != key
    {
      ClearedIs(l, buckets, key, e);
    }
    assert forall e | e in Cleared(buckets, key) :: e in buckets;
  }

  /** While the keys still counting fit under the cap and the clock does not go back, every answer is
      that of an uncapped counter per key. */
  lemma {:induction false} AnswersAgree(l: Limits, buckets: seq<Entry>, u: Counters, clock: nat, calls: seq<Call>)
    requires l.Ok() && Sound(l, buckets) && StandsFor(buckets, u, clock)
    requires FitsCap(l, u, calls) && NeverBack(calls, clock)
    ensures CappedAnswers(l, buckets, calls) == UncappedAnswers(l, u, calls)
    decreases |calls|
  {
    if calls != [] {
      var c := calls[0];
      match c {
        case Retry(key, now) =>
          SameBucket(buckets, u, clock, key, now);
          EvictedStandsFor(buckets, u, clock, now);
          EvictedSound(l, buckets, now);
        case Fail(key, now) =>
          FailStandsFor(l, buckets, u, clock, key, now);
          RecordedSound(l, buckets, key, now);
        case Reset(key) =>
          ResetStandsFor(l, buckets, u, clock, key);
          ClearedSound(l, buckets, key);
      }
      AnswersAgree(l, Capped(l, buckets, c), Uncapped(l, u, c), ClockAfter(c, clock), calls[1..]);
    }
  }

  lemma ThrottleRefinesCounters(l: Limits, calls: seq<Call>)
    requires l.Ok() && FitsCap(l, map[], calls) && NeverBack(calls, 0)
    ensures CappedAnswers(l, [], calls) == UncappedAnswers(l, map[], calls)
  {
    AnswersAgree(l, [], map[], 0, calls);
  }

  // ----- what the counters promise

  predicate InTime(times: seq<nat>, cooldown: nat)
  {
    forall k | 0 < k < |times| :: times[k - 1] <= times[k] < times[k - 1] + cooldown
  }

  function CountAll(l: Limits, u: Counters, key: Key, times: seq<nat>): Counters
  {
    if times == [] then u
    else Count(l, CountAll(l, u, key, times[..|times| - 1]), key, times[|times| - 1])
  }

  /** A key is blocked by its last allowed failure in a row, each within the cooldown of the one
      before, for exactly the cooldown, and by none before it. */
  lemma {:induction false} FailuresInARow(l: Limits, u: Counters, key: Key, times: seq<nat>, now: nat)
    requires l.Ok() && times != [] && |times| <= l.maxFailures && InTime(times, l.cooldown)
    requires Current(u, key, times[0]).None?
    requires times[|times| - 1] <= now
    ensures var last := times[|times| - 1];
      && Current(CountAll(l, u, key, times), key, now)
         == (if now < last + l.cooldown then
               Some(Bucket(|times|, if |times| == l.maxFailures then Some(last + l.cooldown) else None,
                           last + l.cooldown))
             else None)
      && Answer(CountAll(l, u, key, times), key, now)
         == (if |times| == l.maxFailures && now < last + l.cooldown then
               Some(CeilSeconds(last + l.cooldown - now))
             else None)
    decreases |times|
  {
    var n := |times| - 1;
    if n > 0 {
      assert InTime(times[..n], l.cooldown) by {
        forall k | 0 < k < n
          ensures times[..n][k - 1] <= times[..n][k] < times[..n][k - 1] + l.cooldown
        {
          assert times[k - 1] <= times[k];
        }
      }
      FailuresInARow(l, u, key, times[..n], times[n]);
    } else {
      assert times[..n] == [];
    }
  }
}
