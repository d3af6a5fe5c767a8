/** The failed-attempt throttle: a capped map of buckets in insertion order, with one clock reading
    per call. */
module Throttle {
  import opened Tables

  type Key = string

  /** The limits are positive; the cooldown is a whole number of seconds, in milliseconds. */
  datatype Limits = Limits(maxFailures: nat, cooldown: nat, maxBuckets: nat)
  {
    predicate Ok()
    {
      maxFailures > 0 && cooldown >= 1000 && cooldown % 1000 == 0 && maxBuckets > 0
    }
  }

  datatype Bucket = Bucket(failures: nat, blockedUntil: Option<nat>, expiresAt: nat)

  datatype Entry = Entry(key: Key, bucket: Bucket)

  // ----- what a call does to the buckets

  function KeyOf(): Entry -> Key { (e: Entry) => e.key }

  function WithKey(key: Key): Entry -> bool { (e: Entry) => e.key == key }

  function LiveAt(now: nat): Entry -> bool { (e: Entry) => e.bucket.expiresAt > now }

  function Evicted(buckets: seq<Entry>, now: nat): seq<Entry>
  {
    Filter(LiveAt(now), buckets)
  }

  function CeilSeconds(ms: nat): nat
  {
    (ms + 999) / 1000
  }

  function Remaining(blockedUntil: Option<nat>, now: nat): Option<nat>
  {
    if blockedUntil.None? || blockedUntil.value <= now then None
    else Some(CeilSeconds(blockedUntil.value - now))
  }

  function RetryAfter(buckets: seq<Entry>, key: Key, now: nat): Option<nat>
  {
    var live := Evicted(buckets, now);
    var i := Find(WithKey(key), live);
    if i == |live| then None else Remaining(live[i].bucket.blockedUntil, now)
  }

  function Failed(l: Limits, bucket: Bucket, now: nat): Bucket
  {
    Bucket(bucket.failures + 1,
           if bucket.failures + 1 >= l.maxFailures then Some(now + l.cooldown) else bucket.blockedUntil,
           now + l.cooldown)
  }

  /** A bucket before its first failure. */
  function FirstBucket(l: Limits, now: nat): Bucket
  {
    Bucket(0, None, now + l.cooldown)
  }

  function WithRoom(buckets: seq<Entry>, maxBuckets: nat): seq<Entry>
    requires maxBuckets > 0
  {
    if |buckets| < maxBuckets then buckets else buckets[|buckets| - maxBuckets + 1..]
  }

  function Recorded(l: Limits, buckets: seq<Entry>, key: Key, now: nat): seq<Entry>
    requires l.Ok()
  {
    var live := Evicted(buckets, now);
    var i := Find(WithKey(key), live);
    if RetryAfter(buckets, key, now).Some? then live
    else if i < |live| then live[i := Entry(key, Failed(l, live[i].bucket, now))]
    else WithRoom(live, l.maxBuckets) + [Entry(key, Failed(l, Bucket(0, None, now + l.cooldown), now))]
  }

  function Cleared(buckets: seq<Entry>, key: Key): seq<Entry>
  {
    var i := Find(WithKey(key), buckets);
    if i < |buckets| then Without(buckets, i) else buckets
  }

  // ----- what every call keeps

  predicate BucketOk(l: Limits, b: Bucket)
  {
    && 1 <= b.failures <= l.maxFailures
    && b.blockedUntil == if b.failures == l.maxFailures then Some(b.expiresAt) else None
  }

  /** Never more buckets than the cap, one per key; a bucket is blocked exactly at the limit of
      failures, and then expires when its block ends. */
  predicate Sound(l: Limits, buckets: seq<Entry>)
  {
    && |buckets| <= l.maxBuckets
    && KeysDistinct(KeyOf(), buckets)
    && (forall e | e in buckets :: BucketOk(l, e.bucket))
  }

  lemma Regrouped<T>(before: seq<T>, x: T, rest: seq<T>)
    ensures (before + [x]) + rest == before + ([x] + rest)
    ensures Without(before + ([x] + rest), |before|) == before + rest
  {
  }

  lemma EvictOne(all: seq<Entry>, n: nat, now: nat)
    requires n < |all|
    ensures var before, after := Evicted(all[..n], now), Evicted(all[..n + 1], now);
      if LiveAt(now)(all[n]) then |after| == |before| + 1 && after + all[n + 1..] == before + all[n..]
      else after == before && before + all[n + 1..] == Without(before + all[n..], |before|)
  {
    assert all[..n + 1] == all[..n] + [all[n]] && all[n..] == [all[n]] + all[n + 1..];
    FilterAppend(LiveAt(now), all[..n], all[n]);
    Regrouped(Evicted(all[..n], now), all[n], all[n + 1..]);
  }

  /** The first `n` entries have been looked at; those of them still live are the first `i` buckets. */
  ghost predicate EvictedUpTo(buckets: seq<Entry>, i: nat, all: seq<Entry>, n: nat, now: nat)
  {
    n <= |all| && i == |Evicted(all[..n], now)| && buckets == Evicted(all[..n], now) + all[n..]
  }

  lemma EvictStep(buckets: seq<Entry>, i: nat, all: seq<Entry>, n: nat, now: nat)
    requires EvictedUpTo(buckets, i, all, n, now) && i < |buckets|
    ensures if buckets[i].bucket.expiresAt <= now then EvictedUpTo(Without(buckets, i), i, all, n + 1, now)
            else EvictedUpTo(buckets, i + 1, all, n + 1, now)
  {
    assert buckets[i] == all[n];
    EvictOne(all, n, now);
  }

  lemma EvictedThrough(buckets: seq<Entry>, i: nat, all: seq<Entry>, n: nat, now: nat)
    requires EvictedUpTo(buckets, i, all, n, now) && i >= |buckets|
    ensures buckets == Evicted(all, now)
  {
    assert n == |all| && all[..n] == all;
  }

  class AttemptThrottle {
    const limits: Limits
    var buckets: seq<Entry>

    ghost predicate Valid()
      reads this
    {
      limits.Ok() && Sound(limits, buckets)
    }

    constructor (limits: Limits)
      requires limits.Ok()
      ensures Valid() && buckets == [] && this.limits == limits
    {
      this.limits := limits;
      buckets := [];
    }

    method EvictExpiredBuckets(now: nat)
      modifies `buckets
      ensures buckets == Evicted(old(buckets), now)
    {
      ghost var all, n := buckets, 0;
      var i := 0;
      while i < |buckets|
        invariant EvictedUpTo(buckets, i, all, n, now)
        decreases |buckets| - i
      {
        EvictStep(buckets, i, all, n, now);
        if buckets[i].bucket.expiresAt <= now {
          buckets := Without(buckets, i);
        } else {
          i := i + 1;
        }
        n := n + 1;
      }
      EvictedThrough(buckets, i, all, n, now);
    }

    method MakeRoomForBucket()
      requires limits.Ok()
      modifies `buckets
      ensures buckets == WithRoom(old(buckets), limits.maxBuckets)
    {
      while |buckets| >= limits.maxBuckets
        invariant |buckets| <= |old(buckets)|
        invariant |old(buckets)| < limits.maxBuckets ==> buckets == old(buckets)
        invariant |old(buckets)| >= limits.maxBuckets ==> |buckets| + 1 >= limits.maxBuckets
        invariant buckets == old(buckets)[|old(buckets)| - |buckets|..]
      {
        buckets := buckets[1..];
      }
    }

    method RetryAfterSeconds(key: Key, now: nat) returns (seconds: Option<nat>)
      requires Valid()
      modifies `buckets
      ensures Valid() && buckets == Evicted(old(buckets), now)
      ensures seconds == RetryAfter(old(buckets), key, now)
    {
      EvictExpiredBuckets(now);
      EvictedSound(limits, old(buckets), now);
      var i := Find(WithKey(key), buckets);
      if i == |buckets| || buckets[i].bucket.blockedUntil.None? {
        return None;
      }
      var blockedUntil := buckets[i].bucket.blockedUntil.value;
      if blockedUntil <= now {
        return None;
      }
      seconds := Some(CeilSeconds(blockedUntil - now));
    }

    method RecordFailure(key: Key, now: nat)
      requires Valid()
      modifies `buckets
      ensures Valid() && buckets == Recorded(limits, old(buckets), key, now)
    {
      RecordedSound(limits, buckets, key, now);
      RecordedByCases(limits, buckets, key, now);
      var retry := RetryAfterSeconds(key, now);
      if retry.Some? {
        return;
      }
      var i := Find(WithKey(key), buckets);
      var bucket := if i < |buckets| then buckets[i].bucket else FirstBucket(limits, now);
      bucket := bucket.(failures := bucket.failures + 1);
      bucket := bucket.(expiresAt := now + limits.cooldown);
      if bucket.failures >= limits.maxFailures {
        bucket := bucket.(blockedUntil := Some(now + limits.cooldown));
      }
      assert bucket == Failed(limits, if i < |buckets| then buckets[i].bucket else FirstBucket(limits, now), now);
      if i < |buckets| {
        buckets := buckets[i := Entry(key, bucket)];
      } else {
        MakeRoomForBucket();
        buckets := buckets + [Entry(key, bucket)];
      }
    }

    method Reset(key: Key)
      requires Valid()
      modifies `buckets
      ensures Valid() && buckets == Cleared(old(buckets), key)
    {
      ClearedSound(limits, buckets, key);
      var i := Find(WithKey(key), buckets);
      if i < |buckets| {
        buckets := Without(buckets, i);
      }
    }
  }

  lemma RecordedByCases(l: Limits, buckets: seq<Entry>, key: Key, now: nat)
    requires l.Ok()
    ensures var live := Evicted(buckets, now);
      var i := Find(WithKey(key), live);
      Recorded(l, buckets, key, now)
      == if RetryAfter(buckets, key, now).Some? then live
         else if i < |live| then live[i := Entry(key, Failed(l, live[i].bucket, now))]
         else WithRoom(live, l.maxBuckets) + [Entry(key, Failed(l, FirstBucket(l, now), now))]
  {
  }

  lemma EvictedSound(l: Limits, buckets: seq<Entry>, now: nat)
    requires Sound(l, buckets)
    ensures Sound(l, Evicted(buckets, now))
  {
    FilterKeepsDistinct(LiveAt(now), KeyOf(), buckets);
  }

  /** A bucket that is not blocking now is not at the limit. */
  lemma NotBlockedHasRoom(l: Limits, buckets: seq<Entry>, key: Key, now: nat)
    requires l.Ok() && Sound(l, buckets) && RetryAfter(buckets, key, now).None?
    ensures var live := Evicted(buckets, now);
      var i := Find(WithKey(key), live);
      i < |live| ==> live[i].bucket.failures < l.maxFailures && BucketOk(l, Failed(l, live[i].bucket, now))
  {
    var live := Evicted(buckets, now);
    var i := Find(WithKey(key), live);
    if i < |live| {
      assert live[i] in live;
    }
  }

  lemma ReplacedSound(l: Limits, live: seq<Entry>, i: nat, bucket: Bucket)
    requires Sound(l, live) && i < |live| && BucketOk(l, bucket)
    ensures Sound(l, live[i := Entry(live[i].key, bucket)])
  {
    var after := live[i := Entry(live[i].key, bucket)];
    forall j, k | 0 <= j < k < |after|
      ensures after[j].key != after[k].key
    {
      assert KeyOf()(live[j]) != KeyOf()(live[k]);
    }
  }

  lemma RoomIsSound(l: Limits, live: seq<Entry>)
    requires l.Ok() && Sound(l, live)
    ensures var rest := WithRoom(live, l.maxBuckets);
      |rest| < l.maxBuckets && Sound(l, rest) && forall e | e in rest :: e in live
  {
    var rest := WithRoom(live, l.maxBuckets);
    var gone := |live| - |rest|;
    forall j, k | 0 <= j < k < |rest|
      ensures rest[j].key != rest[k].key
    {
      assert KeyOf()(live[gone + j]) != KeyOf()(live[gone + k]);
    }
  }

  lemma KeyAppended(rest: seq<Entry>, e: Entry)
    requires KeysDistinct(KeyOf(), rest) && forall d | d in rest :: d.key != e.key
    ensures KeysDistinct(KeyOf(), rest + [e])
  {
    forall j, k | 0 <= j < k < |rest| + 1
      ensures KeyOf()((rest + [e])[j]) != KeyOf()((rest + [e])[k])
    {
      assert rest[j] in rest;
      assert k < |rest| ==> KeyOf()(rest[j]) != KeyOf()(rest[k]);
    }
  }

  lemma AddedSound(l: Limits, live: seq<Entry>, key: Key, bucket: Bucket)
    requires l.Ok() && Sound(l, live) && BucketOk(l, bucket) && Find(WithKey(key), live) == |live|
    ensures Sound(l, WithRoom(live, l.maxBuckets) + [Entry(key, bucket)])
  {
    var rest := WithRoom(live, l.maxBuckets);
    RoomIsSound(l, live);
    forall e | e in rest
      ensures e.key != key
    {
      var j :| 0 <= j < |live| && live[j] == e;
      assert !WithKey(key)(live[j]);
    }
    KeyAppended(rest, Entry(key, bucket));
  }

  lemma RecordedSound(l: Limits, buckets: seq<Entry>, key: Key, now: nat)
    requires l.Ok() && Sound(l, buckets)
    ensures Sound(l, Recorded(l, buckets, key, now))
  {
    EvictedSound(l, buckets, now);
    if RetryAfter(buckets, key, now).None? {
      NotBlockedHasRoom(l, buckets, key, now);
      var live := Evicted(buckets, now);
      var i := Find(WithKey(key), live);
      if i < |live| {
        ReplacedSound(l, live, i, Failed(l, live[i].bucket, now));
      } else {
        AddedSound(l, live, key, Failed(l, Bucket(0, None, now + l.cooldown), now));
      }
    }
  }

  lemma ClearedSound(l: Limits, buckets: seq<Entry>, key: Key)
    requires Sound(l, buckets)
    ensures Sound(l, Cleared(buckets, key))
  {
  }

  // ----- what the answers mean

  /** The wait is the time left, in whole seconds rounded up; there is none once the block is over. */
  lemma WaitIsRoundedUp(blockedUntil: nat, now: nat, seconds: nat)
    ensures Remaining(Some(blockedUntil), now) == Some(seconds) <==>
      now < blockedUntil && 1000 * seconds - 1000 < blockedUntil - now <= 1000 * seconds
    ensures Remaining(Some(blockedUntil), now).None? <==> blockedUntil <= now
    ensures Remaining(None, now).None?
  {
  }

  /** A key has to wait if and only if its bucket is live and blocked beyond now. */
  lemma MustWaitIff(l: Limits, buckets: seq<Entry>, key: Key, now: nat)
    requires Sound(l, buckets)
    ensures RetryAfter(buckets, key, now).Some? <==>
      exists e | e in buckets && e.key == key ::
        now < e.bucket.expiresAt && e.bucket.blockedUntil.Some? && now < e.bucket.blockedUntil.value
  {
    var live := Evicted(buckets, now);
    var i := Find(WithKey(key), live);
    if i < |live| {
      assert live[i] in live;
    }
    forall e | e in live && e.key == key
      ensures i < |live| && live[i] == e
    {
      OnlyBucket(l, buckets, key, now, e);
    }
  }

  lemma OnlyBucket(l: Limits, buckets: seq<Entry>, key: Key, now: nat, e: Entry)
    requires Sound(l, buckets) && e in Evicted(buckets, now) && e.key == key
    ensures var i := Find(WithKey(key), Evicted(buckets, now));
      i < |Evicted(buckets, now)| && Evicted(buckets, now)[i] == e
  {
    var live := Evicted(buckets, now);
    EvictedSound(l, buckets, now);
    var j :| 0 <= j < |live| && live[j] == e;
    assert WithKey(key)(live[j]);
    OneOfAKey(live, Find(WithKey(key), live), j);
  }

  lemma OneOfAKey(live: seq<Entry>, i: nat, j: nat)
    requires KeysDistinct(KeyOf(), live) && i <= j < |live| && live[i].key == live[j].key
    ensures i == j
  {
  }

  /** Room is made by letting go of the oldest buckets, and of no more than needed. */
  lemma OldestMakeRoom(buckets: seq<Entry>, maxBuckets: nat)
    requires maxBuckets > 0
    ensures exists gone :: buckets == gone + WithRoom(buckets, maxBuckets)
    ensures |WithRoom(buckets, maxBuckets)| == if |buckets| < maxBuckets then |buckets| else maxBuckets - 1
  {
    var rest := WithRoom(buckets, maxBuckets);
    assert buckets == buckets[..|buckets| - |rest|] + rest;
  }
}
