/** The rate-limiting middleware (src/domain/middleware/rate-limit.ts): one bucket per key, refilled when its
    window has run out. */
module RateLimit {
  import opened Optional

  type Key(==, !new) = string

  datatype Bucket = Bucket(tokens: int, resetAt: int)

  /** One call of the middleware, and whether it was let through. */
  datatype Call = Call(key: Key, now: int, admitted: bool)

  datatype Options = Options(maxRequests: int, windowMs: int)

  /** The bucket a call at `now` finds or creates. */
  function Current(o: Options, found: Option<Bucket>, now: int): Bucket {
    if found.None? || now >= found.value.resetAt then Bucket(o.maxRequests, now + o.windowMs) else found.value
  }

  function Lookup(buckets: map<Key, Bucket>, key: Key): Option<Bucket> {
    if key in buckets then Some(buckets[key]) else None
  }

  /** The bucket after the call. */
  function Spent(o: Options, found: Option<Bucket>, now: int): Bucket {
    var b := Current(o, found, now);
    if b.tokens <= 0 then b else Bucket(b.tokens - 1, b.resetAt)
  }

  class Limiter {
    const options: Options
    var buckets: map<Key, Bucket>
    ghost var calls: seq<Call>

    ghost predicate Valid() reads this {
      Explains(options, calls, buckets)
    }

    constructor (options: Options)
      ensures Valid() && calls == [] && this.options == options
    {
      this.options, buckets, calls := options, map[], [];
    }

    method Handle(key: Key, now: int) returns (admitted: bool)
      requires Valid()
      modifies this
      ensures Valid() && calls == old(calls) + [Call(key, now, admitted)]
      ensures admitted == (Current(options, Lookup(old(buckets), key), now).tokens > 0)
    {
      var bucket := if key in buckets then Some(buckets[key]) else None;
      if bucket.None? || now >= bucket.value.resetAt {
        bucket := Some(Bucket(options.maxRequests, now + options.windowMs));
        buckets := buckets[key := bucket.value];
      }
      ghost var call := Call(key, now, bucket.value.tokens > 0);
      Explained(options, calls, old(buckets), call);
      calls := calls + [call];
      if bucket.value.tokens <= 0 {
        return false;
      }
      buckets := buckets[key := Bucket(bucket.value.tokens - 1, bucket.value.resetAt)];
      return true;
    }
  }

  /** The buckets are what the calls made of them, and each verdict was the bucket's. */
  predicate Explains(o: Options, calls: seq<Call>, buckets: map<Key, Bucket>) {
    buckets == Replay(o, calls) && Truthful(o, calls)
  }

  lemma Explained(o: Options, calls: seq<Call>, buckets: map<Key, Bucket>, c: Call)
    requires Explains(o, calls, buckets)
    requires c.admitted == (Current(o, Lookup(buckets, c.key), c.now).tokens > 0)
    ensures Explains(o, calls + [c], buckets[c.key := Spent(o, Lookup(buckets, c.key), c.now)])
  {
    assert (calls + [c])[..|calls|] == calls;
  }

  function Replay(o: Options, calls: seq<Call>): map<Key, Bucket> {
    if calls == [] then map[]
    else
      var before, c := Replay(o, calls[..|calls| - 1]), calls[|calls| - 1];
      before[c.key := Spent(o, Lookup(before, c.key), c.now)]
  }

  predicate Truthful(o: Options, calls: seq<Call>) {
    calls == [] ||
    var before, c := calls[..|calls| - 1], calls[|calls| - 1];
    Truthful(o, before) && c.admitted == (Current(o, Lookup(Replay(o, before), c.key), c.now).tokens > 0)
  }

  // ---- How many get through

  /** Calls for `key` let through in the half-open interval from `lo` to `hi`. */
  function Admitted(calls: seq<Call>, key: Key, lo: int, hi: int): nat {
    if calls == [] then 0
    else
      var c := calls[|calls| - 1];
      Admitted(calls[..|calls| - 1], key, lo, hi) + if c.admitted && c.key == key && lo <= c.now < hi then 1 else 0
  }

  predicate Ordered(calls: seq<Call>) {
    forall i, j :: 0 <= i < j < |calls| ==> calls[i].now <= calls[j].now
  }

  function Cap(o: Options): nat {
    if o.maxRequests > 0 then o.maxRequests else 0
  }

  lemma {:induction false} AdmittedSplit(calls: seq<Call>, key: Key, lo: int, mid: int, hi: int)
    requires lo <= mid <= hi
    ensures Admitted(calls, key, lo, hi) == Admitted(calls, key, lo, mid) + Admitted(calls, key, mid, hi)
  {
    if calls != [] {
      AdmittedSplit(calls[..|calls| - 1], key, lo, mid, hi);
    }
  }

  lemma {:induction false} NoneAdmitted(calls: seq<Call>, key: Key, lo: int, hi: int)
    requires hi <= lo || forall i :: 0 <= i < |calls| ==> !(calls[i].key == key && calls[i].admitted && lo <= calls[i].now < hi)
    ensures Admitted(calls, key, lo, hi) == 0
  {
    if calls != [] {
      NoneAdmitted(calls[..|calls| - 1], key, lo, hi);
    }
  }

  function Start(o: Options, b: Bucket): int {
    b.resetAt - o.windowMs
  }

  function InWindow(o: Options, calls: seq<Call>, key: Key, lo: int): nat {
    Admitted(calls, key, lo, lo + o.windowMs)
  }

  /** The most calls a window can hold: the first call of a bucket's life is as old as the bucket, so no window
      holds it together with the next bucket's calls; and a window one tick long meets one bucket only. */
  function Peak(o: Options): nat {
    if o.maxRequests <= 0 then 0 else if o.windowMs == 1 then o.maxRequests else 2 * o.maxRequests - 1
  }

  function ButFirst(o: Options): nat {
    if o.maxRequests > 0 then o.maxRequests - 1 else 0
  }

  /** Less than a window back from `start`, at most `maxRequests - 1` got through. */
  ghost predicate QuietBefore(o: Options, calls: seq<Call>, key: Key, start: int) {
    forall lo :: lo > start - o.windowMs ==> Admitted(calls, key, lo, start) <= ButFirst(o)
  }

  /** What bucket `b` says at time `now` about the calls so far. */
  ghost predicate Accounts(o: Options, calls: seq<Call>, key: Key, b: Bucket, now: int) {
    && b.tokens <= o.maxRequests && (b.tokens < 0 ==> b.tokens == o.maxRequests)
    && Start(o, b) <= now
    && (forall i :: 0 <= i < |calls| && calls[i].key == key && calls[i].admitted ==> calls[i].now < b.resetAt)
    && Admitted(calls, key, Start(o, b), b.resetAt) == o.maxRequests - b.tokens
    && (b.tokens < o.maxRequests ==> Admitted(calls, key, Start(o, b), Start(o, b) + 1) > 0)
    && QuietBefore(o, calls, key, Start(o, b))
  }

  ghost predicate Bounded(o: Options, calls: seq<Call>, key: Key) {
    && (forall lo :: InWindow(o, calls, key, lo) <= Peak(o))
    && match Lookup(Replay(o, calls), key)
       case None => forall i :: 0 <= i < |calls| ==> calls[i].key != key
       case Some(b) =>
         && calls != [] && Accounts(o, calls, key, b, calls[|calls| - 1].now)
         && (o.maxRequests > 0 ==> b.tokens < o.maxRequests)
  }

  /** A call for another key, or one not let through, changes no count. */
  lemma SameCounts(o: Options, calls: seq<Call>, c: Call, key: Key)
    requires c.key != key || !c.admitted
    ensures forall lo, hi :: Admitted(calls + [c], key, lo, hi) == Admitted(calls, key, lo, hi)
    ensures forall lo :: InWindow(o, calls + [c], key, lo) == InWindow(o, calls, key, lo)
  {
    assert (calls + [c])[..|calls|] == calls;
  }

  lemma StillAccounts(o: Options, calls: seq<Call>, c: Call, key: Key, b: Bucket, now: int)
    requires Accounts(o, calls, key, b, now) && now <= c.now && (c.key != key || !c.admitted)
    ensures Accounts(o, calls + [c], key, b, c.now)
  {
    SameCounts(o, calls, c, key);
    forall lo | lo > Start(o, b) - o.windowMs ensures Admitted(calls + [c], key, lo, Start(o, b)) <= ButFirst(o) {
      assert Admitted(calls, key, lo, Start(o, b)) <= ButFirst(o);
    }
  }

  lemma OtherKey(o: Options, calls: seq<Call>, c: Call, key: Key)
    requires Bounded(o, calls, key) && c.key != key && (calls != [] ==> calls[|calls| - 1].now <= c.now)
    ensures Bounded(o, calls + [c], key)
  {
    assert (calls + [c])[..|calls|] == calls;
    SameCounts(o, calls, c, key);
    var found := Lookup(Replay(o, calls), key);
    if found.Some? {
      StillAccounts(o, calls, c, key, found.value, calls[|calls| - 1].now);
    }
  }

  /** The bucket a call finds or starts accounts for what came before. */
  lemma CurrentAccounts(o: Options, calls: seq<Call>, key: Key, now: int)
    requires o.windowMs > 0 && Bounded(o, calls, key)
    requires forall i :: 0 <= i < |calls| ==> calls[i].now <= now
    ensures var b := Current(o, Lookup(Replay(o, calls), key), now);
            && Accounts(o, calls, key, b, now) && now < b.resetAt
            && (b.tokens == o.maxRequests && b.tokens > 0 ==> Start(o, b) == now)
  {
    var found := Lookup(Replay(o, calls), key);
    var b := Current(o, found, now);
    if found.None? {
      NoneAdmitted(calls, key, now, b.resetAt);
      forall lo ensures Admitted(calls, key, lo, now) == 0 { NoneAdmitted(calls, key, lo, now); }
    } else if now >= found.value.resetAt {
      NoneAdmitted(calls, key, now, b.resetAt);
      forall lo | lo > now - o.windowMs ensures Admitted(calls, key, lo, now) <= ButFirst(o) {
        LastLife(o, calls, key, found.value, lo, now);
      }
    }
  }

  /** After a bucket ran out, less than a window back only its own calls got through. */
  lemma LastLife(o: Options, calls: seq<Call>, key: Key, was: Bucket, lo: int, now: int)
    requires o.windowMs > 0 && calls != [] && Accounts(o, calls, key, was, calls[|calls| - 1].now)
    requires now >= was.resetAt && lo > now - o.windowMs
    ensures Admitted(calls, key, lo, now) <= ButFirst(o)
  {
    if lo < was.resetAt {
      AdmittedSplit(calls, key, lo, was.resetAt, now);
      NoneAdmitted(calls, key, was.resetAt, now);
      AdmittedSplit(calls, key, Start(o, was), lo, was.resetAt);
      AdmittedSplit(calls, key, Start(o, was), Start(o, was) + 1, lo);
    } else {
      NoneAdmitted(calls, key, lo, now);
    }
  }

  lemma SpendAccounts(o: Options, calls: seq<Call>, c: Call, b: Bucket)
    requires Accounts(o, calls, c.key, b, c.now) && c.now < b.resetAt && c.admitted && b.tokens > 0
    requires b.tokens == o.maxRequests ==> Start(o, b) == c.now
    ensures Accounts(o, calls + [c], c.key, Bucket(b.tokens - 1, b.resetAt), c.now)
  {
    var all, start := calls + [c], Start(o, b);
    assert all[..|calls|] == calls;
    forall lo | lo > start - o.windowMs ensures Admitted(all, c.key, lo, start) <= ButFirst(o) {
      assert Admitted(calls, c.key, lo, start) <= ButFirst(o);
    }
  }

  lemma SameKey(o: Options, calls: seq<Call>, c: Call)
    requires o.windowMs > 0 && Bounded(o, calls, c.key)
    requires forall i :: 0 <= i < |calls| ==> calls[i].now <= c.now
    requires c.admitted == (Current(o, Lookup(Replay(o, calls), c.key), c.now).tokens > 0)
    ensures Bounded(o, calls + [c], c.key)
  {
    var key, all := c.key, calls + [c];
    assert all[..|calls|] == calls;
    var b := Current(o, Lookup(Replay(o, calls), key), c.now);
    CurrentAccounts(o, calls, key, c.now);
    if c.admitted {
      SpendAccounts(o, calls, c, b);
      forall lo ensures InWindow(o, all, key, lo) <= Peak(o) {
        OneMore(o, calls, c, b, lo);
      }
    } else {
      StillAccounts(o, calls, c, key, b, c.now);
      SameCounts(o, calls, c, key);
    }
  }

  lemma OneMore(o: Options, calls: seq<Call>, c: Call, b: Bucket, lo: int)
    requires Accounts(o, calls, c.key, b, c.now) && b.tokens > 0 && c.now < b.resetAt && c.admitted
    requires InWindow(o, calls, c.key, lo) <= Peak(o)
    ensures InWindow(o, calls + [c], c.key, lo) <= Peak(o)
  {
    assert (calls + [c])[..|calls|] == calls;
    if lo <= c.now < lo + o.windowMs {
      WindowBound(o, calls, c.key, b, lo, c.now);
    }
  }

  /** A window that holds `now` reaches back over at most one earlier bucket life. */
  lemma WindowBound(o: Options, calls: seq<Call>, key: Key, b: Bucket, lo: int, now: int)
    requires Accounts(o, calls, key, b, now) && b.tokens > 0 && now < b.resetAt && lo <= now < lo + o.windowMs
    ensures InWindow(o, calls, key, lo) < Peak(o)
  {
    var start, hi := Start(o, b), lo + o.windowMs;
    if lo < start {
      AdmittedSplit(calls, key, lo, start, hi);
      AdmittedSplit(calls, key, start, hi, b.resetAt);
      assert Admitted(calls, key, lo, start) <= ButFirst(o);
    } else {
      AdmittedSplit(calls, key, lo, b.resetAt, hi);
      NoneAdmitted(calls, key, b.resetAt, hi);
      AdmittedSplit(calls, key, start, lo, b.resetAt);
    }
  }

  lemma {:induction false} CallsBounded(o: Options, calls: seq<Call>, key: Key)
    requires o.windowMs > 0 && Truthful(o, calls) && Ordered(calls)
    ensures Bounded(o, calls, key)
  {
    if calls != [] {
      var before, c := calls[..|calls| - 1], calls[|calls| - 1];
      CallsBounded(o, before, key);
      assert calls == before + [c];
      if c.key == key {
        SameKey(o, before, c);
      } else {
        OtherKey(o, before, c, key);
      }
    }
  }

  /** With a clock that never goes back: for every key and every half-open interval one window long, fewer than
      twice `maxRequests` calls get through. */
  lemma TwicePerWindow(o: Options, calls: seq<Call>, key: Key, lo: int)
    requires Truthful(o, calls) && Ordered(calls)
    ensures Admitted(calls, key, lo, lo + o.windowMs) <= Peak(o)
  {
    if o.windowMs > 0 {
      CallsBounded(o, calls, key);
      assert InWindow(o, calls, key, lo) <= Peak(o);
    } else {
      NoneAdmitted(calls, key, lo, lo + o.windowMs);
    }
  }

  /** At most `maxRequests` in the life of any one bucket: the one that stood after the first `i` calls, for
      every `i`, counted over the whole history. */
  lemma {:induction false} OncePerLife(o: Options, calls: seq<Call>, key: Key, i: nat)
    requires Truthful(o, calls) && Ordered(calls) && i <= |calls| && key in Replay(o, calls[..i])
    ensures var b := Replay(o, calls[..i])[key]; Admitted(calls, key, Start(o, b), b.resetAt) <= Cap(o)
    decreases |calls|
  {
    var b := Replay(o, calls[..i])[key];
    if o.windowMs <= 0 {
      NoneAdmitted(calls, key, Start(o, b), b.resetAt);
    } else if i == |calls| || calls[|calls| - 1].now < b.resetAt {
      LifeGoesOn(o, calls, key, i);
      CallsBounded(o, calls, key);
    } else {
      var before := calls[..|calls| - 1];
      assert before[..i] == calls[..i];
      OncePerLife(o, before, key, i);
    }
  }

  /** A bucket is kept until a call comes at its end or after. */
  lemma {:induction false} LifeGoesOn(o: Options, calls: seq<Call>, key: Key, i: nat)
    requires Ordered(calls) && i <= |calls| && key in Replay(o, calls[..i])
    requires i < |calls| ==> calls[|calls| - 1].now < Replay(o, calls[..i])[key].resetAt
    ensures key in Replay(o, calls) && Replay(o, calls)[key].resetAt == Replay(o, calls[..i])[key].resetAt
    decreases |calls|
  {
    if i == |calls| {
      assert calls[..i] == calls;
    } else {
      var before := calls[..|calls| - 1];
      assert before[..i] == calls[..i];
      LifeGoesOn(o, before, key, i);
    }
  }

  /** `n` more calls like `c`. */
  function Burst(calls: seq<Call>, c: Call, n: nat): seq<Call> {
    if n == 0 then calls else Burst(calls, c, n - 1) + [c]
  }

  lemma {:induction false} BurstOrdered(calls: seq<Call>, c: Call, n: nat)
    requires Ordered(calls) && forall i :: 0 <= i < |calls| ==> calls[i].now <= c.now
    ensures Ordered(Burst(calls, c, n)) && forall i :: 0 <= i < |Burst(calls, c, n)| ==> Burst(calls, c, n)[i].now <= c.now
  {
    if n > 0 {
      BurstOrdered(calls, c, n - 1);
    }
  }

  /** The calls were answered truly and left bucket `b`. */
  predicate Leaves(o: Options, calls: seq<Call>, key: Key, b: Bucket) {
    Truthful(o, calls) && Lookup(Replay(o, calls), key) == Some(b)
  }

  lemma SpendOne(o: Options, calls: seq<Call>, c: Call, b: Bucket)
    requires Truthful(o, calls) && c.admitted && b.tokens > 0
    requires Current(o, Lookup(Replay(o, calls), c.key), c.now) == b
    ensures Leaves(o, calls + [c], c.key, Bucket(b.tokens - 1, b.resetAt))
  {
    Extend(o, calls, c, Replay(o, calls));
  }

  lemma {:induction false} FirstLeaves(o: Options, c: Call)
    requires c.admitted && o.maxRequests > 0
    ensures Leaves(o, [c], c.key, Bucket(o.maxRequests - 1, c.now + o.windowMs))
  {
    assert [] + [c] == [c];
    SpendOne(o, [], c, Bucket(o.maxRequests, c.now + o.windowMs));
  }

  /** As many calls at once as the bucket has tokens all get through. */
  lemma {:induction false} BurstLeaves(o: Options, calls: seq<Call>, c: Call, n: nat, b: Bucket)
    requires Leaves(o, calls, c.key, b) && c.admitted && n <= b.tokens && c.now < b.resetAt
    ensures Leaves(o, Burst(calls, c, n), c.key, Bucket(b.tokens - n, b.resetAt))
  {
    if n > 0 {
      var before, left := Burst(calls, c, n - 1), Bucket(b.tokens - (n - 1), b.resetAt);
      BurstLeaves(o, calls, c, n - 1, b);
      OneMoreLeaves(o, before, c, left);
      assert Burst(calls, c, n) == before + [c];
      assert Bucket(left.tokens - 1, left.resetAt) == Bucket(b.tokens - n, b.resetAt);
    } else {
      assert Bucket(b.tokens - n, b.resetAt) == b;
    }
  }

  lemma {:induction false} OneMoreLeaves(o: Options, calls: seq<Call>, c: Call, b: Bucket)
    requires Leaves(o, calls, c.key, b) && c.admitted && b.tokens > 0 && c.now < b.resetAt
    ensures Leaves(o, calls + [c], c.key, Bucket(b.tokens - 1, b.resetAt))
  {
    SpendOne(o, calls, c, b);
  }

  lemma {:induction false} BurstCount(calls: seq<Call>, c: Call, n: nat, lo: int, hi: int)
    requires c.admitted
    ensures Admitted(Burst(calls, c, n), c.key, lo, hi) == Admitted(calls, c.key, lo, hi) + if lo <= c.now < hi then n else 0
  {
    if n > 0 {
      BurstCount(calls, c, n - 1, lo, hi);
      CountOne(Burst(calls, c, n - 1), c, lo, hi);
    }
  }

  lemma CountOne(calls: seq<Call>, c: Call, lo: int, hi: int)
    requires c.admitted
    ensures Admitted(calls + [c], c.key, lo, hi) == Admitted(calls, c.key, lo, hi) + if lo <= c.now < hi then 1 else 0
  {
    assert (calls + [c])[..|calls|] == calls;
  }

  /** A call, the rest of its bucket one tick before it runs out, and a whole bucket as the next one opens. */
  function Crowd(o: Options, key: Key): seq<Call>
    requires o.maxRequests > 0
  {
    var next := Call(key, o.windowMs, true);
    Burst(Early(o, key) + [next], next, o.maxRequests - 1)
  }

  function Early(o: Options, key: Key): seq<Call>
    requires o.maxRequests > 0
  {
    Burst([Call(key, 0, true)], Call(key, o.windowMs - 1, true), o.maxRequests - 1)
  }

  lemma EarlyLeaves(o: Options, key: Key)
    requires o.windowMs > 1 && o.maxRequests > 0
    ensures Leaves(o, Early(o, key), key, Bucket(0, o.windowMs)) && Ordered(Early(o, key))
    ensures forall i :: 0 <= i < |Early(o, key)| ==> Early(o, key)[i].now <= o.windowMs - 1
  {
    var w, m, first, late := o.windowMs, o.maxRequests, Call(key, 0, true), Call(key, o.windowMs - 1, true);
    FirstLeaves(o, first);
    BurstLeaves(o, [first], late, m - 1, Bucket(m - 1, w));
    BurstOrdered([first], late, m - 1);
  }

  lemma CrowdLeaves(o: Options, key: Key)
    requires o.windowMs > 1 && o.maxRequests > 0
    ensures Leaves(o, Crowd(o, key), key, Bucket(0, 2 * o.windowMs))
  {
    var next := Call(key, o.windowMs, true);
    EarlyLeaves(o, key);
    SpendOne(o, Early(o, key), next, Bucket(o.maxRequests, 2 * o.windowMs));
    BurstLeaves(o, Early(o, key) + [next], next, o.maxRequests - 1, Bucket(o.maxRequests - 1, 2 * o.windowMs));
  }

  lemma CrowdOrdered(o: Options, key: Key)
    requires o.windowMs > 1 && o.maxRequests > 0
    ensures Ordered(Crowd(o, key))
  {
    var next, early := Call(key, o.windowMs, true), Early(o, key);
    EarlyLeaves(o, key);
    BurstOrdered(early + [next], next, o.maxRequests - 1);
  }

  lemma CrowdCounts(o: Options, key: Key)
    requires o.windowMs > 1 && o.maxRequests > 0
    ensures InWindow(o, Crowd(o, key), key, 1) == Peak(o)
  {
    var w, first, next := o.windowMs, Call(key, 0, true), Call(key, o.windowMs, true);
    assert Admitted([first], key, 1, 1 + w) == 0;
    BurstCount([first], Call(key, w - 1, true), o.maxRequests - 1, 1, 1 + w);
    CountOne(Early(o, key), next, 1, 1 + w);
    BurstCount(Early(o, key) + [next], next, o.maxRequests - 1, 1, 1 + w);
  }

  lemma {:induction false} TickLeaves(o: Options, key: Key)
    requires o.windowMs == 1 && o.maxRequests > 0
    ensures var c := Call(key, 0, true);
            Leaves(o, Burst([c], c, o.maxRequests - 1), key, Bucket(0, 1)) && Ordered(Burst([c], c, o.maxRequests - 1))
  {
    var c := Call(key, 0, true);
    FirstLeaves(o, c);
    var first, n := [c], o.maxRequests - 1;
    BurstLeaves(o, first, c, n, Bucket(n, 1));
    BurstOrdered(first, c, n);
  }

  lemma {:induction false} TickCounts(o: Options, key: Key)
    requires o.windowMs == 1 && o.maxRequests > 0
    ensures var c := Call(key, 0, true); InWindow(o, Burst([c], c, o.maxRequests - 1), key, 0) == Peak(o)
  {
    var c := Call(key, 0, true);
    assert [] + [c] == [c];
    CountOne([], c, 0, 1);
    BurstCount([c], c, o.maxRequests - 1, 0, 1);
  }

  /** The bound is exact, for every limit and every window: some calls reach it. */
  lemma PeakIsReached(o: Options, key: Key) returns (calls: seq<Call>, lo: int)
    requires o.windowMs > 0
    ensures Truthful(o, calls) && Ordered(calls) && InWindow(o, calls, key, lo) == Peak(o)
  {
    if o.maxRequests <= 0 {
      calls, lo := [], 0;
    } else if o.windowMs == 1 {
      TickLeaves(o, key);
      TickCounts(o, key);
      calls, lo := Burst([Call(key, 0, true)], Call(key, 0, true), o.maxRequests - 1), 0;
    } else {
      CrowdLeaves(o, key);
      CrowdOrdered(o, key);
      CrowdCounts(o, key);
      calls, lo := Crowd(o, key), 1;
    }
  }

  lemma Extend(o: Options, calls: seq<Call>, c: Call, buckets: map<Key, Bucket>)
    requires Truthful(o, calls) && Replay(o, calls) == buckets
    requires c.admitted == (Current(o, Lookup(buckets, c.key), c.now).tokens > 0)
    ensures Truthful(o, calls + [c]) && Replay(o, calls + [c]) == buckets[c.key := Spent(o, Lookup(buckets, c.key), c.now)]
    ensures forall key, lo, hi ::
              Admitted(calls + [c], key, lo, hi)
                == Admitted(calls, key, lo, hi) + if c.admitted && c.key == key && lo <= c.now < hi then 1 else 0
  {
    assert (calls + [c])[..|calls|] == calls;
  }
}
