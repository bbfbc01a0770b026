/** The in-memory rate limiter: one counter and window start per key, a cap on the
    number of keys, and a periodic sweep. */
module RateLimits {
  import opened Base

  const MAX_BUCKETS := 20000

  datatype Bucket = Bucket(count: nat, windowStart: int, windowMs: nat)
  type Buckets = map<string, Bucket>

  datatype Limit = Limit(windowMs: nat, max: nat)

  /** The waits are in seconds. */
  datatype Verdict = Granted | TooMany(retryAfter: int) | Exhausted(retryAfter: int)

  function CeilSeconds(ms: int): (r: int)
    ensures 1000 * (r - 1) < ms <= 1000 * r
  {
    -((-ms) / 1000)
  }

  predicate Expired(buckets: Buckets, key: string, windowMs: nat, now: int) {
    key !in buckets || now - buckets[key].windowStart >= windowMs
  }

  /** The bucket a call counts in. */
  function Current(buckets: Buckets, key: string, windowMs: nat, now: int): Bucket {
    if Expired(buckets, key, windowMs, now) then Bucket(0, now, windowMs) else buckets[key]
  }

  predicate Full(buckets: Buckets, key: string) {
    key !in buckets && |buckets| >= MAX_BUCKETS
  }

  function Consume(buckets: Buckets, key: string, l: Limit, now: int): (Buckets, Verdict) {
    if Full(buckets, key) then (buckets, Exhausted(60))
    else
      var bucket := Current(buckets, key, l.windowMs, now);
      var counted := bucket.(count := bucket.count + 1);
      (buckets[key := counted],
       if counted.count > l.max then TooMany(Max(1, CeilSeconds(bucket.windowStart + l.windowMs - now))) else Granted)
  }

  predicate Stale(b: Bucket, now: int) {
    now - b.windowStart > b.windowMs * 2
  }

  function Swept(buckets: Buckets, now: int): Buckets {
    map key | key in buckets && !Stale(buckets[key], now) :: buckets[key]
  }

  class RateLimiter {
    var buckets: Buckets

    constructor ()
      ensures buckets == map[]
    {
      buckets := map[];
    }

    method ConsumeRateLimit(name: string, key: string, l: Limit, now: int) returns (verdict: Verdict)
      modifies this
      ensures buckets == Consume(old(buckets), name + ":" + key, l, now).0
      ensures verdict == Consume(old(buckets), name + ":" + key, l, now).1
    {
      var bucketKey := name + ":" + key;
      if bucketKey !in buckets || now - buckets[bucketKey].windowStart >= l.windowMs {
        if bucketKey !in buckets && |buckets| >= MAX_BUCKETS { return Exhausted(60); }
        buckets := buckets[bucketKey := Bucket(0, now, l.windowMs)];
      }
      var bucket := buckets[bucketKey];
      bucket := bucket.(count := bucket.count + 1);
      buckets := buckets[bucketKey := bucket];
      if bucket.count > l.max {
        return TooMany(Max(1, CeilSeconds(bucket.windowStart + l.windowMs - now)));
      }
      return Granted;
    }

    /** The sweep timer's callback. */
    method Sweep(now: int)
      modifies this
      ensures buckets == Swept(old(buckets), now)
    {
      var keys := buckets.Keys;
      while keys != {}
        invariant keys <= old(buckets).Keys && buckets.Keys <= old(buckets).Keys
        invariant forall k :: k in buckets ==> buckets[k] == old(buckets)[k]
        invariant forall k :: k in keys ==> k in buckets
        invariant forall k :: k in old(buckets) && k !in keys ==> (k in buckets <==> !Stale(old(buckets)[k], now))
        decreases |keys|
      {
        var key :| key in keys;
        keys := keys - {key};
        if Stale(buckets[key], now) { buckets := buckets - {key}; }
      }
    }
  }

  // ---------------------------------------------------------------- runs

  datatype Event = Call(key: string, at: int) | Sweep(at: int)

  /** Each key is always used with the same limit. */
  type Limits = string -> Limit

  function Step(buckets: Buckets, e: Event, limits: Limits): (Buckets, Option<Verdict>) {
    match e
    case Call(key, at) => var (after, v) := Consume(buckets, key, limits(key), at); (after, Some(v))
    case Sweep(at) => (Swept(buckets, at), None)
  }

  function After(buckets: Buckets, events: seq<Event>, limits: Limits): Buckets
    decreases |events|
  {
    if events == [] then buckets else After(Step(buckets, events[0], limits).0, events[1..], limits)
  }

  /** The clock never runs backwards. */
  predicate Ordered(start: int, events: seq<Event>)
    decreases |events|
  {
    events == [] || (start <= events[0].at && Ordered(events[0].at, events[1..]))
  }

  predicate WellKept(b: Bucket, l: Limit, now: int) {
    b.windowStart <= now && b.windowMs == l.windowMs
  }

  ghost predicate Inv(buckets: Buckets, limits: Limits, now: int) {
    |buckets| <= MAX_BUCKETS && forall key :: key in buckets ==> WellKept(buckets[key], limits(key), now)
  }

  lemma SweptSmaller(buckets: Buckets, now: int)
    ensures |Swept(buckets, now)| <= |buckets|
  {
    var swept := Swept(buckets, now);
    assert swept.Keys <= buckets.Keys;
    assert buckets.Keys == swept.Keys + (buckets.Keys - swept.Keys);
    assert |swept.Keys| <= |buckets.Keys|;
  }

  lemma PutSize(buckets: Buckets, key: string, b: Bucket)
    ensures |buckets[key := b]| == |buckets| + if key in buckets then 0 else 1
  {
    var after := buckets[key := b];
    assert after.Keys == buckets.Keys + {key};
    assert |after.Keys| == |after| && |buckets.Keys| == |buckets|;
  }

  lemma InvCall(buckets: Buckets, key: string, l: Limit, limits: Limits, now: int, at: int)
    requires Inv(buckets, limits, now) && now <= at && l == limits(key)
    ensures Inv(Consume(buckets, key, l, at).0, limits, at)
  {
    if !Full(buckets, key) {
      var b := Current(buckets, key, l.windowMs, at);
      PutSize(buckets, key, b.(count := b.count + 1));
      if key in buckets { assert WellKept(buckets[key], l, now); }
    }
  }

  lemma InvStep(buckets: Buckets, e: Event, limits: Limits, now: int)
    requires Inv(buckets, limits, now) && now <= e.at
    ensures Inv(Step(buckets, e, limits).0, limits, e.at)
  {
    match e {
      case Sweep(at) => SweptSmaller(buckets, at);
      case Call(key, at) => InvCall(buckets, key, limits(key), limits, now, at);
    }
  }

  /** Over every run the map holds at most the capped number of keys. */
  lemma {:induction false} NeverAboveCapacity(buckets: Buckets, events: seq<Event>, limits: Limits, now: int)
    requires Inv(buckets, limits, now) && Ordered(now, events)
    ensures |After(buckets, events, limits)| <= MAX_BUCKETS
    decreases |events|
  {
    if events != [] {
      InvStep(buckets, events[0], limits, now);
      NeverAboveCapacity(Step(buckets, events[0], limits).0, events[1..], limits, events[0].at);
    }
  }

  // ------------------------------------------- twice the limit per window

  /** Granted calls for `key` at times in [from, to]. */
  function GrantedIn(buckets: Buckets, events: seq<Event>, limits: Limits, key: string, from: int, to: int): nat
    decreases |events|
  {
    if events == [] then 0
    else
      var step := Step(buckets, events[0], limits);
      (if events[0].Call? && events[0].key == key && from <= events[0].at <= to && step.1 == Some(Granted) then 1 else 0)
      + GrantedIn(step.0, events[1..], limits, key, from, to)
  }

  function Left(max: nat, count: nat): nat {
    if count <= max then max - count else 0
  }

  /** How many grants at times in [from, from + window] a state still allows. */
  function Allowance(buckets: Buckets, key: string, l: Limit, from: int): nat {
    if key !in buckets || buckets[key].windowStart <= from - l.windowMs then 2 * l.max
    else if buckets[key].windowStart <= from then Left(l.max, buckets[key].count) + l.max
    else Left(l.max, buckets[key].count)
  }

  lemma AllowanceSpent(buckets: Buckets, e: Event, limits: Limits, key: string, from: int, now: int)
    requires Inv(buckets, limits, now) && now <= e.at <= from + limits(key).windowMs && limits(key).windowMs > 0
    ensures var step := Step(buckets, e, limits);
            var granted := if e.Call? && e.key == key && from <= e.at && step.1 == Some(Granted) then 1 else 0;
            granted + Allowance(step.0, key, limits(key), from) <= Allowance(buckets, key, limits(key), from)
  {
    if key in buckets { assert WellKept(buckets[key], limits(key), now); }
  }

  lemma {:induction false} NoneAfter(buckets: Buckets, events: seq<Event>, limits: Limits, key: string, from: int, to: int, now: int)
    requires Ordered(now, events) && to < now
    ensures GrantedIn(buckets, events, limits, key, from, to) == 0
    decreases |events|
  {
    if events != [] { NoneAfter(Step(buckets, events[0], limits).0, events[1..], limits, key, from, to, events[0].at); }
  }

  lemma {:induction false} GrantsWithinAllowance(buckets: Buckets, events: seq<Event>, limits: Limits, key: string, from: int, now: int)
    requires Inv(buckets, limits, now) && Ordered(now, events) && limits(key).windowMs > 0
    ensures GrantedIn(buckets, events, limits, key, from, from + limits(key).windowMs) <= Allowance(buckets, key, limits(key), from)
    decreases |events|
  {
    if events != [] {
      var mid := Step(buckets, events[0], limits).0;
      InvStep(buckets, events[0], limits, now);
      if events[0].at > from + limits(key).windowMs {
        NoneAfter(mid, events[1..], limits, key, from, from + limits(key).windowMs, events[0].at);
      } else {
        AllowanceSpent(buckets, events[0], limits, key, from, now);
        GrantsWithinAllowance(mid, events[1..], limits, key, from, events[0].at);
      }
    }
  }

  /** In no closed interval one window long does a key get more than twice its
      limit, whatever else is called and swept. */
  lemma AtMostTwiceTheLimit(events: seq<Event>, limits: Limits, key: string, from: int, now: int)
    requires Ordered(now, events) && limits(key).windowMs > 0
    ensures GrantedIn(map[], events, limits, key, from, from + limits(key).windowMs) <= 2 * limits(key).max
  {
    GrantsWithinAllowance(map[], events, limits, key, from, now);
  }

  // ------------------------------------------- and that bound is reached

  function Repeat(key: string, at: int, n: nat): seq<Event> {
    if n == 0 then [] else [Call(key, at)] + Repeat(key, at, n - 1)
  }

  lemma OneGranted(buckets: Buckets, events: seq<Event>, limits: Limits, key: string, at: int, from: int, to: int)
    requires key in buckets && at - buckets[key].windowStart < limits(key).windowMs
    requires buckets[key].count + 1 <= limits(key).max && from <= at <= to
    ensures GrantedIn(buckets, [Call(key, at)] + events, limits, key, from, to)
            == 1 + GrantedIn(Counted(buckets, key, 1), events, limits, key, from, to)
  {
    assert ([Call(key, at)] + events)[1..] == events;
  }

  function Counted(buckets: Buckets, key: string, n: nat): Buckets
    requires key in buckets
  {
    buckets[key := buckets[key].(count := buckets[key].count + n)]
  }

  lemma RepeatHead(key: string, at: int, n: nat, rest: seq<Event>)
    requires n > 0
    ensures Repeat(key, at, n) + rest == [Call(key, at)] + (Repeat(key, at, n - 1) + rest)
  {
  }

  /** `n` more calls in a window that has room for them are all granted. */
  lemma {:induction false} BurstGranted(buckets: Buckets, n: nat, rest: seq<Event>, limits: Limits, key: string, at: int, from: int, to: int)
    requires key in buckets && at - buckets[key].windowStart < limits(key).windowMs
    requires buckets[key].count + n <= limits(key).max && from <= at <= to
    ensures GrantedIn(buckets, Repeat(key, at, n) + rest, limits, key, from, to)
            == n + GrantedIn(Counted(buckets, key, n), rest, limits, key, from, to)
    decreases n
  {
    if n == 0 {
      assert Repeat(key, at, n) + rest == rest;
      assert Counted(buckets, key, n) == buckets;
    } else {
      RepeatHead(key, at, n, rest);
      OneGranted(buckets, Repeat(key, at, n - 1) + rest, limits, key, at, from, to);
      BurstGranted(Counted(buckets, key, 1), n - 1, rest, limits, key, at, from, to);
      assert Counted(Counted(buckets, key, 1), key, n - 1) == Counted(buckets, key, n);
    }
  }

  lemma OpeningGranted(buckets: Buckets, events: seq<Event>, limits: Limits, key: string, at: int, from: int, to: int)
    requires Expired(buckets, key, limits(key).windowMs, at) && !Full(buckets, key)
    requires limits(key).max > 0 && from <= at <= to
    ensures GrantedIn(buckets, [Call(key, at)] + events, limits, key, from, to)
            == 1 + GrantedIn(buckets[key := Bucket(1, at, limits(key).windowMs)], events, limits, key, from, to)
  {
    assert ([Call(key, at)] + events)[1..] == events;
  }

  lemma FullWindow(buckets: Buckets, key: string, at: int, l: Limit)
    requires l.max > 0
    ensures Counted(buckets[key := Bucket(1, at, l.windowMs)], key, l.max - 1) == buckets[key := Bucket(l.max, at, l.windowMs)]
  {
  }

  /** A call that opens a window, and as many more as fill it. */
  lemma WindowGranted(buckets: Buckets, rest: seq<Event>, limits: Limits, l: Limit, key: string, at: int, from: int, to: int)
    requires Expired(buckets, key, l.windowMs, at) && !Full(buckets, key)
    requires limits(key) == l && l.windowMs > 0 && l.max > 0 && from <= at <= to
    ensures GrantedIn(buckets, Repeat(key, at, l.max) + rest, limits, key, from, to)
            == l.max + GrantedIn(buckets[key := Bucket(l.max, at, l.windowMs)], rest, limits, key, from, to)
  {
    RepeatHead(key, at, l.max, rest);
    OpeningGranted(buckets, Repeat(key, at, l.max - 1) + rest, limits, key, at, from, to);
    BurstGranted(buckets[key := Bucket(1, at, l.windowMs)], l.max - 1, rest, limits, key, at, from, to);
    FullWindow(buckets, key, at, l);
  }

  /** The calls around the end of a window opened at 0. */
  function Boundary(key: string, l: Limit): seq<Event>
    requires l.windowMs > 0 && l.max > 0
  {
    [Call(key, 0)] + Repeat(key, l.windowMs - 1, l.max - 1) + Repeat(key, l.windowMs, l.max)
  }

  lemma BoundaryGranted(key: string, l: Limit, limits: Limits, from: int)
    requires l.windowMs > 1 && l.max > 0 && limits(key) == l && (from == 0 || from == l.windowMs - 1)
    ensures GrantedIn(map[], Boundary(key, l), limits, key, from, l.windowMs) == 2 * l.max - if from == 0 then 0 else 1
  {
    var w := l.windowMs;
    var second := Repeat(key, w, l.max);
    var b := Bucket(1, 0, w);
    var begun: Buckets := map[][key := b];
    assert Boundary(key, l)[1..] == Repeat(key, w - 1, l.max - 1) + second;
    BurstGranted(begun, l.max - 1, second, limits, key, w - 1, from, w);
    var full := Counted(begun, key, l.max - 1);
    WindowGranted(full, [], limits, l, key, w, from, w);
    assert second + [] == second;
  }

  /** The windows are fixed, not sliding: one call opens a window, and around its
      end all other calls of that window and all of the next are granted within a
      single millisecond; with the opening one, twice the limit in one window length. */
  lemma BurstAcrossTheBoundary(key: string, l: Limit)
    requires l.windowMs > 1 && l.max > 0
    ensures Ordered(0, Boundary(key, l))
    ensures GrantedIn(map[], Boundary(key, l), k => l, key, l.windowMs - 1, l.windowMs) == 2 * l.max - 1
    ensures GrantedIn(map[], Boundary(key, l), k => l, key, 0, l.windowMs) == 2 * l.max
  {
    var w := l.windowMs;
    BoundaryGranted(key, l, k => l, 0);
    BoundaryGranted(key, l, k => l, w - 1);
    var rest := Repeat(key, w - 1, l.max - 1) + Repeat(key, w, l.max);
    assert Boundary(key, l)[1..] == rest;
    assert Repeat(key, w, l.max) + [] == Repeat(key, w, l.max);
    RepeatOrdered(key, w, l.max, [], w);
    RepeatOrdered(key, w - 1, l.max - 1, Repeat(key, w, l.max), 0);
  }

  lemma {:induction false} RepeatOrdered(key: string, at: int, n: nat, rest: seq<Event>, now: int)
    requires now <= at && Ordered(at, rest)
    ensures Ordered(now, Repeat(key, at, n) + rest)
    decreases n
  {
    if n == 0 {
      assert Repeat(key, at, n) + rest == rest;
    } else {
      RepeatHead(key, at, n, rest);
      RepeatOrdered(key, at, n - 1, rest, at);
      assert ([Call(key, at)] + (Repeat(key, at, n - 1) + rest))[1..] == Repeat(key, at, n - 1) + rest;
    }
  }

  // ------------------------------------- when one window length stays within one limit

  /** How many grants at times in [from, from + window) a state at `from` still allows. */
  function Room(buckets: Buckets, key: string, l: Limit, from: int): nat {
    if key !in buckets || buckets[key].windowStart <= from - l.windowMs then l.max
    else if buckets[key].windowStart < from then Left(l.max, buckets[key].count) + l.max
    else Left(l.max, buckets[key].count)
  }

  lemma RoomSpent(buckets: Buckets, e: Event, limits: Limits, key: string, from: int, now: int)
    requires Inv(buckets, limits, now) && now <= e.at && from <= e.at < from + limits(key).windowMs
    ensures var step := Step(buckets, e, limits);
            var granted := if e.Call? && e.key == key && step.1 == Some(Granted) then 1 else 0;
            granted + Room(step.0, key, limits(key), from) <= Room(buckets, key, limits(key), from)
  {
    if key in buckets { assert WellKept(buckets[key], limits(key), now); }
  }

  lemma {:induction false} GrantsWithinRoom(buckets: Buckets, events: seq<Event>, limits: Limits, key: string, from: int, now: int)
    requires Inv(buckets, limits, now) && Ordered(now, events) && from <= now && limits(key).windowMs > 0
    ensures GrantedIn(buckets, events, limits, key, from, from + limits(key).windowMs - 1) <= Room(buckets, key, limits(key), from)
    decreases |events|
  {
    if events != [] {
      var mid := Step(buckets, events[0], limits).0;
      InvStep(buckets, events[0], limits, now);
      if events[0].at >= from + limits(key).windowMs {
        NoneAfter(mid, events[1..], limits, key, from, from + limits(key).windowMs - 1, events[0].at);
      } else {
        RoomSpent(buckets, events[0], limits, key, from, now);
        GrantsWithinRoom(mid, events[1..], limits, key, from, events[0].at);
      }
    }
  }

  /** A window opened before `from` is still open then and has room. */
  predicate EarlierWindowHasRoom(buckets: Buckets, key: string, l: Limit, from: int) {
    key in buckets && from - l.windowMs < buckets[key].windowStart < from && buckets[key].count < l.max
  }

  predicate WithinLimit(buckets: Buckets, events: seq<Event>, limits: Limits, key: string, from: int) {
    GrantedIn(buckets, events, limits, key, from, from + limits(key).windowMs - 1) <= limits(key).max
  }

  /** The limit holds for the window length that starts at `from`, whatever follows,
      exactly when no earlier window of the key is still open with room; so it holds
      where a window starts, and where none is open. */
  lemma AtMostTheLimitExactly(buckets: Buckets, limits: Limits, key: string, from: int)
    requires Inv(buckets, limits, from) && limits(key).windowMs > 0
    ensures (forall events :: Ordered(from, events) ==> WithinLimit(buckets, events, limits, key, from))
       <==> !EarlierWindowHasRoom(buckets, key, limits(key), from)
  {
    if EarlierWindowHasRoom(buckets, key, limits(key), from) {
      var events := OverfillRoom(buckets, limits, key, from);
      assert Ordered(from, events) && !WithinLimit(buckets, events, limits, key, from);
    } else {
      forall events | Ordered(from, events) ensures WithinLimit(buckets, events, limits, key, from) {
        GrantsWithinRoom(buckets, events, limits, key, from, from);
      }
    }
  }

  lemma OverfillRoom(buckets: Buckets, limits: Limits, key: string, from: int) returns (events: seq<Event>)
    requires Inv(buckets, limits, from) && limits(key).windowMs > 0 && EarlierWindowHasRoom(buckets, key, limits(key), from)
    ensures Ordered(from, events)
    ensures GrantedIn(buckets, events, limits, key, from, from + limits(key).windowMs - 1) == Room(buckets, key, limits(key), from) > limits(key).max
  {
    var l := limits(key);
    var to := from + l.windowMs - 1;
    var b := buckets[key];
    var next := b.windowStart + l.windowMs;
    var second := Repeat(key, next, l.max);
    events := Repeat(key, from, l.max - b.count) + second;
    assert second + [] == second;
    RepeatOrdered(key, next, l.max, [], from);
    RepeatOrdered(key, next, l.max, [], next);
    RepeatOrdered(key, from, l.max - b.count, second, from);
    BurstGranted(buckets, l.max - b.count, second, limits, key, from, from, to);
    var full := Counted(buckets, key, l.max - b.count);
    assert full[key].windowStart == b.windowStart;
    WindowGranted(full, [], limits, l, key, next, from, to);
  }

  /** The wait a refusal names is enough, and no whole second shorter is. */
  lemma RetryAfterIsExact(buckets: Buckets, key: string, l: Limit, now: int, seconds: nat)
    requires Consume(buckets, key, l, now).1.TooMany? && l.max > 0
    ensures var (after, verdict) := Consume(buckets, key, l, now);
            Consume(after, key, l, now + 1000 * seconds).1.Granted? <==> seconds >= verdict.retryAfter
  {
    assert !Expired(buckets, key, l.windowMs, now);
    var after := Consume(buckets, key, l, now).0;
    assert key in after && after[key].windowStart == buckets[key].windowStart && after[key].count > l.max;
    var left := buckets[key].windowStart + l.windowMs - now;
    assert left > 0 && CeilSeconds(left) >= 1;
  }

  // ----------------------------------------------- sweeping is invisible

  function Unswept(events: seq<Event>): seq<Event> {
    if events == [] then []
    else if events[0].Sweep? then Unswept(events[1..]) else [events[0]] + Unswept(events[1..])
  }

  function Verdicts(buckets: Buckets, events: seq<Event>, limits: Limits): seq<Verdict>
    decreases |events|
  {
    if events == [] then []
    else
      var step := Step(buckets, events[0], limits);
      (if step.1.Some? then [step.1.value] else []) + Verdicts(step.0, events[1..], limits)
  }

  predicate BelowCapacity(verdicts: seq<Verdict>) {
    forall i :: 0 <= i < |verdicts| ==> !verdicts[i].Exhausted?
  }

  /** `less` is `more` without some buckets that are stale by now. */
  predicate MissesOnlyStale(less: Buckets, more: Buckets, now: int) {
    && (forall key :: key in less ==> key in more && less[key] == more[key])
    && (forall key :: key in more && key !in less ==> Stale(more[key], now))
  }

  lemma SmallerSet(less: set<string>, more: set<string>, key: string)
    requires less <= more
    ensures |less| <= |more| && (key in more && key !in less ==> |less| < |more|)
  {
    assert more == less + (more - less);
    if key in more && key !in less { assert more - less == {key} + (more - less - {key}); }
  }

  lemma NotFuller(less: Buckets, more: Buckets, key: string, now: int)
    requires MissesOnlyStale(less, more, now) && |more| <= MAX_BUCKETS && !Full(more, key)
    ensures !Full(less, key)
  {
    assert less.Keys <= more.Keys;
    SmallerSet(less.Keys, more.Keys, key);
    assert |less| == |less.Keys| && |more| == |more.Keys|;
  }

  lemma SameBucket(less: Buckets, more: Buckets, key: string, l: Limit, now: int, at: int)
    requires MissesOnlyStale(less, more, now) && now <= at && (key in more ==> more[key].windowMs == l.windowMs)
    ensures Current(less, key, l.windowMs, at) == Current(more, key, l.windowMs, at)
  {
  }

  lemma SameVerdict(less: Buckets, more: Buckets, e: Event, limits: Limits, now: int)
    requires Inv(more, limits, now) && MissesOnlyStale(less, more, now) && now <= e.at && e.Call?
    requires !Consume(more, e.key, limits(e.key), e.at).1.Exhausted?
    ensures Consume(less, e.key, limits(e.key), e.at).1 == Consume(more, e.key, limits(e.key), e.at).1
    ensures MissesOnlyStale(Step(less, e, limits).0, Step(more, e, limits).0, e.at)
  {
    NotFuller(less, more, e.key, now);
    if e.key in more { assert WellKept(more[e.key], limits(e.key), now); }
    SameBucket(less, more, e.key, limits(e.key), now, e.at);
  }

  lemma VerdictsOfCall(buckets: Buckets, e: Event, events: seq<Event>, limits: Limits)
    requires e.Call?
    ensures var step := Step(buckets, e, limits);
            Verdicts(buckets, [e] + events, limits) == [step.1.value] + Verdicts(step.0, events, limits)
  {
    assert ([e] + events)[1..] == events;
  }

  lemma BelowCapacityTail(v: Verdict, rest: seq<Verdict>)
    requires BelowCapacity([v] + rest)
    ensures !v.Exhausted? && BelowCapacity(rest)
  {
    assert ([v] + rest)[0] == v;
    assert forall i :: 0 <= i < |rest| ==> rest[i] == ([v] + rest)[i + 1];
  }

  lemma {:induction false} SweepingIsInvisibleFrom(less: Buckets, more: Buckets, events: seq<Event>, limits: Limits, now: int)
    requires Inv(more, limits, now) && MissesOnlyStale(less, more, now) && Ordered(now, events)
    requires BelowCapacity(Verdicts(more, Unswept(events), limits))
    ensures Verdicts(less, events, limits) == Verdicts(more, Unswept(events), limits)
    decreases |events|
  {
    if events != [] {
      var e := events[0];
      if e.Sweep? {
        SweepingIsInvisibleFrom(Swept(less, e.at), more, events[1..], limits, e.at);
      } else {
        var after := Step(more, e, limits);
        VerdictsOfCall(more, e, Unswept(events[1..]), limits);
        BelowCapacityTail(after.1.value, Verdicts(after.0, Unswept(events[1..]), limits));
        SameVerdict(less, more, e, limits, now);
        InvStep(more, e, limits, now);
        SweepingIsInvisibleFrom(Step(less, e, limits).0, after.0, events[1..], limits, e.at);
      }
    }
  }

  /** While the keys fit without any sweeping, sweeps never change a verdict. */
  lemma SweepingIsInvisible(events: seq<Event>, limits: Limits, now: int)
    requires Ordered(now, events) && BelowCapacity(Verdicts(map[], Unswept(events), limits))
    ensures Verdicts(map[], events, limits) == Verdicts(map[], Unswept(events), limits)
  {
    SweepingIsInvisibleFrom(map[], map[], events, limits, now);
  }
}
