/** The per-address token bucket that bounds search requests. */
module SearchLimit {
  import opened Prelude

  type Ip = int

  const BUCKETS_CEILING: nat := 16384

  datatype Bucket = Bucket(tokens: real, last: real)

  datatype Limits = Limits(rate: real, burst: real) {
    ghost predicate Valid() { rate >= 0.0 && burst >= 0.0 }
  }

  type Buckets = map<Ip, Bucket>

  function Least(a: real, b: real): real {
    if a < b then a else b
  }

  /** A bucket topped up for the time since its last use, up to the burst. */
  function Topped(limits: Limits, b: Bucket, now: real): real {
    Least(limits.burst, b.tokens + (now - b.last) * limits.rate)
  }

  /** What a bucket holds at a time: refilled since its last use, never above the burst, unmoved by a clock going back. */
  function Refilled(limits: Limits, b: Bucket, now: real): real {
    if now > b.last then Topped(limits, b, now) else b.tokens
  }

  /** The tokens an address could draw on: an address without a bucket has a full one. */
  function Level(limits: Limits, buckets: Buckets, ip: Ip, now: real): real {
    if ip in buckets then Refilled(limits, buckets[ip], now) else limits.burst
  }

  ghost predicate Sound(limits: Limits, buckets: Buckets) {
    && |buckets| <= BUCKETS_CEILING
    && forall ip :: ip in buckets ==> 0.0 <= buckets[ip].tokens <= limits.burst
  }

  predicate Sweepable(limits: Limits, b: Bucket, now: real) {
    b.tokens + (now - b.last) * limits.rate >= limits.burst
  }

  /** An address is served only with a bucket, or room for one once the full buckets are swept. */
  ghost predicate Admits(limits: Limits, buckets: Buckets, ip: Ip, now: real) {
    || ip in buckets
    || |buckets| < BUCKETS_CEILING
    || exists other :: other in buckets && Sweepable(limits, buckets[other], now)
  }

  lemma RefilledBounds(limits: Limits, b: Bucket, now: real)
    requires limits.Valid() && 0.0 <= b.tokens <= limits.burst
    ensures b.tokens <= Refilled(limits, b, now) <= limits.burst
  {
    if now > b.last { assert (now - b.last) * limits.rate >= 0.0; }
  }

  /** A bucket that may be swept is full from then on. */
  lemma SweepableIsFull(limits: Limits, b: Bucket, now: real, later: real)
    requires limits.Valid() && 0.0 <= b.tokens <= limits.burst
    requires Sweepable(limits, b, now) && later >= now
    ensures Refilled(limits, b, later) == limits.burst
  {
    if later > b.last {
      assert (later - now) * limits.rate >= 0.0;
      assert (later - b.last) * limits.rate == (now - b.last) * limits.rate + (later - now) * limits.rate;
    } else {
      assert (b.last - now) * limits.rate >= 0.0;
      assert (now - b.last) * limits.rate == -((b.last - now) * limits.rate);
    }
  }

  class SearchLimiter {
    const limits: Limits
    var buckets: Buckets

    ghost predicate Valid()
      reads this
    {
      limits.Valid() && Sound(limits, buckets)
    }

    /** A burst of zero or less defaults to the interval's tokens. */
    constructor (tokensPerInterval: nat, interval: real, burst: int)
      ensures Valid() && buckets == map[]
      ensures limits.burst == (if burst <= 0 then tokensPerInterval else burst) as real
      ensures if interval > 0.0 then limits.rate * interval == tokensPerInterval as real else limits.rate == tokensPerInterval as real
    {
      limits := Limits(if interval > 0.0 then tokensPerInterval as real / interval else tokensPerInterval as real,
                       (if burst <= 0 then tokensPerInterval else burst) as real);
      buckets := map[];
    }

    /** Drops the buckets that have refilled to full. */
    method Sweep(now: real)
      requires Valid()
      modifies this`buckets
      ensures Valid()
      ensures buckets == map ip | ip in old(buckets) && !Sweepable(limits, old(buckets)[ip], now) :: old(buckets)[ip]
    {
      ghost var before := buckets;
      var todo := buckets.Keys;
      while todo != {}
        invariant todo <= before.Keys
        invariant forall ip :: ip in buckets <==> ip in before && (ip in todo || !Sweepable(limits, before[ip], now))
        invariant forall ip :: ip in buckets ==> buckets[ip] == before[ip]
        decreases |todo|
      {
        var ip := Pick(todo);
        todo := todo - {ip};
        if Sweepable(limits, buckets[ip], now) { buckets := buckets - {ip}; }
      }
      forall ip | ip in buckets.Keys ensures ip in before.Keys {}
      CardMonotone(buckets.Keys, before.Keys);
      ghost var kept := map ip | ip in before && !Sweepable(limits, before[ip], now) :: before[ip];
      forall ip ensures ip in buckets <==> ip in kept {}
      forall ip | ip in buckets && ip in kept ensures buckets[ip] == kept[ip] {}
      SameMaps(buckets, kept);
    }

    /** Spends one token of the address, if it has a bucket or may get one and a whole token is there. */
    method Take(ip: Ip, now: real) returns (granted: bool)
      requires Valid()
      modifies this`buckets
      ensures Valid()
      ensures granted <==> Admits(limits, old(buckets), ip, now) && Level(limits, old(buckets), ip, now) >= 1.0
      ensures Spends(limits, old(buckets), buckets, ip, now, granted)
    {
      ghost var before := buckets;
      hide Level, Sweepable, Spends, Topped;
      LevelOf(limits, before, ip, now);
      NothingSpent(limits, before, ip, now);
      if ip !in buckets {
        if |buckets| >= BUCKETS_CEILING {
          Sweep(now);
          SweepFrees(limits, before, buckets, now);
          SweepKeepsLevels(limits, before, buckets, ip, now);
          if |buckets| >= BUCKETS_CEILING { return false; }
        }
        AddsOne(limits, buckets, ip, now);
        buckets := buckets[ip := Bucket(limits.burst, now)];
      }
      ghost var settled := buckets;
      var b := buckets[ip];
      RefilledBounds(limits, b, now);
      if now > b.last {
        b := Bucket(Topped(limits, b, now), now);
      }
      granted := b.tokens >= 1.0;
      if granted { b := b.(tokens := b.tokens - 1.0); }
      SameSize(buckets, ip, b);
      buckets := buckets[ip := b];
      Spent(limits, before, settled, ip, now, b, granted);
    }
  }

  function Price(granted: bool): real {
    if granted then 1.0 else 0.0
  }

  lemma LevelOf(limits: Limits, buckets: Buckets, ip: Ip, now: real)
    ensures Level(limits, buckets, ip, now) == if ip in buckets then Refilled(limits, buckets[ip], now) else limits.burst
  {
  }

  lemma NothingSpent(limits: Limits, buckets: Buckets, ip: Ip, now: real)
    ensures Spends(limits, buckets, buckets, ip, now, false)
  {
  }

  /** With a clock that has not gone back, the buckets that go are exactly the full ones. */
  lemma SweepsTheFull(limits: Limits, buckets: Buckets, ip: Ip, now: real)
    requires limits.Valid() && Sound(limits, buckets) && ip in buckets && now >= buckets[ip].last
    ensures Sweepable(limits, buckets[ip], now) <==> Level(limits, buckets, ip, now) == limits.burst
  {
  }

  /** No address can tell that full buckets were swept. */
  lemma SweepKeepsLevels(limits: Limits, before: Buckets, after: Buckets, ip: Ip, now: real)
    requires limits.Valid() && Sound(limits, before)
    requires after == map ip | ip in before && !Sweepable(limits, before[ip], now) :: before[ip]
    ensures forall other, later {:trigger Level(limits, after, other, later)} :: later >= now ==>
              Level(limits, after, other, later) == Level(limits, before, other, later)
    ensures Spends(limits, before, after, ip, now, false)
  {
    forall other, later {:trigger Level(limits, after, other, later)} | later >= now
      ensures Level(limits, after, other, later) == Level(limits, before, other, later)
    {
      if other in before && Sweepable(limits, before[other], now) {
        SweepableIsFull(limits, before[other], now, later);
      }
    }
  }

  /** Writing back the refilled bucket, less the token granted, is the whole effect. */
  lemma Spent(limits: Limits, before: Buckets, settled: Buckets, ip: Ip, now: real, b: Bucket, granted: bool)
    requires ip in settled
    requires forall other, later {:trigger Level(limits, settled, other, later)} :: other != ip && later >= now ==>
               Level(limits, settled, other, later) == Level(limits, before, other, later)
    requires Level(limits, settled, ip, now) == Level(limits, before, ip, now)
    requires b == Bucket(Refilled(limits, settled[ip], now) - Price(granted),
                         if now > settled[ip].last then now else settled[ip].last)
    ensures Spends(limits, before, settled[ip := b], ip, now, granted)
  {
    var after := settled[ip := b];
    forall other, later {:trigger Level(limits, after, other, later)} | other != ip && later >= now
      ensures Level(limits, after, other, later) == Level(limits, before, other, later)
    {
      assert Level(limits, after, other, later) == Level(limits, settled, other, later);
    }
  }

  /** A new address starts with the full bucket it already counted as having. */
  lemma AddsOne(limits: Limits, buckets: Buckets, ip: Ip, now: real)
    requires ip !in buckets
    ensures var after := buckets[ip := Bucket(limits.burst, now)];
            && |after| == |buckets| + 1
            && Level(limits, after, ip, now) == limits.burst
            && forall other, later {:trigger Level(limits, after, other, later)} :: other != ip ==>
                 Level(limits, after, other, later) == Level(limits, buckets, other, later)
  {
    assert buckets[ip := Bucket(limits.burst, now)].Keys == buckets.Keys + {ip};
  }

  lemma SameSize(buckets: Buckets, ip: Ip, b: Bucket)
    requires ip in buckets
    ensures |buckets[ip := b]| == |buckets|
  {
    assert buckets[ip := b].Keys == buckets.Keys;
  }

  /** Sweeping makes room exactly when some bucket may be swept. */
  lemma SweepFrees(limits: Limits, before: Buckets, after: Buckets, now: real)
    requires after == map ip | ip in before && !Sweepable(limits, before[ip], now) :: before[ip]
    ensures |after| < |before| <==> exists ip :: ip in before && Sweepable(limits, before[ip], now)
    ensures |after| <= |before|
  {
    if ip :| ip in before && Sweepable(limits, before[ip], now) {
      assert after.Keys < before.Keys by { assert ip !in after.Keys; }
      CardStrict(after.Keys, before.Keys);
    } else {
      forall ip ensures ip in after.Keys <==> ip in before.Keys {}
      SameElements(after.Keys, before.Keys);
    }
  }

  /** The effect of a take on every address from then on: its own level drops by what it was granted, no other moves. */
  ghost predicate Spends(limits: Limits, before: Buckets, after: Buckets, ip: Ip, now: real, granted: bool) {
    && Level(limits, after, ip, now) == Level(limits, before, ip, now) - Price(granted)
    && forall other, later {:trigger Level(limits, after, other, later)} :: other != ip && later >= now ==>
         Level(limits, after, other, later) == Level(limits, before, other, later)
  }

  // ---------------------------------------------------------------- the rate bound

  datatype Request = Request(ip: Ip, now: real)

  /** A run of takes: each one spends as it answered, and the clock never goes back. */
  ghost predicate IsRun(limits: Limits, requests: seq<Request>, states: seq<Buckets>, grants: seq<bool>) {
    && |states| == |requests| + 1 && |grants| == |requests|
    && (forall k :: 0 <= k < |states| ==> Sound(limits, states[k]))
    && (forall k :: 0 <= k < |requests| ==>
         Spends(limits, states[k], states[k + 1], requests[k].ip, requests[k].now, grants[k]))
    && forall i, j :: 0 <= i < j < |requests| ==> requests[i].now <= requests[j].now
  }

  /** Requests of the address granted from `i` up to, not including, `j`. */
  function Granted(requests: seq<Request>, grants: seq<bool>, ip: Ip, i: nat, j: nat): nat
    requires i <= j <= |requests| == |grants|
  {
    if i == j then 0
    else Granted(requests, grants, ip, i, j - 1) + if requests[j - 1].ip == ip && grants[j - 1] then 1 else 0
  }

  lemma LevelBounds(limits: Limits, buckets: Buckets, ip: Ip, now: real)
    requires limits.Valid() && Sound(limits, buckets)
    ensures 0.0 <= Level(limits, buckets, ip, now) <= limits.burst
  {
    if ip in buckets { RefilledBounds(limits, buckets[ip], now); }
  }

  /** The tokens added between two times. */
  function Refill(limits: Limits, from: real, to: real): real {
    limits.rate * (to - from)
  }

  lemma RefillAdds(limits: Limits, a: real, b: real, c: real)
    ensures Refill(limits, a, b) + Refill(limits, b, c) == Refill(limits, a, c)
    ensures Refill(limits, a, a) == 0.0
  {
  }

  lemma LevelGrows(limits: Limits, buckets: Buckets, ip: Ip, now: real, later: real)
    requires limits.Valid() && Sound(limits, buckets) && now <= later
    ensures Level(limits, buckets, ip, later) <= Level(limits, buckets, ip, now) + Refill(limits, now, later)
  {
    assert limits.rate * (later - now) >= 0.0;
    if ip in buckets {
      var b := buckets[ip];
      if now > b.last {
        assert (later - b.last) * limits.rate == (now - b.last) * limits.rate + Refill(limits, now, later);
      } else if later > b.last {
        assert limits.rate * (b.last - now) >= 0.0;
        assert (later - b.last) * limits.rate == Refill(limits, now, later) - limits.rate * (b.last - now);
        assert Level(limits, buckets, ip, later) <= b.tokens + (later - b.last) * limits.rate;
      }
    }
  }

  /** Tokens granted plus tokens left never exceed tokens at the start plus the refill in between. */
  lemma {:induction false} TokensAreConserved(limits: Limits, requests: seq<Request>, states: seq<Buckets>, grants: seq<bool>,
                                              ip: Ip, i: nat, j: nat)
    requires limits.Valid() && IsRun(limits, requests, states, grants) && i < j <= |requests|
    ensures Granted(requests, grants, ip, i, j) as real + Level(limits, states[j], ip, requests[j - 1].now)
            <= Level(limits, states[i], ip, requests[i].now) + Refill(limits, requests[i].now, requests[j - 1].now)
  {
    var k := j - 1;
    var request := requests[k];
    hide Spends, Level, Sound, Refill;
    TakeCosts(limits, states[k], states[k + 1], request, grants[k], ip);
    if i < k {
      TokensAreConserved(limits, requests, states, grants, ip, i, k);
      LevelGrows(limits, states[k], ip, requests[k - 1].now, request.now);
      RefillAdds(limits, requests[i].now, requests[k - 1].now, request.now);
    } else {
      assert Granted(requests, grants, ip, i, k) == 0;
      RefillAdds(limits, request.now, request.now, request.now);
    }
  }

  lemma TakeCosts(limits: Limits, before: Buckets, after: Buckets, request: Request, granted: bool, ip: Ip)
    requires Spends(limits, before, after, request.ip, request.now, granted)
    ensures Level(limits, after, ip, request.now) ==
            Level(limits, before, ip, request.now) - Price(request.ip == ip && granted)
  {
  }

  /** In any window of any run an address is granted at most the burst plus the rate times the length of the window. */
  lemma RateBound(limits: Limits, requests: seq<Request>, states: seq<Buckets>, grants: seq<bool>, ip: Ip, i: nat, j: nat)
    requires limits.Valid() && IsRun(limits, requests, states, grants) && i < j <= |requests|
    ensures Granted(requests, grants, ip, i, j) as real
            <= limits.burst + Refill(limits, requests[i].now, requests[j - 1].now)
  {
    TokensAreConserved(limits, requests, states, grants, ip, i, j);
    LevelBounds(limits, states[i], ip, requests[i].now);
    LevelBounds(limits, states[j], ip, requests[j - 1].now);
  }

  /** With a bucket in hand an address that has a whole token is served, and so never waits longer than the refill of one. */
  lemma KnownAddressServed(limits: Limits, buckets: Buckets, ip: Ip, now: real, later: real)
    requires limits.Valid() && Sound(limits, buckets) && ip in buckets && limits.burst >= 1.0
    requires now >= buckets[ip].last && later >= now && limits.rate * (later - now) >= 1.0
    ensures Admits(limits, buckets, ip, later) && Level(limits, buckets, ip, later) >= 1.0
  {
    var b := buckets[ip];
    assert later > now;
    assert limits.rate * (now - b.last) >= 0.0;
    assert (later - b.last) * limits.rate == limits.rate * (later - now) + limits.rate * (now - b.last);
  }
}
