/**
 The gateway's token-bucket limiter: the script that the store runs atomically per
 request, with the key's expiry, over exact reals.

 The script keeps one number per key and refills it lazily. The reference is a rule that
 keeps the whole past: admit a request exactly when no window that ends now would then
 hold more than `burst` plus what the rate allows over the window.
 */
module TokenBucket {

  datatype Limits = Limits(rate: int, burst: int) {
    ghost predicate Valid() { rate > 0 && burst > 0 }

    /** Tokens earned over `dt` milliseconds. */
    function Refill(dt: int): real { (rate * dt) as real / 1000.0 }

    /** The key's time to live: burst * 1000 / rate, rounded up. */
    function Ttl(): int
      requires Valid()
    {
      (burst * 1000 + rate - 1) / rate
    }
  }

  /** What the store holds under one key. `expires` is the last instant at which it is still there. */
  datatype Bucket = Absent | Bucket(tokens: real, last: int, expires: int)

  /** The limiter's construction: non-positive settings fall back to 30 per second and 60. */
  function NewLimits(rps: int, burst: int): (l: Limits)
    ensures l.Valid()
    ensures l.rate == if rps > 0 then rps else 30
    ensures l.burst == if burst > 0 then burst else 60
  {
    Limits(if rps <= 0 then 30 else rps, if burst <= 0 then 60 else burst)
  }

  function Max(a: int, b: int): int { if a >= b then a else b }

  function Min(a: real, b: real): real { if a <= b then a else b }

  /** Tokens on hand at `now`, after the refill and before the request takes one. */
  function Level(l: Limits, b: Bucket, now: int): real
  {
    if b.Absent? then l.burst as real
    else Min(l.burst as real, b.tokens + l.Refill(Max(0, now - b.last)))
  }

  function Admits(l: Limits, b: Bucket, now: int): bool { Level(l, b, now) >= 1.0 }

  function After(l: Limits, b: Bucket, now: int): Bucket
    requires l.Valid()
  {
    var level := Level(l, b, now);
    Bucket(if level >= 1.0 then level - 1.0 else level, now, now + l.Ttl())
  }

  /** The key as the next command sees it: gone once its time to live has passed. */
  function Visible(b: Bucket, now: int): Bucket
  {
    if b.Bucket? && now > b.expires then Absent else b
  }

  /** The limiter with its store, as the middleware calls it. */
  class RateLimiter {
    const limits: Limits
    var store: map<string, Bucket>

    constructor (rps: int, burst: int)
      ensures limits == NewLimits(rps, burst) && store == map[]
    {
      limits := NewLimits(rps, burst);
      store := map[];
    }

    /** One run of the script. */
    method Allow(key: string, now: int) returns (allowed: bool)
      requires limits.Valid()
      modifies this`store
      ensures var was := Visible(if key in old(store) then old(store)[key] else Absent, now);
              allowed == Admits(limits, was, now) && store == old(store)[key := After(limits, was, now)]
    {
      var tokens, last;
      if key in store && store[key].Bucket? && now <= store[key].expires {
        tokens, last := store[key].tokens, store[key].last;
      } else {
        tokens, last := limits.burst as real, now;
      }
      var delta := Max(0, now - last);
      var refill := (delta * limits.rate) as real / 1000.0;
      assert delta * limits.rate == limits.rate * delta;
      tokens := Min(limits.burst as real, tokens + refill);
      allowed := false;
      if tokens >= 1.0 {
        tokens := tokens - 1.0;
        allowed := true;
      }
      store := store[key := Bucket(tokens, now, now + limits.Ttl())];
    }
  }

  // ---------------------------------------------------------------- runs

  ghost predicate NonDecreasing(ts: seq<int>)
  {
    forall i, j :: 0 <= i <= j < |ts| ==> ts[i] <= ts[j]
  }

  /** The key after the requests at times `ts`, starting from no key. */
  function RunBucket(l: Limits, ts: seq<int>): Bucket
    requires l.Valid()
  {
    if ts == [] then Absent
    else var now := ts[|ts| - 1];
         After(l, Visible(RunBucket(l, ts[..|ts| - 1]), now), now)
  }

  /** The level that the last of the requests at times `ts` finds. */
  function LevelAt(l: Limits, ts: seq<int>): real
    requires l.Valid() && ts != []
  {
    var now := ts[|ts| - 1];
    Level(l, Visible(RunBucket(l, ts[..|ts| - 1]), now), now)
  }

  /** The answers to the requests at times `ts`. */
  function Answers(l: Limits, ts: seq<int>): (d: seq<bool>)
    requires l.Valid()
    ensures |d| == |ts|
  {
    if ts == [] then []
    else Answers(l, ts[..|ts| - 1]) + [LevelAt(l, ts) >= 1.0]
  }

  /** How many of the answers lo..hi are "allowed". */
  function Count(d: seq<bool>, lo: int, hi: int): int
    requires 0 <= lo <= hi <= |d|
    decreases hi
  {
    if lo == hi then 0 else Count(d, lo, hi - 1) + if d[hi - 1] then 1 else 0
  }

  /** What request n may still use of the window that starts with request j. */
  function Room(l: Limits, ts: seq<int>, d: seq<bool>, j: int, n: int): real
    requires 0 <= j <= n < |ts| && n <= |d|
  {
    l.burst as real + l.Refill(ts[n] - ts[j]) - Count(d, j, n) as real
  }

  /** The reference rule: request n fits into every window that ends with it. */
  ghost predicate Fits(l: Limits, ts: seq<int>, d: seq<bool>, n: int)
    requires 0 <= n < |ts| && n <= |d|
  {
    forall j :: 0 <= j <= n ==> Room(l, ts, d, j, n) >= 1.0
  }

  // ---------------------------------------------------------------- proofs

  lemma RefillAdds(l: Limits, a: int, b: int)
    ensures l.Refill(a + b) == l.Refill(a) + l.Refill(b)
  {
    assert l.rate * (a + b) == l.rate * a + l.rate * b;
  }

  lemma RefillNonNegative(l: Limits, dt: int)
    requires l.Valid() && dt >= 0
    ensures l.Refill(dt) >= 0.0
  {
    assert l.rate * dt >= 0;
  }

  /** A bucket left alone for its time to live has refilled completely, and no sooner. */
  lemma TtlRefills(l: Limits, dt: int)
    requires l.Valid()
    ensures dt >= l.Ttl() <==> (l.rate * dt) as real / 1000.0 >= l.burst as real
    ensures dt >= l.Ttl() <==> l.Refill(dt) >= l.burst as real
  {
    TtlExactly(l.rate, l.burst * 1000, dt);
  }

  lemma TtlExactly(rate: int, need: int, dt: int)
    requires rate > 0
    ensures dt >= (need + rate - 1) / rate <==> rate * dt >= need
  {
    var p := need + rate - 1;
    var q := p / rate;
    QuotientBounds(rate, p, q);
    if dt >= q {
      ProductGrows(rate, q, dt);
    } else {
      ProductGrows(rate, dt, q - 1);
      assert rate * (q - 1) == rate * q - rate;
    }
  }

  lemma QuotientBounds(rate: int, p: int, q: int)
    requires rate > 0 && q == p / rate
    ensures p - rate < rate * q <= p
  {
    assert p == rate * q + p % rate;
  }

  lemma ProductGrows(rate: int, a: int, b: int)
    requires rate > 0 && a <= b
    ensures rate * a <= rate * b
  {
    assert rate * (b - a) >= 0 && rate * b == rate * a + rate * (b - a);
  }

  /** The stored number stays between 0 and burst, whatever the clock does. */
  lemma {:induction false} TokensInRange(l: Limits, ts: seq<int>)
    requires l.Valid() && ts != []
    ensures var b := RunBucket(l, ts);
            b.Bucket? && 0.0 <= b.tokens <= l.burst as real && b.last == ts[|ts| - 1] && b.expires == b.last + l.Ttl()
  {
    var before := ts[..|ts| - 1];
    if before != [] {
      TokensInRange(l, before);
      RefillNonNegative(l, Max(0, ts[|ts| - 1] - ts[|ts| - 2]));
    }
  }

  /** Expiry cannot be told from a full refill: a request sees the same level either way. */
  lemma ExpiryUnobservable(l: Limits, ts: seq<int>, now: int)
    requires l.Valid() && ts != []
    ensures var b := RunBucket(l, ts);
            Level(l, Visible(b, now), now) == Level(l, b, now) && After(l, Visible(b, now), now) == After(l, b, now)
  {
    TokensInRange(l, ts);
    var b := RunBucket(l, ts);
    if now > b.expires {
      TtlRefills(l, now - b.last);
    }
  }

  lemma {:induction false} CountPrefix(d: seq<bool>, e: seq<bool>, lo: int, hi: int)
    requires 0 <= lo <= hi <= |d|
    ensures Count(d + e, lo, hi) == Count(d, lo, hi)
    decreases hi
  {
    if lo < hi {
      CountPrefix(d, e, lo, hi - 1);
    }
  }

  /** One more answer and a later end move the room of every earlier window alike. */
  lemma RoomShifts(l: Limits, ts: seq<int>, d: seq<bool>, a: bool, j: int, n: int)
    requires 0 <= j < n < |ts| && |d| == n - 1
    ensures Room(l, ts, d + [a], j, n)
         == Room(l, ts[..n], d, j, n - 1) - (if a then 1.0 else 0.0) + l.Refill(ts[n] - ts[n - 1])
  {
    RefillAdds(l, ts[n - 1] - ts[j], ts[n] - ts[n - 1]);
    CountPrefix(d, [a], j, n - 1);
  }

  /** One request later: take a token if admitted, add the refill, cap at burst. */
  lemma LevelStep(l: Limits, ts: seq<int>)
    requires l.Valid() && NonDecreasing(ts) && |ts| >= 2
    ensures var n := |ts| - 1;
            var earlier := LevelAt(l, ts[..n]);
            LevelAt(l, ts) == Min(l.burst as real, earlier - (if earlier >= 1.0 then 1.0 else 0.0) + l.Refill(ts[n] - ts[n - 1]))
  {
    var n := |ts| - 1;
    assert ts[..n][..n - 1] == ts[..n - 1];
    TokensInRange(l, ts[..n]);
    ExpiryUnobservable(l, ts[..n], ts[n]);
  }

  /** `level` is the smallest room over all windows that end with request n; window `least` attains it. */
  ghost predicate IsLeastRoom(l: Limits, ts: seq<int>, d: seq<bool>, n: int, level: real, least: int)
    requires 0 <= n < |ts| && n <= |d|
  {
    && (forall j :: 0 <= j <= n ==> level <= Room(l, ts, d, j, n))
    && 0 <= least <= n && level == Room(l, ts, d, least, n)
  }

  lemma LeastRoomStep(l: Limits, ts: seq<int>, d: seq<bool>, a: bool, n: int, level: real, k: int) returns (least: int)
    requires 0 < n < |ts| && |d| == n - 1 && IsLeastRoom(l, ts[..n], d, n - 1, level, k)
    ensures var next := Min(l.burst as real, level - (if a then 1.0 else 0.0) + l.Refill(ts[n] - ts[n - 1]));
            IsLeastRoom(l, ts, d + [a], n, next, least)
  {
    var e := d + [a];
    var shift := l.Refill(ts[n] - ts[n - 1]) - (if a then 1.0 else 0.0);
    forall j | 0 <= j < n
      ensures Room(l, ts, e, j, n) == Room(l, ts[..n], d, j, n - 1) + shift
    {
      RoomShifts(l, ts, d, a, j, n);
    }
    assert Room(l, ts, e, n, n) == l.burst as real by { assert l.Refill(0) == 0.0; }
    least := if level + shift >= l.burst as real then n else k;
  }

  /** The level a request finds is the smallest room over all windows that end with it. */
  lemma {:induction false} LevelIsLeastRoom(l: Limits, ts: seq<int>) returns (least: int)
    requires l.Valid() && NonDecreasing(ts) && ts != []
    ensures var n := |ts| - 1;
            IsLeastRoom(l, ts, Answers(l, ts[..n]), n, LevelAt(l, ts), least)
    decreases |ts|
  {
    var n := |ts| - 1;
    if n == 0 {
      least := 0;
      assert l.Refill(0) == 0.0;
      assert Room(l, ts, Answers(l, ts[..n]), 0, 0) == l.burst as real == LevelAt(l, ts);
    } else {
      var before := ts[..n];
      assert before[..n - 1] == ts[..n - 1];
      var k := LevelIsLeastRoom(l, before);
      var d, earlier := Answers(l, ts[..n - 1]), LevelAt(l, before);
      assert IsLeastRoom(l, before, d, n - 1, earlier, k);
      assert Answers(l, before) == d + [earlier >= 1.0];
      LevelStep(l, ts);
      assert LevelAt(l, ts) == Min(l.burst as real, earlier - (if earlier >= 1.0 then 1.0 else 0.0) + l.Refill(ts[n] - ts[n - 1]));
      least := LeastRoomStep(l, ts, d, earlier >= 1.0, n, earlier, k);
    }
  }

  lemma {:induction false} AnswersPrefix(l: Limits, ts: seq<int>, n: int)
    requires l.Valid() && 0 <= n <= |ts|
    ensures Answers(l, ts)[..n] == Answers(l, ts[..n])
    decreases |ts|
  {
    if n < |ts| {
      AnswersPrefix(l, ts[..|ts| - 1], n);
      assert ts[..|ts| - 1][..n] == ts[..n];
    } else {
      assert ts[..n] == ts;
    }
  }

  lemma RoomOfPrefix(l: Limits, ts: seq<int>, d: seq<bool>, j: int, n: int)
    requires 0 <= j <= n < |ts| && |d| == |ts|
    ensures Room(l, ts[..n + 1], d[..n], j, n) == Room(l, ts, d, j, n)
  {
    assert d[..n] + d[n..] == d;
    CountPrefix(d[..n], d[n..], j, n);
  }

  /** The indices of the requests j..n that were admitted. */
  function Admitted(d: seq<bool>, lo: int, hi: int): set<int>
    requires 0 <= lo <= hi <= |d|
  {
    set i | lo <= i < hi && d[i]
  }

  lemma {:induction false} CountAdmitted(d: seq<bool>, lo: int, hi: int)
    requires 0 <= lo <= hi <= |d|
    ensures Count(d, lo, hi) == |Admitted(d, lo, hi)|
    decreases hi
  {
    if lo < hi {
      CountAdmitted(d, lo, hi - 1);
      assert Admitted(d, lo, hi) == Admitted(d, lo, hi - 1) + if d[hi - 1] then {hi - 1} else {};
    }
  }

  /** The limiter is exactly the reference rule: it admits a request if and only if, in every window that ends with it,
      the requests admitted before leave one of the burst and of what the rate earns over the window. */
  lemma AdmitsExactlyWhatFits(l: Limits, ts: seq<int>, n: int)
    requires l.Valid() && NonDecreasing(ts) && 0 <= n < |ts|
    ensures Answers(l, ts)[n] <==> Fits(l, ts, Answers(l, ts), n)
    ensures Answers(l, ts)[n] <==>
            forall j :: 0 <= j <= n ==>
              |Admitted(Answers(l, ts), j, n)| as real + 1.0 <= l.burst as real + (l.rate * (ts[n] - ts[j])) as real / 1000.0
  {
    var d := Answers(l, ts);
    var upto := ts[..n + 1];
    assert upto[..n] == ts[..n];
    AnswersPrefix(l, ts, n);
    AnswersPrefix(l, ts, n + 1);
    assert d[n] == d[..n + 1][n] == Answers(l, upto)[n];
    var least := LevelIsLeastRoom(l, upto);
    forall j | 0 <= j <= n
      ensures Room(l, upto, d[..n], j, n) == Room(l, ts, d, j, n)
    {
      RoomOfPrefix(l, ts, d, j, n);
    }
    forall j | 0 <= j <= n
      ensures Room(l, ts, d, j, n) >= 1.0 <==>
              |Admitted(d, j, n)| as real + 1.0 <= l.burst as real + (l.rate * (ts[n] - ts[j])) as real / 1000.0
    {
      CountAdmitted(d, j, n);
    }
  }

  /** The promised bound: over any window of requests, at most burst plus the rate's share. */
  lemma {:induction false} WindowBound(l: Limits, ts: seq<int>, j: int, n: int, from: int, to: int)
    requires l.Valid() && NonDecreasing(ts) && 0 <= j <= n < |ts|
    requires from <= ts[j] && ts[n] <= to
    ensures Count(Answers(l, ts), j, n + 1) as real <= l.burst as real + l.Refill(to - from)
    ensures |Admitted(Answers(l, ts), j, n + 1)| as real <= l.burst as real + (l.rate * (to - from)) as real / 1000.0
    decreases n
  {
    var d := Answers(l, ts);
    CountAdmitted(d, j, n + 1);
    if d[n] {
      AdmitsExactlyWhatFits(l, ts, n);
      assert Room(l, ts, d, j, n) >= 1.0;
      RefillAdds(l, ts[n] - ts[j], to - ts[n] + (ts[j] - from));
      RefillNonNegative(l, to - ts[n] + (ts[j] - from));
    } else if j < n {
      WindowBound(l, ts, j, n - 1, from, to);
    } else {
      RefillNonNegative(l, to - from);
      assert Count(d, j, n + 1) == Count(d, j, n) == 0;
    }
  }
}
