/**
 Clocks and the token bucket: which clocks keep the bound on admitted requests. The readings of
 a clock are a sequence of times; requests read it one after another.
 */
module Clocks {
  import opened TokenBucket

  /** The forward moves of the clock between two of its readings, added up. */
  function Climb(c: seq<int>, i: int, k: int): int
    requires 0 <= i <= k < |c|
    decreases k
  {
    if i == k then 0 else Climb(c, i, k - 1) + Max(0, c[k] - c[k - 1])
  }

  function Distance(a: int, b: int): int { if a <= b then b - a else a - b }

  /** Between any two readings the clock moves forward no further than the readings are apart. */
  ghost predicate Straight(c: seq<int>) { forall i, k :: 0 <= i <= k < |c| ==> Climb(c, i, k) <= Distance(c[i], c[k]) }

  /** Requests that read the clock one after another: each at some reading, the same one or a later one than before. */
  ghost predicate Reads(c: seq<int>, f: seq<int>)
  {
    (forall m :: 0 <= m < |f| ==> 0 <= f[m] < |c|) && forall m, n :: 0 <= m <= n < |f| ==> f[m] <= f[n]
  }

  function Times(c: seq<int>, f: seq<int>): (ts: seq<int>)
    requires forall m :: 0 <= m < |f| ==> 0 <= f[m] < |c|
    ensures |ts| == |f| && forall m :: 0 <= m < |f| ==> ts[m] == c[f[m]]
  {
    if f == [] then [] else Times(c, f[..|f| - 1]) + [c[f[|f| - 1]]]
  }

  /** How many of the first n requests are admitted and fall into the window. */
  function InWindow(ts: seq<int>, d: seq<bool>, from: int, to: int, n: int): int
    requires 0 <= n <= |ts| == |d|
    decreases n
  {
    if n == 0 then 0 else InWindow(ts, d, from, to, n - 1) + if d[n - 1] && from <= ts[n - 1] <= to then 1 else 0
  }

  /** The bound, for windows of time. */
  ghost predicate Bounded(l: Limits, ts: seq<int>)
    requires l.Valid()
  {
    forall from, to :: from <= to ==>
      InWindow(ts, Answers(l, ts), from, to, |ts|) as real <= l.burst as real + (l.rate * (to - from)) as real / 1000.0
  }

  /** The count is that of the requests in the window that were admitted. */
  lemma {:induction false} InWindowCounts(ts: seq<int>, d: seq<bool>, from: int, to: int, n: nat)
    requires n <= |ts| == |d|
    ensures InWindow(ts, d, from, to, n) == |set i | 0 <= i < n && d[i] && from <= ts[i] <= to|
  {
    if n > 0 {
      InWindowCounts(ts, d, from, to, n - 1);
      var before, now := set i | 0 <= i < n - 1 && d[i] && from <= ts[i] <= to, set i | 0 <= i < n && d[i] && from <= ts[i] <= to;
      assert now == before + if d[n - 1] && from <= ts[n - 1] <= to then {n - 1} else {};
    }
  }

  lemma RefillMonotone(l: Limits, a: int, b: int)
    requires l.Valid() && a <= b
    ensures l.Refill(a) <= l.Refill(b)
  {
    RefillAdds(l, a, b - a);
    RefillNonNegative(l, b - a);
  }

  // ---------------------------------------------------------------- the bucket without its store

  /** What a run leaves in a bucket that never expires, and its answers; `gain` is what a move of the clock earns. */
  datatype Play = Play(tokens: real, answers: seq<bool>)

  function Played(gain: int -> real, burst: real, ts: seq<int>): (p: Play)
    ensures |p.answers| == |ts|
  {
    if ts == [] then Play(burst, [])
    else
      var n := |ts| - 1;
      var p := Played(gain, burst, ts[..n]);
      Request(p, if n == 0 then burst else Min(burst, p.tokens + gain(Max(0, ts[n] - ts[n - 1]))))
  }

  function Request(p: Play, level: real): Play
  {
    Play(if level >= 1.0 then level - 1.0 else level, p.answers + [level >= 1.0])
  }

  /** The limiter does what that bucket does, on any clock. */
  lemma {:induction false} LimiterPlays(l: Limits, ts: seq<int>)
    requires l.Valid()
    ensures Answers(l, ts) == Played(l.Refill, l.burst as real, ts).answers
    ensures ts != [] ==> RunBucket(l, ts).Bucket? && RunBucket(l, ts).tokens == Played(l.Refill, l.burst as real, ts).tokens
  {
    if ts != [] {
      var before, t := ts[..|ts| - 1], ts[|ts| - 1];
      LimiterPlays(l, before);
      TokensInRange(l, ts);
      if before != [] {
        TokensInRange(l, before);
        ExpiryUnobservable(l, before, t);
      }
    }
  }

  lemma PlayedSnoc(gain: int -> real, burst: real, ts: seq<int>, t: int)
    requires ts != []
    ensures var p := Played(gain, burst, ts);
            Played(gain, burst, ts + [t]) == Request(p, Min(burst, p.tokens + gain(Max(0, t - ts[|ts| - 1]))))
  {
    assert (ts + [t])[..|ts|] == ts;
  }

  lemma PlayedFirst(gain: int -> real, burst: real, t: int)
    requires burst >= 1.0
    ensures Played(gain, burst, [t]) == Play(burst - 1.0, [true])
  {
    assert [t][..0] == [];
    assert [] + [true] == [true];
  }

  ghost predicate Gains(gain: int -> real) { gain(0) == 0.0 && forall x :: x >= 0 ==> gain(x) >= 0.0 }

  lemma {:induction false} PlayedInRange(gain: int -> real, burst: real, ts: seq<int>)
    requires Gains(gain) && burst >= 1.0
    ensures 0.0 <= Played(gain, burst, ts).tokens <= burst
  {
    if ts != [] {
      PlayedInRange(gain, burst, ts[..|ts| - 1]);
    }
  }

  /** What the forward moves of the clock earn. */
  function Earned(gain: int -> real, c: seq<int>, i: int, k: int): real
    requires 0 <= i <= k < |c|
    decreases k
  {
    if i == k then 0.0 else Earned(gain, c, i, k - 1) + gain(Max(0, c[k] - c[k - 1]))
  }

  lemma {:induction false} EarnedIsRefill(l: Limits, c: seq<int>, i: int, k: int)
    requires 0 <= i <= k < |c|
    ensures Earned(l.Refill, c, i, k) == l.Refill(Climb(c, i, k))
    decreases k
  {
    if i < k {
      EarnedIsRefill(l, c, i, k - 1);
      RefillAdds(l, Climb(c, i, k - 1), Max(0, c[k] - c[k - 1]));
    } else {
      assert l.Refill(0) == 0.0;
    }
  }

  lemma {:induction false} EarnedPrefix(gain: int -> real, c: seq<int>, t: int, i: int, k: int)
    requires 0 <= i <= k < |c|
    ensures Earned(gain, c + [t], i, k) == Earned(gain, c, i, k)
    decreases k
  {
    if i < k {
      EarnedPrefix(gain, c, t, i, k - 1);
    }
  }

  lemma CountSnoc(d: seq<bool>, a: bool, j: int)
    requires 0 <= j <= |d|
    ensures Count(d + [a], j, |d| + 1) == Count(d, j, |d|) + if a then 1 else 0
  {
    CountPrefix(d, [a], j, |d|);
  }

  /** Consecutive requests are admitted up to burst plus what the forward moves earn. */
  lemma {:induction false} EarnedBound(gain: int -> real, burst: real, ts: seq<int>, j: int)
    requires Gains(gain) && burst >= 1.0 && 0 <= j < |ts|
    ensures var p := Played(gain, burst, ts);
            Count(p.answers, j, |ts|) as real <= burst + Earned(gain, ts, j, |ts| - 1) - p.tokens
    decreases |ts|
  {
    var n := |ts| - 1;
    var before, t := ts[..n], ts[n];
    assert ts == before + [t];
    if before == [] {
      PlayedFirst(gain, burst, t);
      CountSnoc([], true, 0);
      assert [] + [true] == [true];
    } else {
      PlayedSnoc(gain, burst, before, t);
      CountSnoc(Played(gain, burst, before).answers, Played(gain, burst, ts).answers[n], j);
      if j < n {
        EarnedBound(gain, burst, before, j);
        EarnedPrefix(gain, before, t, j, n - 1);
      }
    }
  }

  lemma {:induction false} ClimbNonNegative(c: seq<int>, i: int, k: int)
    requires 0 <= i <= k < |c|
    ensures Climb(c, i, k) >= Max(0, c[k] - c[i])
    decreases k
  {
    if i < k {
      ClimbNonNegative(c, i, k - 1);
    }
  }

  lemma {:induction false} ClimbAdds(c: seq<int>, i: int, j: int, k: int)
    requires 0 <= i <= j <= k < |c|
    ensures Climb(c, i, k) == Climb(c, i, j) + Climb(c, j, k)
    decreases k
  {
    if j < k {
      ClimbAdds(c, i, j, k - 1);
    }
  }

  /** Requests do not see more climb than the clock makes. */
  lemma {:induction false} ClimbOfReads(c: seq<int>, f: seq<int>, m: int, n: int)
    requires Reads(c, f) && 0 <= m <= n < |f|
    ensures Climb(Times(c, f), m, n) <= Climb(c, f[m], f[n])
    decreases n
  {
    if m < n {
      ClimbOfReads(c, f, m, n - 1);
      ClimbAdds(c, f[m], f[n - 1], f[n]);
      ClimbNonNegative(c, f[n - 1], f[n]);
    }
  }

  lemma RefillGains(l: Limits)
    requires l.Valid()
    ensures Gains(l.Refill)
  {
    forall x | x >= 0
      ensures l.Refill(x) >= 0.0
    {
      RefillNonNegative(l, x);
    }
    assert l.Refill(0) == 0.0;
  }

  /** On any clock, consecutive requests are admitted up to burst plus the refill of the forward moves. */
  lemma ClimbBound(l: Limits, ts: seq<int>, j: int, n: int)
    requires l.Valid() && 0 <= j <= n < |ts|
    ensures Count(Answers(l, ts), j, n + 1) as real <= l.burst as real + l.Refill(Climb(ts, j, n))
  {
    var upto, d := ts[..n + 1], Answers(l, ts);
    AnswersPrefix(l, ts, n + 1);
    assert d == Answers(l, upto) + d[n + 1..];
    CountPrefix(Answers(l, upto), d[n + 1..], j, n + 1);
    RefillGains(l);
    LimiterPlays(l, upto);
    EarnedBound(l.Refill, l.burst as real, upto, j);
    PlayedInRange(l.Refill, l.burst as real, upto);
    EarnedIsRefill(l, upto, j, n);
    ClimbOfPart(ts, n + 1, j, n);
  }

  lemma {:induction false} ClimbOfPart(c: seq<int>, m: int, i: int, k: int)
    requires 0 <= i <= k < m <= |c|
    ensures Climb(c[..m], i, k) == Climb(c, i, k)
    decreases k
  {
    if i < k {
      ClimbOfPart(c, m, i, k - 1);
    }
  }

  lemma {:induction false} CountMonotone(d: seq<bool>, lo: int, mid: int, hi: int)
    requires 0 <= lo <= mid <= hi <= |d|
    ensures 0 <= Count(d, lo, mid) <= Count(d, lo, hi)
    decreases hi
  {
    if mid < hi {
      CountMonotone(d, lo, mid, hi - 1);
    } else if lo < hi {
      CountMonotone(d, lo, mid - 1, hi - 1);
    }
  }

  /** The first and the last request in a window, if any: between them lies all that the window counts. */
  lemma {:induction false} Ends(ts: seq<int>, d: seq<bool>, from: int, to: int, n: int) returns (i: int, k: int)
    requires 0 <= n <= |ts| == |d|
    ensures i < 0 ==> InWindow(ts, d, from, to, n) == 0
    ensures i >= 0 ==> i <= k < n && from <= ts[i] <= to && from <= ts[k] <= to && InWindow(ts, d, from, to, n) <= Count(d, i, k + 1)
    decreases n
  {
    if n == 0 {
      i, k := -1, -1;
    } else {
      i, k := Ends(ts, d, from, to, n - 1);
      if from <= ts[n - 1] <= to {
        if i < 0 {
          i := n - 1;
          assert Count(d, n - 1, n - 1) == 0;
        } else {
          CountMonotone(d, i, k + 1, n - 1);
        }
        k := n - 1;
      }
    }
  }

  lemma ClimbWithin(c: seq<int>, f: seq<int>, i: int, k: int, from: int, to: int)
    requires Straight(c) && Reads(c, f) && 0 <= i <= k < |f| && from <= c[f[i]] <= to && from <= c[f[k]] <= to
    ensures Climb(Times(c, f), i, k) <= to - from
  {
    ClimbOfReads(c, f, i, k);
    assert Climb(c, f[i], f[k]) <= Distance(c[f[i]], c[f[k]]);
  }

  /** Every stretch of requests is admitted up to burst plus what its forward moves earn. */
  ghost predicate WithinClimb(gain: int -> real, burst: real, ts: seq<int>, d: seq<bool>)
    requires |d| == |ts|
  {
    forall j, n :: 0 <= j <= n < |ts| ==> Count(d, j, n + 1) as real <= burst + gain(Climb(ts, j, n))
  }

  ghost predicate Monotone(gain: int -> real) { gain(0) >= 0.0 && forall a, b :: a <= b ==> gain(a) <= gain(b) }

  lemma WindowOnStraight(gain: int -> real, burst: real, c: seq<int>, f: seq<int>, d: seq<bool>, from: int, to: int)
    requires Monotone(gain) && burst >= 0.0 && Straight(c) && Reads(c, f) && from <= to && |d| == |f|
    requires WithinClimb(gain, burst, Times(c, f), d)
    ensures InWindow(Times(c, f), d, from, to, |f|) as real <= burst + gain(to - from)
  {
    var ts := Times(c, f);
    var i, k := Ends(ts, d, from, to, |ts|);
    assert gain(0) <= gain(to - from);
    if i >= 0 {
      ClimbWithin(c, f, i, k, from, to);
      assert gain(Climb(ts, i, k)) <= gain(to - from);
    }
  }

  lemma StraightBounded(l: Limits, c: seq<int>, f: seq<int>)
    requires l.Valid() && Straight(c) && Reads(c, f)
    ensures Bounded(l, Times(c, f))
  {
    var ts := Times(c, f);
    forall j, n | 0 <= j <= n < |ts|
      ensures Count(Answers(l, ts), j, n + 1) as real <= l.burst as real + l.Refill(Climb(ts, j, n))
    {
      ClimbBound(l, ts, j, n);
    }
    RefillIsMonotone(l);
    forall from, to | from <= to
      ensures InWindow(ts, Answers(l, ts), from, to, |ts|) as real <= l.burst as real + l.Refill(to - from)
    {
      WindowOnStraight(l.Refill, l.burst as real, c, f, Answers(l, ts), from, to);
    }
  }

  lemma RefillIsMonotone(l: Limits)
    requires l.Valid()
    ensures Monotone(l.Refill)
  {
    RefillNonNegative(l, 0);
    forall a, b | a <= b
      ensures l.Refill(a) <= l.Refill(b)
    {
      RefillMonotone(l, a, b);
    }
  }

  // ---------------------------------------------------------------- a clock that is not straight

  lemma {:induction false} InWindowPrefix(ts: seq<int>, d: seq<bool>, t: int, a: bool, from: int, to: int, n: int)
    requires 0 <= n <= |ts| == |d|
    ensures InWindow(ts + [t], d + [a], from, to, n) == InWindow(ts, d, from, to, n)
    decreases n
  {
    if n > 0 {
      InWindowPrefix(ts, d, t, a, from, to, n - 1);
    }
  }

  lemma InWindowSnoc(ts: seq<int>, d: seq<bool>, t: int, a: bool, from: int, to: int)
    requires |ts| == |d|
    ensures InWindow(ts + [t], d + [a], from, to, |ts| + 1) == InWindow(ts, d, from, to, |ts|) + if a && from <= t <= to then 1 else 0
  {
    InWindowPrefix(ts, d, t, a, from, to, |ts|);
  }

  /** m times t. */
  function Repeat(t: int, m: nat): (r: seq<int>)
    ensures |r| == m && forall n :: 0 <= n < m ==> r[n] == t
  {
    if m == 0 then [] else Repeat(t, m - 1) + [t]
  }

  /** After the burst was spent: `earned` came in since, `a` requests were admitted, and at most `away` of them outside
      the window. */
  ghost predicate Spent(p: Play, ts: seq<int>, from: int, to: int, burst: int, earned: real, a: int, away: int)
  {
    && ts != [] && |p.answers| == |ts| && a >= 0 && p.tokens == earned - a as real
    && InWindow(ts, p.answers, from, to, |ts|) >= burst + a - away
  }

  /** The burst is spent at one moment. */
  lemma {:induction false} SpendBurst(gain: int -> real, burst: int, t: int, m: nat, from: int, to: int)
    requires Gains(gain) && 1 <= m <= burst && from <= t <= to
    ensures var p := Played(gain, burst as real, Repeat(t, m));
            p.tokens == (burst - m) as real && InWindow(Repeat(t, m), p.answers, from, to, m) == m
    decreases m
  {
    if m == 1 {
      assert Repeat(t, 1) == [] + [t] == [t];
      PlayedFirst(gain, burst as real, t);
      InWindowSnoc([], [], t, true, from, to);
      assert [] + [true] == [true];
    } else {
      var ts := Repeat(t, m - 1);
      SpendBurst(gain, burst, t, m - 1, from, to);
      PlayedSnoc(gain, burst as real, ts, t);
      InWindowSnoc(ts, Played(gain, burst as real, ts).answers, t, true, from, to);
    }
  }

  /** The clock moves and one request follows. */
  lemma SpentMoves(gain: int -> real, burst: int, ts: seq<int>, from: int, to: int, earned: real, a: int, away: int, t: int)
    returns (more: int)
    requires Spent(Played(gain, burst as real, ts), ts, from, to, burst, earned, a, away)
    requires earned + gain(Max(0, t - ts[|ts| - 1])) <= burst as real
    ensures Spent(Played(gain, burst as real, ts + [t]), ts + [t], from, to, burst,
                  earned + gain(Max(0, t - ts[|ts| - 1])), more, away + 1)
  {
    var p, q := Played(gain, burst as real, ts), Played(gain, burst as real, ts + [t]);
    PlayedSnoc(gain, burst as real, ts, t);
    InWindowSnoc(ts, p.answers, t, q.answers[|ts|], from, to);
    more := if q.answers[|ts|] then a + 1 else a;
  }

  lemma SpentStays(gain: int -> real, burst: int, us: seq<int>, from: int, to: int, earned: real, a: int, away: int, t: int)
    returns (more: int)
    requires Gains(gain) && Spent(Played(gain, burst as real, us), us, from, to, burst, earned, a, away)
    requires us[|us| - 1] == t && from <= t <= to && earned <= burst as real
    ensures var p := Played(gain, burst as real, us + [t]);
            Spent(p, us + [t], from, to, burst, earned, more, away) && (more == a + 1 || (more == a && p.tokens < 1.0))
    ensures Played(gain, burst as real, us).tokens < 1.0 ==> Played(gain, burst as real, us + [t]).tokens < 1.0
  {
    var p, q := Played(gain, burst as real, us), Played(gain, burst as real, us + [t]);
    PlayedSnoc(gain, burst as real, us, t);
    InWindowSnoc(us, p.answers, t, q.answers[|us|], from, to);
    more := if q.answers[|us|] then a + 1 else a;
  }

  /** Requests at one moment of the window, until what was earned is spent. */
  lemma {:induction false} SpendRest(gain: int -> real, burst: int, ts: seq<int>, from: int, to: int, earned: real, a: int, away: int,
                                     t: int, m: nat)
    returns (more: int)
    requires Gains(gain) && Spent(Played(gain, burst as real, ts), ts, from, to, burst, earned, a, away)
    requires ts[|ts| - 1] == t && from <= t <= to && earned <= burst as real
    ensures var us := ts + Repeat(t, m);
            var p := Played(gain, burst as real, us);
            us[|us| - 1] == t && Spent(p, us, from, to, burst, earned, more, away) && (more >= m || p.tokens < 1.0)
    decreases m
  {
    if m == 0 {
      assert ts + Repeat(t, 0) == ts;
      more := a;
    } else {
      var b := SpendRest(gain, burst, ts, from, to, earned, a, away, t, m - 1);
      assert ts + Repeat(t, m - 1) + [t] == ts + Repeat(t, m);
      more := SpentStays(gain, burst, ts + Repeat(t, m - 1), from, to, earned, b, away, t);
    }
  }

  /** The reading i, m times, and every later one up to j once. */
  function Walk(i: int, j: int, m: nat): (f: seq<int>)
    requires i <= j
    ensures (forall n :: 0 <= n < |f| ==> i <= f[n] <= j) && forall n, k :: 0 <= n <= k < |f| ==> f[n] <= f[k]
    decreases j - i
  {
    if i == j then Repeat(i, m) else Walk(i, j - 1, m) + [j]
  }

  /** The times of these requests. */
  function WalkTimes(c: seq<int>, i: int, j: int, m: nat): seq<int>
    requires 0 <= i <= j < |c|
    decreases j
  {
    if i == j then Repeat(c[i], m) else WalkTimes(c, i, j - 1, m) + [c[j]]
  }

  lemma TimesSnoc(c: seq<int>, f: seq<int>, i: int)
    requires Reads(c, f) && 0 <= i < |c| && forall m :: 0 <= m < |f| ==> f[m] <= i
    ensures Times(c, f + [i]) == Times(c, f) + [c[i]]
  {
  }

  lemma TimesRepeat(c: seq<int>, f: seq<int>, i: int, m: nat)
    requires Reads(c, f) && 0 <= i < |c| && forall n :: 0 <= n < |f| ==> f[n] <= i
    ensures Reads(c, f + Repeat(i, m)) && Times(c, f + Repeat(i, m)) == Times(c, f) + Repeat(c[i], m)
  {
  }

  lemma {:induction false} TimesOfWalk(c: seq<int>, i: int, j: int, m: nat)
    requires 0 <= i <= j < |c|
    ensures Times(c, Walk(i, j, m)) == WalkTimes(c, i, j, m)
    decreases j
  {
    if i == j {
      assert [] + Repeat(i, m) == Repeat(i, m) && [] + Repeat(c[i], m) == Repeat(c[i], m);
      TimesRepeat(c, [], i, m);
    } else {
      TimesOfWalk(c, i, j - 1, m);
      TimesSnoc(c, Walk(i, j - 1, m), j);
    }
  }

  lemma {:induction false} EarnedGrows(gain: int -> real, c: seq<int>, i: int, j: int, k: int)
    requires Gains(gain) && 0 <= i <= j <= k < |c|
    ensures 0.0 <= Earned(gain, c, i, j) <= Earned(gain, c, i, k)
    decreases k
  {
    if j < k {
      EarnedGrows(gain, c, i, j, k - 1);
    } else if i < k {
      EarnedGrows(gain, c, i, k - 1, k - 1);
    }
  }

  /** The requests of such a walk. */
  ghost predicate WalkedTo(gain: int -> real, burst: nat, c: seq<int>, i: int, j: int, ts: seq<int>, from: int, to: int, a: int)
    requires 0 <= i <= j < |c|
  {
    Spent(Played(gain, burst as real, ts), ts, from, to, burst, Earned(gain, c, i, j), a, j - i) && ts[|ts| - 1] == c[j]
  }

  lemma WalkStarts(gain: int -> real, burst: nat, c: seq<int>, i: int, from: int, to: int)
    requires Gains(gain) && burst > 0 && 0 <= i < |c| && from <= c[i] <= to
    ensures WalkedTo(gain, burst, c, i, i, Repeat(c[i], burst), from, to, 0)
  {
    SpendBurst(gain, burst, c[i], burst, from, to);
  }

  lemma WalkGoesOn(gain: int -> real, burst: nat, c: seq<int>, i: int, j: int, ts: seq<int>, from: int, to: int, a: int)
    returns (more: int)
    requires 0 <= i < j < |c| && Earned(gain, c, i, j) <= burst as real
    requires WalkedTo(gain, burst, c, i, j - 1, ts, from, to, a)
    ensures WalkedTo(gain, burst, c, i, j, ts + [c[j]], from, to, more)
  {
    more := SpentMoves(gain, burst, ts, from, to, Earned(gain, c, i, j - 1), a, j - 1 - i, c[j]);
  }

  /** The burst is spent at reading i, and one request follows at every reading up to j. */
  lemma {:induction false} WalkSpent(gain: int -> real, burst: nat, c: seq<int>, i: int, j: int, k: int, from: int, to: int) returns (a: int)
    requires Gains(gain) && burst > 0 && 0 <= i <= j <= k < |c| && from <= c[i] <= to && Earned(gain, c, i, k) <= burst as real
    ensures WalkedTo(gain, burst, c, i, j, WalkTimes(c, i, j, burst), from, to, a)
    decreases j
  {
    if i == j {
      WalkStarts(gain, burst, c, i, from, to);
      a := 0;
    } else {
      var b := WalkSpent(gain, burst, c, i, j - 1, k, from, to);
      EarnedGrows(gain, c, i, j, k);
      a := WalkGoesOn(gain, burst, c, i, j, WalkTimes(c, i, j - 1, burst), from, to, b);
    }
  }

  /** If the clock earns a second burst between two readings in the window, the window gets both, less one request for
      every reading between them. */
  lemma TwoBursts(gain: int -> real, burst: nat, c: seq<int>, i: int, k: int, from: int, to: int) returns (ts: seq<int>)
    requires Gains(gain) && burst > 0 && 0 <= i <= k < |c| && from <= c[i] <= to && from <= c[k] <= to
    requires Earned(gain, c, i, k) == burst as real
    ensures ts == WalkTimes(c, i, k, burst) + Repeat(c[k], burst)
    ensures InWindow(ts, Played(gain, burst as real, ts).answers, from, to, |ts|) >= 2 * burst - (k - i)
  {
    var a := WalkSpent(gain, burst, c, i, k, k, from, to);
    var walk := WalkTimes(c, i, k, burst);
    ts := walk + Repeat(c[k], burst);
    var more := SpendRest(gain, burst, walk, from, to, burst as real, a, k - i, c[k], burst);
  }

  /** Limits under which the climb earns a burst, and the window's width much less. */
  lemma BreaksFor(l: Limits, c: seq<int>, i: int, k: int, from: int, to: int, share: int) returns (f: seq<int>)
    requires l.Valid() && 0 <= i <= k < |c| && from <= c[i] <= to && from <= c[k] <= to
    requires Earned(l.Refill, c, i, k) == l.burst as real && l.Refill(to - from) == share as real && l.burst > share + (k - i)
    ensures Reads(c, f) && !Bounded(l, Times(c, f))
  {
    RefillGains(l);
    var ts := TwoBursts(l.Refill, l.burst, c, i, k, from, to);
    f := Walk(i, k, l.burst) + Repeat(k, l.burst);
    TimesOfWalk(c, i, k, l.burst);
    TimesRepeat(c, Walk(i, k, l.burst), k, l.burst);
    LimiterPlays(l, ts);
    assert InWindow(ts, Answers(l, ts), from, to, |ts|) as real > l.burst as real + l.Refill(to - from);
  }

  lemma NotNegative(a: int, b: int)
    requires a >= 0 && b >= 0
    ensures a * b >= 0
  {
  }

  lemma Excess(g: int, climb: int, width: int)
    requires g > 0 && climb > width >= 0
    ensures g * climb >= g * width + g && g * width >= 0
  {
    var more := climb - width - 1;
    NotNegative(g, more);
    NotNegative(g, width);
    assert g * (more + width + 1) == g * more + g * width + g;
  }

  /** On a clock that moves forward further than two readings are apart, some limits admit more than the bound. */
  lemma CrookedBreaks(c: seq<int>, i: int, k: int) returns (l: Limits, f: seq<int>)
    requires 0 <= i <= k < |c| && Climb(c, i, k) > Distance(c[i], c[k])
    ensures l.Valid() && Reads(c, f) && !Bounded(l, Times(c, f))
  {
    var g, climb, width := k - i + 1, Climb(c, i, k), Distance(c[i], c[k]);
    var from, to := if c[i] <= c[k] then c[i] else c[k], if c[i] <= c[k] then c[k] else c[i];
    Excess(g, climb, width);
    var burst, share := g * climb, g * width;
    l := Limits(1000 * g, burst);
    EarnedIsRefill(l, c, i, k);
    WholeRefill(g, burst, climb);
    WholeRefill(g, burst, width);
    assert to - from == width;
    f := BreaksFor(l, c, i, k, from, to, share);
  }

  lemma WholeRefill(g: int, burst: int, dt: int)
    ensures Limits(1000 * g, burst).Refill(dt) == (g * dt) as real
  {
    assert 1000 * g * dt == 1000 * (g * dt);
  }

  /** Which clocks keep the bound: for all limits and all requests that read the clock one after another, exactly the
      clocks that between any two readings move forward no further than the readings are apart. */
  lemma BoundExactly(c: seq<int>)
    ensures (forall l: Limits, f: seq<int> :: l.Valid() && Reads(c, f) ==> Bounded(l, Times(c, f))) <==> Straight(c)
  {
    if Straight(c) {
      forall l: Limits, f: seq<int> | l.Valid() && Reads(c, f)
        ensures Bounded(l, Times(c, f))
      {
        StraightBounded(l, c, f);
      }
    } else {
      var i, k :| 0 <= i <= k < |c| && Climb(c, i, k) > Distance(c[i], c[k]);
      var l, f := CrookedBreaks(c, i, k);
    }
  }

  /** A clock that never steps back is straight. */
  lemma {:induction false} ForwardIsStraight(c: seq<int>, i: int, k: int)
    requires NonDecreasing(c) && 0 <= i <= k < |c|
    ensures Climb(c, i, k) == c[k] - c[i]
    decreases k
  {
    if i < k {
      ForwardIsStraight(c, i, k - 1);
    }
  }

  /** A clock that steps back and later shows an earlier reading again, or a later one, is not. */
  lemma BackwardClockBreaksBound(c: seq<int>, i: int, j: int, k: int)
    requires 0 <= i < j < k < |c| && c[j] < c[i] <= c[k]
    ensures !Straight(c) && exists l: Limits, f: seq<int> :: l.Valid() && Reads(c, f) && !Bounded(l, Times(c, f))
  {
    ClimbAdds(c, i, j, k);
    ClimbNonNegative(c, i, j);
    ClimbNonNegative(c, j, k);
    assert Climb(c, i, k) > Distance(c[i], c[k]);
    BoundExactly(c);
  }
}
