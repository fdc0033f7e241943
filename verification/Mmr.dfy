/**
 Maximal marginal relevance: a greedy, diverse choice of k candidates. The candidates are
 sorted in place, and every pick is removed from the same array by shifting the rest.
 */
module Mmr {
  import opened Similarity

  type Measure = (Candidate, Candidate) -> real

  /** The score that a search starts from: only a better one is ever picked. */
  const FLOOR := -1_000_000_000_000_000_000.0

  function Weight(balance: real): real { if balance <= 0.0 || balance >= 1.0 then 0.7 else balance }

  /** The largest similarity to a chosen candidate, and at least 0. */
  function MaxSim(c: Candidate, chosen: seq<Candidate>, sim: Measure): real
  {
    if chosen == [] then 0.0
    else
      var m, s := MaxSim(c, chosen[..|chosen| - 1], sim), sim(c, chosen[|chosen| - 1]);
      if s > m then s else m
  }

  function Weighed(relevance: real, maxSim: real, balance: real): real { balance * relevance - (1.0 - balance) * maxSim }

  function Score(c: Candidate, chosen: seq<Candidate>, balance: real, sim: Measure): real
  {
    Weighed(c.relevance, MaxSim(c, chosen, sim), balance)
  }

  /** The pick among `rest`: index 0, unless some score beats the floor; then the first of the best. */
  ghost predicate IsPick(i: int, rest: seq<Candidate>, chosen: seq<Candidate>, balance: real, sim: Measure)
  {
    && 0 <= i < |rest|
    && var best := Score(rest[i], chosen, balance, sim);
       if best > FLOOR then
         (forall j :: 0 <= j < |rest| ==> Score(rest[j], chosen, balance, sim) <= best)
         && forall j :: 0 <= j < i ==> Score(rest[j], chosen, balance, sim) < best
       else i == 0 && forall j :: 0 <= j < |rest| ==> Score(rest[j], chosen, balance, sim) <= FLOOR
  }

  ghost predicate Ranked(s: seq<Candidate>)
  {
    forall i, j :: 0 <= i < j < |s| ==> s[i].relevance >= s[j].relevance
  }

  function Without(s: seq<Candidate>, i: int): seq<Candidate>
    requires 0 <= i < |s|
  {
    s[..i] + s[i + 1..]
  }

  /** Chosen and left-over candidates. */
  datatype Split = Split(chosen: seq<Candidate>, rest: seq<Candidate>)

  /** Start with the head of the ranking, then take the candidates at `picks`, each an index into what is left. */
  function Choose(ranked: seq<Candidate>, picks: seq<int>): Split
    requires ranked != []
  {
    if picks == [] then Split(ranked[..1], ranked[1..])
    else
      var s, i := Choose(ranked, picks[..|picks| - 1]), picks[|picks| - 1];
      if 0 <= i < |s.rest| then Split(s.chosen + [s.rest[i]], Without(s.rest, i)) else s
  }

  /** What the shifting leaves behind the remaining candidates: of every removal the entry that was last then, the
      latest removal first. */
  function Stale(ranked: seq<Candidate>, picks: seq<int>): seq<Candidate>
    requires ranked != []
  {
    if picks == [] then []
    else
      var n := |picks| - 1;
      var rest := Choose(ranked, picks[..n]).rest;
      (if 0 <= picks[n] < |rest| then [rest[|rest| - 1]] else []) + Stale(ranked, picks[..n])
  }

  /** Every pick is the greedy one. */
  ghost predicate Greedy(ranked: seq<Candidate>, picks: seq<int>, balance: real, sim: Measure)
    requires ranked != []
  {
    picks == [] ||
    (var n := |picks| - 1;
     var s := Choose(ranked, picks[..n]);
     Greedy(ranked, picks[..n], balance, sim) && IsPick(picks[n], s.rest, s.chosen, balance, sim))
  }

  // ---------------------------------------------------------------- in place

  lemma InsertedAt(s: seq<Candidate>, i: nat, c: Candidate, j: nat)
    requires i <= |s| && j <= |s|
    ensures (s[..i] + [c] + s[i..])[j] == if j < i then s[j] else if j == i then c else s[j - 1]
  {
  }

  lemma InsertedRanked(s: seq<Candidate>, i: nat, c: Candidate)
    requires Ranked(s) && i <= |s|
    requires i > 0 ==> s[i - 1].relevance >= c.relevance
    requires i < |s| ==> c.relevance >= s[i].relevance
    ensures Ranked(s[..i] + [c] + s[i..])
  {
    var r := s[..i] + [c] + s[i..];
    forall j, k | 0 <= j < k < |r|
      ensures r[j].relevance >= r[k].relevance
    {
      InsertedAt(s, i, c, j);
      InsertedAt(s, i, c, k);
    }
  }

  lemma InsertedSame(s: seq<Candidate>, i: nat, c: Candidate)
    requires i <= |s|
    ensures multiset(s[..i] + [c] + s[i..]) == multiset(s) + multiset{c}
  {
    assert s == s[..i] + s[i..];
  }

  method InsertByRelevance(c: Candidate, s: seq<Candidate>) returns (r: seq<Candidate>)
    requires Ranked(s)
    ensures Ranked(r) && multiset(r) == multiset(s) + multiset{c}
  {
    var i := 0;
    while i < |s| && s[i].relevance > c.relevance
      invariant 0 <= i <= |s| && (i > 0 ==> s[i - 1].relevance > c.relevance)
    {
      i := i + 1;
    }
    r := s[..i] + [c] + s[i..];
    InsertedRanked(s, i, c);
    InsertedSame(s, i, c);
  }

  method Sorted(cands: seq<Candidate>) returns (s: seq<Candidate>)
    ensures Ranked(s) && multiset(s) == multiset(cands) && |s| == |cands|
  {
    s := [];
    for i := 0 to |cands|
      invariant Ranked(s) && multiset(s) == multiset(cands[..i])
    {
      assert cands[..i + 1] == cands[..i] + [cands[i]];
      s := InsertByRelevance(cands[i], s);
    }
    assert cands[..|cands|] == cands;
    assert |s| == |multiset(s)|;
  }

  /** Some sort by falling relevance; callers know nothing about the order of equals. */
  method SortByRelevance(a: array<Candidate>)
    modifies a
    ensures Ranked(a[..]) && multiset(a[..]) == old(multiset(a[..]))
  {
    var s := Sorted(a[..]);
    for i := 0 to a.Length
      invariant a[..i] == s[..i]
    {
      a[i] := s[i];
    }
    assert a[..] == a[..a.Length] == s[..a.Length] == s;
  }

  /** Search `rest` for the pick. */
  method Best(rest: seq<Candidate>, chosen: seq<Candidate>, balance: real, sim: Measure) returns (bestIdx: int)
    requires rest != []
    ensures IsPick(bestIdx, rest, chosen, balance, sim)
  {
    bestIdx := 0;
    var bestScore := FLOOR;
    for i := 0 to |rest|
      invariant 0 <= bestIdx < |rest| && bestScore >= FLOOR
      invariant forall j :: 0 <= j < i ==> Score(rest[j], chosen, balance, sim) <= bestScore
      invariant bestScore > FLOOR ==> bestIdx < i && Score(rest[bestIdx], chosen, balance, sim) == bestScore
      invariant bestScore > FLOOR ==> forall j :: 0 <= j < bestIdx ==> Score(rest[j], chosen, balance, sim) < bestScore
      invariant bestScore == FLOOR ==> bestIdx == 0
    {
      var maxSim := 0.0;
      for p := 0 to |chosen|
        invariant maxSim == MaxSim(rest[i], chosen[..p], sim)
      {
        assert chosen[..p + 1][..p] == chosen[..p];
        var s := sim(rest[i], chosen[p]);
        if s > maxSim {
          maxSim := s;
        }
      }
      assert chosen[..|chosen|] == chosen;
      var score := Weighed(rest[i].relevance, maxSim, balance);
      if score > bestScore {
        bestScore := score;
        bestIdx := i;
      }
    }
  }

  /** s with element i removed and everything before j shifted by one; s[j] stands twice. */
  function Shifted(s: seq<Candidate>, i: nat, j: nat): (r: seq<Candidate>)
    requires i <= j < |s|
    ensures |r| == |s|
  {
    s[..i] + s[i + 1..j + 1] + s[j..]
  }

  lemma ShiftStep(s: seq<Candidate>, i: nat, j: nat)
    requires i <= j && j + 1 < |s|
    ensures Shifted(s, i, j)[j + 1] == s[j + 1] && Shifted(s, i, j)[j := s[j + 1]] == Shifted(s, i, j + 1)
  {
  }

  lemma ShiftDone(s: seq<Candidate>, lo: nat, hi: nat, i: nat)
    requires lo + i < hi <= |s|
    ensures var r := Shifted(s, lo + i, hi - 1);
            r[lo..hi - 1] == Without(s[lo..hi], i) && r[..lo] == s[..lo] && r[hi - 1..] == s[hi - 1..]
  {
  }

  /** Remove element lo + i of a[lo..hi] by shifting what follows; a[hi - 1] stays behind. */
  method RemoveAt(a: array<Candidate>, lo: nat, hi: nat, i: nat)
    requires lo + i < hi <= a.Length
    modifies a
    ensures var s, r := old(a[..]), a[..];
            r[lo..hi - 1] == Without(s[lo..hi], i) && r[..lo] == s[..lo] && r[hi - 1..] == s[hi - 1..]
  {
    ghost var s := a[..];
    assert s == Shifted(s, lo + i, lo + i);
    for j := lo + i to hi - 1
      invariant a[..] == Shifted(s, lo + i, j)
    {
      ShiftStep(s, lo + i, j);
      assert a[j + 1] == a[..][j + 1];
      a[j] := a[j + 1];
    }
    ShiftDone(s, lo, hi, i);
  }

  /** The state of the loop: the picks so far are greedy, and leave these candidates chosen and these over. */
  ghost predicate Reached(ranked: seq<Candidate>, picks: seq<int>, chosen: seq<Candidate>, rest: seq<Candidate>,
                          balance: real, sim: Measure)
  {
    ranked != [] && Greedy(ranked, picks, balance, sim) && Choose(ranked, picks) == Split(chosen, rest)
  }

  lemma Picked(ranked: seq<Candidate>, picks: seq<int>, chosen: seq<Candidate>, rest: seq<Candidate>,
               balance: real, sim: Measure, i: int)
    requires Reached(ranked, picks, chosen, rest, balance, sim) && IsPick(i, rest, chosen, balance, sim)
    ensures Reached(ranked, picks + [i], chosen + [rest[i]], Without(rest, i), balance, sim)
  {
    assert (picks + [i])[..|picks|] == picks;
  }

  lemma PickedStale(ranked: seq<Candidate>, picks: seq<int>, rest: seq<Candidate>, i: int)
    requires ranked != [] && Choose(ranked, picks).rest == rest && 0 <= i < |rest|
    ensures Stale(ranked, picks + [i]) == [rest[|rest| - 1]] + Stale(ranked, picks)
  {
    assert (picks + [i])[..|picks|] == picks;
  }

  /** One round: the pick leaves the candidates by shifting, and the last of them stays behind once more. */
  method Take(cands: array<Candidate>, hi: nat, chosen: seq<Candidate>, weight: real, sim: Measure)
    returns (bestIdx: int, pick: Candidate)
    requires 1 < hi <= cands.Length
    modifies cands
    ensures var rest := old(cands[1..hi]);
            && IsPick(bestIdx, rest, chosen, weight, sim) && pick == rest[bestIdx]
            && cands[1..hi - 1] == Without(rest, bestIdx)
            && cands[hi - 1..] == [rest[|rest| - 1]] + old(cands[hi..])
    ensures cands[..1] == old(cands[..1])
  {
    bestIdx := Best(cands[1..hi], chosen, weight, sim);
    pick := cands[1 + bestIdx];
    ghost var s := cands[..];
    assert s[1..hi] == cands[1..hi] && s[..1] == cands[..1];
    assert s[hi - 1..] == [cands[1..hi][hi - 2]] + cands[hi..];
    RemoveAt(cands, 1, hi, bestIdx);
    ghost var r := cands[..];
    assert r[1..hi - 1] == cands[1..hi - 1] && r[hi - 1..] == cands[hi - 1..] && r[..1] == cands[..1];
  }

  /** The body of the loop: one more greedy pick, one more stale cell. */
  method Round(cands: array<Candidate>, hi: nat, chosen: seq<Candidate>, weight: real, sim: Measure,
               ghost ranked: seq<Candidate>, ghost picks: seq<int>)
    returns (pick: Candidate, ghost bestIdx: int)
    requires 1 < hi <= cands.Length && Reached(ranked, picks, chosen, cands[1..hi], weight, sim)
    requires cands[hi..] == Stale(ranked, picks)
    modifies cands
    ensures Reached(ranked, picks + [bestIdx], chosen + [pick], cands[1..hi - 1], weight, sim)
    ensures cands[hi - 1..] == Stale(ranked, picks + [bestIdx]) && cands[..1] == old(cands[..1])
  {
    ghost var rest := cands[1..hi];
    bestIdx, pick := Take(cands, hi, chosen, weight, sim);
    Picked(ranked, picks, chosen, rest, weight, sim, bestIdx);
    PickedStale(ranked, picks, rest, bestIdx);
  }

  /** The loop of the choice: picks until k are chosen, shifting the array. */
  method PickLoop(cands: array<Candidate>, k: int, weight: real, sim: Measure) returns (chosen: seq<Candidate>, ghost picks: seq<int>)
    requires 0 < k < cands.Length
    modifies cands
    ensures Reached(old(cands[..]), picks, chosen, cands[1..cands.Length + 1 - k], weight, sim)
    ensures |picks| == k - 1 && |chosen| == k
    ensures cands[..1] == old(cands[..1]) && cands[cands.Length + 1 - k..] == Stale(old(cands[..]), picks)
  {
    ghost var ranked := cands[..];
    chosen, picks := [cands[0]], [];
    var hi := cands.Length;
    assert ranked[..1] == chosen && ranked[1..] == cands[1..hi];
    while |chosen| < k && hi > 1
      invariant |chosen| == |picks| + 1 <= k && hi == cands.Length + 1 - |chosen|
      invariant Reached(ranked, picks, chosen, cands[1..hi], weight, sim)
      invariant cands[..1] == old(cands[..1]) && cands[hi..] == Stale(ranked, picks)
    {
      var pick;
      ghost var bestIdx;
      pick, bestIdx := Round(cands, hi, chosen, weight, sim, ranked, picks);
      hi := hi - 1;
      chosen, picks := chosen + [pick], picks + [bestIdx];
    }
  }

  /** The choice. Outside 0 < k < n the candidates come back as they are. Otherwise `ranked` is the sorted order: the
      result is the greedy choice from it, and the array holds its head, the unchosen candidates and the stale ones. */
  method MaximalMarginalRelevance(cands: array<Candidate>, k: int, balance: real, sim: Measure)
    returns (chosen: seq<Candidate>, ghost ranked: seq<Candidate>, ghost picks: seq<int>)
    modifies cands
    ensures k <= 0 || k >= cands.Length ==> chosen == cands[..] == old(cands[..])
    ensures 0 < k < cands.Length ==>
              && ranked != [] && Ranked(ranked) && multiset(ranked) == old(multiset(cands[..]))
              && Greedy(ranked, picks, Weight(balance), sim) && |picks| == k - 1 && |chosen| == k
              && var s := Choose(ranked, picks);
                 chosen == s.chosen && cands[..1] == ranked[..1] && |s.rest| == cands.Length - k
                 && cands[1..cands.Length + 1 - k] == s.rest && cands[cands.Length + 1 - k..] == Stale(ranked, picks)
  {
    ranked, picks := [], [];
    if k <= 0 || k >= cands.Length {
      return cands[..], ranked, picks;
    }
    var weight := if balance <= 0.0 || balance >= 1.0 then 0.7 else balance;
    SortByRelevance(cands);
    ranked := cands[..];
    chosen, picks := PickLoop(cands, k, weight, sim);
  }

  // ---------------------------------------------------------------- what a greedy choice is

  /** Nothing is lost or doubled: chosen and left-over candidates together are the ranked ones. */
  lemma {:induction false} ChoiceConserves(ranked: seq<Candidate>, picks: seq<int>)
    requires ranked != []
    ensures var s := Choose(ranked, picks);
            multiset(s.chosen) + multiset(s.rest) == multiset(ranked) && s.chosen != [] && s.chosen[0] == ranked[0]
  {
    if picks == [] {
      assert ranked == ranked[..1] + ranked[1..];
    } else {
      var s, i := Choose(ranked, picks[..|picks| - 1]), picks[|picks| - 1];
      ChoiceConserves(ranked, picks[..|picks| - 1]);
      if 0 <= i < |s.rest| {
        assert s.rest == s.rest[..i] + [s.rest[i]] + s.rest[i + 1..];
      }
    }
  }

  /** The choice after n picks is the first n + 1 entries, and pick n then is the greedy one. */
  lemma {:induction false} GreedyPrefix(ranked: seq<Candidate>, picks: seq<int>, balance: real, sim: Measure, n: nat)
    requires ranked != [] && Greedy(ranked, picks, balance, sim) && n <= |picks|
    ensures |Choose(ranked, picks).chosen| == |picks| + 1
    ensures Choose(ranked, picks[..n]).chosen == Choose(ranked, picks).chosen[..n + 1]
    ensures n < |picks| ==>
              var s := Choose(ranked, picks[..n]);
              IsPick(picks[n], s.rest, s.chosen, balance, sim) && Choose(ranked, picks).chosen[n + 1] == s.rest[picks[n]]
    decreases |picks|
  {
    if n == |picks| {
      assert picks[..n] == picks;
      ChoiceLength(ranked, picks, balance, sim);
    } else {
      var before := picks[..|picks| - 1];
      GreedyPrefix(ranked, before, balance, sim, n);
      ChosenGrows(ranked, picks, balance, sim);
      assert before[..n] == picks[..n];
    }
  }

  lemma ChosenGrows(ranked: seq<Candidate>, picks: seq<int>, balance: real, sim: Measure)
    requires ranked != [] && picks != [] && Greedy(ranked, picks, balance, sim)
    ensures var before, i := picks[..|picks| - 1], picks[|picks| - 1];
            var s := Choose(ranked, before);
            && Greedy(ranked, before, balance, sim) && IsPick(i, s.rest, s.chosen, balance, sim)
            && Choose(ranked, picks).chosen == s.chosen + [s.rest[i]]
  {
  }

  lemma {:induction false} ChoiceLength(ranked: seq<Candidate>, picks: seq<int>, balance: real, sim: Measure)
    requires ranked != [] && Greedy(ranked, picks, balance, sim)
    ensures |Choose(ranked, picks).chosen| == |picks| + 1
  {
    if picks != [] {
      ChosenGrows(ranked, picks, balance, sim);
      ChoiceLength(ranked, picks[..|picks| - 1], balance, sim);
    }
  }

  /** The promise: the first entry is of the highest relevance, and every later one scores at least as high as every
      candidate that was not chosen before it, as long as a candidate scores above the floor at all. */
  lemma EachEntryIsBest(ranked: seq<Candidate>, picks: seq<int>, balance: real, sim: Measure, n: nat, c: Candidate)
    requires ranked != [] && Ranked(ranked) && Greedy(ranked, picks, balance, sim) && n <= |picks|
    requires |Choose(ranked, picks).chosen| == |picks| + 1
    requires c in multiset(ranked) - multiset(Choose(ranked, picks).chosen[..n])
    ensures var chosen := Choose(ranked, picks).chosen;
            && (n == 0 ==> c.relevance <= chosen[0].relevance)
            && (n > 0 ==>
                  var s := Score(c, chosen[..n], balance, sim); s <= Score(chosen[n], chosen[..n], balance, sim) || s <= FLOOR)
  {
    if n == 0 {
      ChoiceConserves(ranked, picks);
      HeadIsBest(ranked, c);
    } else {
      GreedyPrefix(ranked, picks, balance, sim, n - 1);
      var s := Choose(ranked, picks[..n - 1]);
      ChoiceConserves(ranked, picks[..n - 1]);
      assert c in multiset(s.rest);
      LeftOverScores(s.rest, s.chosen, picks[n - 1], balance, sim, c);
    }
  }

  lemma HeadIsBest(ranked: seq<Candidate>, c: Candidate)
    requires Ranked(ranked) && c in multiset(ranked)
    ensures c.relevance <= ranked[0].relevance
  {
    var j :| 0 <= j < |ranked| && ranked[j] == c;
  }

  lemma LeftOverScores(rest: seq<Candidate>, chosen: seq<Candidate>, i: int, balance: real, sim: Measure, c: Candidate)
    requires IsPick(i, rest, chosen, balance, sim) && c in multiset(rest)
    ensures var s := Score(c, chosen, balance, sim); s <= Score(rest[i], chosen, balance, sim) || s <= FLOOR
  {
    var j :| 0 <= j < |rest| && rest[j] == c;
  }

  /** What a score is: the weighted relevance less the weighted similarity to the most similar chosen candidate, or
      less nothing where none is similar at all. */
  lemma {:induction false} ScoreExactly(c: Candidate, chosen: seq<Candidate>, balance: real, sim: Measure)
    ensures var m := MaxSim(c, chosen, sim);
            && Score(c, chosen, balance, sim) == balance * c.relevance - (1.0 - balance) * m
            && m >= 0.0 && (forall p :: p in chosen ==> sim(c, p) <= m)
            && (m == 0.0 || exists p :: p in chosen && sim(c, p) == m)
  {
    if chosen != [] {
      var before, last := chosen[..|chosen| - 1], chosen[|chosen| - 1];
      ScoreExactly(c, before, balance, sim);
      assert chosen == before + [last];
      assert last in chosen;
      if p :| p in before && sim(c, p) == MaxSim(c, before, sim) {
        assert p in chosen;
      }
    }
  }

  /** A measure of at most 1 keeps the penalty within 1. */
  lemma {:induction false} MaxSimBounded(c: Candidate, chosen: seq<Candidate>, sim: Measure)
    requires forall p :: p in chosen ==> sim(c, p) <= 1.0
    ensures 0.0 <= MaxSim(c, chosen, sim) <= 1.0
  {
    if chosen != [] {
      MaxSimBounded(c, chosen[..|chosen| - 1], sim);
    }
  }

  lemma Blend(l: real, r: real, m: real, f: real)
    requires 0.0 < l < 1.0 && r > f + 1.0 && m <= 1.0 && f <= -1.0
    ensures l * r - (1.0 - l) * m > f
  {
    var x, y, z := l * (r - (f + 1.0)), (1.0 - l) * (1.0 - m), (1.0 - l) * (-1.0 - f);
    assert l * r - (1.0 - l) * m - f == x + y + z + l;
    NonNegative(1.0 - l, 1.0 - m);
    NonNegative(1.0 - l, -1.0 - f);
    NonNegative(l, r - (f + 1.0));
  }

  /** With relevances of ordinary size and a measure of at most 1, every score is above the floor. */
  lemma OrdinaryScoresAboveFloor(c: Candidate, chosen: seq<Candidate>, balance: real, sim: Measure)
    requires 0.0 < balance < 1.0 && c.relevance > FLOOR + 1.0 && forall p :: p in chosen ==> sim(c, p) <= 1.0
    ensures Score(c, chosen, balance, sim) > FLOOR
  {
    MaxSimBounded(c, chosen, sim);
    Blend(balance, c.relevance, MaxSim(c, chosen, sim), FLOOR);
  }

  /** With a measure of at most 1 and relevances of ordinary size: every entry after the first maximises the score
      among the candidates that were not chosen before it. */
  lemma ChoiceMaximises(ranked: seq<Candidate>, picks: seq<int>, balance: real, sim: Measure, n: nat, c: Candidate)
    requires ranked != [] && Ranked(ranked) && Greedy(ranked, picks, balance, sim) && 0 < n <= |picks|
    requires |Choose(ranked, picks).chosen| == |picks| + 1
    requires c in multiset(ranked) - multiset(Choose(ranked, picks).chosen[..n])
    ensures var chosen := Choose(ranked, picks).chosen;
            0.0 < balance < 1.0 && AtMostOne(ranked, sim) && Ordinary(ranked) ==>
              Score(c, chosen[..n], balance, sim) <= Score(chosen[n], chosen[..n], balance, sim)
  {
    var chosen := Choose(ranked, picks).chosen;
    EachEntryIsBest(ranked, picks, balance, sim, n, c);
    ChoiceConserves(ranked, picks);
    assert c in multiset(ranked);
    if 0.0 < balance < 1.0 && AtMostOne(ranked, sim) && Ordinary(ranked) {
      forall p | p in chosen[..n]
        ensures sim(c, p) <= 1.0
      {
        assert p in multiset(chosen) && p in multiset(ranked);
      }
      OrdinaryScoresAboveFloor(c, chosen[..n], balance, sim);
    }
  }

  ghost predicate Ordinary(cands: seq<Candidate>) { forall x :: x in cands ==> x.relevance > FLOOR + 1.0 }

  ghost predicate AtMostOne(cands: seq<Candidate>, sim: Measure)
  {
    forall x, y :: x in cands && y in cands ==> sim(x, y) <= 1.0
  }

  /** The equal pairs of genres of any two are no more than the genres of both together, or 1. */
  ghost predicate GenresFit(cands: seq<Candidate>)
  {
    forall x, y :: x in cands && y in cands ==> Overlap(x.genres, y.genres) <= Total(x.genres, y.genres)
  }

  /** The service's own measure is one, for candidates whose genres fit, and so is its weight. Without duplicate genres
      they do. */
  lemma ServiceMeasure(cands: seq<Candidate>, balance: real)
    ensures GenresFit(cands) ==> AtMostOne(cands, Similarity.Similarity)
    ensures (forall x :: x in cands ==> NoDuplicates(x.genres)) ==> GenresFit(cands)
    ensures 0.0 < Weight(balance) < 1.0
  {
    forall x, y | x in cands && y in cands
      ensures Overlap(x.genres, y.genres) <= Total(x.genres, y.genres) ==> InRange(x, y)
      ensures NoDuplicates(x.genres) && NoDuplicates(y.genres) ==> Overlap(x.genres, y.genres) <= Total(x.genres, y.genres)
    {
      InRangeExactly(x.genres, y.genres);
      if NoDuplicates(x.genres) && NoDuplicates(y.genres) {
        GenreShareAtMostHalf(x.genres, y.genres);
        ShareAtMostOne(Overlap(x.genres, y.genres), Total(x.genres, y.genres));
      }
    }
  }

  /** Entry n of the choice is the best of what is not chosen before it: by relevance at first, then by score. */
  ghost predicate BestAt(cands: seq<Candidate>, chosen: seq<Candidate>, weight: real, sim: Measure, n: nat)
    requires n < |chosen|
  {
    forall c :: c in multiset(cands) - multiset(chosen[..n]) ==> Outdone(c, chosen, weight, sim, n)
  }

  /** c is no better than entry n of the choice, given the entries before that. */
  ghost predicate Outdone(c: Candidate, chosen: seq<Candidate>, weight: real, sim: Measure, n: nat)
    requires n < |chosen|
  {
    if n == 0 then c.relevance <= chosen[0].relevance
    else
      weight * c.relevance - (1.0 - weight) * MaxSim(c, chosen[..n], sim)
      <= weight * chosen[n].relevance - (1.0 - weight) * MaxSim(chosen[n], chosen[..n], sim)
  }

  /** Taken from the candidates, no entry more often than it is there, and each the best of what was left. */
  ghost predicate BestChoice(cands: seq<Candidate>, chosen: seq<Candidate>, weight: real, sim: Measure)
  {
    multiset(chosen) <= multiset(cands) && forall n :: 0 <= n < |chosen| ==> BestAt(cands, chosen, weight, sim, n)
  }

  lemma GreedyIsBest(cands: seq<Candidate>, ranked: seq<Candidate>, picks: seq<int>, weight: real, sim: Measure)
    requires ranked != [] && Ranked(ranked) && multiset(ranked) == multiset(cands) && Greedy(ranked, picks, weight, sim)
    requires |Choose(ranked, picks).chosen| == |picks| + 1
    requires 0.0 < weight < 1.0 && Ordinary(cands) && AtMostOne(cands, sim)
    ensures BestChoice(cands, Choose(ranked, picks).chosen, weight, sim)
  {
    var chosen := Choose(ranked, picks).chosen;
    ChoiceConserves(ranked, picks);
    SameMembers(cands, ranked);
    forall n, c | 0 <= n < |chosen| && c in multiset(cands) - multiset(chosen[..n])
      ensures Outdone(c, chosen, weight, sim, n)
    {
      EntryOutdoes(ranked, picks, weight, sim, n, c);
    }
  }

  lemma EntryOutdoes(ranked: seq<Candidate>, picks: seq<int>, weight: real, sim: Measure, n: nat, c: Candidate)
    requires ranked != [] && Ranked(ranked) && Greedy(ranked, picks, weight, sim) && n <= |picks|
    requires |Choose(ranked, picks).chosen| == |picks| + 1
    requires 0.0 < weight < 1.0 && Ordinary(ranked) && AtMostOne(ranked, sim)
    requires c in multiset(ranked) - multiset(Choose(ranked, picks).chosen[..n])
    ensures Outdone(c, Choose(ranked, picks).chosen, weight, sim, n)
  {
    var chosen := Choose(ranked, picks).chosen;
    EachEntryIsBest(ranked, picks, weight, sim, n, c);
    if n > 0 {
      ChoiceMaximises(ranked, picks, weight, sim, n, c);
    }
    OutdoneByScore(c, chosen, weight, sim, n);
  }

  lemma OutdoneByScore(c: Candidate, chosen: seq<Candidate>, weight: real, sim: Measure, n: nat)
    requires n < |chosen| && (n == 0 ==> c.relevance <= chosen[0].relevance)
    requires n > 0 ==> Score(c, chosen[..n], weight, sim) <= Score(chosen[n], chosen[..n], weight, sim)
    ensures Outdone(c, chosen, weight, sim, n)
  {
    if n > 0 {
      ScoreExactly(c, chosen[..n], weight, sim);
      ScoreExactly(chosen[n], chosen[..n], weight, sim);
    }
  }

  lemma SameMembers(a: seq<Candidate>, b: seq<Candidate>)
    requires multiset(a) == multiset(b)
    ensures forall c :: c in a <==> c in b
  {
    assert forall c :: c in a <==> c in multiset(a);
    assert forall c :: c in b <==> c in multiset(b);
  }

  /** The choice as the service makes it. Of candidates with ordinary relevances and genres that fit, it returns k, each
      the best of what was left. */
  method ServiceChoice(cands: array<Candidate>, k: int, balance: real) returns (chosen: seq<Candidate>)
    modifies cands
    ensures k <= 0 || k >= cands.Length ==> chosen == cands[..] == old(cands[..])
    ensures 0 < k < cands.Length ==> |chosen| == k
    ensures 0 < k < cands.Length && Ordinary(old(cands[..])) && GenresFit(old(cands[..])) ==>
              BestChoice(old(cands[..]), chosen, if 0.0 < balance < 1.0 then balance else 0.7, Similarity.Similarity)
  {
    ghost var was := cands[..];
    ghost var ranked, picks;
    chosen, ranked, picks := MaximalMarginalRelevance(cands, k, balance, Similarity.Similarity);
    if 0 < k < cands.Length && Ordinary(was) && GenresFit(was) {
      ServiceMeasure(was, balance);
      GreedyIsBest(was, ranked, picks, Weight(balance), Similarity.Similarity);
    }
  }
}
