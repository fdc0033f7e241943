/**
 Refresh-token rotation: the `refresh_tokens` table and the SQL statements of `Refresh` and
 `issueTokens`, interleaved statement by statement over any number of calls, with failures.

 A token is known by its hash, which is taken to be injective; tokens and chain ids are
 drawn from an unbounded supply and are fresh when drawn. A statement is atomic.
 */
module RefreshTokens {

  type Id = nat

  /** A table row. `root` is history: the login that the token descends from. */
  datatype Row = Row(user: Id, chain: Id, expires: int, used: bool, revoked: bool, root: Id) {
    predicate Open() { !used && !revoked }
    predicate Live(now: int) { Open() && expires > now }
  }

  /** Where a running `Refresh` call stands between two statements. */
  datatype Call =
    | Missed(token: Id)                                      // the claim matched no row
    | Claimed(from: Id, user: Id, chain: Id)                 // `from` is used up, nothing issued yet
    | Issued(from: Id, user: Id, chain: Id, token: Id)       // the successor sits on a chain of its own
  {
    predicate Claims(c: Id) { !Missed? && chain == c }
  }

  datatype Win = Win(token: Id, chain: Id)

  /** `wins` is history: the successful claims, each with the chain its token was on. */
  datatype State = State(rows: map<Id, Row>, calls: map<Id, Call>, now: int, wins: seq<Win>) {
    /** Inserted, but not yet handed to a client. */
    ghost predicate Unreleased(t: Id) { exists p :: p in calls && calls[p].Issued? && calls[p].token == t }
    ghost predicate FreshToken(t: Id) { t !in rows && forall p :: p in calls && calls[p].Missed? ==> calls[p].token != t }
    ghost predicate FreshChain(c: Id) { forall t :: t in rows ==> rows[t].chain != c && rows[t].root != c }
  }

  datatype Step =
    | Login(token: Id, user: Id, chain: Id, expires: int)
    | Claim(p: Id, token: Id)
    | Revoke(p: Id)
    | RevokeFails(p: Id)
    | Issue(p: Id, token: Id, chain: Id, expires: int)
    | IssueFails(p: Id)
    | Stitch(p: Id)
    | StitchFails(p: Id)
    | Tick(to: int)

  ghost predicate Enabled(s: State, a: Step)
  {
    match a
    case Login(t, _, c, _) => s.FreshToken(t) && s.FreshChain(c)
    case Claim(p, t) => p !in s.calls && !s.Unreleased(t)
    case Revoke(p) => p in s.calls && s.calls[p].Missed?
    case RevokeFails(p) => p in s.calls && s.calls[p].Missed?
    case Issue(p, t, c, _) => p in s.calls && s.calls[p].Claimed? && s.FreshToken(t) && s.FreshChain(c)
    case IssueFails(p) => p in s.calls && s.calls[p].Claimed?
    case Stitch(p) => p in s.calls && s.calls[p].Issued?
    case StitchFails(p) => p in s.calls && s.calls[p].Issued?
    case Tick(to) => s.now <= to
  }

  /** UPDATE ... SET revoked = true WHERE chain = c */
  function RevokeChain(rows: map<Id, Row>, c: Id): map<Id, Row>
  {
    map t | t in rows :: if rows[t].chain == c then rows[t].(revoked := true) else rows[t]
  }

  /** The state after one statement; a step that is not enabled changes nothing. */
  function Apply(s: State, a: Step): State
  {
    match a
    case Login(t, u, c, e) => s.(rows := s.rows[t := Row(u, c, e, false, false, c)])
    case Claim(p, t) =>
      if t in s.rows && s.rows[t].Live(s.now) then
        var r := s.rows[t];
        State(s.rows[t := r.(used := true)], s.calls[p := Claimed(t, r.user, r.chain)], s.now, s.wins + [Win(t, r.chain)])
      else
        s.(calls := s.calls[p := Missed(t)])
    case Revoke(p) =>
      if p in s.calls && s.calls[p].Missed? then
        var t := s.calls[p].token;
        s.(rows := if t in s.rows then RevokeChain(s.rows, s.rows[t].chain) else s.rows, calls := s.calls - {p})
      else s
    case Issue(p, t, c, e) =>
      if p in s.calls && s.calls[p].Claimed? then
        var k := s.calls[p];
        var root := if k.from in s.rows then s.rows[k.from].root else c;
        s.(rows := s.rows[t := Row(k.user, c, e, false, false, root)], calls := s.calls[p := Issued(k.from, k.user, k.chain, t)])
      else s
    case Stitch(p) =>
      if p in s.calls && s.calls[p].Issued? then
        var k := s.calls[p];
        s.(rows := if k.token in s.rows then s.rows[k.token := s.rows[k.token].(chain := k.chain)] else s.rows,
           calls := s.calls - {p})
      else s
    case RevokeFails(p) => s.(calls := s.calls - {p})
    case IssueFails(p) => s.(calls := s.calls - {p})
    case StitchFails(p) => s.(calls := s.calls - {p})
    case Tick(to) => s.(now := to)
  }

  ghost predicate Possible(s: State, run: seq<Step>)
    decreases |run|
  {
    run == [] || (Enabled(s, run[0]) && Possible(Apply(s, run[0]), run[1..]))
  }

  function Run(s: State, run: seq<Step>): State
    decreases |run|
  {
    if run == [] then s else Run(Apply(s, run[0]), run[1..])
  }

  function Start(now: int): State { State(map[], map[], now, []) }

  // ---------------------------------------------------------------- invariant

  ghost predicate WinsDistinct(s: State)
  {
    && (forall i :: 0 <= i < |s.wins| ==> s.wins[i].token in s.rows && s.rows[s.wins[i].token].used)
    && (forall i, j :: 0 <= i < j < |s.wins| ==> s.wins[i].token != s.wins[j].token)
  }

  ghost predicate OpenUnique(s: State)
  {
    forall t, v ::
      (t in s.rows && v in s.rows && s.rows[t].Open() && s.rows[v].Open() && s.rows[t].chain == s.rows[v].chain) ==> t == v
  }

  ghost predicate ClaimUnique(s: State)
  {
    forall p, q ::
      (p in s.calls && q in s.calls && !s.calls[p].Missed? && s.calls[q].Claims(s.calls[p].chain)) ==> p == q
  }

  ghost predicate OpenNotClaimed(s: State)
  {
    forall t, p :: t in s.rows && p in s.calls && s.rows[t].Open() ==> !s.calls[p].Claims(s.rows[t].chain)
  }

  /** A running claim stems from a released row that is still on the claimed chain. */
  ghost predicate ClaimsSound(s: State)
  {
    forall p :: p in s.calls && !s.calls[p].Missed? ==>
      var k := s.calls[p];
      k.from in s.rows && s.rows[k.from].chain == k.chain && s.rows[k.from].user == k.user && !s.Unreleased(k.from)
  }

  ghost predicate MissedSound(s: State)
  {
    forall p :: p in s.calls && s.calls[p].Missed? ==> !s.Unreleased(s.calls[p].token)
  }

  /** A successor that is not stitched yet is open and alone on its chain. */
  ghost predicate SuccessorAlone(s: State)
  {
    forall p :: p in s.calls && s.calls[p].Issued? ==>
      var t := s.calls[p].token;
      t in s.rows && s.rows[t].Open() && s.rows[t].user == s.calls[p].user
      && (forall v :: v in s.rows && v != t ==> s.rows[v].chain != s.rows[t].chain)
  }

  ghost predicate SuccessorsDistinct(s: State)
  {
    forall p, q :: p in s.calls && q in s.calls && s.calls[p].Issued? && s.calls[q].Issued? && p != q ==>
      s.calls[p].token != s.calls[q].token
  }

  ghost predicate OneUserPerChain(s: State)
  {
    forall t, v :: t in s.rows && v in s.rows && s.rows[t].chain == s.rows[v].chain ==> s.rows[t].user == s.rows[v].user
  }

  /** On every chain: at most one open row or running claim, counted together. */
  ghost predicate OnePerChain(s: State) { OpenUnique(s) && ClaimUnique(s) && OpenNotClaimed(s) }

  ghost predicate CallsSound(s: State)
  {
    ClaimsSound(s) && MissedSound(s) && SuccessorAlone(s) && SuccessorsDistinct(s)
  }

  ghost predicate Inv(s: State)
  {
    WinsDistinct(s) && OnePerChain(s) && CallsSound(s) && OneUserPerChain(s)
  }

  lemma WinsDistinctStep(s: State, a: Step)
    requires Inv(s) && Enabled(s, a)
    ensures WinsDistinct(Apply(s, a))
  {
  }

  lemma OpenUniqueStep(s: State, a: Step)
    requires Inv(s) && Enabled(s, a)
    ensures OpenUnique(Apply(s, a))
  {
  }

  lemma ClaimUniqueStep(s: State, a: Step)
    requires Inv(s) && Enabled(s, a)
    ensures ClaimUnique(Apply(s, a))
  {
  }

  lemma OpenNotClaimedStep(s: State, a: Step)
    requires Inv(s) && Enabled(s, a)
    ensures OpenNotClaimed(Apply(s, a))
  {
  }

  lemma ClaimsSoundStep(s: State, a: Step)
    requires Inv(s) && Enabled(s, a)
    ensures ClaimsSound(Apply(s, a))
  {
  }

  lemma MissedSoundStep(s: State, a: Step)
    requires Inv(s) && Enabled(s, a)
    ensures MissedSound(Apply(s, a))
  {
  }

  lemma SuccessorAloneStep(s: State, a: Step)
    requires Inv(s) && Enabled(s, a)
    ensures SuccessorAlone(Apply(s, a))
  {
  }

  lemma SuccessorsDistinctStep(s: State, a: Step)
    requires Inv(s) && Enabled(s, a)
    ensures SuccessorsDistinct(Apply(s, a))
  {
  }

  lemma OneUserPerChainStep(s: State, a: Step)
    requires Inv(s) && Enabled(s, a)
    ensures OneUserPerChain(Apply(s, a))
  {
  }

  lemma InvStep(s: State, a: Step)
    requires Inv(s) && Enabled(s, a)
    ensures Inv(Apply(s, a))
  {
    WinsDistinctStep(s, a);
    OpenUniqueStep(s, a);
    ClaimUniqueStep(s, a);
    OpenNotClaimedStep(s, a);
    ClaimsSoundStep(s, a);
    MissedSoundStep(s, a);
    SuccessorAloneStep(s, a);
    SuccessorsDistinctStep(s, a);
    OneUserPerChainStep(s, a);
  }

  lemma {:induction false} InvRun(s: State, run: seq<Step>)
    requires Inv(s) && Possible(s, run)
    ensures Inv(Run(s, run))
    decreases |run|
  {
    if run != [] {
      InvStep(s, run[0]);
      InvRun(Apply(s, run[0]), run[1..]);
    }
  }

  /** Under any interleaving of statements, no token is exchanged twice. */
  lemma ExchangedAtMostOnce(now: int, run: seq<Step>, i: nat, j: nat)
    requires Possible(Start(now), run)
    requires i < j < |Run(Start(now), run).wins|
    ensures var wins := Run(Start(now), run).wins; wins[i].token != wins[j].token
  {
    InvRun(Start(now), run);
  }

  /** At all times a chain has at most one unused, unrevoked token, and all its tokens belong to one user. */
  lemma OneOpenTokenPerChain(now: int, run: seq<Step>, t: Id, v: Id)
    requires Possible(Start(now), run)
    requires var s := Run(Start(now), run); t in s.rows && v in s.rows && s.rows[t].chain == s.rows[v].chain
    ensures var s := Run(Start(now), run);
            s.rows[t].user == s.rows[v].user && (s.rows[t].Open() && s.rows[v].Open() ==> t == v)
  {
    InvRun(Start(now), run);
  }

  // ---------------------------------------------------------------- replay

  /** A rotation on chain c is between its claim and its stitch, and its successor can still be used. */
  ghost predicate Rotating(s: State, c: Id)
  {
    exists p :: p in s.calls && RotatingBy(s, c, p)
  }

  ghost predicate RotatingBy(s: State, c: Id, p: Id)
    requires p in s.calls
  {
    var k := s.calls[p];
    k.Claims(c) && (k.Issued? ==> k.token in s.rows && s.rows[k.token].expires > s.now)
  }

  /** No token of chain c succeeds from s on, whatever happens. */
  ghost predicate NeverWins(s: State, c: Id)
  {
    forall run :: Possible(s, run) ==> NoWinsSince(s, Run(s, run), c)
  }

  ghost predicate NoWinsSince(s: State, later: State, c: Id)
  {
    forall i :: |s.wins| <= i < |later.wins| ==> later.wins[i].chain != c
  }

  /** Nothing on chain c can be claimed now, nor be made claimable by a running call. `w` shows the chain is taken. */
  ghost predicate Dead(s: State, c: Id, w: Id)
  {
    && (forall t :: t in s.rows && s.rows[t].chain == c ==> !s.rows[t].Live(s.now))
    && !Rotating(s, c)
    && w in s.rows && s.rows[w].chain == c && !s.Unreleased(w)
  }

  lemma StaysIdle(s: State, a: Step, c: Id, w: Id)
    requires Inv(s) && Dead(s, c, w) && Enabled(s, a)
    ensures !Rotating(Apply(s, a), c)
  {
  }

  lemma StaysUnusable(s: State, a: Step, c: Id, w: Id)
    requires Inv(s) && Dead(s, c, w) && Enabled(s, a)
    ensures var n := Apply(s, a);
            && (forall t :: t in n.rows && n.rows[t].chain == c ==> !n.rows[t].Live(n.now))
            && w in n.rows && n.rows[w].chain == c && !n.Unreleased(w)
  {
  }

  lemma DeadStep(s: State, a: Step, c: Id, w: Id)
    requires Inv(s) && Dead(s, c, w) && Enabled(s, a)
    ensures Dead(Apply(s, a), c, w)
    ensures s.wins <= Apply(s, a).wins && NoWinsSince(s, Apply(s, a), c)
  {
    StaysIdle(s, a, c, w);
    StaysUnusable(s, a, c, w);
  }

  lemma {:induction false} DeadRun(s: State, run: seq<Step>, c: Id, w: Id)
    requires Inv(s) && Dead(s, c, w) && Possible(s, run)
    ensures s.wins <= Run(s, run).wins && NoWinsSince(s, Run(s, run), c)
    decreases |run|
  {
    if run != [] {
      var n := Apply(s, run[0]);
      InvStep(s, run[0]);
      DeadStep(s, run[0], c, w);
      DeadRun(n, run[1..], c, w);
    }
  }

  lemma {:induction false} Bounded(ids: set<Id>) returns (n: Id)
    ensures forall t :: t in ids ==> t < n
  {
    if ids == {} {
      n := 0;
    } else {
      var x :| x in ids;
      var m := Bounded(ids - {x});
      n := if m > x then m else x + 1;
      assert forall t :: t in ids ==> t == x || t in ids - {x};
    }
  }

  /** Ids that no row and no call has used. */
  lemma FreshIds(s: State) returns (t: Id, c: Id, p: Id)
    ensures s.FreshToken(t) && s.FreshChain(c) && p !in s.calls
  {
    t := Bounded(s.rows.Keys + (set q | q in s.calls && s.calls[q].Missed? :: s.calls[q].token));
    assert forall q :: q in s.calls && s.calls[q].Missed? ==>
      s.calls[q].token in (set r | r in s.calls && s.calls[r].Missed? :: s.calls[r].token);
    var chains, roots := set v | v in s.rows :: s.rows[v].chain, set v | v in s.rows :: s.rows[v].root;
    c := Bounded(chains + roots);
    forall v | v in s.rows
      ensures s.rows[v].chain != c && s.rows[v].root != c
    {
      assert s.rows[v].chain in chains && s.rows[v].root in roots;
    }
    p := Bounded(s.calls.Keys);
  }

  /** A successor that is stitched onto c is claimed by the next call: chain c lives on. */
  lemma StitchedWins(s: State, c: Id, p: Id)
    requires Inv(s) && p in s.calls && s.calls[p].Issued? && RotatingBy(s, c, p)
    ensures !NeverWins(s, c)
  {
    var t := s.calls[p].token;
    var u := Apply(s, Stitch(p));
    var run := [Stitch(p), Claim(p, t)];
    assert run[1..] == [Claim(p, t)] && run[1..][1..] == [];
    assert Enabled(s, run[0]);
    assert Enabled(u, Claim(p, t));
    assert Possible(u, run[1..]);
    var v := Apply(u, Claim(p, t));
    assert u.rows[t].Live(u.now) && v.wins == s.wins + [Win(t, c)];
    assert Run(u, run[1..]) == Run(v, run[1..][1..]) == v;
    assert Run(s, run) == v;
    assert v.wins[|s.wins|].chain == c;
  }

  lemma RotatingWins(s: State, c: Id, p: Id)
    requires Inv(s) && p in s.calls && RotatingBy(s, c, p)
    ensures !NeverWins(s, c)
  {
    if s.calls[p].Issued? {
      StitchedWins(s, c, p);
    } else {
      var t, d, _ := FreshIds(s);
      var a := Issue(p, t, d, s.now + 1);
      var u := Apply(s, a);
      InvStep(s, a);
      StitchedWins(u, c, p);
      var run :| Possible(u, run) && !NoWinsSince(u, Run(u, run), c);
      var whole := [a] + run;
      assert whole[1..] == run;
      assert Possible(s, whole) && Run(s, whole) == Run(u, run);
    }
  }

  /** What a replay achieves. After the revocation that a replayed token of chain c triggers, no token of c ever
      succeeds again if and only if no rotation on c is between its claim and its stitch at that moment. */
  lemma ReplayKillsChainExactly(s: State, p: Id)
    requires Inv(s) && p in s.calls && s.calls[p].Missed? && s.calls[p].token in s.rows
    ensures var c := s.rows[s.calls[p].token].chain;
            NeverWins(Apply(s, Revoke(p)), c) <==> !Rotating(s, c)
  {
    var w := s.calls[p].token;
    var c := s.rows[w].chain;
    var n := Apply(s, Revoke(p));
    InvStep(s, Revoke(p));
    assert forall q :: q in n.calls <==> q in s.calls && q != p;
    assert Rotating(n, c) <==> Rotating(s, c) by {
      if q :| q in s.calls && RotatingBy(s, c, q) {
        assert RotatingBy(n, c, q);
      }
      if q :| q in n.calls && RotatingBy(n, c, q) {
        assert RotatingBy(s, c, q);
      }
    }
    if Rotating(s, c) {
      var q :| q in n.calls && RotatingBy(n, c, q);
      RotatingWins(n, c, q);
    } else {
      assert Dead(n, c, w);
      forall run | Possible(n, run)
        ensures NoWinsSince(n, Run(n, run), c)
      {
        DeadRun(n, run, c, w);
      }
    }
  }

  // ---------------------------------------------------------------- lineage

  /** A released token is on the chain of the login it descends from; a waiting successor is bound for it. */
  ghost predicate LineageKept(s: State)
  {
    && (forall t :: t in s.rows && !s.Unreleased(t) ==> s.rows[t].chain == s.rows[t].root)
    && (forall p :: p in s.calls && s.calls[p].Issued? && s.calls[p].token in s.rows ==>
          s.rows[s.calls[p].token].root == s.calls[p].chain)
  }

  lemma IssuedIsUnreleased(s: State, a: Step)
    requires Enabled(s, a) && a.Issue?
    ensures Apply(s, a).Unreleased(a.token)
  {
    assert Apply(s, a).calls[a.p].token == a.token;
  }

  lemma ReleasedLineageStep(s: State, a: Step, t: Id)
    requires Inv(s) && LineageKept(s) && Enabled(s, a) && !a.StitchFails?
    requires t in Apply(s, a).rows && !Apply(s, a).Unreleased(t)
    ensures var r := Apply(s, a).rows[t]; r.chain == r.root
  {
    if a.Issue? {
      IssuedIsUnreleased(s, a);
      assert t != a.token;
    }
    if p :| p in s.calls && s.calls[p].Issued? && s.calls[p].token == t {
      StitchReleases(s, a, p);
    }
  }

  /** A successor is released by its own stitch only, which puts it on the chain of the claim. */
  lemma StitchReleases(s: State, a: Step, p: Id)
    requires Inv(s) && LineageKept(s) && Enabled(s, a) && !a.StitchFails? && p in s.calls && s.calls[p].Issued?
    requires var t := s.calls[p].token; t in Apply(s, a).rows && !Apply(s, a).Unreleased(t)
    ensures var r := Apply(s, a).rows[s.calls[p].token]; r.chain == r.root
  {
    assert p !in Apply(s, a).calls;
    assert a == Stitch(p);
  }

  lemma LineageStep(s: State, a: Step)
    requires Inv(s) && LineageKept(s) && Enabled(s, a) && !a.StitchFails?
    ensures LineageKept(Apply(s, a))
  {
    forall t | t in Apply(s, a).rows && !Apply(s, a).Unreleased(t)
      ensures Apply(s, a).rows[t].chain == Apply(s, a).rows[t].root
    {
      ReleasedLineageStep(s, a, t);
    }
  }

  lemma {:induction false} LineageRun(s: State, run: seq<Step>)
    requires Inv(s) && LineageKept(s) && Possible(s, run) && forall i :: 0 <= i < |run| ==> !run[i].StitchFails?
    ensures Inv(Run(s, run)) && LineageKept(Run(s, run))
    decreases |run|
  {
    if run != [] {
      InvStep(s, run[0]);
      LineageStep(s, run[0]);
      LineageRun(Apply(s, run[0]), run[1..]);
    }
  }

  /** All released tokens are on the chain of the login they descend from, so that revoking it reaches them. */
  ghost predicate AllOnRoot(s: State) { forall t :: t in s.rows && !s.Unreleased(t) ==> s.rows[t].chain == s.rows[t].root }

  ghost predicate Off(s: State, t: Id) { t in s.rows && !s.Unreleased(t) && s.rows[t].chain != s.rows[t].root }

  /** A successor that is not stitched yet is off its root. */
  ghost predicate SuccessorsOff(s: State)
  {
    forall p :: p in s.calls && s.calls[p].Issued? ==>
      s.calls[p].token in s.rows && s.rows[s.calls[p].token].chain != s.rows[s.calls[p].token].root
  }

  lemma SuccessorsOffStep(s: State, a: Step)
    requires Inv(s) && SuccessorsOff(s) && Enabled(s, a)
    ensures SuccessorsOff(Apply(s, a))
  {
  }

  /** A released token that is off its root stays off. */
  lemma OffStays(s: State, a: Step, t: Id)
    requires Inv(s) && Off(s, t) && Enabled(s, a)
    ensures Off(Apply(s, a), t)
  {
  }

  lemma {:induction false} OffRun(s: State, run: seq<Step>, t: Id)
    requires Inv(s) && Off(s, t) && Possible(s, run)
    ensures Off(Run(s, run), t)
    decreases |run|
  {
    if run != [] {
      InvStep(s, run[0]);
      OffStays(s, run[0], t);
      OffRun(Apply(s, run[0]), run[1..], t);
    }
  }

  /** A failed stitch releases its successor where it is. */
  lemma StitchFailsOff(s: State, a: Step) returns (t: Id)
    requires Inv(s) && SuccessorsOff(s) && Enabled(s, a) && a.StitchFails?
    ensures Off(Apply(s, a), t)
  {
    t := s.calls[a.p].token;
  }

  lemma {:induction false} FailedStitchStays(s: State, run: seq<Step>, i: nat) returns (t: Id)
    requires Inv(s) && SuccessorsOff(s) && Possible(s, run) && i < |run| && run[i].StitchFails?
    ensures Off(Run(s, run), t)
    decreases |run|
  {
    InvStep(s, run[0]);
    if i == 0 {
      t := StitchFailsOff(s, run[0]);
      OffRun(Apply(s, run[0]), run[1..], t);
    } else {
      SuccessorsOffStep(s, run[0]);
      t := FailedStitchStays(Apply(s, run[0]), run[1..], i - 1);
    }
  }

  /** When revoking a chain reaches every released token of the login: in every run, exactly if no stitch failed. */
  lemma ChainIsLineage(now: int, run: seq<Step>)
    requires Possible(Start(now), run)
    ensures AllOnRoot(Run(Start(now), run)) <==> forall i :: 0 <= i < |run| ==> !run[i].StitchFails?
  {
    if i :| 0 <= i < |run| && run[i].StitchFails? {
      var t := FailedStitchStays(Start(now), run, i);
      assert Off(Run(Start(now), run), t);
    } else {
      LineageRun(Start(now), run);
    }
  }

  /** One failed stitch, which `Refresh` ignores, and the successor outlives the replay of its parent. */
  lemma FailedStitchEscapes()
    ensures var run := [Login(1, 7, 10, 100), Claim(0, 1), Issue(0, 2, 20, 100), StitchFails(0), Claim(0, 1), Revoke(0)];
            var s := Run(Start(0), run);
            Possible(Start(0), run) && s.rows[1].revoked && s.rows[2].Live(s.now) && s.rows[2].root == s.rows[1].root
  {
    var run := [Login(1, 7, 10, 100), Claim(0, 1), Issue(0, 2, 20, 100), StitchFails(0), Claim(0, 1), Revoke(0)];
    var parent, orphan := Row(7, 10, 100, true, false, 10), Row(7, 20, 100, false, false, 10);
    var s1 := State(map[1 := parent.(used := false)], map[], 0, []);
    var s2 := State(map[1 := parent], map[0 := Claimed(1, 7, 10)], 0, [Win(1, 10)]);
    var s3 := State(map[1 := parent, 2 := orphan], map[0 := Issued(1, 7, 10, 2)], 0, [Win(1, 10)]);
    var s4 := s3.(calls := map[]);
    var s5 := s3.(calls := map[0 := Missed(1)]);
    var s6 := s4.(rows := map[1 := parent.(revoked := true), 2 := orphan]);
    Next(s5, run[5..], s6, s6);
    Next(s4, run[4..], s5, s6);
    Next(s3, run[3..], s4, s6);
    Next(s2, run[2..], s3, s6);
    Next(s1, run[1..], s2, s6);
    Next(Start(0), run, s1, s6);
  }

  lemma Next(s: State, run: seq<Step>, n: State, last: State)
    requires run != [] && Enabled(s, run[0]) && Apply(s, run[0]) == n
    requires Possible(n, run[1..]) && Run(n, run[1..]) == last
    ensures Possible(s, run) && Run(s, run) == last
  {
  }

  // ---------------------------------------------------------------- how long a token lives

  /** The step hands out the token with this expiry. */
  ghost predicate HandsOut(a: Step, t: Id, expires: int)
  {
    match a
    case Login(u, _, _, e) => u == t && e == expires
    case Issue(_, u, _, e) => u == t && e == expires
    case _ => false
  }

  /** Nothing that happens to a token moves its expiry: in every run, it is the one it was handed out with. */
  lemma {:induction false} ExpiryAsHandedOut(s: State, run: seq<Step>, t: Id)
    requires Possible(s, run) && t in Run(s, run).rows
    ensures var e := Run(s, run).rows[t].expires;
            (t in s.rows && s.rows[t].expires == e) || exists i :: 0 <= i < |run| && HandsOut(run[i], t, e)
    decreases |run|
  {
    if run != [] {
      var n := Apply(s, run[0]);
      var e := Run(s, run).rows[t].expires;
      ExpiryAsHandedOut(n, run[1..], t);
      if t in n.rows && n.rows[t].expires == e {
        assert (t in s.rows && s.rows[t].expires == e) || HandsOut(run[0], t, e);
      } else {
        var i :| 0 <= i < |run[1..]| && HandsOut(run[1..][i], t, e);
        assert HandsOut(run[i + 1], t, e);
      }
    }
  }

  /** A token handed out at login can be exchanged at any moment before its expiry, and at none from then on. */
  lemma LoginLastsUntilExpiry(s: State, t: Id, user: Id, chain: Id, expires: int, to: int, p: Id)
    requires Inv(s) && Enabled(s, Login(t, user, chain, expires)) && s.now <= to && p !in s.calls
    ensures var n := Apply(Apply(s, Login(t, user, chain, expires)), Tick(to));
            Enabled(n, Claim(p, t)) && Apply(n, Claim(p, t)).wins == if to < expires then s.wins + [Win(t, chain)] else s.wins
  {
  }

  // ---------------------------------------------------------------- whole calls

  datatype Outcome = Refreshed(token: Id) | TokenInvalid | Failed

  /** The statements of one call of `Refresh`, run without interruption. */
  function CallSteps(s: State, p: Id, token: Id, successor: Id, chain: Id, expires: int, issueOk: bool, stitchOk: bool): seq<Step>
  {
    if token in s.rows && s.rows[token].Live(s.now) then
      if issueOk then [Claim(p, token), Issue(p, successor, chain, expires), if stitchOk then Stitch(p) else StitchFails(p)]
      else [Claim(p, token), IssueFails(p)]
    else [Claim(p, token), Revoke(p)]
  }

  /** A replayed token kills its chain when calls run one at a time: nothing that comes later, at any interleaving,
      makes a token of the chain succeed. */
  lemma WholeCallReplayKillsChain(s: State, p: Id, token: Id)
    requires Inv(s) && s.calls == map[] && token in s.rows && !s.rows[token].Live(s.now)
    ensures var call := CallSteps(s, p, token, 0, 0, 0, true, true);
            Possible(s, call) && NeverWins(Run(s, call), s.rows[token].chain)
  {
    var call := CallSteps(s, p, token, 0, 0, 0, true, true);
    var n := Apply(s, Claim(p, token));
    assert call[1..] == [Revoke(p)] && call[1..][1..] == [];
    assert Enabled(s, call[0]);
    InvStep(s, call[0]);
    ReplayKillsChainExactly(n, p);
    assert Run(n, call[1..]) == Run(Apply(n, Revoke(p)), call[1..][1..]) == Apply(n, Revoke(p));
    assert Possible(n, call[1..]);
  }

  /** The service with its table; `now` and the new token and chain come from outside. */
  class Service {
    var rows: map<Id, Row>

    constructor ()
      ensures rows == map[]
    {
      rows := map[];
    }

    /** `Refresh`, statement by statement. The table ends as after the uninterrupted run of its statements. */
    method Refresh(token: Id, now: int, successor: Id, chain: Id, ttl: int, issueOk: bool, stitchOk: bool) returns (r: Outcome)
      requires successor !in rows && successor != token
      modifies this
      ensures var s := State(old(rows), map[], now, []);
              rows == Run(s, CallSteps(s, 0, token, successor, chain, now + ttl, issueOk, stitchOk)).rows
      ensures r.TokenInvalid? <==>
                token !in old(rows) || old(rows)[token].used || old(rows)[token].revoked || old(rows)[token].expires <= now
      ensures !r.TokenInvalid? ==> (r.Refreshed? <==> issueOk)
      ensures r.Refreshed? ==>
                var q := old(rows)[token];
                && r.token == successor
                && rows == old(rows)[token := q.(used := true)]
                                    [successor := Row(q.user, if stitchOk then q.chain else chain, now + ttl, false, false, q.root)]
      ensures r.Failed? ==> rows == old(rows)[token := old(rows)[token].(used := true)]
      ensures r.TokenInvalid? && token !in old(rows) ==> rows == old(rows)
      ensures r.TokenInvalid? && token in old(rows) ==>
                && rows.Keys == old(rows).Keys
                && forall t :: t in rows ==>
                     var q := old(rows)[t]; rows[t] == if q.chain == old(rows)[token].chain then q.(revoked := true) else q
    {
      ghost var s := State(rows, map[], now, []);
      ghost var call := CallSteps(s, 0, token, successor, chain, now + ttl, issueOk, stitchOk);
      ghost var s1 := Apply(s, call[0]);
      ghost var s2 := Apply(s1, call[1]);
      assert call[1..][1..] == call[2..];
      assert Run(s, call) == Run(s1, call[1..]) == Run(s2, call[2..]);
      if token !in rows || rows[token].used || rows[token].revoked || rows[token].expires <= now {
        if token in rows {
          var c := rows[token].chain;
          rows := map t | t in rows :: if rows[t].chain == c then rows[t].(revoked := true) else rows[t];
        }
        assert call[2..] == [];
        return TokenInvalid;
      }
      var claimed := rows[token];
      rows := rows[token := claimed.(used := true)];
      if !issueOk {
        assert call[2..] == [];
        return Failed;
      }
      rows := rows[successor := Row(claimed.user, chain, now + ttl, false, false, claimed.root)];
      if stitchOk {
        rows := rows[successor := rows[successor].(chain := claimed.chain)];
      }
      assert call[2..][1..] == [];
      assert Run(s2, call[2..]) == Apply(s2, call[2]);
      return Refreshed(successor);
    }
  }
}
