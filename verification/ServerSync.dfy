/**
 The debounced mirror of local settings to the server: a timer, an in-flight flag and a
 pending flag, driven by writes, timer events, immediate flushes, and PUTs that reach the
 server and settle in any order or not at all.
 */
module ServerSync {

  type Blob = map<string, string>

  // ---------------------------------------------------------------- the module's variables

  datatype Flags = Flags(timer: bool, inFlight: bool, pending: bool)

  function ScheduleUp(f: Flags): Flags { if f.inFlight then f.(pending := true) else f.(timer := true) }

  /** A push begins, from the timer or from an immediate flush: both leave no timer armed. */
  function PushBegins(f: Flags): Flags { f.(timer := false, inFlight := true) }

  /** A push ends, whether its PUT succeeded or not. */
  function PushEnds(f: Flags): Flags
  {
    var g := f.(inFlight := false);
    if g.pending then ScheduleUp(g.(pending := false)) else g
  }

  /** The synced part of the store. */
  function Synced(keys: seq<string>, store: Blob): Blob { map k | k in store && k in keys :: store[k] }

  class SyncClient {
    const keys: seq<string>
    var upTimer: bool
    var upInFlight: bool
    var upPending: bool
    var store: Blob

    constructor (keys: seq<string>, store: Blob)
      ensures Vars() == Flags(false, false, false) && this.store == store && this.keys == keys
    {
      this.keys, this.store := keys, store;
      upTimer, upInFlight, upPending := false, false, false;
    }

    function Vars(): Flags
      reads this
    {
      Flags(upTimer, upInFlight, upPending)
    }

    method Schedule()
      modifies this`upTimer, this`upPending
      ensures Vars() == ScheduleUp(old(Vars()))
      ensures upTimer == (old(upTimer) || !upInFlight) && upPending == (old(upPending) || upInFlight)
    {
      if upInFlight {
        upPending := true;
        return;
      }
      upTimer := true;
    }

    /** The walk over the allow-list. */
    method Snapshot() returns (out: Blob)
      ensures out == Synced(keys, store)
      ensures forall k :: (k in out <==> k in keys && k in store) && (k in out ==> out[k] == store[k])
    {
      out := map[];
      for i := 0 to |keys|
        invariant out == Synced(keys[..i], store)
      {
        if keys[i] in store {
          out := out[keys[i] := store[keys[i]]];
        }
        assert keys[..i + 1] == keys[..i] + [keys[i]];
      }
      assert keys[..|keys|] == keys;
    }

    /** The part of a push before its PUT is on the wire. */
    method BeginPush() returns (body: Blob)
      modifies this`upInFlight, this`upTimer
      ensures Vars() == Flags(false, true, old(Vars()).pending) && body == Synced(keys, store)
    {
      upTimer := false;
      upInFlight := true;
      body := Snapshot();
    }

    /** The part of a push after its PUT has settled. */
    method EndPush()
      modifies this`upInFlight, this`upTimer, this`upPending
      ensures Vars() == PushEnds(old(Vars()))
      ensures !upInFlight && !upPending && upTimer == (old(upTimer) || old(upPending))
    {
      upInFlight := false;
      if upPending {
        upPending := false;
        Schedule();
      }
    }
  }

  // ---------------------------------------------------------------- the protocol

  datatype Put = Put(body: Blob, applied: bool)

  /** `local` is the synced part of the store. `dirty`, `sent` and `lastApplied` are history: a write since the last
      snapshot, all bodies ever sent, and which of them the server holds. */
  datatype State = State(flags: Flags, local: Blob, puts: map<nat, Put>, server: Blob,
                         dirty: bool, sent: seq<Blob>, lastApplied: nat)

  datatype Step =
    | Write(key: string, value: string)     // a synced key is written and scheduleUp is called
    | Fire                                  // the timer goes off
    | SyncUpNow
    | Arrive(id: nat)                       // the server stores a PUT's body
    | Settle(id: nat)                       // the client sees a PUT end: applied before, or failed

  ghost predicate Enabled(s: State, a: Step)
  {
    match a
    case Write(_, _) => true
    case Fire => s.flags.timer
    case SyncUpNow => true
    case Arrive(id) => id in s.puts && !s.puts[id].applied
    case Settle(id) => id in s.puts
  }

  function BeginPut(s: State): State
  {
    s.(flags := PushBegins(s.flags), puts := s.puts[|s.sent| := Put(s.local, false)], dirty := false, sent := s.sent + [s.local])
  }

  function Apply(s: State, a: Step): State
  {
    match a
    case Write(k, v) => s.(local := s.local[k := v], dirty := true, flags := ScheduleUp(s.flags))
    case Fire => BeginPut(s)
    case SyncUpNow => BeginPut(s)
    case Arrive(id) =>
      if id in s.puts then s.(server := s.puts[id].body, puts := s.puts[id := s.puts[id].(applied := true)], lastApplied := id) else s
    case Settle(id) => s.(puts := s.puts - {id}, flags := PushEnds(s.flags))
  }

  /** The page has loaded and the settings agree with the server's; entry 0 of `sent` stands for that. */
  function Start(blob: Blob): State
  {
    State(Flags(false, false, false), blob, map[], blob, false, [blob], 0)
  }

  ghost predicate Possible(s: State, run: seq<Step>)
    decreases |run|
  {
    run == [] || (Enabled(s, run[0]) && Possible(Apply(s, run[0]), run[1..]))
  }

  function Run(s: State, run: seq<Step>): State
    decreases |run|
  {
    if run == [] then s else Run(Apply(s, run[0]), run[1..])
  }

  ghost predicate NoFlush(run: seq<Step>) { forall i :: 0 <= i < |run| ==> !run[i].SyncUpNow? }

  /** Nothing is armed and nothing is on the wire: only a new write or flush can start anything. */
  ghost predicate Quiet(s: State) { !s.flags.timer && s.puts == map[] }

  // ---------------------------------------------------------------- invariants

  /** Holds in every run. */
  ghost predicate Inv(s: State)
  {
    && (s.dirty ==> s.flags.timer || s.flags.pending)
    && (s.flags.pending ==> s.flags.inFlight)
    && (s.flags.inFlight ==> |s.sent| - 1 in s.puts)
    && s.sent != [] && (!s.dirty ==> s.local == s.sent[|s.sent| - 1])
    && s.lastApplied < |s.sent| && s.server == s.sent[s.lastApplied]
    && forall id :: id in s.puts ==> id < |s.sent| && s.puts[id].body == s.sent[id]
  }

  /** Holds in addition when nobody flushes past the timer. */
  ghost predicate OneAtATime(s: State)
  {
    && (forall id :: id in s.puts ==> id == |s.sent| - 1)
    && (s.puts != map[] ==> s.flags.inFlight && !s.flags.timer)
  }

  lemma InvStep(s: State, a: Step)
    requires Inv(s) && Enabled(s, a)
    ensures Inv(Apply(s, a))
  {
  }

  lemma OneAtATimeStep(s: State, a: Step)
    requires Inv(s) && OneAtATime(s) && Enabled(s, a) && !a.SyncUpNow?
    ensures OneAtATime(Apply(s, a))
  {
  }

  lemma {:induction false} InvRun(s: State, run: seq<Step>)
    requires Inv(s) && Possible(s, run)
    ensures Inv(Run(s, run))
    ensures OneAtATime(s) && NoFlush(run) ==> OneAtATime(Run(s, run))
    decreases |run|
  {
    if run != [] {
      InvStep(s, run[0]);
      if OneAtATime(s) && NoFlush(run) {
        OneAtATimeStep(s, run[0]);
      }
      InvRun(Apply(s, run[0]), run[1..]);
    }
  }

  // ---------------------------------------------------------------- results

  /** No lost write, in every run: a write that no snapshot has taken yet has the timer armed, or is pending behind a
      PUT that is still outstanding. */
  lemma NoLostWrite(blob: Blob, run: seq<Step>)
    requires Possible(Start(blob), run)
    ensures var s := Run(Start(blob), run);
            s.dirty ==> s.flags.timer || (s.flags.pending && s.puts != map[])
  {
    InvRun(Start(blob), run);
  }

  /** Without immediate flushes, PUTs go one at a time and never beside an armed timer. */
  lemma OnePutAtATime(blob: Blob, run: seq<Step>, i: nat, j: nat)
    requires Possible(Start(blob), run) && NoFlush(run)
    requires var s := Run(Start(blob), run); i in s.puts && j in s.puts
    ensures var s := Run(Start(blob), run); i == j && !s.flags.timer
  {
    InvRun(Start(blob), run);
  }

  /** A step at which a PUT is given up before the server stored it. */
  ghost predicate Fails(s: State, a: Step) { a.Settle? && a.id in s.puts && !s.puts[a.id].applied }

  ghost predicate NoFailure(s: State, run: seq<Step>)
    decreases |run|
  {
    run == [] || (!Fails(s, run[0]) && NoFailure(Apply(s, run[0]), run[1..]))
  }

  /** Without a further flush and without failures, the run from s ends mirrored if it ends quiet. */
  ghost predicate Mirrors(s: State, run: seq<Step>)
  {
    Possible(s, run) && NoFlush(run) && NoFailure(s, run) && Quiet(Run(s, run)) ==> Run(s, run).server == Run(s, run).local
  }

  /** The server has everything, or will be sent it without a new change. */
  ghost predicate Recovers(s: State)
  {
    s.flags.timer || s.flags.pending || s.server == s.local || exists id :: id in s.puts && !s.puts[id].applied
  }

  lemma RecoversStep(s: State, a: Step)
    requires Inv(s) && OneAtATime(s) && Enabled(s, a) && !a.SyncUpNow? && !Fails(s, a)
    ensures Recovers(s) ==> Recovers(Apply(s, a))
    ensures Unaided(a) && Recovers(Apply(s, a)) ==> Recovers(s)
  {
    InvStep(s, a);
    OneAtATimeStep(s, a);
    var n := Apply(s, a);
    match a
    case Fire => assert |n.sent| - 1 in n.puts && !n.puts[|n.sent| - 1].applied;
    case _ =>
  }

  lemma {:induction false} RecoversRun(s: State, run: seq<Step>)
    requires Inv(s) && OneAtATime(s) && Recovers(s) && Possible(s, run) && NoFlush(run) && NoFailure(s, run)
    ensures Inv(Run(s, run)) && OneAtATime(Run(s, run)) && Recovers(Run(s, run))
    decreases |run|
  {
    if run != [] {
      InvStep(s, run[0]);
      OneAtATimeStep(s, run[0]);
      RecoversStep(s, run[0]);
      RecoversRun(Apply(s, run[0]), run[1..]);
    }
  }

  /** When the mirror is exact in every further run without flush and failure, whenever that comes to rest: exactly if
      the timer is armed, a write is pending, a PUT has yet to arrive, or the server has everything already. */
  lemma MirrorsExactly(s: State)
    requires Inv(s) && OneAtATime(s)
    ensures (forall run :: Mirrors(s, run)) <==> Recovers(s)
  {
    if Recovers(s) {
      forall run
        ensures Mirrors(s, run)
      {
        if Possible(s, run) && NoFlush(run) && NoFailure(s, run) {
          RecoversRun(s, run);
        }
      }
    } else if s.puts == map[] {
      assert !Mirrors(s, []);
    } else {
      var id :| id in s.puts;
      var run := [Settle(id)];
      var n := Apply(s, run[0]);
      assert n.puts == map[] && run[1..] == [];
      Next(s, run, n, n);
      assert !Mirrors(s, run);
    }
  }

  /** Without flushes and failures the mirror is exact whenever all is quiet. */
  lemma QuietMeansMirrored(blob: Blob, run: seq<Step>)
    requires Possible(Start(blob), run) && NoFlush(run) && NoFailure(Start(blob), run)
    requires Quiet(Run(Start(blob), run))
    ensures var s := Run(Start(blob), run); s.server == s.local
  {
    RecoversRun(Start(blob), run);
  }

  /** How many events are still to come if nobody writes or flushes. */
  function Remaining(s: State): nat
  {
    (if s.flags.timer then 3 else 0) + (if s.flags.pending then 3 else 0)
    + if |s.sent| > 0 && |s.sent| - 1 in s.puts then (if s.puts[|s.sent| - 1].applied then 1 else 2) else 0
  }

  predicate Unaided(a: Step) { a.Fire? || a.Arrive? || a.Settle? }

  lemma RestStep(s: State, a: Step)
    requires Inv(s) && OneAtATime(s) && Enabled(s, a) && Unaided(a) && !Fails(s, a)
    ensures Inv(Apply(s, a)) && OneAtATime(Apply(s, a)) && (Recovers(Apply(s, a)) <==> Recovers(s))
    ensures Remaining(Apply(s, a)) == Remaining(s) - 1
  {
    InvStep(s, a);
    OneAtATimeStep(s, a);
    RecoversStep(s, a);
  }

  lemma AtRest(s: State)
    requires Inv(s) && OneAtATime(s)
    ensures Quiet(s) <==> Remaining(s) == 0
    ensures Quiet(s) ==> (s.server == s.local <==> Recovers(s))
  {
    assert s.puts != map[] ==> |s.sent| - 1 in s.puts;
  }

  /** The event that brings s nearer to rest. */
  ghost function Due(s: State): (a: Step)
    requires Inv(s) && OneAtATime(s) && !Quiet(s)
    ensures Unaided(a) && Enabled(s, a) && !Fails(s, a) && Apply(s, a).local == s.local
  {
    var last := |s.sent| - 1;
    if last !in s.puts then Fire else if s.puts[last].applied then Settle(last) else Arrive(last)
  }

  /** Left alone, with PUTs that reach the server, the protocol can come to rest in at most eight events, and then the
      server has every write exactly if s recovers. */
  lemma {:induction false} ComesToRest(s: State) returns (run: seq<Step>)
    requires Inv(s) && OneAtATime(s)
    ensures Possible(s, run) && NoFailure(s, run) && |run| == Remaining(s) <= 8
    ensures forall i :: 0 <= i < |run| ==> Unaided(run[i])
    ensures Quiet(Run(s, run)) && Run(s, run).local == s.local && (Run(s, run).server == s.local <==> Recovers(s))
    decreases Remaining(s)
  {
    AtRest(s);
    if Quiet(s) {
      run := [];
    } else {
      var a := Due(s);
      RestStep(s, a);
      var rest := ComesToRest(Apply(s, a));
      run := [a] + rest;
      assert run[1..] == rest;
    }
  }

  /** And so it does however its events fall: no run without failures is longer, a run has come to rest exactly when it
      has that length, and then the server has every write exactly if s recovers. */
  lemma {:induction false} EveryRunComesToRest(s: State, run: seq<Step>)
    requires Inv(s) && OneAtATime(s) && Possible(s, run) && NoFailure(s, run)
    requires forall i :: 0 <= i < |run| ==> Unaided(run[i])
    ensures |run| <= Remaining(s) <= 8
    ensures Quiet(Run(s, run)) <==> |run| == Remaining(s)
    ensures Quiet(Run(s, run)) ==> (Run(s, run).server == Run(s, run).local <==> Recovers(s))
    decreases |run|
  {
    if run == [] {
      AtRest(s);
    } else {
      RestStep(s, run[0]);
      EveryRunComesToRest(Apply(s, run[0]), run[1..]);
    }
  }

  // ---------------------------------------------------------------- when a flush is safe

  /** A flush keeps the mirror exact in every further run if and only if no PUT is outstanding when it is called. */
  lemma FlushMirrorsExactly(s: State)
    requires Inv(s) && OneAtATime(s)
    ensures (forall run :: Mirrors(Apply(s, SyncUpNow), run)) <==> s.puts == map[]
  {
    var n := Apply(s, SyncUpNow);
    InvStep(s, SyncUpNow);
    if s.puts == map[] {
      assert OneAtATime(n) && |s.sent| in n.puts && !n.puts[|s.sent|].applied;
      MirrorsExactly(n);
    } else {
      var first := |s.sent| - 1;
      var id :| id in s.puts;
      assert id == first && n.puts.Keys == {first, first + 1};
      var run := FlushOverPut(n, first);
      assert !Mirrors(n, run);
    }
  }

  /** The first PUT ends, a write is sent by the timer, and the two newer PUTs arrive in reverse order. */
  lemma FlushOverPut(s: State, first: nat) returns (run: seq<Step>)
    requires s.puts.Keys == {first, first + 1} && |s.sent| == first + 2 && Inv(s) && !s.puts[first + 1].applied
    requires s.flags.inFlight && !s.flags.timer && !s.dirty
    ensures !Mirrors(s, run)
  {
    var v := if "k" in s.local && s.local["k"] == "a" then "b" else "a";
    var tail := [Settle(first), Write("k", v), Fire] + [Arrive(first + 2), Arrive(first + 1), Settle(first + 2), Settle(first + 1)];
    if s.puts[first].applied {
      run := tail;
      Reversed(s, first, v, run);
    } else {
      var s1 := Apply(s, Arrive(first));
      InvStep(s, Arrive(first));
      Reversed(s1, first, v, tail);
      run := [Arrive(first)] + tail;
      assert run[1..] == tail;
    }
  }

  /** Two PUTs that arrive in reverse order leave the older body on the server. */
  lemma ArriveReversed(s: State, i: nat, j: nat, run: seq<Step>) returns (last: State)
    requires i != j && s.puts.Keys == {i, j} && !s.puts[i].applied && !s.puts[j].applied && !s.flags.pending && !s.flags.timer
    requires run == [Arrive(j), Arrive(i), Settle(j), Settle(i)]
    ensures Possible(s, run) && NoFailure(s, run) && Run(s, run) == last
    ensures Quiet(last) && last.server == s.puts[i].body && last.local == s.local
  {
    var s1 := Apply(s, run[0]);
    var s2 := Apply(s1, run[1]);
    var s3 := Apply(s2, run[2]);
    last := Apply(s3, run[3]);
    assert last.puts == map[];
    Next(s3, run[3..], last, last);
    Next(s2, run[2..], s3, last);
    Next(s1, run[1..], s2, last);
    Next(s, run, s1, last);
  }

  lemma Reversed(s: State, first: nat, v: string, run: seq<Step>)
    requires s.puts.Keys == {first, first + 1} && |s.sent| == first + 2 && Inv(s) && s.puts[first].applied && !s.puts[first + 1].applied
    requires s.flags.inFlight && !s.flags.timer && !s.dirty && ("k" in s.local ==> s.local["k"] != v)
    requires run == [Settle(first), Write("k", v), Fire] + [Arrive(first + 2), Arrive(first + 1), Settle(first + 2), Settle(first + 1)]
    ensures !Mirrors(s, run)
  {
    var s1 := Apply(s, run[0]);
    var s2 := Apply(s1, run[1]);
    var s3 := Apply(s2, run[2]);
    assert s3.puts.Keys == {first + 1, first + 2} && s3.puts[first + 1] == s.puts[first + 1];
    var last := ArriveReversed(s3, first + 1, first + 2, run[3..]);
    assert last.server == s.sent[first + 1] == s.local && last.local == s.local["k" := v];
    assert last.local["k"] == v;
    assert run[1..][1..] == run[2..] && run[2..][1..] == run[3..];
    Next(s2, run[2..], s3, last);
    Next(s1, run[1..], s2, last);
    Next(s, run, s1, last);
  }

  lemma Next(s: State, run: seq<Step>, n: State, last: State)
    requires run != [] && Enabled(s, run[0]) && Apply(s, run[0]) == n && !Fails(s, run[0])
    requires Possible(n, run[1..]) && NoFailure(n, run[1..]) && Run(n, run[1..]) == last
    ensures Possible(s, run) && NoFailure(s, run) && Run(s, run) == last
  {
  }

  // ---------------------------------------------------------------- when a failed PUT is made good

  /** A failed PUT is made good in every further run if and only if a write was pending behind it, or the server has
      everything already; and only with a write pending does anything happen at all without a new change. */
  lemma FailedPutExactly(s: State, id: nat)
    requires Inv(s) && OneAtATime(s) && id in s.puts && !s.puts[id].applied
    ensures var n := Apply(s, Settle(id));
            && ((forall run :: Mirrors(n, run)) <==> s.flags.pending || s.server == s.local)
            && ((exists run :: GoesOn(n, run)) <==> s.flags.pending)
  {
    var n := Apply(s, Settle(id));
    InvStep(s, Settle(id));
    OneAtATimeStep(s, Settle(id));
    assert n.puts == map[] && n.flags.timer == s.flags.pending;
    MirrorsExactly(n);
    if s.flags.pending {
      var run := [Fire];
      assert run[1..] == [];
      assert GoesOn(n, run);
    }
  }

  /** Something happens, and nobody writes or flushes. */
  ghost predicate GoesOn(s: State, run: seq<Step>)
  {
    run != [] && Possible(s, run) && forall i :: 0 <= i < |run| ==> Unaided(run[i])
  }

  /** The plainest such run without a pending write. */
  lemma FailedPutWaits()
    ensures var run := [Write("k", "a"), Fire, Settle(1)];
            var s := Run(Start(map[]), run);
            Possible(Start(map[]), run) && NoFlush(run) && Quiet(s) && s.server != s.local
  {
    var run := [Write("k", "a"), Fire, Settle(1)];
    var s1 := Apply(Start(map[]), run[0]);
    var s2 := Apply(s1, run[1]);
    var s3 := Apply(s2, run[2]);
    assert run[1..][1..] == run[2..] && run[2..][1..] == run[3..];
    assert Run(s2, run[2..]) == Run(s3, run[3..]) == s3;
    assert Run(s1, run[1..]) == s3;
    assert Run(Start(map[]), run) == s3;
    assert "k" in s3.local && "k" !in s3.server;
  }

  /** Two flushes overlapped; the newer PUT is through, the older one is still on its way. */
  function Overlapped(): State
  {
    State(Flags(true, false, false), map["k" := "b"], map[1 := Put(map["k" := "a"], false)], map["k" := "b"], false,
          [map[], map["k" := "a"], map["k" := "b"]], 2)
  }

  lemma Overlap(run: seq<Step>)
    requires run == [Write("k", "a"), SyncUpNow, Write("k", "b"), SyncUpNow, Arrive(2), Settle(2)]
    ensures Possible(Start(map[]), run) && NoFailure(Start(map[]), run) && Run(Start(map[]), run) == Overlapped()
  {
    var e, a, b := map[], map["k" := "a"], map["k" := "b"];
    var p1 := Put(a, false);
    var s1 := State(Flags(true, false, false), a, map[], e, true, [e], 0);
    var s2 := State(Flags(false, true, false), a, map[1 := p1], e, false, [e, a], 0);
    var s3 := State(Flags(false, true, true), b, map[1 := p1], e, true, [e, a], 0);
    var s4 := State(Flags(false, true, true), b, map[1 := p1, 2 := Put(b, false)], e, false, [e, a, b], 0);
    var s5 := State(Flags(false, true, true), b, map[1 := p1, 2 := Put(b, true)], b, false, [e, a, b], 2);
    var s6 := Overlapped();
    Next(s5, run[5..], s6, s6);
    Next(s4, run[4..], s5, s6);
    Next(s3, run[3..], s4, s6);
    Next(s2, run[2..], s3, s6);
    Next(s1, run[1..], s2, s6);
    Next(Start(map[]), run, s1, s6);
  }

  /** Immediate flushes can overlap, and a PUT that arrives late undoes a newer one although none has failed. */
  lemma OverlappingFlushesLoseAWrite() returns (run: seq<Step>)
    ensures Possible(Start(map[]), run) && NoFailure(Start(map[]), run)
    ensures var s := Run(Start(map[]), run);
            Quiet(s) && s.local == map["k" := "b"] && s.server == map["k" := "a"]
  {
    var before := [Write("k", "a"), SyncUpNow, Write("k", "b"), SyncUpNow, Arrive(2), Settle(2)];
    Overlap(before);
    var late := [Fire, Arrive(3), Settle(3), Arrive(1), Settle(1)];
    LateArrival(late);
    run := before + late;
    Then(Start(map[]), before, late);
  }

  /** The second body is sent again and stored, and then the first PUT arrives. */
  lemma LateArrival(late: seq<Step>)
    requires late == [Fire, Arrive(3), Settle(3), Arrive(1), Settle(1)]
    ensures Possible(Overlapped(), late) && NoFailure(Overlapped(), late)
    ensures var s := Run(Overlapped(), late); Quiet(s) && s.local == map["k" := "b"] && s.server == map["k" := "a"]
  {
    var e, a, b := map[], map["k" := "a"], map["k" := "b"];
    var p1 := Put(a, false);
    var s7 := State(Flags(false, true, false), b, map[1 := p1, 3 := Put(b, false)], b, false, [e, a, b, b], 2);
    var s8 := State(Flags(false, true, false), b, map[1 := p1, 3 := Put(b, true)], b, false, [e, a, b, b], 3);
    var s9 := State(Flags(false, false, false), b, map[1 := p1], b, false, [e, a, b, b], 3);
    var s10 := State(Flags(false, false, false), b, map[1 := Put(a, true)], a, false, [e, a, b, b], 1);
    var s11 := s10.(puts := map[]);
    Next(s10, late[4..], s11, s11);
    Next(s9, late[3..], s10, s11);
    Next(s8, late[2..], s9, s11);
    Next(s7, late[1..], s8, s11);
    Next(Overlapped(), late, s7, s11);
  }

  /** One run after another. */
  lemma {:induction false} Then(s: State, run: seq<Step>, more: seq<Step>)
    requires Possible(s, run) && NoFailure(s, run) && Possible(Run(s, run), more) && NoFailure(Run(s, run), more)
    ensures Possible(s, run + more) && NoFailure(s, run + more) && Run(s, run + more) == Run(Run(s, run), more)
    decreases |run|
  {
    if run == [] {
      assert run + more == more;
    } else {
      assert (run + more)[1..] == run[1..] + more;
      Then(Apply(s, run[0]), run[1..], more);
    }
  }
}
