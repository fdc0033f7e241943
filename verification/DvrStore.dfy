/**
 The recorded segments: objects in storage and rows in the index. Recorders store the
 object, then the row; sweepers delete the objects of old rows, then the rows. Any number of
 both run interleaved, and any of them may crash or fail between two operations.

 Times are microseconds, as the index keeps them; an object key names the millisecond.
 */
module DvrStore {
  import opened Text

  datatype Segment = Segment(channel: string, sequence: nat, startedAt: nat, durationMs: int)

  function Millisecond(at: int): int { at / 1000 }

  function FileName(s: Segment): string
  {
    Printed(Millisecond(s.startedAt)) + "-" + Printed(s.sequence) + "-" + Printed(s.durationMs) + ".ts"
  }

  /** The object key; `hour` formats the date and hour directories of a millisecond. */
  function SegmentKey(s: Segment, hour: int -> string): string
  {
    "dvr/" + s.channel + "/" + hour(Millisecond(s.startedAt)) + "/" + FileName(s)
  }

  // ---------------------------------------------------------------- keys are injective

  lemma LastSplit(a: string, b: string, x: string, y: string, c: char)
    requires c !in x && c !in y && a + [c] + x == b + [c] + y
    ensures a == b && x == y
  {
    var s := a + [c] + x;
    assert s == b + [c] + y;
    assert forall i :: |a| < i < |s| ==> s[i] == x[i - |a| - 1];
    assert forall i :: |b| < i < |s| ==> s[i] == y[i - |b| - 1];
    assert s[|a|] == c && s[|b|] == c;
    assert |a| == |b|;
    assert a == s[..|a|] && b == s[..|b|] && x == s[|a| + 1..] && y == s[|b| + 1..];
  }

  lemma FirstSplit(a: string, b: string, x: string, y: string, c: char)
    requires c !in a && c !in b && a + [c] + x == b + [c] + y
    ensures a == b && x == y
  {
    FirstIndexAfter(a, c, x);
    FirstIndexAfter(b, c, y);
    var s := a + [c] + x;
    assert a == s[..|a|] && b == s[..|b|] && x == s[|a| + 1..] && y == s[|b| + 1..];
  }

  /** Two dashes separate three parts when the first two have none of their own. */
  lemma DashSplit(m: string, i: string, d: string, n: string, j: string, e: string)
    requires '-' !in m && '-' !in i && '-' !in n && '-' !in j
    requires m + "-" + i + "-" + d == n + "-" + j + "-" + e
    ensures m == n && i == j && d == e
  {
    assert m + "-" + i + "-" + d == m + ['-'] + (i + ['-'] + d);
    assert n + "-" + j + "-" + e == n + ['-'] + (j + ['-'] + e);
    FirstSplit(m, n, i + ['-'] + d, j + ['-'] + e, '-');
    FirstSplit(i, j, d, e, '-');
  }

  lemma FileNameInjective(s: Segment, t: Segment)
    requires FileName(s) == FileName(t)
    ensures Millisecond(s.startedAt) == Millisecond(t.startedAt) && s.sequence == t.sequence && s.durationMs == t.durationMs
  {
    var m, n := Printed(Millisecond(s.startedAt)), Printed(Millisecond(t.startedAt));
    var i, j := Printed(s.sequence), Printed(t.sequence);
    var d, e := Printed(s.durationMs), Printed(t.durationMs);
    assert '-' !in m && '-' !in n && '-' !in i && '-' !in j;
    assert FileName(s) == m + "-" + i + "-" + (d + ".ts") && FileName(t) == n + "-" + j + "-" + (e + ".ts");
    DashSplit(m, i, d + ".ts", n, j, e + ".ts");
    assert d == (d + ".ts")[..|d|] && e == (e + ".ts")[..|e|];
    PrintedInjective(Millisecond(s.startedAt), Millisecond(t.startedAt));
    PrintedInjective(s.sequence, t.sequence);
    PrintedInjective(s.durationMs, t.durationMs);
  }

  lemma FileNameFlat(s: Segment)
    ensures '/' !in FileName(s)
  {
    PrintedChars(Millisecond(s.startedAt));
    PrintedChars(s.sequence);
    PrintedChars(s.durationMs);
    assert !IsDigit('/');
  }

  /** All that a key names of a segment. */
  predicate SameName(s: Segment, t: Segment)
  {
    && s.channel == t.channel && Millisecond(s.startedAt) == Millisecond(t.startedAt)
    && s.sequence == t.sequence && s.durationMs == t.durationMs
  }

  /** Keys are equal exactly for the same channel, millisecond, sequence number and duration. */
  lemma SegmentKeyExactly(s: Segment, t: Segment, hour: int -> string)
    requires '/' !in s.channel && '/' !in t.channel
    ensures SegmentKey(s, hour) == SegmentKey(t, hour) <==>
            && s.channel == t.channel && s.startedAt / 1000 == t.startedAt / 1000
            && s.sequence == t.sequence && s.durationMs == t.durationMs
  {
    if SegmentKey(s, hour) == SegmentKey(t, hour) {
      SegmentKeyInjective(s, t, hour);
    }
  }

  lemma SegmentKeyInjective(s: Segment, t: Segment, hour: int -> string)
    requires '/' !in s.channel && '/' !in t.channel && SegmentKey(s, hour) == SegmentKey(t, hour)
    ensures SameName(s, t)
  {
    var g, h := hour(Millisecond(s.startedAt)), hour(Millisecond(t.startedAt));
    PathParts(s.channel, g, FileName(s));
    PathParts(t.channel, h, FileName(t));
    var x, y := g + ['/'] + FileName(s), h + ['/'] + FileName(t);
    FirstSplit(s.channel, t.channel, x, y, '/');
    FileNameFlat(s);
    FileNameFlat(t);
    LastSplit(g, h, FileName(s), FileName(t), '/');
    FileNameInjective(s, t);
  }

  lemma PathParts(channel: string, dir: string, file: string)
    ensures ("dvr/" + channel + "/" + dir + "/" + file)[4..] == channel + ['/'] + (dir + ['/'] + file)
  {
  }

  // ---------------------------------------------------------------- the system

  /** A recorder between the download of a segment and the end of `persistSegment`. */
  datatype Persist = Persist(seg: Segment, stored: bool)

  /** A sweeper inside `runOnce`: the rows listed and not yet visited, and the ids whose objects it has deleted. */
  datatype Sweep = Sweep(todo: map<nat, Segment>, gone: map<nat, Segment>)

  /** `deleted` and `removed` are history: keys that a sweeper deleted, rows that a sweeper removed. */
  datatype State = State(
    now: nat, objects: set<string>, rows: map<nat, Segment>, nextId: nat,
    persists: map<nat, Persist>, sweeps: map<nat, Sweep>, deleted: set<string>, removed: set<Segment>)

  /** What every process knows: the retention period and how objects are named. */
  datatype World = World(retention: nat, key: Segment -> string) {
    /** Rows that started before this are due. */
    function Limit(now: nat): int { now - retention }
  }

  /** Names are as `segmentKey` makes them. */
  function RecorderWorld(retention: nat, hour: int -> string): World { World(retention, s => SegmentKey(s, hour)) }

  /** All that the system needs of names: segments of different milliseconds have different names. */
  ghost predicate NamesApart(w: World)
  {
    forall s: Segment, t: Segment :: '/' !in s.channel && '/' !in t.channel && w.key(s) == w.key(t) ==>
      Millisecond(s.startedAt) == Millisecond(t.startedAt)
  }

  lemma RecorderNamesApart(retention: nat, hour: int -> string)
    ensures NamesApart(RecorderWorld(retention, hour))
  {
    var w := RecorderWorld(retention, hour);
    forall s: Segment, t: Segment | '/' !in s.channel && '/' !in t.channel && w.key(s) == w.key(t)
      ensures Millisecond(s.startedAt) == Millisecond(t.startedAt)
    {
      SegmentKeyInjective(s, t, hour);
    }
  }

  datatype Step =
    | Tick(to: nat)
    | BeginPersist(p: nat, channel: string, sequence: nat, durationMs: int)
    | Put(p: nat)
    | PutFails(p: nat, wrote: bool)
    | Record(p: nat)
    | BeginSweep(q: nat, picked: set<nat>)
    | DeleteObject(q: nat, id: nat)
    | DeleteFails(q: nat, id: nat)
    | DeleteRows(q: nat)
    | CrashPersist(p: nat)
    | CrashSweep(q: nat)

  ghost predicate Enabled(w: World, s: State, a: Step)
  {
    match a
    case Tick(to) => s.now <= to
    case BeginPersist(p, c, _, _) => p !in s.persists && '/' !in c
    case Put(p) => p in s.persists && !s.persists[p].stored
    case PutFails(p, _) => p in s.persists && !s.persists[p].stored
    case Record(p) => p in s.persists && s.persists[p].stored
    case BeginSweep(q, picked) =>
      q !in s.sweeps && forall id :: id in picked ==> id in s.rows && s.rows[id].startedAt < w.Limit(s.now)
    case DeleteObject(q, id) => q in s.sweeps && id in s.sweeps[q].todo
    case DeleteFails(q, id) => q in s.sweeps && id in s.sweeps[q].todo
    case DeleteRows(q) => q in s.sweeps && s.sweeps[q].todo == map[]
    case CrashPersist(p) => p in s.persists
    case CrashSweep(q) => q in s.sweeps
  }

  /** The index has one row for each channel and start time; a second insert does nothing. */
  ghost predicate Indexed(rows: map<nat, Segment>, x: Segment)
  {
    exists id :: id in rows && rows[id].channel == x.channel && rows[id].startedAt == x.startedAt
  }

  ghost function Apply(w: World, s: State, a: Step): State
    requires Enabled(w, s, a)
  {
    match a
    case Tick(to) => s.(now := to)
    case BeginPersist(p, c, n, d) => s.(persists := s.persists[p := Persist(Segment(c, n, s.now, d), false)])
    case Put(p) =>
      s.(objects := s.objects + {w.key(s.persists[p].seg)}, persists := s.persists[p := s.persists[p].(stored := true)])
    case PutFails(p, wrote) =>
      s.(objects := s.objects + (if wrote then {w.key(s.persists[p].seg)} else {}), persists := s.persists - {p})
    case Record(p) =>
      var x := s.persists[p].seg;
      if Indexed(s.rows, x) then s.(persists := s.persists - {p})
      else s.(rows := s.rows[s.nextId := x], nextId := s.nextId + 1, persists := s.persists - {p})
    case BeginSweep(q, picked) =>
      s.(sweeps := s.sweeps[q := Sweep(map id | id in picked :: s.rows[id], map[])])
    case DeleteObject(q, id) =>
      var v := s.sweeps[q];
      s.(objects := s.objects - {w.key(v.todo[id])}, deleted := s.deleted + {w.key(v.todo[id])},
         sweeps := s.sweeps[q := Sweep(v.todo - {id}, v.gone[id := v.todo[id]])])
    case DeleteFails(q, id) => s.(sweeps := s.sweeps[q := s.sweeps[q].(todo := s.sweeps[q].todo - {id})])
    case DeleteRows(q) =>
      var ids := s.sweeps[q].gone.Keys;
      s.(rows := s.rows - ids, removed := s.removed + (set id | id in s.rows && id in ids :: s.rows[id]), sweeps := s.sweeps - {q})
    case CrashPersist(p) => s.(persists := s.persists - {p})
    case CrashSweep(q) => s.(sweeps := s.sweeps - {q})
  }

  ghost predicate Possible(w: World, s: State, run: seq<Step>)
    decreases |run|
  {
    run == [] || (Enabled(w, s, run[0]) && Possible(w, Apply(w, s, run[0]), run[1..]))
  }

  ghost function Run(w: World, s: State, run: seq<Step>): State
    requires Possible(w, s, run)
    decreases |run|
  {
    if run == [] then s else Run(w, Apply(w, s, run[0]), run[1..])
  }

  function Start(now: nat): State { State(now, {}, map[], 0, map[], map[], {}, {}) }

  // ---------------------------------------------------------------- invariant

  /** What is known of a run: nothing, or that only these segments are recorded in it. */
  datatype Mode = Any | Only(known: set<Segment>)

  /** No two of the segments share a name, unless they started at the same time. */
  ghost predicate Apart(w: World, known: set<Segment>)
  {
    forall x, y :: x in known && y in known && w.key(x) == w.key(y) ==> x.startedAt == y.startedAt
  }

  /** Inside retention; if nothing is known of the run, beyond the grain of the key, in a later millisecond than the limit's. */
  predicate Kept(w: World, now: nat, x: Segment, mode: Mode)
  {
    if mode.Only? then x.startedAt >= w.Limit(now) else Millisecond(x.startedAt) > Millisecond(w.Limit(now))
  }

  predicate Sound(x: Segment, mode: Mode) { '/' !in x.channel && (mode.Only? ==> x in mode.known) }

  ghost predicate NamesSuffice(w: World, mode: Mode) { NamesApart(w) && (mode.Only? ==> Apart(w, mode.known)) }

  ghost predicate ObjectsInv(w: World, s: State, mode: Mode)
  {
    && (forall id :: id in s.rows && Kept(w, s.now, s.rows[id], mode) ==> w.key(s.rows[id]) in s.objects)
    && (forall p :: p in s.persists && s.persists[p].stored && Kept(w, s.now, s.persists[p].seg, mode) ==>
          w.key(s.persists[p].seg) in s.objects)
  }

  ghost predicate SoundInv(s: State, mode: Mode)
  {
    && (forall id :: id in s.rows ==> id < s.nextId && Sound(s.rows[id], mode))
    && (forall p :: p in s.persists ==> Sound(s.persists[p].seg, mode))
    && (forall q :: q in s.sweeps ==> forall id :: id in s.sweeps[q].todo ==> Sound(s.sweeps[q].todo[id], mode))
  }

  /** A listed row is due; ids are never used again. */
  ghost predicate Due(w: World, s: State, id: nat, x: Segment)
  {
    x.startedAt < w.Limit(s.now) && id < s.nextId && (id in s.rows ==> s.rows[id] == x)
  }

  /** What a sweeper has visited has lost its object. */
  ghost predicate SweepOk(w: World, s: State, v: Sweep)
  {
    && (forall id :: id in v.todo ==> Due(w, s, id, v.todo[id]))
    && (forall id :: id in v.gone ==> Due(w, s, id, v.gone[id]) && w.key(v.gone[id]) in s.deleted)
  }

  ghost predicate SweepInv(w: World, s: State)
  {
    && (forall q :: q in s.sweeps ==> SweepOk(w, s, s.sweeps[q]))
    && (forall x :: x in s.removed ==> x.startedAt < w.Limit(s.now) && w.key(x) in s.deleted)
  }

  ghost predicate Inv(w: World, s: State, mode: Mode)
  {
    NamesSuffice(w, mode) && ObjectsInv(w, s, mode) && SoundInv(s, mode) && SweepInv(w, s)
  }

  /** A sweeper's delete leaves the objects of kept segments alone: their keys differ. */
  lemma DueKeyDiffers(w: World, now: nat, due: Segment, x: Segment, mode: Mode)
    requires NamesSuffice(w, mode) && due.startedAt < w.Limit(now) && Kept(w, now, x, mode) && Sound(due, mode) && Sound(x, mode)
    ensures w.key(due) != w.key(x)
  {
  }

  lemma ObjectsStep(w: World, s: State, a: Step, mode: Mode)
    requires Inv(w, s, mode) && Enabled(w, s, a) && !a.DeleteObject?
    ensures ObjectsInv(w, Apply(w, s, a), mode)
  {
  }

  lemma DeleteObjectStep(w: World, s: State, a: Step, mode: Mode)
    requires Inv(w, s, mode) && Enabled(w, s, a) && a.DeleteObject?
    ensures ObjectsInv(w, Apply(w, s, a), mode)
  {
    var due := s.sweeps[a.q].todo[a.id];
    assert SweepOk(w, s, s.sweeps[a.q]) && Due(w, s, a.id, due) && Sound(due, mode);
    forall id | id in s.rows && Kept(w, s.now, s.rows[id], mode)
      ensures w.key(s.rows[id]) != w.key(due)
    {
      DueKeyDiffers(w, s.now, due, s.rows[id], mode);
    }
    forall p | p in s.persists && s.persists[p].stored && Kept(w, s.now, s.persists[p].seg, mode)
      ensures w.key(s.persists[p].seg) != w.key(due)
    {
      DueKeyDiffers(w, s.now, due, s.persists[p].seg, mode);
    }
  }

  predicate RecordsKnown(s: State, a: Step, mode: Mode)
  {
    a.BeginPersist? && mode.Only? ==> Segment(a.channel, a.sequence, s.now, a.durationMs) in mode.known
  }

  lemma SoundStep(w: World, s: State, a: Step, mode: Mode)
    requires Inv(w, s, mode) && Enabled(w, s, a) && RecordsKnown(s, a, mode)
    ensures SoundInv(Apply(w, s, a), mode)
  {
  }

  /** Time, other rows and other deletions do not disturb a sweep. */
  lemma SweepStays(w: World, s: State, n: State, v: Sweep)
    requires SweepOk(w, s, v) && s.now <= n.now && s.nextId <= n.nextId && s.deleted <= n.deleted
    requires forall id :: id in n.rows && id < s.nextId ==> id in s.rows && s.rows[id] == n.rows[id]
    ensures SweepOk(w, n, v)
  {
  }

  lemma OwnSweepStep(w: World, s: State, a: Step, q: nat, mode: Mode)
    requires Inv(w, s, mode) && Enabled(w, s, a) && q in Apply(w, s, a).sweeps
    requires (a.BeginSweep? || a.DeleteObject? || a.DeleteFails?) && a.q == q
    ensures SweepOk(w, Apply(w, s, a), Apply(w, s, a).sweeps[q])
  {
    if !a.BeginSweep? {
      assert SweepOk(w, s, s.sweeps[q]);
    }
  }

  lemma SweepsStep(w: World, s: State, a: Step, mode: Mode, q: nat)
    requires Inv(w, s, mode) && Enabled(w, s, a) && q in Apply(w, s, a).sweeps
    ensures SweepOk(w, Apply(w, s, a), Apply(w, s, a).sweeps[q])
  {
    if (a.BeginSweep? || a.DeleteObject? || a.DeleteFails?) && a.q == q {
      OwnSweepStep(w, s, a, q, mode);
    } else {
      SweepStays(w, s, Apply(w, s, a), s.sweeps[q]);
    }
  }

  lemma RemovedStep(w: World, s: State, a: Step, mode: Mode)
    requires Inv(w, s, mode) && Enabled(w, s, a)
    ensures var n := Apply(w, s, a); forall x :: x in n.removed ==> x.startedAt < w.Limit(n.now) && w.key(x) in n.deleted
  {
    if a.DeleteRows? {
      assert SweepOk(w, s, s.sweeps[a.q]);
    }
  }

  lemma InvStep(w: World, s: State, a: Step, mode: Mode)
    requires Inv(w, s, mode) && Enabled(w, s, a) && RecordsKnown(s, a, mode)
    ensures Inv(w, Apply(w, s, a), mode)
  {
    if a.DeleteObject? {
      DeleteObjectStep(w, s, a, mode);
    } else {
      ObjectsStep(w, s, a, mode);
    }
    SoundStep(w, s, a, mode);
    RemovedStep(w, s, a, mode);
    forall q | q in Apply(w, s, a).sweeps
      ensures SweepOk(w, Apply(w, s, a), Apply(w, s, a).sweeps[q])
    {
      SweepsStep(w, s, a, mode, q);
    }
  }

  /** Only known segments are recorded. */
  ghost predicate RecordsOnly(w: World, s: State, run: seq<Step>, mode: Mode)
    requires Possible(w, s, run)
    decreases |run|
  {
    run == [] || (RecordsKnown(s, run[0], mode) && RecordsOnly(w, Apply(w, s, run[0]), run[1..], mode))
  }

  lemma {:induction false} InvRun(w: World, s: State, run: seq<Step>, mode: Mode)
    requires Inv(w, s, mode) && Possible(w, s, run) && RecordsOnly(w, s, run, mode)
    ensures Inv(w, Run(w, s, run), mode)
    decreases |run|
  {
    if run != [] {
      InvStep(w, s, run[0], mode);
      InvRun(w, Apply(w, s, run[0]), run[1..], mode);
    }
  }

  // ---------------------------------------------------------------- results

  lemma {:induction false} AnyRecords(w: World, s: State, run: seq<Step>)
    requires Possible(w, s, run)
    ensures RecordsOnly(w, s, run, Any)
    decreases |run|
  {
    if run != [] {
      AnyRecords(w, Apply(w, s, run[0]), run[1..]);
    }
  }

  /** In every run, with crashes and failures anywhere: a row that started in a later millisecond than the retention
      limit has its object in storage. */
  lemma RetainedRowHasObject(retention: nat, hour: int -> string, now: nat, run: seq<Step>, id: nat)
    requires var w := RecorderWorld(retention, hour);
             && Possible(w, Start(now), run)
             && var s := Run(w, Start(now), run); id in s.rows && s.rows[id].startedAt / 1000 > (s.now - retention) / 1000
    ensures var s := Run(RecorderWorld(retention, hour), Start(now), run); SegmentKey(s.rows[id], hour) in s.objects
  {
    RecorderNamesApart(retention, hour);
    AnyRecords(RecorderWorld(retention, hour), Start(now), run);
    InvRun(RecorderWorld(retention, hour), Start(now), run, Any);
  }

  /** The claim: a run that records only the known segments, crashes and failures included, never loses the object of
      a row inside retention. */
  ghost predicate KeepsRetained(w: World, known: set<Segment>, now: nat, run: seq<Step>)
  {
    Possible(w, Start(now), run) && RecordsOnly(w, Start(now), run, Only(known)) ==>
      var s := Run(w, Start(now), run);
      forall id :: id in s.rows && s.rows[id].startedAt >= s.now - w.retention ==> w.key(s.rows[id]) in s.objects
  }

  /** Whether the claim holds of recordings: exactly if no two of them that start at different times have the same
      channel, millisecond, sequence number and duration. */
  lemma RetainedExactly(retention: nat, hour: int -> string, known: set<Segment>)
    requires forall x :: x in known ==> '/' !in x.channel
    ensures (forall now, run :: KeepsRetained(RecorderWorld(retention, hour), known, now, run)) <==> DistinctNames(known)
  {
    var w := RecorderWorld(retention, hour);
    RecorderKeysName(retention, hour, known);
    ApartExactly(w, known);
    if Apart(w, known) {
      forall now, run
        ensures KeepsRetained(w, known, now, run)
      {
        if Possible(w, Start(now), run) && RecordsOnly(w, Start(now), run, Only(known)) {
          RecorderNamesApart(retention, hour);
          InvRun(w, Start(now), run, Only(known));
        }
      }
    } else {
      var x, y :| x in known && y in known && w.key(x) == w.key(y) && x.startedAt < y.startedAt;
      var run := BorderRowLosesObject(w, x, y, known);
      assert !KeepsRetained(w, known, x.startedAt, run);
    }
  }

  /** No two of the segments that start at different times have the same channel, millisecond, number and duration. */
  ghost predicate DistinctNames(known: set<Segment>)
  {
    forall x, y ::
      (&& x in known && y in known && x.channel == y.channel && x.startedAt / 1000 == y.startedAt / 1000
       && x.sequence == y.sequence && x.durationMs == y.durationMs) ==> x.startedAt == y.startedAt
  }

  ghost predicate KeysName(w: World, known: set<Segment>)
  {
    forall x, y :: x in known && y in known ==> (w.key(x) == w.key(y) <==> SameName(x, y))
  }

  lemma ApartExactly(w: World, known: set<Segment>)
    requires KeysName(w, known)
    ensures Apart(w, known) <==> DistinctNames(known)
  {
  }

  lemma RecorderKeysName(retention: nat, hour: int -> string, known: set<Segment>)
    requires forall x :: x in known ==> '/' !in x.channel
    ensures KeysName(RecorderWorld(retention, hour), known)
  {
    forall x, y | x in known && y in known
      ensures RecorderWorld(retention, hour).key(x) == RecorderWorld(retention, hour).key(y) <==> SameName(x, y)
    {
      SegmentKeyExactly(x, y, hour);
    }
  }

  /** A sweeper removes a row only when the row is due and its object has been deleted. */
  lemma RemovedAfterDelete(retention: nat, hour: int -> string, now: nat, run: seq<Step>, x: Segment)
    requires var w := RecorderWorld(retention, hour);
             Possible(w, Start(now), run) && x in Run(w, Start(now), run).removed
    ensures var w := RecorderWorld(retention, hour);
            var s := Run(w, Start(now), run);
            x.startedAt < s.now - retention && SegmentKey(x, hour) in s.deleted
  {
    RecorderNamesApart(retention, hour);
    AnyRecords(RecorderWorld(retention, hour), Start(now), run);
    InvRun(RecorderWorld(retention, hour), Start(now), run, Any);
  }

  /** A run from s to `last` in which only known segments are recorded. */
  ghost predicate Leads(w: World, s: State, run: seq<Step>, last: State, mode: Mode)
  {
    Possible(w, s, run) && Run(w, s, run) == last && RecordsOnly(w, s, run, mode)
  }

  lemma Next(w: World, s: State, run: seq<Step>, n: State, last: State, mode: Mode)
    requires run != [] && Enabled(w, s, run[0]) && Apply(w, s, run[0]) == n && RecordsKnown(s, run[0], mode)
    requires Leads(w, n, run[1..], last, mode)
    ensures Leads(w, s, run, last, mode)
  {
  }

  /** Two recorders can start the same numbered segment of a channel in one millisecond, microseconds apart. The
      sweep of the older row, at the limit, then takes the object of the younger one, which is inside retention. */
  lemma BorderRowLosesObject(w: World, x: Segment, y: Segment, known: set<Segment>) returns (run: seq<Step>)
    requires x in known && y in known && '/' !in x.channel && '/' !in y.channel
    requires w.key(x) == w.key(y) && x.startedAt < y.startedAt
    ensures Possible(w, Start(x.startedAt), run) && RecordsOnly(w, Start(x.startedAt), run, Only(known))
    ensures var s := Run(w, Start(x.startedAt), run);
            1 in s.rows && s.rows[1] == y && y.startedAt == s.now - w.retention && w.key(y) !in s.objects
  {
    var k, mode, late := w.key(x), Only(known), y.startedAt + w.retention;
    var first := Start(x.startedAt).(objects := {k}, rows := map[0 := x], nextId := 1);
    var both := first.(now := y.startedAt, rows := map[0 := x, 1 := y], nextId := 2);
    var last := State(late, {}, both.rows, 2, map[], map[0 := Sweep(map[], map[0 := x])], {k}, {});
    var sweep := [Tick(late), BeginSweep(0, {0}), DeleteObject(0, 0)];
    SweptOne(w, both.(now := late), sweep[1..], 0, last, mode);
    Next(w, both, sweep, both.(now := late), last, mode);
    var second := Recording(y) + sweep;
    Recorded(w, first.(now := y.startedAt), y, sweep, both, last, mode);
    var waited := [Tick(y.startedAt)] + second;
    assert waited[1..] == second;
    Next(w, first, waited, first.(now := y.startedAt), last, mode);
    run := Recording(x) + waited;
    Recorded(w, Start(x.startedAt), x, waited, first, last, mode);
  }

  /** A sweep that lists one due row and deletes its object. */
  lemma SweptOne(w: World, s: State, run: seq<Step>, id: nat, last: State, mode: Mode)
    requires run == [BeginSweep(0, {id}), DeleteObject(0, id)]
    requires s.sweeps == map[] && id in s.rows && s.rows[id].startedAt < w.Limit(s.now)
    requires var k := w.key(s.rows[id]);
             last == s.(objects := s.objects - {k}, deleted := s.deleted + {k},
                        sweeps := map[0 := Sweep(map[], map[id := s.rows[id]])])
    ensures Leads(w, s, run, last, mode)
  {
    var x := s.rows[id];
    var mid := s.(sweeps := map[0 := Sweep(map[id := x], map[])]);
    var n := Apply(w, s, BeginSweep(0, {id}));
    assert n.sweeps[0].todo == map[id := x];
    assert n.sweeps == mid.sweeps;
    assert n == mid;
    assert mid.sweeps[0].todo - {id} == map[];
    Next(w, mid, run[1..], last, last, mode);
    Next(w, s, run, mid, last, mode);
  }

  /** One undisturbed pass over one due row: object and row are gone, and nothing else is touched. */
  lemma SweepRemoves(w: World, s: State, q: nat, id: nat)
    requires q !in s.sweeps && id in s.rows && s.rows[id].startedAt < s.now - w.retention
    ensures var run := [BeginSweep(q, {id}), DeleteObject(q, id), DeleteRows(q)];
            && Possible(w, s, run)
            && var n := Run(w, s, run);
               n.rows == s.rows - {id} && n.objects == s.objects - {w.key(s.rows[id])} && n.sweeps == s.sweeps
  {
    var run := [BeginSweep(q, {id}), DeleteObject(q, id), DeleteRows(q)];
    var x := s.rows[id];
    var s1 := Apply(w, s, run[0]);
    assert s1.sweeps[q].todo == map[id := x] && s1.sweeps[q].gone == map[];
    var s2 := Apply(w, s1, run[1]);
    assert s2.sweeps[q].todo == map[] && s2.sweeps[q].gone == map[id := x];
    var s3 := Apply(w, s2, run[2]);
    assert s3.sweeps == s.sweeps;
    assert run[1..][1..] == run[2..] && run[2..][1..] == [];
    assert Possible(w, s3, []) && Run(w, s3, []) == s3;
    assert Possible(w, s2, run[2..]) && Run(w, s2, run[2..]) == s3;
    assert Possible(w, s1, run[1..]) && Run(w, s1, run[1..]) == s3;
  }

  function Recording(x: Segment): seq<Step> { [BeginPersist(0, x.channel, x.sequence, x.durationMs), Put(0), Record(0)] }

  /** One undisturbed `persistSegment`, followed by `rest`. */
  lemma Recorded(w: World, s: State, x: Segment, rest: seq<Step>, n: State, last: State, mode: Mode)
    requires s.persists == map[] && x.startedAt == s.now && '/' !in x.channel && !Indexed(s.rows, x) && Sound(x, mode)
    requires n == s.(objects := s.objects + {w.key(x)}, rows := s.rows[s.nextId := x], nextId := s.nextId + 1)
    requires Leads(w, n, rest, last, mode)
    ensures Leads(w, s, Recording(x) + rest, last, mode)
  {
    var run := Recording(x);
    var all := run + rest;
    var s1 := s.(persists := map[0 := Persist(x, false)]);
    var s2 := n.(rows := s.rows, nextId := s.nextId, persists := map[0 := Persist(x, true)]);
    assert all[3..] == rest && all[2..][1..] == all[3..] && all[1..][1..] == all[2..];
    assert all[0] == run[0] && all[1..][0] == run[1] && all[2..][0] == run[2];
    Next(w, s2, all[2..], n, last, mode);
    Next(w, s1, all[1..], s2, last, mode);
    Next(w, s, all, s1, last, mode);
  }

  // ---------------------------------------------------------------- in place

  /** The listed rows whose objects can be deleted. */
  function Deletable(w: World, rows: map<nat, Segment>, listed: seq<nat>, failing: set<string>): set<nat>
  {
    set id | id in listed && id in rows && w.key(rows[id]) !in failing
  }

  function Keys(w: World, rows: map<nat, Segment>, ids: set<nat>): set<string>
  {
    set id | id in ids && id in rows :: w.key(rows[id])
  }

  /** Ids of due rows, each once and oldest first; a due row is missing only behind `limit` others that are no younger. */
  ghost predicate OldestDue(rows: map<nat, Segment>, cutoff: int, limit: nat, ids: seq<nat>)
  {
    && |ids| <= limit
    && (forall i :: 0 <= i < |ids| ==> ids[i] in rows && rows[ids[i]].startedAt < cutoff)
    && (forall i, j :: 0 <= i < j < |ids| ==> ids[i] != ids[j] && rows[ids[i]].startedAt <= rows[ids[j]].startedAt)
    && forall id :: id in rows && rows[id].startedAt < cutoff && id !in ids ==>
         |ids| == limit && forall i :: 0 <= i < |ids| ==> rows[ids[i]].startedAt <= rows[id].startedAt
  }

  /** The due rows that are listed, and those that are left, which are no older. */
  ghost predicate Taken(rows: map<nat, Segment>, cutoff: int, ids: seq<nat>, left: set<nat>)
  {
    && left <= rows.Keys
    && (forall id :: id in rows && rows[id].startedAt < cutoff <==> id in left || id in ids)
    && (forall i :: 0 <= i < |ids| ==> ids[i] in rows && ids[i] !in left && rows[ids[i]].startedAt < cutoff)
    && (forall i, j :: 0 <= i < j < |ids| ==> ids[i] != ids[j] && rows[ids[i]].startedAt <= rows[ids[j]].startedAt)
    && forall i, id :: 0 <= i < |ids| && id in left ==> rows[ids[i]].startedAt <= rows[id].startedAt
  }

  lemma TakeOldest(rows: map<nat, Segment>, cutoff: int, ids: seq<nat>, left: set<nat>, oldest: nat)
    requires Taken(rows, cutoff, ids, left) && oldest in left
    requires forall id :: id in left ==> rows[oldest].startedAt <= rows[id].startedAt
    ensures Taken(rows, cutoff, ids + [oldest], left - {oldest})
  {
  }

  /** Storage and index as the two services share them. */
  class Dvr {
    const world: World
    var objects: set<string>
    var rows: map<nat, Segment>
    var nextId: nat

    constructor (world: World)
      ensures this.world == world && objects == {} && rows == map[] && nextId == 0
    {
      this.world := world;
      objects, rows, nextId := {}, map[], 0;
    }

    /** Every kept row has its object. */
    ghost predicate Healthy(now: nat, mode: Mode)
      reads this
    {
      && NamesSuffice(world, mode)
      && (forall id :: id in rows ==> id < nextId && Sound(rows[id], mode))
      && forall id :: id in rows && Kept(world, now, rows[id], mode) ==> world.key(rows[id]) in objects
    }

    /** `persistSegment` after the download: the object first, then the row. A failed put may or may not have written. */
    method PersistSegment(x: Segment, putOk: bool, wrote: bool, dbOk: bool, ghost now: nat, ghost mode: Mode) returns (ok: bool)
      requires Healthy(now, mode) && Sound(x, mode)
      modifies this
      ensures Healthy(now, mode) && ok == (putOk && dbOk)
      ensures old(objects) <= objects <= old(objects) + {world.key(x)} && (putOk ==> world.key(x) in objects)
      ensures rows == if ok && !old(Indexed(rows, x)) then old(rows)[old(nextId) := x] else old(rows)
    {
      if !putOk {
        objects := objects + if wrote then {world.key(x)} else {};
        return false;
      }
      objects := objects + {world.key(x)};
      if !dbOk {
        return false;
      }
      if !exists id :: id in rows && rows[id].channel == x.channel && rows[id].startedAt == x.startedAt {
        rows, nextId := rows[nextId := x], nextId + 1;
      }
      return true;
    }

    method Oldest(left: set<nat>) returns (oldest: nat)
      requires left != {} && left <= rows.Keys
      ensures oldest in left && forall id :: id in left ==> rows[oldest].startedAt <= rows[id].startedAt
    {
      oldest :| oldest in left;
      var rest := left - {oldest};
      while rest != {}
        invariant oldest in left && rest <= left
        invariant forall id :: id in left && id !in rest ==> rows[oldest].startedAt <= rows[id].startedAt
      {
        var id :| id in rest;
        if rows[id].startedAt < rows[oldest].startedAt {
          oldest := id;
        }
        rest := rest - {id};
      }
    }

    /** Ids of the oldest rows that started before `cutoff`, up to `limit`, or up to 1000 where none is given. */
    method ListForRetention(cutoff: int, limit: int) returns (ids: seq<nat>)
      ensures OldestDue(rows, cutoff, if limit <= 0 then 1000 else limit, ids)
    {
      var limit := if limit <= 0 then 1000 else limit;
      ids := [];
      var left := set id | id in rows && rows[id].startedAt < cutoff;
      while left != {} && |ids| < limit
        invariant |ids| <= limit && Taken(rows, cutoff, ids, left)
      {
        var oldest := Oldest(left);
        TakeOldest(rows, cutoff, ids, left, oldest);
        ids, left := ids + [oldest], left - {oldest};
      }
    }

    /** One retention pass. Objects in `failing` cannot be deleted; `dbOk` says whether the final delete succeeds.
        Only due rows are touched, and every kept row keeps its object, also if the pass ends between the two. */
    method RunOnce(now: nat, failing: set<string>, dbOk: bool, ghost mode: Mode) returns (listed: seq<nat>)
      requires Healthy(now, mode)
      modifies this`objects, this`rows
      ensures Healthy(now, mode)
      ensures OldestDue(old(rows), now - world.retention, 5000, listed)
      ensures forall k :: k in objects <==>
                k in old(objects) && (k in failing || forall id :: id in listed && id in old(rows) ==> world.key(old(rows)[id]) != k)
      ensures forall id :: id in rows <==>
                id in old(rows) && !(dbOk && id in listed && world.key(old(rows)[id]) !in failing)
      ensures forall id :: id in rows ==> rows[id] == old(rows)[id]
      ensures dbOk && failing == {} && |listed| < 5000 ==> forall id :: id in rows ==> rows[id].startedAt >= now - world.retention
    {
      listed := ListForRetention(world.Limit(now), 5000);
      var ids := DeleteObjects(listed, failing);
      if dbOk {
        rows := rows - ids;
      }
      forall id | id in rows && Kept(world, now, rows[id], mode)
        ensures world.key(rows[id]) !in Keys(world, old(rows), ids)
      {
        forall due | due in ids
          ensures world.key(old(rows)[due]) != world.key(rows[id])
        {
          DueKeyDiffers(world, now, old(rows)[due], rows[id], mode);
        }
      }
    }

    /** The loop of the pass; an id whose object could not be deleted is skipped. */
    method DeleteObjects(listed: seq<nat>, failing: set<string>) returns (ids: set<nat>)
      requires forall id :: id in listed ==> id in rows
      modifies this`objects
      ensures ids == Deletable(world, rows, listed, failing)
      ensures objects == old(objects) - Keys(world, rows, ids)
    {
      ids := {};
      for i := 0 to |listed|
        invariant ids == Deletable(world, rows, listed[..i], failing)
        invariant objects == old(objects) - Keys(world, rows, ids)
      {
        assert listed[..i + 1] == listed[..i] + [listed[i]];
        var key := world.key(rows[listed[i]]);
        if key in failing {
          continue;
        }
        objects := objects - {key};
        ids := ids + {listed[i]};
      }
      assert listed[..|listed|] == listed;
    }
  }
}
