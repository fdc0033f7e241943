/**
 Channel health: failures and successes of one channel's playback and probes are counted, and a
 channel that fails often enough is hidden. Records are dropped two weeks after their last write.
 */
module ChannelHealth {

  datatype Id = Id(text: string)

  datatype Source = Probe | Playback

  datatype Record = Record(fails: nat, playFails: nat, lastFailAt: nat, lastOkAt: nat, unplayable: bool)

  datatype Option<T> = None | Some(value: T)

  type Store = map<Id, Record>

  const FAIL_THRESHOLD := 3
  const PROBE_FAIL_THRESHOLD := 2
  const RECORD_TTL_MS := 14 * 24 * 60 * 60_000

  const BLANK := Record(0, 0, 0, 0, false)

  function Seen(r: Record): nat { if r.lastFailAt > r.lastOkAt then r.lastFailAt else r.lastOkAt }

  predicate Fresh(r: Record, now: nat) { Seen(r) == 0 || now - Seen(r) <= RECORD_TTL_MS }

  /** A record as it is read at `now`. */
  function Read(r: Option<Record>, now: nat): Option<Record> { if r.Some? && Fresh(r.value, now) then r else None }

  predicate Hidden(r: Record) { r.unplayable || r.fails >= PROBE_FAIL_THRESHOLD || r.playFails >= FAIL_THRESHOLD }

  /** A success that is not written: a probe of an unplayable channel, or nothing that it would clear. */
  predicate Skipped(prev: Option<Record>, source: Source)
  {
    && prev.Some?
    && ((source == Probe && prev.value.unplayable) || Clears(prev.value, source))
  }

  predicate Clears(prev: Record, source: Source)
  {
    prev.fails == 0 && (source == Playback ==> prev.playFails == 0)
  }

  function Succeeded(prev: Option<Record>, source: Source, now: nat): Record
  {
    var p := if prev.Some? then prev.value else BLANK;
    Record(0, if source == Playback then 0 else p.playFails, p.lastFailAt, now, source == Probe && p.unplayable)
  }

  function Failed(prev: Option<Record>, source: Source, permanent: bool, now: nat): Record
  {
    var p := if prev.Some? then prev.value else BLANK;
    Record(
      if source == Probe then p.fails + (if permanent then PROBE_FAIL_THRESHOLD else 1) else p.fails,
      if source == Playback then p.playFails + (if permanent then FAIL_THRESHOLD else 1) else p.playFails,
      now, p.lastOkAt, permanent || p.unplayable)
  }

  /** What hides a channel: a permanent failure, two probe failures or three in playback, not older than two weeks. */
  predicate CountsAgainst(r: Record, now: nat)
  {
    && (r.unplayable || r.fails >= 2 || r.playFails >= 3)
    && ((r.lastFailAt == 0 && r.lastOkAt == 0)
        || now - r.lastFailAt <= 14 * 86_400_000 || now - r.lastOkAt <= 14 * 86_400_000)
  }

  // ---------------------------------------------------------------- the store

  function Pruned(store: Store, now: nat): Store { map id | id in store && Fresh(store[id], now) :: store[id] }

  function Of(store: Store, id: Id): Option<Record> { if id in store then Some(store[id]) else None }

  /** A call on the store at a moment. */
  datatype Op =
    | ReportOk(id: Id, source: Source, at: nat)
    | ReportFail(id: Id, source: Source, permanent: bool, at: nat)
    | Restore(id: Id, at: nat)

  function Applied(store: Store, op: Op): Store
  {
    var kept, prev := Pruned(store, op.at), Read(Of(store, op.id), op.at);
    match op
    case ReportOk(id, source, at) =>
      if id.text == "" || Skipped(prev, source) then store else kept[id := Succeeded(prev, source, at)]
    case ReportFail(id, source, permanent, at) =>
      if id.text == "" then store else kept[id := Failed(prev, source, permanent, at)]
    case Restore(id, _) => if id in kept then kept - {id} else store
  }

  class HealthStore {
    var stored: Store

    constructor ()
      ensures stored == map[]
    {
      stored := map[];
    }

    method ReportOk(id: Id, source: Source, now: nat)
      modifies this
      ensures stored == Applied(old(stored), Op.ReportOk(id, source, now))
    {
      if id.text == "" {
        return;
      }
      var store := Pruned(stored, now);
      var prev := Of(store, id);
      if source == Probe && prev.Some? && prev.value.unplayable {
        return;
      }
      var before := if prev.Some? then prev.value.playFails else 0;
      var playFails := if source == Playback then 0 else before;
      if prev.Some? && prev.value.fails == 0 && prev.value.playFails == playFails {
        return;
      }
      var lastFailAt := if prev.Some? then prev.value.lastFailAt else 0;
      var unplayable := source == Probe && prev.Some? && prev.value.unplayable;
      stored := store[id := Record(0, playFails, lastFailAt, now, unplayable)];
    }

    method ReportFail(id: Id, source: Source, permanent: bool, now: nat) returns (crossed: bool)
      modifies this
      ensures stored == Applied(old(stored), Op.ReportFail(id, source, permanent, now))
      ensures var prev := Read(Of(old(stored), id), now);
              crossed <==> id.text != "" && !(prev.Some? && Hidden(prev.value)) && Hidden(Failed(prev, source, permanent, now))
    {
      if id.text == "" {
        return false;
      }
      var store := Pruned(stored, now);
      var prev := if id in store then store[id] else BLANK;
      var wasHidden := Hidden(prev);
      var fails, playFails := prev.fails, prev.playFails;
      if source == Probe {
        fails := fails + (if permanent then PROBE_FAIL_THRESHOLD else 1);
      } else {
        playFails := playFails + (if permanent then FAIL_THRESHOLD else 1);
      }
      var rec := Record(fails, playFails, now, prev.lastOkAt, permanent || prev.unplayable);
      stored := store[id := rec];
      return !wasHidden && Hidden(rec);
    }

    method Restore(id: Id, now: nat)
      modifies this
      ensures stored == Applied(old(stored), Op.Restore(id, now))
    {
      var store := Pruned(stored, now);
      if id in store {
        stored := store - {id};
      }
    }

    /** All hidden channels, or none when they are more than 7 in 10 of a playlist and nobody insists. */
    method HiddenIds(total: nat, hideAnyway: bool, now: nat) returns (out: set<Id>)
      ensures var hidden := set id | id in stored && CountsAgainst(stored[id], now);
              out == if total > 0 && 10 * |hidden| > 7 * total && !hideAnyway then {} else hidden
    {
      var store := Pruned(stored, now);
      out := {};
      var left := store.Keys;
      while left != {}
        invariant left <= store.Keys && out == set id | id in store && id !in left && Hidden(store[id])
        decreases |left|
      {
        var id :| id in left;
        left := left - {id};
        if Hidden(store[id]) {
          out := out + {id};
        }
      }
      assert out == set id | id in stored && CountsAgainst(stored[id], now);
      if total > 0 && 10 * |out| > 7 * total && !hideAnyway {
        out := {};
      }
    }
  }

  // ---------------------------------------------------------------- histories of one channel

  datatype Report =
    | Ok(source: Source, at: nat)
    | Fail(source: Source, permanent: bool, at: nat)
    | Restored(at: nat)

  /** The record after one more report; `eager` leaves the shortcut out and writes every success. */
  function Step(r: Option<Record>, e: Report, eager: bool): Option<Record>
  {
    var prev := Read(r, e.at);
    match e
    case Ok(source, at) =>
      if source == Probe && prev.Some? && prev.value.unplayable then r
      else if !eager && Skipped(prev, source) then r
      else Some(Succeeded(prev, source, at))
    case Fail(source, permanent, at) => Some(Failed(prev, source, permanent, at))
    case Restored(at) => if prev.Some? then None else r
  }

  function After(es: seq<Report>, eager: bool): Option<Record>
  {
    if es == [] then None else Step(After(es[..|es| - 1], eager), es[|es| - 1], eager)
  }

  /** What can be seen of a channel. */
  datatype View = View(fails: nat, playFails: nat, unplayable: bool)

  function Shown(r: Option<Record>, now: nat): View
  {
    var v := Read(r, now);
    if v.Some? then View(v.value.fails, v.value.playFails, v.value.unplayable) else View(0, 0, false)
  }

  predicate HiddenView(v: View) { v.unplayable || v.fails >= PROBE_FAIL_THRESHOLD || v.playFails >= FAIL_THRESHOLD }

  lemma AfterSnoc(es: seq<Report>, e: Report, eager: bool)
    ensures After(es + [e], eager) == Step(After(es, eager), e, eager)
  {
    assert (es + [e])[..|es|] == es;
  }

  // ---------------------------------------------------------------- many channels in one store

  function ReportOf(op: Op): Report
  {
    match op
    case ReportOk(_, source, at) => Ok(source, at)
    case ReportFail(_, source, permanent, at) => Fail(source, permanent, at)
    case Restore(_, at) => Restored(at)
  }

  /** The reports of one channel among the calls. */
  function ReportsOf(ops: seq<Op>, id: Id): seq<Report>
  {
    if ops == [] then []
    else ReportsOf(ops[..|ops| - 1], id) + if ops[|ops| - 1].id == id then [ReportOf(ops[|ops| - 1])] else []
  }

  function RunOps(ops: seq<Op>): Store
  {
    if ops == [] then map[] else Applied(RunOps(ops[..|ops| - 1]), ops[|ops| - 1])
  }

  /** Two records that read alike from t on. */
  ghost predicate Alike(r: Option<Record>, q: Option<Record>, t: nat) { forall x: nat :: x >= t ==> Read(r, x) == Read(q, x) }

  /** A call is one step of its own channel. */
  lemma StoreFollowsHistory(store: Store, op: Op)
    requires op.id.text != ""
    ensures Alike(Of(Applied(store, op), op.id), Step(Of(store, op.id), ReportOf(op), false), op.at)
  {
  }

  /** And leaves all others. */
  lemma OthersUntouched(store: Store, op: Op, other: Id)
    requires op.id != other
    ensures Alike(Of(Applied(store, op), other), Of(store, other), op.at)
  {
  }

  lemma StepAlike(r: Option<Record>, q: Option<Record>, e: Report)
    requires Alike(r, q, e.at)
    ensures Alike(Step(r, e, false), Step(q, e, false), e.at)
  {
    assert Read(r, e.at) == Read(q, e.at);
  }

  /** After any run of calls on any channels, the record of a channel reads as after the reports of that channel alone. */
  lemma {:induction false} StoreKeepsHistories(ops: seq<Op>, id: Id, now: nat)
    requires id.text != "" && forall i, j :: 0 <= i < j < |ops| ==> ops[i].at <= ops[j].at
    requires ops != [] ==> ops[|ops| - 1].at <= now
    ensures Alike(Of(RunOps(ops), id), After(ReportsOf(ops, id), false), now)
  {
    if ops != [] {
      var before, op := ops[..|ops| - 1], ops[|ops| - 1];
      assert before != [] ==> before[|before| - 1].at <= op.at;
      StoreKeepsHistories(before, id, op.at);
      if op.id == id {
        StoreFollowsHistory(RunOps(before), op);
        StepAlike(Of(RunOps(before), id), After(ReportsOf(before, id), false), ReportOf(op));
        AfterSnoc(ReportsOf(before, id), ReportOf(op), false);
      } else {
        OthersUntouched(RunOps(before), op, id);
        assert ReportsOf(ops, id) == ReportsOf(before, id);
      }
    }
  }

  // ---------------------------------------------------------------- rules of every history

  /** The rule the shortcut rests on: an unplayable channel always has evidence against it. */
  lemma {:induction false} UnplayableHasEvidence(es: seq<Report>, eager: bool)
    ensures var r := After(es, eager); r.Some? && r.value.unplayable ==> r.value.fails > 0 || r.value.playFails > 0
  {
    if es != [] {
      UnplayableHasEvidence(es[..|es| - 1], eager);
    }
  }

  /** A success in playback puts a channel back, whatever happened to it before. */
  lemma PlaybackSuccessShows(es: seq<Report>, eager: bool, at: nat)
    ensures Shown(After(es + [Ok(Playback, at)], eager), at) == View(0, 0, false)
  {
    assert (es + [Ok(Playback, at)])[..|es|] == es;
    UnplayableHasEvidence(es, eager);
  }

  // ---------------------------------------------------------------- the counters are the evidence

  /** Reports in order of time, none at time 0. */
  ghost predicate Ordered(es: seq<Report>, now: nat)
  {
    && (forall i :: 0 <= i < |es| ==> 0 < es[i].at <= now)
    && forall i, j :: 0 <= i < j < |es| ==> es[i].at <= es[j].at
  }

  predicate WipesAll(e: Report) { e.Restored? || (e.Ok? && e.source == Playback) }

  /** The reports since the last playback success or restore. */
  function SinceWiped(es: seq<Report>): seq<Report>
  {
    if es == [] || WipesAll(es[|es| - 1]) then [] else SinceWiped(es[..|es| - 1]) + [es[|es| - 1]]
  }

  function Weight(e: Report, source: Source): nat
  {
    if e.Fail? && e.source == source then
      if !e.permanent then 1 else if source == Probe then PROBE_FAIL_THRESHOLD else FAIL_THRESHOLD
    else 0
  }

  function Evidence(es: seq<Report>, source: Source): nat
  {
    if es == [] then 0 else Evidence(es[..|es| - 1], source) + Weight(es[|es| - 1], source)
  }

  predicate AnyPermanent(es: seq<Report>) { exists i :: 0 <= i < |es| && es[i].Fail? && es[i].permanent }

  /** The reports since the last probe success that came before any permanent failure. */
  function SinceProbed(es: seq<Report>): seq<Report>
  {
    if es == [] then []
    else
      var before, e := es[..|es| - 1], es[|es| - 1];
      if e.Ok? && !AnyPermanent(before) then [] else SinceProbed(before) + [e]
  }

  ghost function Verdict(es: seq<Report>): View
  {
    var s := SinceWiped(es);
    View(Evidence(SinceProbed(s), Probe), Evidence(s, Playback), AnyPermanent(s))
  }

  lemma AnyPermanentSnoc(es: seq<Report>, e: Report)
    ensures AnyPermanent(es + [e]) <==> AnyPermanent(es) || (e.Fail? && e.permanent)
  {
    var more := es + [e];
    if AnyPermanent(es) {
      var i :| 0 <= i < |es| && es[i].Fail? && es[i].permanent;
      assert more[i] == es[i];
    }
    if e.Fail? && e.permanent {
      assert more[|es|] == e;
    }
  }

  lemma EvidenceSnoc(es: seq<Report>, e: Report, source: Source)
    ensures Evidence(es + [e], source) == Evidence(es, source) + Weight(e, source)
    ensures SinceProbed(es + [e]) == if e.Ok? && !AnyPermanent(es) then [] else SinceProbed(es) + [e]
  {
    assert (es + [e])[..|es|] == es;
  }

  /** One report more changes the verdict as it changes a record that is not stale. */
  function Next(v: View, e: Report): View
  {
    if WipesAll(e) then View(0, 0, false)
    else if e.Ok? then (if v.unplayable then v else v.(fails := 0))
    else View(v.fails + Weight(e, Probe), v.playFails + Weight(e, Playback), v.unplayable || e.permanent)
  }

  lemma SinceWipedSnoc(es: seq<Report>, e: Report)
    ensures SinceWiped(es + [e]) == if WipesAll(e) then [] else SinceWiped(es) + [e]
  {
    assert (es + [e])[..|es|] == es;
  }

  lemma ProbedNext(s: seq<Report>, e: Report)
    requires !WipesAll(e)
    ensures Evidence(SinceProbed(s + [e]), Probe) ==
            if e.Ok? && !AnyPermanent(s) then 0 else Evidence(SinceProbed(s), Probe) + Weight(e, Probe)
  {
    EvidenceSnoc(s, e, Probe);
    EvidenceSnoc(SinceProbed(s), e, Probe);
  }

  lemma VerdictSnoc(es: seq<Report>, e: Report)
    ensures Verdict(es + [e]) == Next(Verdict(es), e)
  {
    SinceWipedSnoc(es, e);
    if !WipesAll(e) {
      var s := SinceWiped(es);
      AnyPermanentSnoc(s, e);
      EvidenceSnoc(s, e, Playback);
      ProbedNext(s, e);
    }
  }

  const CLEAN := View(0, 0, false)

  /** When the record of a channel with evidence was last written: a probe success does not write over a permanent
      failure, nor, with the shortcut, when no probe failure is recorded. */
  ghost function LastWrite(es: seq<Report>, eager: bool): nat
  {
    if es == [] then 0
    else var before := es[..|es| - 1]; NextWrite(Verdict(before), LastWrite(before, eager), es[|es| - 1], eager)
  }

  function NextWrite(v: View, w: nat, e: Report, eager: bool): nat
  {
    if e.Ok? && e.source == Probe && (v.unplayable || (!eager && v.fails == 0)) then w else e.at
  }

  function ViewOf(r: Record): View { View(r.fails, r.playFails, r.unplayable) }

  /** From t on, r shows v until two weeks after w, and nothing from then on. */
  ghost predicate Tracks(r: Option<Record>, v: View, w: nat, t: nat)
  {
    && (r.Some? ==> Seen(r.value) <= t)
    && if v == CLEAN then r.None? || ViewOf(r.value) == CLEAN || !Fresh(r.value, t)
       else r.Some? && ViewOf(r.value) == v && Seen(r.value) == w > 0
  }

  lemma TracksShows(r: Option<Record>, v: View, w: nat, t: nat, now: nat)
    requires Tracks(r, v, w, t) && t <= now
    ensures Shown(r, now) == if now - w <= RECORD_TTL_MS then v else CLEAN
  {
  }

  lemma TracksNext(r: Option<Record>, v: View, w: nat, t: nat, e: Report, eager: bool)
    requires Tracks(r, v, w, t) && t <= e.at && 0 < e.at && (v == CLEAN || e.at - w <= RECORD_TTL_MS) && !WipesAll(e)
    ensures Tracks(Step(r, e, eager), Next(v, e), NextWrite(v, w, e, eager), e.at)
  {
  }

  /** Whatever was lost before, a wipe starts again from nothing. */
  lemma TracksWipe(r: Option<Record>, w: nat, e: Report, eager: bool)
    requires WipesAll(e) && (r.Some? ==> Seen(r.value) <= e.at)
    requires r.Some? && r.value.unplayable ==> r.value.fails > 0 || r.value.playFails > 0
    ensures Tracks(Step(r, e, eager), CLEAN, w, e.at)
  {
  }

  lemma {:induction false} SeenInPast(es: seq<Report>, eager: bool, now: nat)
    requires Ordered(es, now)
    ensures var r := After(es, eager); r.Some? ==> Seen(r.value) <= now
  {
    if es != [] {
      SeenInPast(es[..|es| - 1], eager, es[|es| - 1].at);
    }
  }

  /** At every reading since the last wipe, at reports and now: if there is evidence, the last write is at most two
      weeks old. */
  ghost predicate Alive(es: seq<Report>, eager: bool, now: nat)
  {
    && (Verdict(es) == CLEAN || now - LastWrite(es, eager) <= RECORD_TTL_MS)
    && (es == [] || WipesAll(es[|es| - 1]) || Alive(es[..|es| - 1], eager, es[|es| - 1].at))
  }

  /** Every reading since the last wipe, at reports and now, shows the evidence. */
  ghost predicate Agrees(es: seq<Report>, eager: bool, now: nat)
  {
    && Shown(After(es, eager), now) == Verdict(es)
    && (es == [] || WipesAll(es[|es| - 1]) || Agrees(es[..|es| - 1], eager, es[|es| - 1].at))
  }

  lemma {:induction false} AfterTracks(es: seq<Report>, eager: bool)
    requires es != [] && Ordered(es, es[|es| - 1].at)
    requires WipesAll(es[|es| - 1]) || Alive(es[..|es| - 1], eager, es[|es| - 1].at)
    ensures Tracks(After(es, eager), Verdict(es), LastWrite(es, eager), es[|es| - 1].at)
  {
    var before, e := es[..|es| - 1], es[|es| - 1];
    var r, v, w := After(before, eager), Verdict(before), LastWrite(before, eager);
    VerdictNext(es);
    if WipesAll(e) {
      SeenInPast(before, eager, e.at);
      UnplayableHasEvidence(before, eager);
      TracksWipe(r, LastWrite(es, eager), e, eager);
    } else if before == [] {
      TracksNext(None, CLEAN, 0, 0, e, eager);
    } else {
      AfterTracks(before, eager);
      TracksNext(r, v, w, before[|before| - 1].at, e, eager);
    }
  }

  lemma VerdictNext(es: seq<Report>)
    requires es != []
    ensures Verdict(es) == Next(Verdict(es[..|es| - 1]), es[|es| - 1])
    ensures |es| == 1 ==> Verdict(es[..|es| - 1]) == CLEAN
  {
    assert es == es[..|es| - 1] + [es[|es| - 1]];
    VerdictSnoc(es[..|es| - 1], es[|es| - 1]);
  }

  /** When the stored counters are the evidence: at every reading since the last wipe, if and only if no such reading
      comes more than two weeks after the last write of a record with evidence. */
  lemma {:induction false} CountersExactly(es: seq<Report>, eager: bool, now: nat)
    requires Ordered(es, now)
    ensures Agrees(es, eager, now) <==> Alive(es, eager, now)
  {
    if es != [] {
      var before, e := es[..|es| - 1], es[|es| - 1];
      if !WipesAll(e) {
        CountersExactly(before, eager, e.at);
      }
      if WipesAll(e) || Alive(before, eager, e.at) {
        AfterTracks(es, eager);
        TracksShows(After(es, eager), Verdict(es), LastWrite(es, eager), e.at, now);
      }
    }
  }

  // ---------------------------------------------------------------- what the counters are after a lapse

  /** The reports since the record last lapsed: since the last one that found the last write more than two weeks old. */
  ghost function SinceLapse(es: seq<Report>, eager: bool): seq<Report>
  {
    if es == [] then []
    else
      var before, e := SinceLapse(es[..|es| - 1], eager), es[|es| - 1];
      (if Lapsed(before, eager, e.at) then [] else before) + [e]
  }

  /** At `now` the last write is more than two weeks old. */
  ghost predicate Lapsed(es: seq<Report>, eager: bool, now: nat) { now - LastWrite(es, eager) > RECORD_TTL_MS }

  lemma LapseForgets(r: Option<Record>, v: View, w: nat, t: nat, now: nat)
    requires Tracks(r, v, w, t) && t <= now && (v == CLEAN || now - w > RECORD_TTL_MS)
    ensures Tracks(r, CLEAN, 0, now)
  {
  }

  lemma WriteSnoc(es: seq<Report>, e: Report, eager: bool)
    ensures LastWrite(es + [e], eager) == NextWrite(Verdict(es), LastWrite(es, eager), e, eager)
  {
    assert (es + [e])[..|es|] == es;
  }

  lemma RestartNext(kept: seq<Report>, eager: bool, e: Report)
    ensures var more := (if Lapsed(kept, eager, e.at) then [] else kept) + [e];
            Verdict(more) == Next(if Lapsed(kept, eager, e.at) then CLEAN else Verdict(kept), e)
  {
    VerdictSnoc(kept, e);
    VerdictSnoc([], e);
  }

  lemma NextTracks(r: Option<Record>, kept: seq<Report>, t: nat, e: Report, eager: bool)
    requires !WipesAll(e) && 0 < e.at && t <= e.at && Tracks(r, Verdict(kept), LastWrite(kept, eager), t)
    ensures var more := (if Lapsed(kept, eager, e.at) then [] else kept) + [e];
            Tracks(Step(r, e, eager), Verdict(more), LastWrite(more, eager), e.at)
  {
    var v, w := Verdict(kept), LastWrite(kept, eager);
    RestartNext(kept, eager, e);
    WriteSnoc(kept, e, eager);
    WriteSnoc([], e, eager);
    if Lapsed(kept, eager, e.at) {
      LapseForgets(r, v, w, t, e.at);
      TracksNext(r, CLEAN, 0, e.at, e, eager);
    } else {
      TracksNext(r, v, w, t, e, eager);
    }
  }

  lemma {:induction false} LapsesTracked(es: seq<Report>, eager: bool)
    requires es != [] && Ordered(es, es[|es| - 1].at)
    ensures var kept := SinceLapse(es, eager);
            Tracks(After(es, eager), Verdict(kept), LastWrite(kept, eager), es[|es| - 1].at)
  {
    var before, e := es[..|es| - 1], es[|es| - 1];
    if WipesAll(e) {
      SeenInPast(before, eager, e.at);
      UnplayableHasEvidence(before, eager);
      var kept := SinceLapse(es, eager);
      VerdictNext(kept);
      TracksWipe(After(before, eager), LastWrite(kept, eager), e, eager);
    } else if before == [] {
      NextTracks(None, [], 0, e, eager);
    } else {
      LapsesTracked(before, eager);
      NextTracks(After(before, eager), SinceLapse(before, eager), before[|before| - 1].at, e, eager);
    }
  }

  /** What the counters show, for every history and every moment, with or without the shortcut: the evidence of the
      reports since the record last lapsed, and nothing while it is lapsed. */
  lemma CountersRestart(es: seq<Report>, eager: bool, now: nat)
    requires Ordered(es, now)
    ensures var kept := SinceLapse(es, eager);
            Shown(After(es, eager), now) == if Lapsed(kept, eager, now) then CLEAN else Verdict(kept)
  {
    if es != [] {
      LapsesTracked(es, eager);
      var kept := SinceLapse(es, eager);
      TracksShows(After(es, eager), Verdict(kept), LastWrite(kept, eager), es[|es| - 1].at, now);
    }
  }

  // ---------------------------------------------------------------- failures that follow each other

  /** The time of the last failure since the last wipe, or 0. */
  ghost function LastFailure(es: seq<Report>): nat
  {
    if es == [] || WipesAll(es[|es| - 1]) then 0
    else if es[|es| - 1].Fail? then es[|es| - 1].at
    else LastFailure(es[..|es| - 1])
  }

  /** At every reading since the last wipe: if there is evidence, the last failure is at most two weeks old. */
  ghost predicate Recent(es: seq<Report>, now: nat)
  {
    && (Verdict(es) == CLEAN || now - LastFailure(es) <= RECORD_TTL_MS)
    && (es == [] || WipesAll(es[|es| - 1]) || Recent(es[..|es| - 1], es[|es| - 1].at))
  }

  lemma {:induction false} WrittenSinceFailure(es: seq<Report>, eager: bool, now: nat)
    requires Ordered(es, now)
    ensures LastFailure(es) <= LastWrite(es, eager) <= now
  {
    if es != [] {
      WrittenSinceFailure(es[..|es| - 1], eager, es[|es| - 1].at);
    }
  }

  lemma {:induction false} RecentAlive(es: seq<Report>, eager: bool, now: nat)
    requires Ordered(es, now) && Recent(es, now)
    ensures Alive(es, eager, now)
  {
    WrittenSinceFailure(es, eager, now);
    if es != [] && !WipesAll(es[|es| - 1]) {
      RecentAlive(es[..|es| - 1], eager, es[|es| - 1].at);
    }
  }

  /** The claim of the counters, for every history, however long, in which no two weeks pass after a failure without
      another one or a wipe: they are the weighted failures since the last playback success, for probes also since the
      last probe success that counted, and unplayable means a permanent failure since then. With or without the
      shortcut, that decides what is hidden. */
  lemma CountersAreEvidence(es: seq<Report>, eager: bool, now: nat)
    requires Ordered(es, now) && Recent(es, now)
    ensures Shown(After(es, eager), now) == Verdict(es)
  {
    RecentAlive(es, eager, now);
    CountersExactly(es, eager, now);
  }

  /** A probe success leaves the evidence of playback as it reads, after every history. */
  lemma ProbeSuccessKeepsPlayback(es: seq<Report>, eager: bool, at: nat)
    ensures Shown(After(es + [Ok(Probe, at)], eager), at).playFails == Shown(After(es, eager), at).playFails
  {
    AfterSnoc(es, Ok(Probe, at), eager);
  }

  // ---------------------------------------------------------------- where the shortcut shows

  /** When a skipped write can be seen later: exactly if the record holds playback failures, and the moment lies
      between the expiry of the old record and the expiry that the write would have given it. */
  lemma SkippedWriteShowsExactly(r: Record, source: Source, at: nat, later: nat)
    requires Fresh(r, at) && 0 < Seen(r) <= at <= later && Clears(r, source) && !r.unplayable
    ensures Step(Some(r), Ok(source, at), false) == Some(r)
    ensures Shown(Step(Some(r), Ok(source, at), false), later) != Shown(Step(Some(r), Ok(source, at), true), later)
            <==> r.playFails > 0 && later - Seen(r) > RECORD_TTL_MS && later - at <= RECORD_TTL_MS
  {
  }

  /** Every reading since the last wipe is the same with and without the shortcut. */
  ghost predicate Invisible(es: seq<Report>, now: nat)
  {
    && Shown(After(es, false), now) == Shown(After(es, true), now)
    && (es == [] || WipesAll(es[|es| - 1]) || Invisible(es[..|es| - 1], es[|es| - 1].at))
  }

  lemma {:induction false} InvisibleAgrees(es: seq<Report>, now: nat)
    requires Agrees(es, true, now)
    ensures Invisible(es, now) <==> Agrees(es, false, now)
  {
    if es != [] && !WipesAll(es[|es| - 1]) {
      InvisibleAgrees(es[..|es| - 1], es[|es| - 1].at);
    }
  }

  /** At every reading since the last wipe, at reports and now, both records have lapsed or neither has, unless there is
      no evidence to lose. */
  ghost predicate Together(es: seq<Report>, now: nat)
  {
    var written, left := SinceLapse(es, true), SinceLapse(es, false);
    && (Verdict(written) == CLEAN || (Lapsed(left, false, now) <==> Lapsed(written, true, now)))
    && (es == [] || WipesAll(es[|es| - 1]) || Together(es[..|es| - 1], es[|es| - 1].at))
  }

  /** Records that lapsed together hold the same evidence. */
  lemma {:induction false} TogetherHold(es: seq<Report>)
    requires es == [] || WipesAll(es[|es| - 1]) || Together(es[..|es| - 1], es[|es| - 1].at)
    ensures Verdict(SinceLapse(es, true)) == Verdict(SinceLapse(es, false))
  {
    if es != [] {
      var before, e := es[..|es| - 1], es[|es| - 1];
      RestartNext(SinceLapse(before, true), true, e);
      RestartNext(SinceLapse(before, false), false, e);
      if !WipesAll(e) {
        TogetherHold(before);
      }
    }
  }

  /** When the shortcut can be seen, for every history: it is invisible at every reading since the last wipe exactly if
      at each of them the record with every success written and the record with the shortcut have both lapsed or both
      not, or there is no evidence in them. */
  lemma {:induction false} ShortcutInvisibleExactly(es: seq<Report>, now: nat)
    requires Ordered(es, now)
    ensures Invisible(es, now) <==> Together(es, now)
  {
    CountersRestart(es, true, now);
    CountersRestart(es, false, now);
    if es == [] || WipesAll(es[|es| - 1]) {
      TogetherHold(es);
    } else {
      ShortcutInvisibleExactly(es[..|es| - 1], es[|es| - 1].at);
      if Together(es[..|es| - 1], es[|es| - 1].at) {
        TogetherHold(es);
      }
    }
  }

  /** Where the records stand if every success is written, that is: no reading since the last wipe comes more than two
      weeks after the last write that the shortcut leaves. */
  lemma ShortcutInvisibleWhileAlive(es: seq<Report>, now: nat)
    requires Ordered(es, now) && Alive(es, true, now)
    ensures Invisible(es, now) <==> Alive(es, false, now)
  {
    CountersExactly(es, true, now);
    CountersExactly(es, false, now);
    InvisibleAgrees(es, now);
  }

  lemma ThreeFailures(f: Report, eager: bool)
    requires f == Fail(Playback, false, 1)
    ensures After([f, f, f], eager) == Some(Record(0, 3, 1, 0, false))
  {
    assert [] + [f] == [f] && [f] + [f] == [f, f] && [f, f] + [f] == [f, f, f];
    AfterSnoc([], f, eager);
    assert After([f], eager) == Some(Record(0, 1, 1, 0, false));
    AfterSnoc([f], f, eager);
    assert After([f, f], eager) == Some(Record(0, 2, 1, 0, false));
    AfterSnoc([f, f], f, eager);
  }

  const DAY := 24 * 60 * 60_000

  /** Three failures in playback, probe successes every ten days: the shortcut puts the channel back, writing would not. */
  lemma ShortcutPutsChannelBack(f: Report, es: seq<Report>)
    requires f == Fail(Playback, false, 1) && es == [f, f, f] + [Ok(Probe, 10 * DAY)]
    ensures HiddenView(Shown(After(es, false), 10 * DAY)) && HiddenView(Shown(After(es, true), 10 * DAY))
    ensures !HiddenView(Shown(After(es, false), 20 * DAY)) && HiddenView(Shown(After(es, true), 20 * DAY))
  {
    ThreeFailures(f, true);
    ThreeFailures(f, false);
    AfterSnoc([f, f, f], Ok(Probe, 10 * DAY), true);
    AfterSnoc([f, f, f], Ok(Probe, 10 * DAY), false);
  }
}
