/**
 Runs of the playback proxy: requests of many players are answered line by line, interleaved
 with each other, with origin swaps, with lapsing tickets and with the clock.
 */
module ProxyRuns {
  import opened Proxy

  /** A fetch by a request that had loaded the ticket's origin, and the lines that came back; none when it failed. */
  datatype Fetch = Fetch(ticket: string, origin: string, url: string, lines: seq<string>)

  /** A manifest in the middle of being rewritten. */
  datatype Serving = Serving(page: Page, lines: seq<string>, next: nat)

  /** A URL remembered for a ticket by a request that had loaded the origin. */
  datatype Put = Put(ticket: string, origin: string, url: string, at: int)

  /** `given`, `fetched` and `puts` record the past; nothing reads them. */
  datatype State = State(
    now: int,
    origins: map<string, string>,
    tables: Tables,
    serving: map<nat, Serving>,
    given: set<(string, string)>,
    fetched: seq<Fetch>,
    puts: seq<Put>)

  datatype Event =
    | Tick(ms: nat)
    | Give(ticket: string, origin: string)                                     // a ticket is issued, or its origin swapped
    | Lapse(ticket: string)                                                    // a ticket's own key expires
    | AskMaster(id: nat, ticket: string, token: string, lines: seq<string>)
    | AskVariant(id: nat, ticket: string, hash: string, token: string, lines: seq<string>)
    | AskSegment(ticket: string, hash: string, lines: seq<string>)
    | Rewrite(id: nat, ok: bool)                                               // one line of one manifest

  function Start(): State { State(0, map[], map[], map[], {}, [], []) }

  function Opened(s: State, id: nat, page: Page, lines: seq<string>): State
  {
    s.(fetched := s.fetched + [Fetch(page.ticket, page.origin, page.base, lines)],
       serving := s.serving[id := Serving(page, lines, 0)])
  }

  function Rewritten(w: World, s: State, id: nat, ok: bool): State
    requires id in s.serving && s.serving[id].next < |s.serving[id].lines|
  {
    var v := s.serving[id];
    var line := v.lines[v.next];
    var target := Target(w, v.page, line);
    s.(serving := s.serving[id := v.(next := v.next + 1)],
       tables := Noted(w, v.page, line, Reply(s.now, ok), s.tables),
       puts := if target.Some? && ok then s.puts + [Put(v.page.ticket, v.page.origin, target.value, s.now)] else s.puts)
  }

  /** An event that cannot happen changes nothing. */
  function Step(w: World, s: State, e: Event): State
  {
    match e
    case Tick(ms) => s.(now := s.now + ms)
    case Give(t, o) => s.(origins := s.origins[t := o], given := s.given + {(t, o)})
    case Lapse(t) => s.(origins := s.origins - {t})
    case AskMaster(id, t, token, lines) =>
      if t in s.origins && id !in s.serving then Opened(s, id, Page(Master, t, s.origins[t], s.origins[t], token), lines) else s
    case AskVariant(id, t, h, token, lines) =>
      var u := Recalled(s.tables, t, h, s.now);
      if t in s.origins && id !in s.serving && u.Some? then
        Opened(s, id, Page(Variant(h), t, s.origins[t], u.value, token), lines)
      else s
    case AskSegment(t, h, lines) =>
      var u := Recalled(s.tables, t, h, s.now);
      if t in s.origins && u.Some? then s.(fetched := s.fetched + [Fetch(t, s.origins[t], u.value, lines)]) else s
    case Rewrite(id, ok) =>
      if id in s.serving && s.serving[id].next < |s.serving[id].lines| then Rewritten(w, s, id, ok) else s
  }

  function Run(w: World, s: State, es: seq<Event>): State
  {
    if es == [] then s else Step(w, Run(w, s, es[..|es| - 1]), es[|es| - 1])
  }

  // ---------------------------------------------------------------- where fetched URLs come from

  /** A line of the fetch j, made for the ticket, resolves to u, on the site of the origin that this request had loaded. */
  ghost predicate Names(w: World, fetched: seq<Fetch>, j: int, k: int, t: string, u: string)
  {
    && 0 <= j < |fetched| && 0 <= k < |fetched[j].lines| && fetched[j].ticket == t
    && !IsComment(fetched[j].lines[k]) && w.resolve(fetched[j].url, fetched[j].lines[k]) == u
    && SameHost(w, u, fetched[j].origin)
  }

  ghost predicate NamedBy(w: World, fetched: seq<Fetch>, j: int, t: string, u: string)
  {
    exists k :: Names(w, fetched, j, k, t, u)
  }

  ghost predicate Named(w: World, fetched: seq<Fetch>, t: string, u: string)
  {
    exists j :: NamedBy(w, fetched, j, t, u)
  }

  /** The request behind the put had loaded the put's origin, and read the URL on the origin's site in what it fetched. */
  ghost predicate PutFrom(w: World, fetched: seq<Fetch>, p: Put, j: int)
  {
    NamedBy(w, fetched, j, p.ticket, p.url) && fetched[j].origin == p.origin
  }

  ghost predicate PutSound(w: World, fetched: seq<Fetch>, p: Put) { exists j :: PutFrom(w, fetched, p, j) }

  ghost predicate PutsSound(w: World, s: State) { forall i :: 0 <= i < |s.puts| ==> PutSound(w, s.fetched, s.puts[i]) }

  ghost predicate HasPut(puts: seq<Put>, t: string, u: string)
  {
    exists i :: 0 <= i < |puts| && puts[i].ticket == t && puts[i].url == u
  }

  ghost predicate TableSound(w: World, s: State)
  {
    forall t, h :: t in s.tables && h in s.tables[t].entries ==>
      h == w.hash(t, s.tables[t].entries[h]) && HasPut(s.puts, t, s.tables[t].entries[h])
  }

  ghost predicate PagesSound(s: State)
  {
    forall id :: id in s.serving ==>
      var v := s.serving[id];
      Fetch(v.page.ticket, v.page.origin, v.page.base, v.lines) in s.fetched
  }

  /** Every request loaded an origin that its ticket was given, and fetched that origin or what an earlier fetch names. */
  ghost predicate FetchSound(w: World, s: State, i: int)
    requires 0 <= i < |s.fetched|
  {
    var f := s.fetched[i];
    (f.ticket, f.origin) in s.given && (f.url == f.origin || Named(w, s.fetched[..i], f.ticket, f.url))
  }

  ghost predicate FetchesSound(w: World, s: State) { forall i :: 0 <= i < |s.fetched| ==> FetchSound(w, s, i) }

  ghost predicate OriginsSound(s: State) { forall t :: t in s.origins ==> (t, s.origins[t]) in s.given }

  ghost predicate Inv(w: World, s: State)
  {
    TableSound(w, s) && PutsSound(w, s) && PagesSound(s) && FetchesSound(w, s) && OriginsSound(s)
  }

  /** What a fetch named it names as the past grows. */
  lemma StaysNamed(w: World, fetched: seq<Fetch>, later: seq<Fetch>, j: int, t: string, u: string)
    requires NamedBy(w, fetched, j, t, u) && fetched <= later
    ensures NamedBy(w, later, j, t, u)
  {
    var k :| Names(w, fetched, j, k, t, u);
    assert Names(w, later, j, k, t, u);
  }

  lemma PutsStay(w: World, s: State, s': State)
    requires PutsSound(w, s) && s'.puts == s.puts && s.fetched <= s'.fetched
    ensures PutsSound(w, s')
  {
    forall i | 0 <= i < |s.puts|
      ensures PutSound(w, s'.fetched, s.puts[i])
    {
      assert PutSound(w, s.fetched, s.puts[i]);
      var j :| PutFrom(w, s.fetched, s.puts[i], j);
      StaysNamed(w, s.fetched, s'.fetched, j, s.puts[i].ticket, s.puts[i].url);
      assert PutFrom(w, s'.fetched, s.puts[i], j);
    }
  }

  lemma FetchesStay(w: World, s: State, s': State)
    requires FetchesSound(w, s) && s.given <= s'.given && s.fetched <= s'.fetched
    requires forall i :: |s.fetched| <= i < |s'.fetched| ==> FetchSound(w, s', i)
    ensures FetchesSound(w, s')
  {
    forall i | 0 <= i < |s.fetched|
      ensures FetchSound(w, s', i)
    {
      assert FetchSound(w, s, i);
      assert s'.fetched[..i] == s.fetched[..i] && s'.fetched[i] == s.fetched[i];
    }
  }

  lemma RecalledIsNamed(w: World, s: State, t: string, h: string)
    requires TableSound(w, s) && PutsSound(w, s) && Recalled(s.tables, t, h, s.now).Some?
    ensures Named(w, s.fetched, t, Recalled(s.tables, t, h, s.now).value)
  {
    var u := s.tables[t].entries[h];
    var i :| 0 <= i < |s.puts| && s.puts[i].ticket == t && s.puts[i].url == u;
    assert PutSound(w, s.fetched, s.puts[i]);
    var j :| PutFrom(w, s.fetched, s.puts[i], j);
    assert NamedBy(w, s.fetched, j, t, u);
  }

  /** One more fetch, of the origin itself or of something named before. */
  lemma FetchedSound(w: World, s: State, s': State, f: Fetch)
    requires Inv(w, s) && s' == s.(serving := s'.serving, fetched := s.fetched + [f])
    requires (f.ticket, f.origin) in s.given && (f.url == f.origin || Named(w, s.fetched, f.ticket, f.url))
    requires PagesSound(s')
    ensures Inv(w, s')
  {
    var i := |s.fetched|;
    assert s'.fetched[..i] == s.fetched && s'.fetched[i] == f;
    assert FetchSound(w, s', i);
    FetchesStay(w, s, s');
    PutsStay(w, s, s');
  }

  lemma OpenedSound(w: World, s: State, id: nat, page: Page, lines: seq<string>)
    requires Inv(w, s) && (page.ticket, page.origin) in s.given
    requires page.base == page.origin || Named(w, s.fetched, page.ticket, page.base)
    ensures Inv(w, Opened(s, id, page, lines))
  {
    var s', f := Opened(s, id, page, lines), Fetch(page.ticket, page.origin, page.base, lines);
    assert s'.fetched[|s.fetched|] == f;
    FetchedSound(w, s, s', f);
  }

  lemma RewrittenPuts(w: World, s: State, id: nat)
    requires Inv(w, s) && id in s.serving && s.serving[id].next < |s.serving[id].lines|
    requires var v := s.serving[id]; Target(w, v.page, v.lines[v.next]).Some?
    ensures var v := s.serving[id];
            PutSound(w, s.fetched, Put(v.page.ticket, v.page.origin, Target(w, v.page, v.lines[v.next]).value, s.now))
  {
    var v := s.serving[id];
    var t, u := v.page.ticket, Target(w, v.page, v.lines[v.next]).value;
    var j :| 0 <= j < |s.fetched| && s.fetched[j] == Fetch(t, v.page.origin, v.page.base, v.lines);
    assert Names(w, s.fetched, j, v.next, t, u);
    assert PutFrom(w, s.fetched, Put(t, v.page.origin, u, s.now), j);
  }

  lemma HasOneMorePut(puts: seq<Put>, p: Put, t: string, u: string)
    ensures HasPut(puts + [p], t, u) <==> HasPut(puts, t, u) || (p.ticket == t && p.url == u)
  {
    var more := puts + [p];
    assert more[|puts|] == p;
    assert forall i :: 0 <= i < |puts| ==> more[i] == puts[i];
  }

  lemma RewrittenSound(w: World, s: State, id: nat, ok: bool)
    requires Inv(w, s) && id in s.serving && s.serving[id].next < |s.serving[id].lines|
    ensures Inv(w, Rewritten(w, s, id, ok))
  {
    var s', v := Rewritten(w, s, id, ok), s.serving[id];
    var target := Target(w, v.page, v.lines[v.next]);
    FetchesStay(w, s, s');
    if target.Some? && ok {
      RewrittenPuts(w, s, id);
      var p := Put(v.page.ticket, v.page.origin, target.value, s.now);
      forall t, u
        ensures HasPut(s'.puts, t, u) <==> HasPut(s.puts, t, u) || (p.ticket == t && p.url == u)
      {
        HasOneMorePut(s.puts, p, t, u);
      }
    }
  }

  lemma InvStep(w: World, s: State, e: Event)
    requires Inv(w, s)
    ensures Inv(w, Step(w, s, e))
  {
    var s' := Step(w, s, e);
    match e
    case Tick(ms) => PutsStay(w, s, s'); FetchesStay(w, s, s');
    case Give(t, o) => PutsStay(w, s, s'); FetchesStay(w, s, s');
    case Lapse(t) => PutsStay(w, s, s'); FetchesStay(w, s, s');
    case AskMaster(id, t, token, lines) =>
      if t in s.origins && id !in s.serving {
        OpenedSound(w, s, id, Page(Master, t, s.origins[t], s.origins[t], token), lines);
      }
    case AskVariant(id, t, h, token, lines) =>
      var u := Recalled(s.tables, t, h, s.now);
      if t in s.origins && id !in s.serving && u.Some? {
        RecalledIsNamed(w, s, t, h);
        OpenedSound(w, s, id, Page(Variant(h), t, s.origins[t], u.value, token), lines);
      }
    case AskSegment(t, h, lines) =>
      var u := Recalled(s.tables, t, h, s.now);
      if t in s.origins && u.Some? {
        RecalledIsNamed(w, s, t, h);
        FetchedSound(w, s, s', Fetch(t, s.origins[t], u.value, lines));
      }
    case Rewrite(id, ok) =>
      if id in s.serving && s.serving[id].next < |s.serving[id].lines| {
        RewrittenSound(w, s, id, ok);
      }
  }

  lemma {:induction false} InvRun(w: World, s: State, es: seq<Event>)
    requires Inv(w, s)
    ensures Inv(w, Run(w, s, es))
  {
    if es != [] {
      InvRun(w, s, es[..|es| - 1]);
      InvStep(w, Run(w, s, es[..|es| - 1]), es[|es| - 1]);
    }
  }

  /** What every entry of a table, in every run, goes back to: a put by a request that had loaded an origin given to the
      ticket, and that read the URL, on the site of this very origin, in what it fetched. */
  lemma EntryHasOrigin(w: World, es: seq<Event>, t: string, h: string) returns (i: int, j: int)
    requires var s := Run(w, Start(), es); t in s.tables && h in s.tables[t].entries
    ensures var s := Run(w, Start(), es);
            var u := s.tables[t].entries[h];
            && h == w.hash(t, u) && 0 <= i < |s.puts| && s.puts[i].ticket == t && s.puts[i].url == u
            && (t, s.puts[i].origin) in s.given
            && w.site(s.puts[i].origin).Some? && w.site(u) == w.site(s.puts[i].origin)
            && NamedBy(w, s.fetched, j, t, u) && s.fetched[j].origin == s.puts[i].origin
  {
    InvRun(w, Start(), es);
    var s := Run(w, Start(), es);
    var u := s.tables[t].entries[h];
    i :| 0 <= i < |s.puts| && s.puts[i].ticket == t && s.puts[i].url == u;
    assert PutSound(w, s.fetched, s.puts[i]);
    j :| PutFrom(w, s.fetched, s.puts[i], j);
    assert FetchSound(w, s, j);
  }

  /** A trail of fetches for one ticket: the first is of an origin the ticket was given, and each further one stands in
      the text that the one before it brought, on the site of the origin which the request before it had loaded. */
  ghost predicate Trail(w: World, given: set<(string, string)>, fetched: seq<Fetch>, t: string, trail: seq<int>)
  {
    && trail != []
    && (forall n :: 0 <= n < |trail| ==> OfTicket(given, fetched, t, trail[n]))
    && fetched[trail[0]].url == fetched[trail[0]].origin
    && forall n :: 1 <= n < |trail| ==> NamedBy(w, fetched, trail[n - 1], t, fetched[trail[n]].url)
  }

  ghost predicate OfTicket(given: set<(string, string)>, fetched: seq<Fetch>, t: string, i: int)
  {
    0 <= i < |fetched| && fetched[i].ticket == t && (t, fetched[i].origin) in given
  }

  lemma TrailTo(w: World, s: State, i: int) returns (trail: seq<int>)
    requires FetchesSound(w, s) && 0 <= i < |s.fetched|
    ensures Trail(w, s.given, s.fetched, s.fetched[i].ticket, trail) && trail[|trail| - 1] == i
    decreases i
  {
    var f := s.fetched[i];
    assert FetchSound(w, s, i);
    assert OfTicket(s.given, s.fetched, f.ticket, i);
    if f.url == f.origin {
      trail := [i];
    } else {
      var j :| NamedBy(w, s.fetched[..i], j, f.ticket, f.url);
      assert s.fetched[..i] <= s.fetched;
      StaysNamed(w, s.fetched[..i], s.fetched, j, f.ticket, f.url);
      var before := TrailTo(w, s, j);
      trail := before + [i];
      TrailGrows(w, s.given, s.fetched, f.ticket, before, i);
    }
  }

  lemma TrailGrows(w: World, given: set<(string, string)>, fetched: seq<Fetch>, t: string, trail: seq<int>, i: int)
    requires Trail(w, given, fetched, t, trail) && OfTicket(given, fetched, t, i)
    requires NamedBy(w, fetched, trail[|trail| - 1], t, fetched[i].url)
    ensures Trail(w, given, fetched, t, trail + [i])
  {
    var more := trail + [i];
    forall n | 1 <= n < |more|
      ensures NamedBy(w, fetched, more[n - 1], t, fetched[more[n]].url)
    {
      if n < |trail| {
        assert more[n] == trail[n] && more[n - 1] == trail[n - 1];
      }
    }
  }

  /** u stands in what the fetch brought, on the scheme and host of the origin that its request had loaded. */
  ghost predicate OnSiteOf(w: World, f: Fetch, u: string)
  {
    && w.site(f.origin).Some? && w.site(u) == w.site(f.origin)
    && exists k :: 0 <= k < |f.lines| && w.resolve(f.url, f.lines[k]) == u
  }

  /** The claim of the proxy: whatever it fetches for a ticket, in any run, can be traced back through manifests it
      fetched for that ticket to an origin the ticket was given, each step on the site of the origin its request loaded. */
  lemma EveryFetchIsTraced(w: World, es: seq<Event>, i: int) returns (trail: seq<int>)
    requires 0 <= i < |Run(w, Start(), es).fetched|
    ensures var s := Run(w, Start(), es);
            Trail(w, s.given, s.fetched, s.fetched[i].ticket, trail) && trail[|trail| - 1] == i
    ensures var s := Run(w, Start(), es);
            && trail != [] && (forall n :: 0 <= n < |trail| ==> 0 <= trail[n] < |s.fetched|)
            && (s.fetched[i].ticket, s.fetched[trail[0]].url) in s.given
            && forall n :: 1 <= n < |trail| ==> OnSiteOf(w, s.fetched[trail[n - 1]], s.fetched[trail[n]].url)
  {
    InvRun(w, Start(), es);
    var s := Run(w, Start(), es);
    trail := TrailTo(w, s, i);
    forall n | 1 <= n < |trail|
      ensures OnSiteOf(w, s.fetched[trail[n - 1]], s.fetched[trail[n]].url)
    {
      assert NamedBy(w, s.fetched, trail[n - 1], s.fetched[i].ticket, s.fetched[trail[n]].url);
      var k :| Names(w, s.fetched, trail[n - 1], k, s.fetched[i].ticket, s.fetched[trail[n]].url);
      assert w.resolve(s.fetched[trail[n - 1]].url, s.fetched[trail[n - 1]].lines[k]) == s.fetched[trail[n]].url;
    }
  }

  // ---------------------------------------------------------------- how long a link leads back

  /** At every moment after `from` and up to `to`, the last memory for the ticket was less than half an hour old. */
  ghost predicate Busy(puts: seq<Put>, t: string, from: int, to: int)
  {
    forall x :: from < x <= to ==> Fresh(puts, t, x)
  }

  ghost predicate Fresh(puts: seq<Put>, t: string, x: int)
  {
    exists j :: 0 <= j < |puts| && puts[j].ticket == t && puts[j].at < x < puts[j].at + 1_800_000
  }

  ghost predicate KeptSince(puts: seq<Put>, t: string, u: string, i: int, now: int)
  {
    0 <= i < |puts| && puts[i].ticket == t && puts[i].url == u && Busy(puts, t, puts[i].at, now)
  }

  /** Since u was remembered for the ticket, no half hour passed without anything being remembered for it. */
  ghost predicate Kept(puts: seq<Put>, t: string, u: string, now: int)
  {
    exists i :: KeptSince(puts, t, u, i, now)
  }

  /** The clock is past every put, and each table holds exactly what was kept up to its last put. */
  ghost predicate TablesKeep(w: World, tables: Tables, puts: seq<Put>, now: int)
  {
    && (forall j :: 0 <= j < |puts| ==> puts[j].at <= now && puts[j].ticket in tables)
    && forall t :: t in tables ==> TableKeeps(w, t, tables[t], puts, now)
  }

  ghost predicate TableKeeps(w: World, t: string, table: Table, puts: seq<Put>, now: int)
  {
    && LastPut(t, table, puts, now)
    && (forall u :: Kept(puts, t, u, table.expires - HALF_HOUR) <==> w.hash(t, u) in table.entries)
    && forall h :: h in table.entries ==> h == w.hash(t, table.entries[h])
  }

  /** The table was last written by the ticket's last put. */
  ghost predicate LastPut(t: string, table: Table, puts: seq<Put>, now: int)
  {
    var last := table.expires - HALF_HOUR;
    && last <= now
    && (exists j :: 0 <= j < |puts| && puts[j].ticket == t && puts[j].at == last)
    && forall j :: 0 <= j < |puts| && puts[j].ticket == t ==> puts[j].at <= last
  }

  /** Between the last put and the expiry nothing is lost; from the expiry on, everything is. */
  lemma KeptWhileLive(t: string, table: Table, puts: seq<Put>, now: int, u: string)
    requires LastPut(t, table, puts, now)
    ensures Kept(puts, t, u, now) <==> now < table.expires && Kept(puts, t, u, table.expires - HALF_HOUR)
  {
    var last := table.expires - HALF_HOUR;
    if now < table.expires && Kept(puts, t, u, last) {
      var i :| KeptSince(puts, t, u, i, last);
      var j :| 0 <= j < |puts| && puts[j].ticket == t && puts[j].at == last;
      forall x | puts[i].at < x <= now
        ensures Fresh(puts, t, x)
      {
        assert x > last ==> puts[j].at < x < puts[j].at + HALF_HOUR;
      }
      assert KeptSince(puts, t, u, i, now);
    }
    if Kept(puts, t, u, now) {
      var i :| KeptSince(puts, t, u, i, now);
      assert !Fresh(puts, t, table.expires);
      assert KeptSince(puts, t, u, i, last);
    }
  }

  /** A further put keeps its own URL, and otherwise what was kept up to that moment. */
  lemma KeptAfterPut(puts: seq<Put>, p: Put, t: string, u: string, now: int)
    requires p.at >= now
    ensures Kept(puts + [p], t, u, now) <==> Kept(puts, t, u, now) || (p.ticket == t && p.url == u)
  {
    var more := puts + [p];
    forall x | x <= now
      ensures Fresh(more, t, x) <==> Fresh(puts, t, x)
    {
      if Fresh(puts, t, x) {
        var j :| 0 <= j < |puts| && puts[j].ticket == t && puts[j].at < x < puts[j].at + HALF_HOUR;
        assert more[j] == puts[j];
      }
    }
    if Kept(puts, t, u, now) {
      var i :| KeptSince(puts, t, u, i, now);
      assert KeptSince(more, t, u, i, now);
    }
    if p.ticket == t && p.url == u {
      assert KeptSince(more, t, u, |puts|, now);
    }
    if Kept(more, t, u, now) {
      var i :| KeptSince(more, t, u, i, now);
      assert i < |puts| ==> KeptSince(puts, t, u, i, now);
    }
  }

  lemma OthersKeep(w: World, t: string, table: Table, puts: seq<Put>, p: Put)
    requires TableKeeps(w, t, table, puts, p.at) && p.ticket != t
    ensures TableKeeps(w, t, table, puts + [p], p.at)
  {
    var more, last := puts + [p], table.expires - HALF_HOUR;
    var j :| 0 <= j < |puts| && puts[j].ticket == t && puts[j].at == last;
    assert more[j] == puts[j];
    forall u
      ensures Kept(more, t, u, last) <==> Kept(puts, t, u, last)
    {
      KeptAfterPut(puts, p, t, u, last);
    }
  }

  lemma WrittenKeeps(w: World, tables: Tables, puts: seq<Put>, p: Put)
    requires Sound(w) && TablesKeep(w, tables, puts, p.at)
    ensures TableKeeps(w, p.ticket, Remembered(tables, p.ticket, w.hash(p.ticket, p.url), p.url, p.at)[p.ticket], puts + [p], p.at)
  {
    var t, more := p.ticket, puts + [p];
    var table := Remembered(tables, t, w.hash(t, p.url), p.url, p.at)[t];
    assert more[|puts|] == p;
    forall u
      ensures Kept(more, t, u, p.at) <==> w.hash(t, u) in table.entries
    {
      KeptAfterPut(puts, p, t, u, p.at);
      if t in tables {
        KeptWhileLive(t, tables[t], puts, p.at, u);
      }
    }
  }

  lemma PutKeeps(w: World, tables: Tables, puts: seq<Put>, p: Put)
    requires Sound(w) && TablesKeep(w, tables, puts, p.at)
    ensures TablesKeep(w, Remembered(tables, p.ticket, w.hash(p.ticket, p.url), p.url, p.at), puts + [p], p.at)
  {
    WrittenKeeps(w, tables, puts, p);
    forall t | t in tables && t != p.ticket
      ensures TableKeeps(w, t, tables[t], puts + [p], p.at)
    {
      OthersKeep(w, t, tables[t], puts, p);
    }
  }

  ghost predicate Keeps(w: World, s: State) { TablesKeep(w, s.tables, s.puts, s.now) }

  ghost predicate Follows(s: State, s': State) { s.puts <= s'.puts && s.now <= s'.now }

  lemma KeepStep(w: World, s: State, e: Event)
    requires Sound(w) && Keeps(w, s)
    ensures Keeps(w, Step(w, s, e)) && Follows(s, Step(w, s, e))
  {
    if e.Rewrite? && e.id in s.serving && s.serving[e.id].next < |s.serving[e.id].lines| {
      var v := s.serving[e.id];
      var target := Target(w, v.page, v.lines[v.next]);
      if target.Some? {
        PutKeeps(w, s.tables, s.puts, Put(v.page.ticket, v.page.origin, target.value, s.now));
      }
    }
  }

  lemma {:induction false} KeepRun(w: World, s: State, es: seq<Event>)
    requires Sound(w) && Keeps(w, s)
    ensures Keeps(w, Run(w, s, es)) && Follows(s, Run(w, s, es))
  {
    if es != [] {
      var r := Run(w, s, es[..|es| - 1]);
      KeepRun(w, s, es[..|es| - 1]);
      KeepStep(w, r, es[|es| - 1]);
      FollowsOn(s, r, Step(w, r, es[|es| - 1]));
    }
  }

  lemma FollowsOn(s: State, r: State, q: State)
    requires Follows(s, r) && Follows(r, q)
    ensures Follows(s, q)
  {
  }

  /** The hash of a URL leads back to it exactly while it is kept; it never leads anywhere else. */
  lemma RecallExactly(w: World, s: State, t: string, u: string)
    requires Sound(w) && Keeps(w, s) && u != ""
    ensures Recalled(s.tables, t, w.hash(t, u), s.now) == if Kept(s.puts, t, u, s.now) then Some(u) else None
  {
    if t in s.tables {
      KeptWhileLive(t, s.tables[t], s.puts, s.now, u);
    }
  }

  /** Every hash leads, in every run, to the URL it was made from or nowhere. */
  lemma HashNamesOneUrl(w: World, es: seq<Event>, t: string, u: string)
    requires Sound(w) && u != ""
    ensures var s := Run(w, Start(), es);
            Recalled(s.tables, t, w.hash(t, u), s.now) == if Kept(s.puts, t, u, s.now) then Some(u) else None
  {
    KeepRun(w, Start(), es);
    RecallExactly(w, Run(w, Start(), es), t, u);
  }

  /** Half an hour after a URL was remembered it is still kept, whatever happens in between. */
  lemma KeptForHalfAnHour(w: World, s: State, later: seq<Event>, j: int)
    requires Sound(w) && Keeps(w, s) && 0 <= j < |s.puts|
    requires Run(w, s, later).now < s.puts[j].at + HALF_HOUR
    ensures var s' := Run(w, s, later); Kept(s'.puts, s.puts[j].ticket, s.puts[j].url, s'.now)
  {
    KeepRun(w, s, later);
    var s' := Run(w, s, later);
    var p := s.puts[j];
    assert s'.puts[j] == p;
    assert forall x :: p.at < x <= s'.now ==> Fresh(s'.puts, p.ticket, x);
    assert KeptSince(s'.puts, p.ticket, p.url, j, s'.now);
  }

  /** A player that follows a link of a page reaches the URL that the link replaced. */
  ghost predicate LeadsBack(w: World, page: Page, u: string, s: State)
  {
    var r := RequestOf(Followed(PathOf(page), Link(w, page, u)));
    && r.Request? && r.ticket == page.ticket
    && match r.route
       case ToVariant(h) => Recalled(s.tables, r.ticket, h, s.now) == Some(u)
       case ToSegment(h) => Recalled(s.tables, r.ticket, h, s.now) == Some(u)
       case _ => false
  }

  /** When a link leads back: in any run, exactly on a master manifest and as long as the URL is kept. The links of
      a variant manifest lead nowhere, because they are relative to its own path, one directory deeper. */
  lemma LinkLeadsBackExactly(w: World, es: seq<Event>, page: Page, u: string)
    requires Sound(w) && u != "" && '/' !in page.ticket && (page.kind.Variant? ==> '/' !in page.kind.hash)
    ensures var s := Run(w, Start(), es);
            LeadsBack(w, page, u, s) <==> page.kind.Master? && Kept(s.puts, page.ticket, u, s.now)
  {
    HashNamesOneUrl(w, es, page.ticket, u);
    if page.kind.Master? {
      MasterLinkRoutes(w, page, u);
    } else {
      VariantLinkRoutes(w, page, u);
    }
  }

  /** A line that was rewritten and remembered: the URL is kept for half an hour of any further run. */
  lemma RewrittenIsKept(w: World, s: State, id: nat, after: seq<Event>)
    requires Sound(w) && Keeps(w, s) && id in s.serving && s.serving[id].next < |s.serving[id].lines|
    requires var v := s.serving[id]; Target(w, v.page, v.lines[v.next]).Some?
    requires Run(w, Rewritten(w, s, id, true), after).now < s.now + HALF_HOUR
    ensures var v, s' := s.serving[id], Run(w, Rewritten(w, s, id, true), after);
            Keeps(w, s') && Kept(s'.puts, v.page.ticket, Target(w, v.page, v.lines[v.next]).value, s'.now)
  {
    var s1 := Rewritten(w, s, id, true);
    assert s1 == Step(w, s, Rewrite(id, true));
    KeepStep(w, s, Rewrite(id, true));
    KeptForHalfAnHour(w, s1, after, |s.puts|);
    KeepRun(w, s1, after);
  }

  /** Every link of a master manifest leads back to the URL it replaced for half an hour of any further run. */
  lemma ServedLinkLeadsBack(w: World, before: seq<Event>, id: nat, after: seq<Event>, page: Page, line: string)
    requires Sound(w) && page.kind.Master? && '/' !in page.ticket && '\n' !in line && Target(w, page, line).Some?
    requires var s := Run(w, Start(), before);
             && id in s.serving && s.serving[id].next < |s.serving[id].lines|
             && s.serving[id].page == page && s.serving[id].lines[s.serving[id].next] == line
             && Run(w, Rewritten(w, s, id, true), after).now < s.now + 1_800_000
    ensures LeadsBack(w, page, w.resolve(page.base, line), Run(w, Rewritten(w, Run(w, Start(), before), id, true), after))
  {
    var s, u := Run(w, Start(), before), w.resolve(page.base, line);
    KeepRun(w, Start(), before);
    RewrittenIsKept(w, s, id, after);
    RecallExactly(w, Run(w, Rewritten(w, s, id, true), after), page.ticket, u);
    MasterLinkRoutes(w, page, u);
  }

  /** And following such a link fetches that URL, with the origin that the ticket has by then. */
  lemma FollowedLinkFetches(w: World, s: State, page: Page, u: string, id: nat, token: string, lines: seq<string>)
    requires Sound(w) && page.kind.Master? && '/' !in page.ticket && LeadsBack(w, page, u, s)
    requires page.ticket in s.origins && id !in s.serving
    ensures var h := w.hash(page.ticket, u);
            var e := if Contains(u, ".m3u8") then AskVariant(id, page.ticket, h, token, lines) else AskSegment(page.ticket, h, lines);
            Step(w, s, e).fetched == s.fetched + [Fetch(page.ticket, s.origins[page.ticket], u, lines)]
  {
    LeadsBackRecalls(w, page, u, s);
    RecalledFetched(w, s, page.ticket, w.hash(page.ticket, u), u, id, token, lines);
  }

  lemma LeadsBackRecalls(w: World, page: Page, u: string, s: State)
    requires Sound(w) && page.kind.Master? && '/' !in page.ticket && LeadsBack(w, page, u, s)
    ensures Recalled(s.tables, page.ticket, w.hash(page.ticket, u), s.now) == Some(u)
  {
    MasterLinkRoutes(w, page, u);
  }

  lemma RecalledFetched(w: World, s: State, t: string, h: string, u: string, id: nat, token: string, lines: seq<string>)
    requires Recalled(s.tables, t, h, s.now) == Some(u) && t in s.origins && id !in s.serving
    ensures Step(w, s, AskVariant(id, t, h, token, lines)).fetched == s.fetched + [Fetch(t, s.origins[t], u, lines)]
    ensures Step(w, s, AskSegment(t, h, lines)).fetched == s.fetched + [Fetch(t, s.origins[t], u, lines)]
  {
  }

  // ---------------------------------------------------------------- one page in one go

  function PageEvents(id: nat, reply: int -> Reply, n: nat): (es: seq<Event>)
    ensures |es| == n
  {
    if n == 0 then [] else PageEvents(id, reply, n - 1) + [Rewrite(id, reply(n - 1).ok)]
  }

  /** r is s after n lines of the page. */
  ghost predicate LinesDone(w: World, s: State, id: nat, reply: int -> Reply, n: nat, r: State)
    requires id in s.serving && n <= |s.serving[id].lines|
  {
    var v := s.serving[id];
    && r.tables == AllNoted(w, v.page, v.lines[..n], reply, s.tables)
    && r.now == s.now && id in r.serving && r.serving[id] == v.(next := n)
  }

  lemma OneMoreLine(w: World, s: State, id: nat, reply: int -> Reply, n: nat, r: State)
    requires id in s.serving && n < |s.serving[id].lines| && reply(n).at == s.now
    requires LinesDone(w, s, id, reply, n, r)
    ensures LinesDone(w, s, id, reply, n + 1, Rewritten(w, r, id, reply(n).ok))
  {
    var lines := s.serving[id].lines;
    assert lines[..n + 1][..n] == lines[..n];
  }

  lemma RunSnoc(w: World, s: State, es: seq<Event>, e: Event)
    ensures Run(w, s, es + [e]) == Step(w, Run(w, s, es), e)
  {
    assert (es + [e])[..|es|] == es;
  }

  /** A page that is rewritten without interruption fills the table as the one pass over the manifest does. */
  lemma {:induction false} WholePage(w: World, s: State, id: nat, reply: int -> Reply, n: nat)
    requires id in s.serving && s.serving[id].next == 0 && n <= |s.serving[id].lines| && forall k :: reply(k).at == s.now
    ensures LinesDone(w, s, id, reply, n, Run(w, s, PageEvents(id, reply, n)))
  {
    if n > 0 {
      WholePage(w, s, id, reply, n - 1);
      var r := Run(w, s, PageEvents(id, reply, n - 1));
      RunSnoc(w, s, PageEvents(id, reply, n - 1), Rewrite(id, reply(n - 1).ok));
      OneMoreLine(w, s, id, reply, n - 1, r);
      assert r.serving[id].next < |r.serving[id].lines|;
    }
  }
}
