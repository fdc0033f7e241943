/**
 The watch history: a stored map of channels that keeps the 20 most recently watched ones.
 Lists of entries, the most recent first, say what a history means.
 */
module WatchHistory {
  datatype Id = Id(text: string)

  /** The number, name and logo of a channel, which are stored and never looked at. */
  datatype Label = Label(number: int, name: string, logo: string)

  datatype Entry = Entry(id: Id, channel: Label, lastWatched: int, dwell: int)

  /** A watch: the channel, the time it was settled on, and how long it was watched. */
  datatype Watch = Watch(id: Id, channel: Label, at: int, ms: nat)

  const LIMIT := 20

  type Stored = map<Id, Entry>

  // ---------------------------------------------------------------- lists, the most recent entry first

  ghost predicate Falling(l: seq<Entry>) { forall i, j :: 0 <= i < j < |l| ==> l[i].lastWatched > l[j].lastWatched }

  ghost predicate OneEach(l: seq<Entry>) { forall i, j :: 0 <= i < j < |l| ==> l[i].id != l[j].id }

  ghost predicate AllBefore(l: seq<Entry>, t: int) { forall e :: e in l ==> e.lastWatched < t }

  function Without(l: seq<Entry>, id: Id): (r: seq<Entry>)
    ensures forall e :: e in r <==> e in l && e.id != id
  {
    if l == [] then [] else (if l[0].id == id then [] else [l[0]]) + Without(l[1..], id)
  }

  function Dwell(l: seq<Entry>, id: Id): int
  {
    if l == [] then 0 else if l[0].id == id then l[0].dwell else Dwell(l[1..], id)
  }

  function Updated(w: Watch, before: int): Entry { Entry(w.id, w.channel, w.at, before + w.ms) }

  /** The channel moves to the front. */
  function Watched(l: seq<Entry>, w: Watch): seq<Entry> { [Updated(w, Dwell(l, w.id))] + Without(l, w.id) }

  function Cut(l: seq<Entry>, n: nat): seq<Entry> { if |l| <= n then l else l[..n] }

  /** The history nothing is ever dropped from. */
  function Full(ws: seq<Watch>): seq<Entry>
  {
    if ws == [] then [] else Watched(Full(ws[..|ws| - 1]), ws[|ws| - 1])
  }

  /** The history cut to the limit at every watch. */
  function Kept(ws: seq<Watch>): seq<Entry>
  {
    if ws == [] then [] else Cut(Watched(Kept(ws[..|ws| - 1]), ws[|ws| - 1]), LIMIT)
  }

  ghost predicate Rising(ws: seq<Watch>) { forall i, j :: 0 <= i < j < |ws| ==> ws[i].at < ws[j].at }

  // ---------------------------------------------------------------- cutting early loses nothing that is shown

  /** The same channels, watched at the same times; dwell times may differ. */
  ghost predicate SameShown(a: seq<Entry>, b: seq<Entry>)
  {
    |a| == |b| && forall i :: 0 <= i < |a| ==> a[i].(dwell := 0) == b[i].(dwell := 0)
  }

  lemma {:induction false} WithoutShown(a: seq<Entry>, b: seq<Entry>, id: Id)
    requires SameShown(a, b)
    ensures SameShown(Without(a, id), Without(b, id))
  {
    if a != [] {
      assert a[0].(dwell := 0).id == b[0].(dwell := 0).id;
      assert SameShown(a[1..], b[1..]);
      WithoutShown(a[1..], b[1..], id);
    }
  }

  lemma {:induction false} WithoutLength(l: seq<Entry>, id: Id)
    requires OneEach(l)
    ensures |l| - 1 <= |Without(l, id)| <= |l|
    ensures (forall e :: e in l ==> e.id != id) ==> Without(l, id) == l
  {
    if l != [] {
      WithoutLength(l[1..], id);
      if l[0].id == id {
        assert forall e :: e in l[1..] ==> e.id != id;
      }
    }
  }

  lemma {:induction false} WithoutConcat(a: seq<Entry>, b: seq<Entry>, id: Id)
    ensures Without(a + b, id) == Without(a, id) + Without(b, id)
  {
    if a == [] {
      assert a + b == b;
    } else {
      assert (a + b)[1..] == a[1..] + b;
      WithoutConcat(a[1..], b, id);
    }
  }

  lemma CutConcat(a: seq<Entry>, b: seq<Entry>, n: nat)
    requires n <= |a|
    ensures Cut(a + b, n) == Cut(a, n)
  {
    assert Cut(a + b, n) == (a + b)[..n] == a[..n] == Cut(a, n);
  }

  /** Whether the tail is dropped before or after the channel is taken out: the first entries are the same. */
  lemma CutWithout(l: seq<Entry>, id: Id, n: nat)
    requires OneEach(l) && n > 0
    ensures Cut(Without(l, id), n - 1) == Cut(Without(Cut(l, n), id), n - 1)
  {
    if |l| > n {
      var a, b := l[..n], l[n..];
      assert l == a + b;
      WithoutConcat(a, b, id);
      WithoutLength(a, id);
      CutConcat(Without(a, id), Without(b, id), n - 1);
    }
  }

  lemma {:induction false} WithoutKeepsOrder(l: seq<Entry>, id: Id)
    requires Falling(l) && OneEach(l)
    ensures Falling(Without(l, id)) && OneEach(Without(l, id))
  {
    if l != [] {
      WithoutKeepsOrder(l[1..], id);
      var r, rest := Without(l, id), Without(l[1..], id);
      if l[0].id != id {
        forall j | 0 < j < |r|
          ensures r[0].lastWatched > r[j].lastWatched && r[0].id != r[j].id
        {
          assert r[j] == rest[j - 1] && r[j] in rest;
          var k :| 0 <= k < |l[1..]| && l[1..][k] == r[j];
          assert l[k + 1] == r[j];
        }
      }
    }
  }

  lemma WatchedKeepsOrder(l: seq<Entry>, w: Watch)
    requires Falling(l) && OneEach(l) && AllBefore(l, w.at)
    ensures Falling(Watched(l, w)) && OneEach(Watched(l, w)) && AllBefore(Watched(l, w), w.at + 1)
  {
    WithoutKeepsOrder(l, w.id);
    forall e | e in Without(l, w.id)
      ensures e.lastWatched < w.at && e.id != w.id
    {
      assert e in l;
    }
  }

  /** In order, one entry a channel, and nothing later than the last watch. */
  ghost predicate InOrder(l: seq<Entry>, ws: seq<Watch>)
  {
    Falling(l) && OneEach(l) && forall e :: e in l ==> ws != [] && e.lastWatched <= ws[|ws| - 1].at
  }

  lemma WatchedInOrder(l: seq<Entry>, before: seq<Watch>, w: Watch, ws: seq<Watch>)
    requires InOrder(l, before) && ws != [] && ws[|ws| - 1] == w && (before != [] ==> before[|before| - 1].at < w.at)
    ensures InOrder(Watched(l, w), ws)
  {
    WatchedKeepsOrder(l, w);
  }

  lemma CutInOrder(l: seq<Entry>, ws: seq<Watch>, n: nat)
    requires InOrder(l, ws)
    ensures InOrder(Cut(l, n), ws)
  {
  }

  /** Every history is in order and has one entry a channel. */
  lemma {:induction false} HistoryInOrder(ws: seq<Watch>)
    requires Rising(ws)
    ensures InOrder(Full(ws), ws) && InOrder(Kept(ws), ws)
  {
    if ws != [] {
      var before, w := ws[..|ws| - 1], ws[|ws| - 1];
      HistoryInOrder(before);
      assert before != [] ==> before[|before| - 1].at < w.at;
      WatchedInOrder(Full(before), before, w, ws);
      WatchedInOrder(Kept(before), before, w, ws);
      CutInOrder(Watched(Kept(before), w), ws, LIMIT);
    }
  }

  lemma WatchedShown(a: seq<Entry>, b: seq<Entry>, w: Watch)
    requires SameShown(a, b)
    ensures SameShown(Watched(a, w), Watched(b, w))
  {
    WithoutShown(a, b, w.id);
  }

  lemma CutWatched(l: seq<Entry>, w: Watch, n: nat)
    requires OneEach(l) && n > 0
    ensures SameShown(Cut(Watched(l, w), n), Cut(Watched(Cut(l, n), w), n))
  {
    CutWithout(l, w.id, n);
    assert Cut(Watched(l, w), n) == [Updated(w, Dwell(l, w.id))] + Cut(Without(l, w.id), n - 1);
    assert Cut(Watched(Cut(l, n), w), n) == [Updated(w, Dwell(Cut(l, n), w.id))] + Cut(Without(Cut(l, n), w.id), n - 1);
  }

  lemma ShownTwice(a: seq<Entry>, b: seq<Entry>, c: seq<Entry>, n: nat)
    requires SameShown(a, b) && SameShown(Cut(b, n), c)
    ensures SameShown(Cut(a, n), c)
  {
  }

  lemma ShownBack(a: seq<Entry>, b: seq<Entry>)
    requires SameShown(a, b)
    ensures SameShown(b, a)
  {
  }

  /** The claim of the cut: the stored history shows what the first entries of the uncut history show: the same
      channels, in the same order, with the same times. */
  lemma {:induction false} CutIsInvisible(ws: seq<Watch>)
    requires Rising(ws)
    ensures SameShown(Kept(ws), Cut(Full(ws), LIMIT))
  {
    if ws != [] {
      var before, w := ws[..|ws| - 1], ws[|ws| - 1];
      CutIsInvisible(before);
      FullIsOneEach(before);
      WatchedShown(Kept(before), Cut(Full(before), LIMIT), w);
      CutWatched(Full(before), w, LIMIT);
      ShownBack(Cut(Full(ws), LIMIT), Cut(Watched(Cut(Full(before), LIMIT), w), LIMIT));
      ShownTwice(Watched(Kept(before), w), Watched(Cut(Full(before), LIMIT), w), Cut(Full(ws), LIMIT), LIMIT);
    }
  }

  lemma FullIsOneEach(ws: seq<Watch>)
    requires Rising(ws)
    ensures OneEach(Full(ws))
  {
    HistoryInOrder(ws);
  }

  // ---------------------------------------------------------------- what stays in the history

  ghost predicate Shows(l: seq<Entry>, id: Id) { exists e :: e in l && e.id == id }

  ghost predicate Seen(ws: seq<Watch>, id: Id) { exists w :: w in ws && w.id == id }

  /** The other channels watched since the channel was last watched. */
  function OthersSince(ws: seq<Watch>, id: Id): set<Id>
  {
    if ws == [] || ws[|ws| - 1].id == id then {} else OthersSince(ws[..|ws| - 1], id) + {ws[|ws| - 1].id}
  }

  /** The channels that stand before it in a list. */
  function Ahead(l: seq<Entry>, id: Id): (r: set<Id>)
    ensures forall x :: x in r ==> exists e :: e in l && e.id == x
  {
    if l == [] || l[0].id == id then {} else {l[0].id} + Ahead(l[1..], id)
  }

  lemma ShowsCons(l: seq<Entry>, id: Id)
    requires l != []
    ensures Shows(l, id) <==> l[0].id == id || Shows(l[1..], id)
  {
    assert l == [l[0]] + l[1..];
  }

  lemma AheadCons(e: Entry, l: seq<Entry>, id: Id)
    ensures Ahead([e] + l, id) == if e.id == id then {} else {e.id} + Ahead(l, id)
    ensures [] + l == l
  {
    assert ([e] + l)[1..] == l;
  }

  lemma {:induction false} AheadWithout(l: seq<Entry>, other: Id, id: Id)
    requires other != id
    ensures Ahead(Without(l, other), id) == Ahead(l, id) - {other}
  {
    if l != [] {
      AheadWithout(l[1..], other, id);
      AheadCons(l[0], Without(l[1..], other), id);
    }
  }

  lemma {:induction false} AheadIsOthersSince(ws: seq<Watch>, id: Id)
    ensures Ahead(Full(ws), id) == OthersSince(ws, id) && (Shows(Full(ws), id) <==> Seen(ws, id))
  {
    if ws != [] {
      var before, w := ws[..|ws| - 1], ws[|ws| - 1];
      AheadIsOthersSince(before, id);
      assert ws == before + [w];
      DwellWatched(Full(before), w, id);
      AheadCons(Updated(w, Dwell(Full(before), w.id)), Without(Full(before), w.id), id);
      if w.id != id {
        AheadWithout(Full(before), w.id, id);
      }
    }
  }

  /** One entry a channel: the first n are those with fewer than n channels before them. */
  lemma {:induction false} ShownByPlace(l: seq<Entry>, id: Id, n: nat)
    requires OneEach(l)
    ensures Shows(Cut(l, n), id) <==> Shows(l, id) && |Ahead(l, id)| < n
  {
    if l != [] {
      ShowsCons(l, id);
      if n > 0 {
        ShowsCons(Cut(l, n), id);
        assert Cut(l, n)[1..] == Cut(l[1..], n - 1);
        ShownByPlace(l[1..], id, n - 1);
        FirstNotAhead(l, id);
      }
    }
  }

  lemma FirstNotAhead(l: seq<Entry>, id: Id)
    requires OneEach(l) && l != []
    ensures l[0].id !in Ahead(l[1..], id)
    ensures l[0].id != id ==> |Ahead(l, id)| == |Ahead(l[1..], id)| + 1
  {
  }

  lemma SameShownSame(a: seq<Entry>, b: seq<Entry>, id: Id)
    requires SameShown(a, b) && Shows(a, id)
    ensures Shows(b, id)
  {
    var e :| e in a && e.id == id;
    var i :| 0 <= i < |a| && a[i] == e;
    assert a[i].(dwell := 0).id == b[i].(dwell := 0).id;
    assert b[i] in b;
  }

  /** What the history keeps: the channels with fewer than 20 distinct others watched since they were last watched. */
  lemma KeptExactly(ws: seq<Watch>, id: Id)
    requires Rising(ws)
    ensures Shows(Kept(ws), id) <==> Seen(ws, id) && |OthersSince(ws, id)| < 20
  {
    FullIsOneEach(ws);
    AheadIsOthersSince(ws, id);
    ShownByPlace(Full(ws), id, LIMIT);
    CutIsInvisible(ws);
    ShownBack(Kept(ws), Cut(Full(ws), LIMIT));
    if Shows(Kept(ws), id) {
      SameShownSame(Kept(ws), Cut(Full(ws), LIMIT), id);
    }
    if Shows(Cut(Full(ws), LIMIT), id) {
      SameShownSame(Cut(Full(ws), LIMIT), Kept(ws), id);
    }
  }

  /** The entry shows the last watch of its channel: its time, and the number, name and logo that the channel had then. */
  ghost predicate ShowsWatch(ws: seq<Watch>, i: int, e: Entry)
  {
    && 0 <= i < |ws| && ws[i].id == e.id && ws[i].channel == e.channel && ws[i].at == e.lastWatched
    && forall k :: i < k < |ws| ==> ws[k].id != e.id
  }

  lemma WatchedShows(l: seq<Entry>, before: seq<Watch>, w: Watch, e: Entry)
    requires e in Watched(l, w) && (e in l ==> exists i :: ShowsWatch(before, i, e))
    ensures exists i :: ShowsWatch(before + [w], i, e)
  {
    var ws := before + [w];
    if e.id == w.id {
      assert e !in Without(l, w.id) && e == Updated(w, Dwell(l, w.id));
      assert ShowsWatch(ws, |before|, e);
    } else {
      assert e in Without(l, w.id);
      var i :| ShowsWatch(before, i, e);
      assert ShowsWatch(ws, i, e);
    }
  }

  lemma {:induction false} EntryIsLastWatch(ws: seq<Watch>, e: Entry)
    requires e in Full(ws) || e in Kept(ws)
    ensures exists i :: ShowsWatch(ws, i, e)
  {
    var before, w := ws[..|ws| - 1], ws[|ws| - 1];
    assert ws == before + [w];
    if e in Full(before) || e in Kept(before) {
      EntryIsLastWatch(before, e);
    }
    if e in Full(ws) {
      WatchedShows(Full(before), before, w, e);
    } else {
      WatchedShows(Kept(before), before, w, e);
    }
  }

  // ---------------------------------------------------------------- dwell times are cut, too

  /** All the time spent on a channel. */
  function Total(ws: seq<Watch>, id: Id): nat
  {
    if ws == [] then 0 else Total(ws[..|ws| - 1], id) + (if ws[|ws| - 1].id == id then ws[|ws| - 1].ms else 0)
  }

  /** The time that was spent on it before it last came back after 20 others. */
  function Forgotten(ws: seq<Watch>, id: Id): nat
  {
    if ws == [] then 0
    else
      var before := ws[..|ws| - 1];
      if ws[|ws| - 1].id == id && |OthersSince(before, id)| >= LIMIT then Total(before, id) else Forgotten(before, id)
  }

  lemma {:induction false} UnseenIsNothing(ws: seq<Watch>, id: Id)
    requires !Seen(ws, id)
    ensures Total(ws, id) == 0 == Forgotten(ws, id)
  {
    if ws != [] {
      assert ws[|ws| - 1] in ws;
      assert ws == ws[..|ws| - 1] + [ws[|ws| - 1]];
      UnseenIsNothing(ws[..|ws| - 1], id);
    }
  }

  lemma {:induction false} DwellWithout(l: seq<Entry>, other: Id, id: Id)
    requires other != id
    ensures Dwell(Without(l, other), id) == Dwell(l, id)
  {
    if l != [] {
      DwellWithout(l[1..], other, id);
      DwellCons(l[0], Without(l[1..], other), id);
    }
  }

  lemma DwellCons(e: Entry, l: seq<Entry>, id: Id)
    ensures Dwell([e] + l, id) == if e.id == id then e.dwell else Dwell(l, id)
    ensures [] + l == l
  {
    assert ([e] + l)[1..] == l;
  }

  lemma {:induction false} DwellCut(l: seq<Entry>, id: Id, n: nat)
    requires Shows(Cut(l, n), id)
    ensures Dwell(Cut(l, n), id) == Dwell(l, id) && Shows(l, id)
  {
    if l != [] && |l| > n {
      ShowsCons(Cut(l, n), id);
      ShowsCons(l, id);
      if l[0].id != id {
        assert Cut(l, n)[1..] == Cut(l[1..], n - 1);
        DwellCut(l[1..], id, n - 1);
      }
    }
  }

  lemma {:induction false} DwellUnseen(l: seq<Entry>, id: Id)
    requires !Shows(l, id)
    ensures Dwell(l, id) == 0
  {
    if l != [] {
      ShowsCons(l, id);
      DwellUnseen(l[1..], id);
    }
  }

  lemma DwellWatched(l: seq<Entry>, w: Watch, id: Id)
    ensures Dwell(Watched(l, w), id) == Dwell(l, id) + (if w.id == id then w.ms else 0)
    ensures Shows(Watched(l, w), id) <==> w.id == id || Shows(l, id)
  {
    DwellCons(Updated(w, Dwell(l, w.id)), Without(l, w.id), id);
    assert w.id == id ==> Updated(w, Dwell(l, w.id)) in Watched(l, w);
    if w.id != id {
      DwellWithout(l, w.id, id);
    }
  }

  /** What a shown dwell time is: the whole time on the channel, less what was spent before it last came back after 20
      others. It is what the uncut history shows if and only if nothing was spent before. */
  lemma {:induction false} DwellExactly(ws: seq<Watch>, id: Id)
    requires Rising(ws)
    ensures Dwell(Full(ws), id) == Total(ws, id)
    ensures Shows(Kept(ws), id) ==> Dwell(Kept(ws), id) == Total(ws, id) - Forgotten(ws, id)
    ensures Shows(Kept(ws), id) ==> (Dwell(Kept(ws), id) == Dwell(Full(ws), id) <==> Forgotten(ws, id) == 0)
  {
    if ws != [] {
      var before, w := ws[..|ws| - 1], ws[|ws| - 1];
      DwellExactly(before, id);
      DwellWatched(Full(before), w, id);
      DwellWatched(Kept(before), w, id);
      if Shows(Kept(ws), id) {
        DwellCut(Watched(Kept(before), w), id, LIMIT);
        KeptExactly(before, id);
        if !Shows(Kept(before), id) {
          DwellUnseen(Kept(before), id);
          if !Seen(before, id) {
            UnseenIsNothing(before, id);
          }
        }
      }
    }
  }

  lemma LastIsKept(before: seq<Watch>, again: Watch)
    ensures Shows(Kept(before + [again]), again.id)
  {
    KeptSnoc(before, again);
    assert Kept(before + [again])[0].id == again.id;
    assert Kept(before + [again])[0] in Kept(before + [again]);
  }

  /** When a channel that is watched again starts from nothing: if and only if 20 distinct others were watched since it
      was last watched, or nothing of the time on it was left before. */
  lemma TwentyOthersForgetDwell(before: seq<Watch>, again: Watch)
    requires Rising(before + [again])
    ensures var id := again.id;
            Dwell(Kept(before + [again]), id) == again.ms
            <==> |OthersSince(before, id)| >= 20 || Total(before, id) == Forgotten(before, id)
  {
    var ws, id := before + [again], again.id;
    assert ws[..|ws| - 1] == before && ws[|ws| - 1] == again;
    LastIsKept(before, again);
    DwellExactly(ws, id);
  }

  // ---------------------------------------------------------------- the stored map

  /** The map holds exactly the entries of the list, which is in order. */
  ghost predicate Represents(m: Stored, l: seq<Entry>)
  {
    && Falling(l) && OneEach(l)
    && (forall e :: e in l ==> e.id in m && m[e.id] == e)
    && forall id :: id in m ==> m[id] in l && m[id].id == id
  }

  ghost predicate Sorted(s: seq<Entry>) { forall i, j :: 0 <= i < j < |s| ==> s[i].lastWatched >= s[j].lastWatched }

  ghost predicate SameEntries(s: seq<Entry>, l: seq<Entry>) { forall e :: e in s <==> e in l }

  lemma SameFirst(s: seq<Entry>, l: seq<Entry>)
    requires Sorted(s) && Falling(l) && SameEntries(s, l) && s != [] && l != []
    ensures s[0] == l[0]
  {
    assert s[0] in l && l[0] in s;
    var k :| 0 <= k < |l| && l[k] == s[0];
    var p :| 0 <= p < |s| && s[p] == l[0];
  }

  lemma SameRest(x: Entry, s: seq<Entry>, l: seq<Entry>)
    requires OneEach([x] + s) && OneEach([x] + l) && SameEntries([x] + s, [x] + l)
    ensures SameEntries(s, l)
  {
    NotInRest(x, s);
    NotInRest(x, l);
    forall e
      ensures e in s <==> e in l
    {
      assert e in [x] + s <==> e in [x] + l;
    }
  }

  lemma NotInRest(x: Entry, s: seq<Entry>)
    requires OneEach([x] + s)
    ensures x !in s
  {
    forall i | 0 <= i < |s|
      ensures s[i] != x
    {
      assert ([x] + s)[0] == x && ([x] + s)[i + 1] == s[i];
    }
  }

  /** Distinct times leave one order only. */
  lemma {:induction false} OneOrder(s: seq<Entry>, l: seq<Entry>)
    requires Sorted(s) && OneEach(s) && Falling(l) && OneEach(l) && SameEntries(s, l)
    ensures s == l
  {
    assert l == [] || l[0] in s;
    assert s == [] || s[0] in l;
    if s != [] {
      SameFirst(s, l);
      assert s == [s[0]] + s[1..] && l == [s[0]] + l[1..];
      SameRest(s[0], s[1..], l[1..]);
      OneOrder(s[1..], l[1..]);
    }
  }

  method Insert(e: Entry, s: seq<Entry>) returns (r: seq<Entry>)
    requires Sorted(s) && OneEach(s) && forall x :: x in s ==> x.id != e.id
    ensures Sorted(r) && OneEach(r) && forall x :: x in r <==> x == e || x in s
  {
    var i := 0;
    while i < |s| && s[i].lastWatched >= e.lastWatched
      invariant 0 <= i <= |s| && forall j :: 0 <= j < i ==> s[j].lastWatched >= e.lastWatched
    {
      i := i + 1;
    }
    r := s[..i] + [e] + s[i..];
    Inserted(e, s, i);
  }

  lemma Inserted(e: Entry, s: seq<Entry>, i: nat)
    requires Sorted(s) && OneEach(s) && (forall x :: x in s ==> x.id != e.id) && i <= |s|
    requires forall j :: 0 <= j < i ==> s[j].lastWatched >= e.lastWatched
    requires i < |s| ==> s[i].lastWatched < e.lastWatched
    ensures var r := s[..i] + [e] + s[i..]; Sorted(r) && OneEach(r) && forall x :: x in r <==> x == e || x in s
  {
    var r := s[..i] + [e] + s[i..];
    assert s == s[..i] + s[i..];
    forall j, k | 0 <= j < k < |r|
      ensures r[j].lastWatched >= r[k].lastWatched && r[j].id != r[k].id
    {
      InsertedAt(s, i, e, j);
      InsertedAt(s, i, e, k);
    }
  }

  lemma InsertedAt(s: seq<Entry>, i: nat, e: Entry, j: nat)
    requires i <= |s| && j <= |s|
    ensures (s[..i] + [e] + s[i..])[j] == if j < i then s[j] else if j == i then e else s[j - 1]
    ensures j < i ==> s[j] in s
    ensures j > i ==> s[j - 1] in s
  {
  }

  /** The entries of the map, the most recent first. */
  method ByRecency(m: Stored, ghost l: seq<Entry>) returns (s: seq<Entry>)
    requires Represents(m, l)
    ensures s == l
  {
    s := [];
    var left := m.Keys;
    while left != {}
      invariant left <= m.Keys && Sorted(s) && OneEach(s)
      invariant forall e :: e in s <==> e.id in m && e.id !in left && m[e.id] == e
      decreases |left|
    {
      var id :| id in left;
      left := left - {id};
      s := Insert(m[id], s);
    }
    OneOrder(s, l);
  }

  method ToMap(entries: seq<Entry>) returns (next: Stored)
    requires OneEach(entries)
    ensures forall e :: e in entries ==> e.id in next && next[e.id] == e
    ensures forall id :: id in next ==> next[id] in entries && next[id].id == id
  {
    next := map[];
    for i := 0 to |entries|
      invariant forall j :: 0 <= j < i ==> entries[j].id in next && next[entries[j].id] == entries[j]
      invariant forall id :: id in next ==> next[id].id == id && next[id] in entries
    {
      next := next[entries[i].id := entries[i]];
    }
  }

  lemma CutRepresents(m: Stored, l: seq<Entry>, next: Stored)
    requires Represents(m, l)
    requires forall e :: e in Cut(l, LIMIT) ==> e.id in next && next[e.id] == e
    requires forall id :: id in next ==> next[id] in Cut(l, LIMIT) && next[id].id == id
    ensures Represents(next, Cut(l, LIMIT))
  {
  }

  lemma KeptSnoc(past: seq<Watch>, w: Watch)
    ensures Kept(past + [w]) == Cut(Watched(Kept(past), w), LIMIT)
  {
    assert (past + [w])[..|past|] == past;
  }

  lemma KeptBefore(past: seq<Watch>, w: Watch)
    requires Rising(past) && forall i :: 0 <= i < |past| ==> past[i].at < w.at
    ensures AllBefore(Kept(past), w.at)
  {
    HistoryInOrder(past);
  }

  class History {
    var stored: Stored
    ghost var past: seq<Watch>

    /** The map means the cut history of everything watched so far. */
    ghost predicate Valid()
      reads this
    {
      Rising(past) && Represents(stored, Kept(past))
    }

    constructor ()
      ensures Valid() && past == []
    {
      stored, past := map[], [];
    }

    method RecordWatch(w: Watch)
      requires Valid() && forall i :: 0 <= i < |past| ==> past[i].at < w.at
      modifies this
      ensures Valid() && past == old(past) + [w]
    {
      var before := if w.id in stored then stored[w.id].dwell else 0;
      var all := stored[w.id := Updated(w, before)];
      ghost var l := Kept(past);
      KeptBefore(past, w);
      KeptSnoc(past, w);
      PutRepresents(stored, l, w);
      Write(all, Watched(l, w));
      past := past + [w];
    }

    method Write(m: Stored, ghost l: seq<Entry>)
      requires Represents(m, l)
      modifies this`stored
      ensures Represents(stored, Cut(l, LIMIT))
    {
      var entries := ByRecency(m, l);
      if |entries| > LIMIT {
        entries := entries[..LIMIT];
      }
      var next := ToMap(entries);
      CutRepresents(m, l, next);
      stored := next;
    }

    /** What is shown: the channels, order and times of the first entries of the uncut history. */
    method GetHistory() returns (r: seq<Entry>)
      requires Valid()
      ensures r == Kept(past) && SameShown(r, Cut(Full(past), LIMIT))
      ensures |r| <= 20 && forall i, j :: 0 <= i < j < |r| ==> r[i].lastWatched > r[j].lastWatched
    {
      r := ByRecency(stored, Kept(past));
      CutIsInvisible(past);
      HistoryInOrder(past);
    }
  }

  lemma {:induction false} DwellStored(m: Stored, l: seq<Entry>, id: Id)
    requires OneEach(l) && (forall e :: e in l ==> e.id in m && m[e.id] == e) && (id in m ==> m[id] in l && m[id].id == id)
    ensures Dwell(l, id) == if id in m then m[id].dwell else 0
  {
    if id in m {
      var i :| 0 <= i < |l| && l[i] == m[id];
      DwellAt(l, i);
    } else {
      DwellUnseen(l, id);
    }
  }

  lemma {:induction false} DwellAt(l: seq<Entry>, i: nat)
    requires OneEach(l) && i < |l|
    ensures Dwell(l, l[i].id) == l[i].dwell
  {
    if i > 0 {
      DwellAt(l[1..], i - 1);
    }
  }

  lemma PutRepresents(m: Stored, l: seq<Entry>, w: Watch)
    requires Represents(m, l) && AllBefore(l, w.at)
    ensures Represents(m[w.id := Updated(w, if w.id in m then m[w.id].dwell else 0)], Watched(l, w))
  {
    DwellStored(m, l, w.id);
    WatchedKeepsOrder(l, w);
    PutHolds(m, l, Updated(w, Dwell(l, w.id)));
  }

  lemma PutHolds(m: Stored, l: seq<Entry>, e: Entry)
    requires (forall x :: x in l ==> x.id in m && m[x.id] == x) && forall id :: id in m ==> m[id] in l && m[id].id == id
    ensures var m', l' := m[e.id := e], [e] + Without(l, e.id);
            (forall x :: x in l' ==> x.id in m' && m'[x.id] == x) && forall id :: id in m' ==> m'[id] in l' && m'[id].id == id
  {
  }
}
