/**
 The playlist parser of the web client: one pass over the lines hands out identities and numbers
 to channels, counts what it saw, and sorts by number if the playlist gave any.
 */
module WebPlaylist {
  import opened Text
  import ExtInf

  datatype Option<T> = None | Some(value: T)

  /** What an #EXTINF line says about identity and order; an empty tvg-id is none. */
  datatype Info = Info(tvgId: string, chno: Option<real>)

  datatype Line = Blank | Header | Entry(info: Info) | Directive | Url(text: string)

  datatype Channel = Channel(id: string, number: real, url: string, tvgId: string)

  datatype Stats = Stats(extinf: nat, emitted: nat, dropped: nat, orphanUrls: nat)

  /** A trimmed line, with `info` as the reading of #EXTINF lines. */
  function LineOf(line: string, info: string -> Info): Line
  {
    if line == "" then Blank
    else if ExtInf.HasPrefix(line, "#EXTM3U") then Header
    else if ExtInf.HasPrefix(line, "#EXTINF:") then Entry(info(line))
    else if line[0] == '#' then Directive
    else Url(line)
  }

  datatype State = State(pending: Option<Info>, used: set<string>, out: seq<Channel>, numbered: bool, extinf: nat, orphans: nat)

  const START := State(None, {}, [], false, 0, 0)

  function Bare(tvgId: string, positional: nat): string { if tvgId != "" then tvgId else "ch-" + Numeral(positional) }

  function Suffixed(id: string, positional: nat): string { id + ['#'] + Numeral(positional) }

  function IdOf(tvgId: string, positional: nat, used: set<string>): string
  {
    var bare := Bare(tvgId, positional); if bare in used then Suffixed(bare, positional) else bare
  }

  function Emitted(st: State, url: string): State
    requires st.pending.Some?
  {
    var p, positional := st.pending.value, |st.out| + 1;
    var id := IdOf(p.tvgId, positional, st.used);
    var number := if p.chno.Some? then p.chno.value else positional as real;
    st.(pending := None, used := st.used + {id}, out := st.out + [Channel(id, number, url, p.tvgId)],
        numbered := st.numbered || p.chno.Some?)
  }

  function Step(st: State, line: Line): State
  {
    match line
    case Entry(info) => st.(pending := Some(info), extinf := st.extinf + 1)
    case Url(text) => if st.pending.Some? then Emitted(st, text) else st.(orphans := st.orphans + 1)
    case _ => st
  }

  function Scan(st: State, lines: seq<Line>): State
    decreases |lines|
  {
    if lines == [] then st else Scan(Step(st, lines[0]), lines[1..])
  }

  // ---------------------------------------------------------------- order

  function Insert(c: Channel, s: seq<Channel>): seq<Channel>
  {
    if s == [] || c.number <= s[0].number then [c] + s else [s[0]] + Insert(c, s[1..])
  }

  /** A stable sort by number. */
  function Sort(s: seq<Channel>): seq<Channel> { if s == [] then [] else Insert(s[0], Sort(s[1..])) }

  function WithNumber(s: seq<Channel>, n: real): seq<Channel>
  {
    if s == [] then [] else (if s[0].number == n then [s[0]] else []) + WithNumber(s[1..], n)
  }

  ghost predicate Ascending(s: seq<Channel>) { forall i, j :: 0 <= i < j < |s| ==> s[i].number <= s[j].number }

  lemma WithNumberCons(c: Channel, s: seq<Channel>, n: real)
    ensures WithNumber([c] + s, n) == (if c.number == n then [c] else []) + WithNumber(s, n)
  {
    assert ([c] + s)[1..] == s;
  }

  /** Behind smaller numbers, a channel can be put before or after those of other numbers. */
  lemma {:induction false} InsertStable(c: Channel, s: seq<Channel>, n: real)
    ensures WithNumber(Insert(c, s), n) == (if c.number == n then [c] else []) + WithNumber(s, n)
  {
    if s == [] || c.number <= s[0].number {
      WithNumberCons(c, s, n);
    } else {
      InsertStable(c, s[1..], n);
      WithNumberCons(s[0], Insert(c, s[1..]), n);
      WithNumberCons(s[0], s[1..], n);
      assert s == [s[0]] + s[1..];
    }
  }

  ghost predicate AtLeast(s: seq<Channel>, n: real) { forall x :: x in s ==> n <= x.number }

  lemma AscendingCons(c: Channel, s: seq<Channel>)
    requires Ascending(s) && AtLeast(s, c.number)
    ensures Ascending([c] + s)
  {
  }

  lemma AscendingTail(s: seq<Channel>)
    requires s != [] && Ascending(s)
    ensures Ascending(s[1..]) && AtLeast(s[1..], s[0].number)
  {
  }

  lemma {:induction false} InsertAscending(c: Channel, s: seq<Channel>)
    requires Ascending(s)
    ensures Ascending(Insert(c, s)) && forall x :: x in Insert(c, s) <==> x == c || x in s
  {
    if s != [] {
      AscendingTail(s);
      assert s == [s[0]] + s[1..];
      if c.number <= s[0].number {
        AscendingCons(c, s);
      } else {
        InsertAscending(c, s[1..]);
        AscendingCons(s[0], Insert(c, s[1..]));
      }
    }
  }

  /** Sorting is in order and stable: of every number, the channels stand in file order. */
  lemma {:induction false} SortIsStable(s: seq<Channel>, n: real)
    ensures Ascending(Sort(s)) && WithNumber(Sort(s), n) == WithNumber(s, n)
  {
    if s != [] {
      SortIsStable(s[1..], n);
      InsertAscending(s[0], Sort(s[1..]));
      InsertStable(s[0], Sort(s[1..]), n);
    }
  }

  lemma {:induction false} WithNumberHas(s: seq<Channel>, c: Channel)
    ensures c in WithNumber(s, c.number) <==> c in s
    ensures forall n, x :: x in WithNumber(s, n) ==> x.number == n
  {
    if s != [] {
      WithNumberHas(s[1..], c);
    }
  }

  lemma HeadOf(s: seq<Channel>)
    requires s != []
    ensures WithNumber(s, s[0].number) != [] && WithNumber(s, s[0].number)[0] == s[0]
  {
  }

  /** Order and stability leave one list only. */
  lemma {:induction false} OneStableOrder(s: seq<Channel>, t: seq<Channel>)
    requires Ascending(s) && Ascending(t) && forall n :: WithNumber(s, n) == WithNumber(t, n)
    ensures s == t
  {
    if s == [] {
      assert t == [] by {
        if t != [] {
          HeadOf(t);
        }
      }
    } else if t == [] {
      HeadOf(s);
      assert false;
    } else {
      SameHead(s, t);
      forall n
        ensures WithNumber(s[1..], n) == WithNumber(t[1..], n)
      {
        var h := if s[0].number == n then [s[0]] else [];
        assert WithNumber(s, n) == h + WithNumber(s[1..], n) && WithNumber(t, n) == h + WithNumber(t[1..], n);
        assert WithNumber(s, n)[|h|..] == WithNumber(s[1..], n) && WithNumber(t, n)[|h|..] == WithNumber(t[1..], n);
        assert WithNumber(s, n) == WithNumber(t, n);
      }
      OneStableOrder(s[1..], t[1..]);
    }
  }

  lemma SameHead(s: seq<Channel>, t: seq<Channel>)
    requires Ascending(s) && Ascending(t) && (forall n :: WithNumber(s, n) == WithNumber(t, n)) && s != [] && t != []
    ensures s[0] == t[0]
  {
    WithNumberHas(s, t[0]);
    WithNumberHas(t, t[0]);
    WithNumberHas(t, s[0]);
    WithNumberHas(s, s[0]);
    assert t[0] in s && s[0] in t;
    HeadOf(s);
    HeadOf(t);
  }

  // ---------------------------------------------------------------- the parser

  function AllLines(lines: seq<string>, info: string -> Info): (r: seq<Line>)
    ensures |r| == |lines| && forall i :: 0 <= i < |lines| ==> r[i] == LineOf(lines[i], info)
  {
    if lines == [] then [] else [LineOf(lines[0], info)] + AllLines(lines[1..], info)
  }

  function Parsed(lines: seq<Line>): seq<Channel>
  {
    var st := Scan(START, lines); if st.numbered then Sort(st.out) else st.out
  }

  function Counted(lines: seq<Line>): Stats
  {
    var st := Scan(START, lines);
    Stats(st.extinf, |st.out|, if st.extinf > |st.out| then st.extinf - |st.out| else 0, st.orphans)
  }

  lemma {:induction false} ScanSnoc(st: State, lines: seq<Line>, line: Line)
    ensures Scan(st, lines + [line]) == Step(Scan(st, lines), line)
    decreases |lines|
  {
    if lines == [] {
      assert ([] + [line])[1..] == [];
      assert Scan(Step(st, line), []) == Step(st, line);
    } else {
      assert (lines + [line])[1..] == lines[1..] + [line];
      ScanSnoc(Step(st, lines[0]), lines[1..], line);
    }
  }

  lemma NextScan(lines: seq<Line>, k: nat)
    requires k < |lines|
    ensures Scan(START, lines[..k + 1]) == Step(Scan(START, lines[..k]), lines[k])
  {
    assert lines[..k + 1] == lines[..k] + [lines[k]];
    ScanSnoc(START, lines[..k], lines[k]);
  }

  method Identify(tvgId: string, positional: nat, usedIds: set<string>) returns (id: string)
    ensures id == IdOf(tvgId, positional, usedIds)
  {
    id := if tvgId != "" then tvgId else "ch-" + Numeral(positional);
    if id in usedIds {
      id := id + ['#'] + Numeral(positional);
    }
  }

  method ParseM3U(lines: seq<string>, info: string -> Info) returns (channels: seq<Channel>, stats: Stats)
    ensures channels == Parsed(AllLines(lines, info)) && stats == Counted(AllLines(lines, info))
  {
    var pending: Option<Info> := None;
    var positional := 0;
    var usedIds: set<string> := {};
    var out: seq<Channel> := [];
    var sawNumber, extinf, orphans := false, 0, 0;
    ghost var all := AllLines(lines, info);
    for k := 0 to |lines|
      invariant positional == |out| && extinf >= 0 && orphans >= 0
      invariant Scan(START, all[..k]) == State(pending, usedIds, out, sawNumber, extinf, orphans)
    {
      NextScan(all, k);
      match LineOf(lines[k], info)
      case Entry(i) =>
        extinf := extinf + 1;
        pending := Some(i);
      case Url(text) =>
        if pending == None {
          orphans := orphans + 1;
        } else {
          positional := positional + 1;
          var p := pending.value;
          if p.chno != None {
            sawNumber := true;
          }
          var number := if p.chno.Some? then p.chno.value else positional as real;
          var id := Identify(p.tvgId, positional, usedIds);
          usedIds := usedIds + {id};
          out := out + [Channel(id, number, text, p.tvgId)];
          pending := None;
        }
      case _ =>
    }
    assert all[..|lines|] == all;
    stats := Stats(extinf, |out|, if extinf > |out| then extinf - |out| else 0, orphans);
    channels := if sawNumber then Sort(out) else out;
  }

  // ---------------------------------------------------------------- identities

  /** The first n identities: the bare one, unless it was handed out before; then the suffixed one. */
  function Ids(bare: seq<string>, suffixed: seq<string>, n: nat): (r: seq<string>)
    requires n <= |bare| == |suffixed|
    ensures |r| == n
  {
    if n == 0 then []
    else var ids := Ids(bare, suffixed, n - 1); ids + [if bare[n - 1] in ids then suffixed[n - 1] else bare[n - 1]]
  }

  /** The bare identity k is taken: an earlier channel has the same one, or was given it as a suffixed one. */
  ghost predicate Repeated(bare: seq<string>, suffixed: seq<string>, k: nat)
    requires k < |bare| == |suffixed|
  {
    Takes(bare, suffixed, k, bare[k])
  }

  ghost predicate Takes(bare: seq<string>, suffixed: seq<string>, n: nat, id: string)
    requires n <= |bare| == |suffixed|
    decreases n, 0
  {
    exists j: nat {:trigger TakesAt(bare, suffixed, j, id)} :: j < n && TakesAt(bare, suffixed, j, id)
  }

  ghost predicate TakesAt(bare: seq<string>, suffixed: seq<string>, j: nat, id: string)
    requires j < |bare| == |suffixed|
    decreases j, 1
  {
    bare[j] == id || (suffixed[j] == id && Takes(bare, suffixed, j, bare[j]))
  }

  lemma {:induction false} TakenExactly(bare: seq<string>, suffixed: seq<string>, n: nat, id: string)
    requires n <= |bare| == |suffixed|
    ensures id in Ids(bare, suffixed, n) <==> Takes(bare, suffixed, n, id)
    decreases n
  {
    if n > 0 {
      TakenExactly(bare, suffixed, n - 1, id);
      TakenExactly(bare, suffixed, n - 1, bare[n - 1]);
      assert Takes(bare, suffixed, n, id) <==> Takes(bare, suffixed, n - 1, id) || TakesAt(bare, suffixed, n - 1, id);
    }
  }

  ghost predicate Distinct(ids: seq<string>) { forall i, k :: 0 <= i < k < |ids| ==> ids[i] != ids[k] }

  /** A suffixed identity is spelled by an earlier bare one. */
  ghost predicate Clash(bare: seq<string>, suffixed: seq<string>, i: nat, k: nat)
    requires i < k < |bare| == |suffixed|
  {
    bare[i] == suffixed[k] && Repeated(bare, suffixed, k)
  }

  ghost predicate NoClashes(bare: seq<string>, suffixed: seq<string>, n: nat)
    requires n <= |bare| == |suffixed|
  {
    forall i: nat, k: nat :: i < k < n ==> !Clash(bare, suffixed, i, k)
  }

  lemma {:induction false} DistinctUpTo(bare: seq<string>, suffixed: seq<string>, n: nat)
    requires n <= |bare| == |suffixed| && Distinct(suffixed)
    ensures Distinct(Ids(bare, suffixed, n)) <==> NoClashes(bare, suffixed, n)
    decreases n
  {
    if n > 0 {
      var ids, k := Ids(bare, suffixed, n - 1), n - 1;
      DistinctUpTo(bare, suffixed, k);
      TakenExactly(bare, suffixed, k, bare[k]);
      TakenExactly(bare, suffixed, k, suffixed[k]);
      assert Takes(bare, suffixed, k, suffixed[k]) <==> exists i: nat :: i < k && bare[i] == suffixed[k] by {
        forall i: nat | i < k
          ensures TakesAt(bare, suffixed, i, suffixed[k]) <==> bare[i] == suffixed[k]
        {
        }
      }
      var x := if bare[k] in ids then suffixed[k] else bare[k];
      assert Ids(bare, suffixed, n) == ids + [x];
      DistinctSnoc(ids, x);
      assert Repeated(bare, suffixed, k) <==> bare[k] in ids;
      if x in ids {
        var i: nat :| i < k && bare[i] == suffixed[k];
        assert Clash(bare, suffixed, i, k);
      } else {
        assert forall i: nat :: i < k ==> !Clash(bare, suffixed, i, k);
      }
    }
  }

  lemma DistinctSnoc(ids: seq<string>, x: string)
    ensures Distinct(ids + [x]) <==> Distinct(ids) && x !in ids
  {
    var more := ids + [x];
    if Distinct(more) {
      forall i, k | 0 <= i < k < |ids|
        ensures ids[i] != ids[k]
      {
        assert more[i] != more[k];
      }
      forall i | 0 <= i < |ids|
        ensures ids[i] != x
      {
        assert more[i] != more[|ids|];
      }
    }
  }

  // ---------------------------------------------------------------- identities of a playlist

  function BareIds(out: seq<Channel>): (r: seq<string>)
    ensures |r| == |out|
  {
    if out == [] then [] else BareIds(out[..|out| - 1]) + [Bare(out[|out| - 1].tvgId, |out|)]
  }

  function SuffixedIds(out: seq<Channel>): (r: seq<string>)
    ensures |r| == |out|
  {
    if out == [] then []
    else var n := |out|; SuffixedIds(out[..n - 1]) + [Suffixed(Bare(out[n - 1].tvgId, n), n)]
  }

  lemma {:induction false} IdsAt(out: seq<Channel>, k: nat)
    requires k < |out|
    ensures BareIds(out)[k] == Bare(out[k].tvgId, k + 1) && SuffixedIds(out)[k] == Suffixed(Bare(out[k].tvgId, k + 1), k + 1)
    decreases |out|
  {
    if k < |out| - 1 {
      IdsAt(out[..|out| - 1], k);
    }
  }

  lemma IdsSnoc(out: seq<Channel>, c: Channel)
    ensures BareIds(out + [c]) == BareIds(out) + [Bare(c.tvgId, |out| + 1)]
    ensures SuffixedIds(out + [c]) == SuffixedIds(out) + [Suffixed(Bare(c.tvgId, |out| + 1), |out| + 1)]
  {
    assert (out + [c])[..|out|] == out;
  }

  /** Channels were named by the rule, and the identities in use are theirs. */
  ghost predicate Named(st: State)
  {
    && (forall k :: 0 <= k < |st.out| ==> st.out[k].id == Ids(BareIds(st.out), SuffixedIds(st.out), |st.out|)[k])
    && forall id :: id in st.used <==> id in Ids(BareIds(st.out), SuffixedIds(st.out), |st.out|)
  }

  lemma {:induction false} IdsPrefix(bare: seq<string>, suffixed: seq<string>, b: string, s: string, n: nat)
    requires n <= |bare| == |suffixed|
    ensures Ids(bare + [b], suffixed + [s], n) == Ids(bare, suffixed, n)
  {
    if n > 0 {
      IdsPrefix(bare, suffixed, b, s, n - 1);
    }
  }

  lemma OneMoreId(bare: seq<string>, suffixed: seq<string>, b: string, s: string, n: nat)
    requires n == |bare| == |suffixed|
    ensures var ids := Ids(bare, suffixed, n); Ids(bare + [b], suffixed + [s], n + 1) == ids + [if b in ids then s else b]
  {
    IdsPrefix(bare, suffixed, b, s, n);
  }

  lemma NamedNext(st: State, c: Channel, b: string, s: string)
    requires Named(st) && b == Bare(c.tvgId, |st.out| + 1) && s == Suffixed(b, |st.out| + 1)
    requires c.id == if b in st.used then s else b
    ensures Named(st.(pending := None, out := st.out + [c], used := st.used + {c.id}))
  {
    IdsSnoc(st.out, c);
    OneMoreId(BareIds(st.out), SuffixedIds(st.out), b, s, |st.out|);
  }

  lemma EmittedNamed(st: State, url: string)
    requires Named(st) && st.pending.Some?
    ensures Named(Emitted(st, url))
  {
    var r, n := Emitted(st, url), |st.out| + 1;
    var b := Bare(st.pending.value.tvgId, n);
    NamedNext(st, r.out[n - 1], b, Suffixed(b, n));
    NamedOnly(st.(pending := None, out := r.out, used := r.used), r);
  }

  lemma NamedOnly(st: State, r: State)
    requires Named(st) && r.out == st.out && r.used == st.used
    ensures Named(r)
  {
  }

  lemma {:induction false} ScanNamed(st: State, lines: seq<Line>)
    requires Named(st)
    ensures Named(Scan(st, lines))
    decreases |lines|
  {
    if lines != [] {
      if lines[0].Url? && st.pending.Some? {
        EmittedNamed(st, lines[0].text);
      } else {
        NamedOnly(st, Step(st, lines[0]));
      }
      ScanNamed(Step(st, lines[0]), lines[1..]);
    }
  }

  lemma NumeralsDiffer(m: nat, n: nat)
    requires m != n
    ensures Numeral(m) != Numeral(n)
  {
    assert Value(Numeral(m)) == m && Value(Numeral(n)) == n;
  }

  lemma HashPlaces(a: string, x: string, b: string, y: string)
    requires |x| < |y| && AllDigits(y) && |a| + |x| == |b| + |y|
    ensures a + ['#'] + x != b + ['#'] + y
  {
    assert (a + ['#'] + x)[|a|] == '#';
    assert (b + ['#'] + y)[|a|] == y[|a| - |b| - 1];
  }

  /** Suffixed identities of different positions differ. */
  lemma SuffixesDiffer(a: string, m: nat, b: string, n: nat)
    requires m != n
    ensures Suffixed(a, m) != Suffixed(b, n)
  {
    var x, y := Numeral(m), Numeral(n);
    NumeralsDiffer(m, n);
    if |a| + |x| == |b| + |y| {
      if |x| < |y| {
        HashPlaces(a, x, b, y);
      } else if |y| < |x| {
        HashPlaces(b, y, a, x);
      } else {
        assert (a + ['#'] + x)[|a| + 1..] == x && (b + ['#'] + y)[|a| + 1..] == y;
      }
    }
  }

  lemma SuffixesDistinct(out: seq<Channel>)
    ensures Distinct(SuffixedIds(out))
  {
    var s := SuffixedIds(out);
    forall i, k | 0 <= i < k < |s|
      ensures s[i] != s[k]
    {
      IdsAt(out, i);
      IdsAt(out, k);
      SuffixesDiffer(Bare(out[i].tvgId, i + 1), i + 1, Bare(out[k].tvgId, k + 1), k + 1);
    }
  }

  ghost predicate DistinctChannels(out: seq<Channel>) { forall i, k :: 0 <= i < k < |out| ==> out[i].id != out[k].id }

  lemma SameIds(out: seq<Channel>, ids: seq<string>)
    requires |ids| == |out| && forall k :: 0 <= k < |out| ==> out[k].id == ids[k]
    ensures DistinctChannels(out) <==> Distinct(ids)
  {
    if DistinctChannels(out) {
      forall i, k | 0 <= i < k < |ids|
        ensures ids[i] != ids[k]
      {
        assert out[i].id != out[k].id;
      }
    }
  }

  /** When identities collide: exactly if some channel's suffixed identity, which it needs, is spelled by the tvg-id of
      an earlier one. Channels are in file order here. */
  lemma DistinctExactly(lines: seq<Line>)
    ensures var out := Scan(START, lines).out;
            DistinctChannels(out) <==> NoClashes(BareIds(out), SuffixedIds(out), |out|)
  {
    ScanNamed(START, lines);
    var out := Scan(START, lines).out;
    var ids := Ids(BareIds(out), SuffixedIds(out), |out|);
    SuffixesDistinct(out);
    DistinctUpTo(BareIds(out), SuffixedIds(out), |out|);
    SameIds(out, ids);
    assert DistinctChannels(out) <==> Distinct(ids);
    assert Distinct(ids) <==> NoClashes(BareIds(out), SuffixedIds(out), |out|);
  }

  /** The claim: without '#' in a tvg-id, all identities are distinct. */
  lemma DistinctWithoutHash(lines: seq<Line>)
    requires forall i :: 0 <= i < |lines| && lines[i].Entry? ==> '#' !in lines[i].info.tvgId
    ensures DistinctChannels(Scan(START, lines).out)
  {
    DistinctExactly(lines);
    NoHashes(START, lines);
    var out := Scan(START, lines).out;
    forall i: nat, k: nat | i < k < |out|
      ensures BareIds(out)[i] != SuffixedIds(out)[k]
    {
      NoClash(out, i, k);
    }
  }

  lemma NoClash(out: seq<Channel>, i: nat, k: nat)
    requires i < k < |out| && '#' !in out[i].tvgId
    ensures BareIds(out)[i] != SuffixedIds(out)[k]
  {
    IdsAt(out, i);
    IdsAt(out, k);
    BareNoHash(out[i].tvgId, i + 1);
    var b := Bare(out[k].tvgId, k + 1);
    assert Suffixed(b, k + 1)[|b|] == '#';
  }

  ghost predicate NotAmong(id: string, s: seq<Channel>) { forall x :: x in s ==> x.id != id }

  lemma DistinctCons(c: Channel, s: seq<Channel>)
    requires DistinctChannels(s) && NotAmong(c.id, s)
    ensures DistinctChannels([c] + s)
  {
  }

  lemma DistinctTail(s: seq<Channel>)
    requires s != [] && DistinctChannels(s)
    ensures DistinctChannels(s[1..]) && NotAmong(s[0].id, s[1..])
  {
  }

  lemma {:induction false} InsertDistinct(c: Channel, s: seq<Channel>)
    requires DistinctChannels(s) && NotAmong(c.id, s)
    ensures DistinctChannels(Insert(c, s)) && forall x :: x in Insert(c, s) <==> x == c || x in s
  {
    if s == [] || c.number <= s[0].number {
      DistinctCons(c, s);
    } else {
      DistinctTail(s);
      InsertDistinct(c, s[1..]);
      DistinctCons(s[0], Insert(c, s[1..]));
      assert s == [s[0]] + s[1..];
    }
  }

  lemma {:induction false} SortDistinct(s: seq<Channel>)
    requires DistinctChannels(s)
    ensures DistinctChannels(Sort(s)) && forall x :: x in Sort(s) <==> x in s
  {
    if s != [] {
      DistinctTail(s);
      SortDistinct(s[1..]);
      InsertDistinct(s[0], Sort(s[1..]));
      assert s == [s[0]] + s[1..];
    }
  }

  /** Sorting keeps the identities apart. */
  lemma ParsedDistinctWithoutHash(lines: seq<Line>)
    requires forall i :: 0 <= i < |lines| && lines[i].Entry? ==> '#' !in lines[i].info.tvgId
    ensures DistinctChannels(Parsed(lines))
  {
    DistinctWithoutHash(lines);
    SortDistinct(Scan(START, lines).out);
  }

  lemma ScanTwo(st: State, a: Line, b: Line, rest: seq<Line>)
    ensures Scan(st, [a, b] + rest) == Scan(Step(Step(st, a), b), rest)
  {
    var lines := [a, b] + rest;
    assert lines[1..][0] == b && lines[1..][1..] == rest;
  }

  /** With '#' they may collide: a tvg-id spells the suffixed identity of the third channel. */
  lemma HashedIdsCollide(a: string, t: string, url: string)
    requires a != "" && t == Suffixed(a, 3)
    ensures var x, y, u := Entry(Info(t, None)), Entry(Info(a, None)), Url(url);
            var out := Scan(START, [x, u] + ([y, u] + ([y, u] + []))).out;
            |out| == 3 && out[0].id == out[2].id
  {
    var x, y, u := Entry(Info(t, None)), Entry(Info(a, None)), Url(url);
    var st1 := Step(Step(START, x), u);
    assert st1.out == [Channel(t, 1.0, url, t)] && st1.used == {t};
    var st2 := Step(Step(st1, y), u);
    assert st2.out == [Channel(t, 1.0, url, t), Channel(a, 2.0, url, a)] && st2.used == {t, a};
    var st3 := Step(Step(st2, y), u);
    assert st3.out == st2.out + [Channel(t, 3.0, url, a)];
    ScanTwo(START, x, u, [y, u] + ([y, u] + []));
    ScanTwo(st1, y, u, [y, u] + []);
    ScanTwo(st2, y, u, []);
  }

  lemma BareNoHash(tvgId: string, positional: nat)
    requires '#' !in tvgId
    ensures '#' !in Bare(tvgId, positional)
  {
    assert forall c :: c in Numeral(positional) ==> IsDigit(c);
  }

  lemma {:induction false} NoHashes(st: State, lines: seq<Line>)
    requires forall i :: 0 <= i < |lines| && lines[i].Entry? ==> '#' !in lines[i].info.tvgId
    requires st.pending.Some? ==> '#' !in st.pending.value.tvgId
    requires forall k :: 0 <= k < |st.out| ==> '#' !in st.out[k].tvgId
    ensures forall k :: 0 <= k < |Scan(st, lines).out| ==> '#' !in Scan(st, lines).out[k].tvgId
    decreases |lines|
  {
    if lines != [] {
      NoHashes(Step(st, lines[0]), lines[1..]);
    }
  }

  // ---------------------------------------------------------------- what a channel is made of

  ghost predicate UsedAreIds(st: State) { forall id :: id in st.used <==> exists c :: c in st.out && c.id == id }

  lemma EmittedUsed(st: State, url: string)
    requires UsedAreIds(st) && st.pending.Some?
    ensures UsedAreIds(Emitted(st, url))
  {
    var r := Emitted(st, url);
    var c := r.out[|st.out|];
    assert c in r.out && forall x :: x in r.out <==> x in st.out || x == c;
  }

  lemma {:induction false} ScanUsed(st: State, lines: seq<Line>)
    requires UsedAreIds(st)
    ensures UsedAreIds(Scan(st, lines)) && st.out <= Scan(st, lines).out
    decreases |lines|
  {
    if lines != [] {
      if lines[0].Url? && st.pending.Some? {
        EmittedUsed(st, lines[0].text);
      }
      ScanUsed(Step(st, lines[0]), lines[1..]);
    }
  }

  lemma {:induction false} ScanAppend(st: State, a: seq<Line>, b: seq<Line>)
    ensures Scan(st, a + b) == Scan(Scan(st, a), b)
    decreases |a|
  {
    if a == [] {
      assert a + b == b;
    } else {
      assert (a + b)[1..] == a[1..] + b;
      ScanAppend(Step(st, a[0]), a[1..], b);
    }
  }

  /** Neither an #EXTINF line nor a URL stands in lines i..k. */
  ghost predicate Silent(lines: seq<Line>, i: int, k: int)
    requires 0 <= i <= k <= |lines|
  {
    forall m :: i <= m < k ==> !lines[m].Entry? && !lines[m].Url?
  }

  lemma {:induction false} SilentKeepsPending(lines: seq<Line>, j: nat, i: nat)
    requires j < i <= |lines| && lines[j].Entry? && Silent(lines, j + 1, i)
    ensures Scan(START, lines[..i]).pending == Some(lines[j].info)
    decreases i
  {
    var last := i - 1;
    assert lines[..i] == lines[..last] + [lines[last]];
    ScanSnoc(START, lines[..last], lines[last]);
    if j < last {
      SilentKeepsPending(lines, j, last);
    }
  }

  /** What a URL becomes that follows an #EXTINF line, with neither of both between: channel n of the file, with the
      URL, the line's tvg-id, its number or else the position, and as identity the tvg-id or else the position, made
      unlike all earlier ones by the position. */
  lemma ChannelRead(lines: seq<Line>, j: nat, i: nat)
    requires j < i < |lines| && lines[j].Entry? && lines[i].Url? && Silent(lines, j + 1, i)
    ensures var out, n := Scan(START, lines).out, |Scan(START, lines[..i]).out|;
            var info := lines[j].info;
            && n < |out| && out[n].url == lines[i].text && out[n].tvgId == info.tvgId
            && out[n].number == (if info.chno.Some? then info.chno.value else (n + 1) as real)
            && var bare := if info.tvgId != "" then info.tvgId else "ch-" + Numeral(n + 1);
               out[n].id == if exists c :: c in out[..n] && c.id == bare then bare + ['#'] + Numeral(n + 1) else bare
  {
    var before := Scan(START, lines[..i]);
    SilentKeepsPending(lines, j, i);
    ScanUsed(START, lines[..i]);
    var next := Step(before, lines[i]);
    assert lines == lines[..i] + lines[i..] && lines[i..][0] == lines[i];
    ScanAppend(START, lines[..i], lines[i..]);
    EmittedUsed(before, lines[i].text);
    ScanUsed(next, lines[i..][1..]);
    assert Scan(START, lines).out[..|before.out|] == before.out;
  }

  /** And every channel is one of these. */
  lemma {:induction false} ChannelComesFrom(lines: seq<Line>, n: nat) returns (j: nat, i: nat)
    requires n < |Scan(START, lines).out|
    ensures j < i < |lines| && lines[j].Entry? && lines[i].Url? && Silent(lines, j + 1, i) && |Scan(START, lines[..i]).out| == n
    decreases |lines|
  {
    var last := |lines| - 1;
    var before := lines[..last];
    assert lines == before + [lines[last]];
    ScanSnoc(START, before, lines[last]);
    if n < |Scan(START, before).out| {
      j, i := ChannelComesFrom(before, n);
      assert before[..i] == lines[..i];
    } else {
      i := last;
      j := PendingComesFrom(before);
    }
  }

  lemma {:induction false} PendingComesFrom(lines: seq<Line>) returns (j: nat)
    requires Scan(START, lines).pending.Some?
    ensures j < |lines| && lines[j].Entry? && Silent(lines, j + 1, |lines|)
    decreases |lines|
  {
    var last := |lines| - 1;
    var before := lines[..last];
    assert lines == before + [lines[last]];
    ScanSnoc(START, before, lines[last]);
    if lines[last].Entry? {
      j := last;
    } else {
      j := PendingComesFrom(before);
    }
  }

  /** Text lines as the parser takes them: an #EXTINF line, a URL, or neither. */
  ghost predicate IsInfo(line: string) { |line| >= 8 && line[..8] == "#EXTINF:" }

  ghost predicate IsUrl(line: string) { line != "" && line[0] != '#' }

  lemma LineKinds(line: string, info: string -> Info)
    ensures LineOf(line, info).Entry? <==> IsInfo(line)
    ensures LineOf(line, info).Url? <==> IsUrl(line)
    ensures IsInfo(line) ==> LineOf(line, info) == Entry(info(line))
    ensures IsUrl(line) ==> LineOf(line, info) == Url(line)
  {
    assert IsInfo(line) ==> line[..8][0] == line[0] && line[..8][4] == line[4] && line[4] == 'I';
    if ExtInf.HasPrefix(line, "#EXTM3U") {
      assert line[..7][4] == line[4] && line[..7][0] == line[0];
    }
    if ExtInf.HasPrefix(line, "#EXTINF:") {
      assert line[..8] == "#EXTINF:";
    }
  }

  /** A channel of the result, by the text lines that it comes from. */
  ghost predicate MadeFrom(lines: seq<string>, info: string -> Info, j: int, i: int, c: Channel)
  {
    && 0 <= j < i < |lines| && IsInfo(lines[j]) && IsUrl(lines[i])
    && (forall m :: j < m < i ==> !IsInfo(lines[m]) && !IsUrl(lines[m]))
    && c.url == lines[i] && c.tvgId == info(lines[j]).tvgId
    && c.number == match info(lines[j]).chno
                   case Some(x) => x
                   case None => (|Scan(START, AllLines(lines[..i], info)).out| + 1) as real
  }

  lemma {:induction false} AllLinesPrefix(lines: seq<string>, info: string -> Info, i: nat)
    requires i <= |lines|
    ensures AllLines(lines, info)[..i] == AllLines(lines[..i], info)
  {
  }

  /** The channels of the result are exactly what the #EXTINF lines and the URLs that follow them make: no channel is
      lost in the sort, and none is of any other origin. */
  lemma ParsedExactly(lines: seq<string>, info: string -> Info)
    ensures var channels := Parsed(AllLines(lines, info));
            && (forall c :: c in channels ==> exists j, i :: MadeFrom(lines, info, j, i, c))
            && forall j, i :: 0 <= j < i < |lines| && IsInfo(lines[j]) && IsUrl(lines[i])
                              && (forall m :: j < m < i ==> !IsInfo(lines[m]) && !IsUrl(lines[m])) ==>
                 exists c :: c in channels && MadeFrom(lines, info, j, i, c)
  {
    var all := AllLines(lines, info);
    var out := Scan(START, all).out;
    forall c
      ensures c in Parsed(all) <==> c in out
    {
      SortIsStable(out, c.number);
      WithNumberHas(out, c);
      WithNumberHas(Sort(out), c);
    }
    forall c | c in out
      ensures exists j, i :: MadeFrom(lines, info, j, i, c)
    {
      var n :| 0 <= n < |out| && out[n] == c;
      var j, i := ChannelComesFrom(all, n);
      MadeHere(lines, info, j, i, n);
    }
    forall j: int, i: int | 0 <= j < i < |lines| && IsInfo(lines[j]) && IsUrl(lines[i])
                            && forall m :: j < m < i ==> !IsInfo(lines[m]) && !IsUrl(lines[m])
      ensures exists c :: c in out && MadeFrom(lines, info, j, i, c)
    {
      Announced(lines, info, j, i);
      MadeHere(lines, info, j, i, |Scan(START, all[..i]).out|);
    }
  }

  lemma Announced(lines: seq<string>, info: string -> Info, j: nat, i: nat)
    requires j < i < |lines| && IsInfo(lines[j]) && IsUrl(lines[i])
    requires forall m :: j < m < i ==> !IsInfo(lines[m]) && !IsUrl(lines[m])
    ensures var all := AllLines(lines, info); all[j].Entry? && all[i].Url? && Silent(all, j + 1, i)
  {
    forall m | j <= m <= i
      ensures AllLines(lines, info)[m].Entry? <==> IsInfo(lines[m])
      ensures AllLines(lines, info)[m].Url? <==> IsUrl(lines[m])
    {
      LineKinds(lines[m], info);
    }
  }

  lemma MadeHere(lines: seq<string>, info: string -> Info, j: nat, i: nat, n: nat)
    requires var all := AllLines(lines, info);
             && j < i < |lines| && all[j].Entry? && all[i].Url? && Silent(all, j + 1, i) && n == |Scan(START, all[..i]).out|
    ensures var out := Scan(START, AllLines(lines, info)).out; n < |out| && out[n] in out && MadeFrom(lines, info, j, i, out[n])
  {
    var all := AllLines(lines, info);
    ChannelRead(all, j, i);
    AllLinesPrefix(lines, info, i);
    forall m | j <= m <= i
      ensures all[m].Entry? <==> IsInfo(lines[m])
      ensures all[m].Url? <==> IsUrl(lines[m])
    {
      LineKinds(lines[m], info);
    }
    LineKinds(lines[j], info);
    LineKinds(lines[i], info);
  }

  // ---------------------------------------------------------------- order of the result

  /** Without explicit numbers, channels are numbered by position. */
  predicate Positional(st: State) { st.numbered || forall k :: 0 <= k < |st.out| ==> st.out[k].number == (k + 1) as real }

  lemma {:induction false} ScanPositional(st: State, lines: seq<Line>)
    requires Positional(st)
    ensures Positional(Scan(st, lines))
    decreases |lines|
  {
    if lines != [] {
      ScanPositional(Step(st, lines[0]), lines[1..]);
    }
  }

  /** The result is in order of the numbers, and in file order where numbers are equal. */
  lemma ParsedInOrder(lines: seq<Line>, n: real)
    ensures Ascending(Parsed(lines)) && WithNumber(Parsed(lines), n) == WithNumber(Scan(START, lines).out, n)
  {
    ScanPositional(START, lines);
    SortIsStable(Scan(START, lines).out, n);
  }

  // ---------------------------------------------------------------- the separator of an #EXTINF line

  /** The first comma outside quotes; on malformed quoting the first comma at all. */
  function ExtInfSplit(line: string): ExtInf.Halves
  {
    var i := if ExtInf.Separator(line, false) >= 0 then ExtInf.Separator(line, false) else IndexOf(line, ',');
    if i < 0 then ExtInf.Halves(line, "") else ExtInf.Halves(line[..i], Trim(line[i + 1..]))
  }

  method SplitExtInf(line: string) returns (r: ExtInf.Halves)
    ensures r == ExtInfSplit(line)
  {
    var inQuotes := false;
    for i := 0 to |line|
      invariant ExtInf.Separator(line[..i], false) < 0 && ExtInf.Inside(line[..i], false) == inQuotes
    {
      assert line == line[..i] + line[i..] && line[..i + 1] == line[..i] + [line[i]];
      ExtInf.SeparatorAfter(line[..i], line[i..], false);
      ExtInf.SeparatorAfter(line[..i], [line[i]], false);
      if line[i] == '"' {
        inQuotes := !inQuotes;
      } else if line[i] == ',' && !inQuotes {
        return ExtInf.Halves(line[..i], Trim(line[i + 1..]));
      }
    }
    assert line[..|line|] == line;
    var comma := IndexOf(line, ',');
    if comma < 0 {
      return ExtInf.Halves(line, "");
    }
    return ExtInf.Halves(line[..comma], Trim(line[comma + 1..]));
  }

  /** A line is split at the first comma that an even number of quotes comes before. */
  lemma SplitAtOutside(line: string, i: nat)
    requires i < |line| && line[i] == ',' && ExtInf.Outside(line, i)
    requires forall k :: 0 <= k < i && line[k] == ',' ==> !ExtInf.Outside(line, k)
    ensures ExtInfSplit(line) == ExtInf.Halves(line[..i], Trim(line[i + 1..]))
  {
    ExtInf.SeparatorExactly(line, false);
    ExtInf.OutsideExactly(line);
  }

  /** Where the quotes never close, at the first comma; where there is no comma, the line has no name. */
  lemma SplitElsewhere(line: string, i: nat)
    requires forall k :: 0 <= k < |line| && line[k] == ',' ==> !ExtInf.Outside(line, k)
    ensures i < |line| && line[i] == ',' && ',' !in line[..i] ==>
              ExtInfSplit(line) == ExtInf.Halves(line[..i], Trim(line[i + 1..]))
    ensures ',' !in line ==> ExtInfSplit(line) == ExtInf.Halves(line, "")
  {
    ExtInf.SeparatorExactly(line, false);
    ExtInf.OutsideExactly(line);
    if i < |line| && line[i] == ',' && ',' !in line[..i] {
      FirstIndex(line, ',', i);
    }
  }

  lemma SplitJoined(head: string, name: string)
    requires ExtInf.Closed(head) && Trimmed(name)
    ensures ExtInfSplit(head + ([','] + name)) == ExtInf.Halves(head, name)
  {
    var line := head + ([','] + name);
    assert ExtInf.Separator([','] + name, false) == 0;
    ExtInf.SeparatorAfter(head, [','] + name, false);
    assert line[..|head|] == head && line[|head| + 1..] == name;
    TrimOfTrimmed(name);
  }

  lemma Regroup(a: string, b: string, c: string, d: string)
    ensures a + (b + (c + d)) == a + (b + c) + d
  {
  }

  lemma ClosedThree(a: string, b: string, c: string)
    requires ExtInf.Closed(a) && ExtInf.Closed(b) && ExtInf.Closed(c)
    ensures ExtInf.Closed(a + (b + c))
  {
    ExtInf.ClosedConcat(b, c);
    ExtInf.ClosedConcat(a, b + c);
  }

  lemma AttrPartClosed(attrs: seq<ExtInf.Attr>)
    requires ExtInf.PlainAttrs(attrs)
    ensures ExtInf.Closed(ExtInf.AttrPart(attrs))
  {
    ExtInf.AttrsClosed(attrs);
    ExtInf.NoSpecialClosed(" ", false);
    ExtInf.ClosedConcat(" ", ExtInf.ShownAttrs(attrs));
  }

  lemma DurationClosed(duration: int)
    ensures ExtInf.Closed(Printed(duration))
  {
    PrintedChars(duration);
    var p := Printed(duration);
    assert forall i :: 0 <= i < |p| ==> p[i] in p;
    ExtInf.NoSpecialClosed(p, false);
  }

  /** A well-formed line is split where it was joined, whatever commas its values and its name hold. */
  lemma SplitRecovers(duration: int, attrs: seq<ExtInf.Attr>, name: string)
    requires ExtInf.PlainAttrs(attrs) && Trimmed(name)
    ensures ExtInfSplit(ExtInf.ShownExtInf(duration, attrs, name)) ==
            ExtInf.Halves("#EXTINF:" + (Printed(duration) + ExtInf.AttrPart(attrs)), name)
  {
    var tag := "#EXTINF:";
    AttrPartClosed(attrs);
    DurationClosed(duration);
    ExtInf.NoSpecialClosed(tag, false);
    ClosedThree(tag, Printed(duration), ExtInf.AttrPart(attrs));
    SplitJoined(tag + (Printed(duration) + ExtInf.AttrPart(attrs)), name);
    Regroup(tag, Printed(duration), ExtInf.AttrPart(attrs), [','] + name);
  }

  // ---------------------------------------------------------------- counts

  /** Whether a URL comes before the next #EXTINF line. */
  predicate UrlFirst(lines: seq<Line>)
  {
    lines != [] && (lines[0].Url? || (!lines[0].Entry? && UrlFirst(lines[1..])))
  }

  /** The #EXTINF lines whose URL never arrives. */
  function Unanswered(lines: seq<Line>): nat
  {
    if lines == [] then 0 else Unanswered(lines[1..]) + (if lines[0].Entry? && !UrlFirst(lines[1..]) then 1 else 0)
  }

  function Urls(lines: seq<Line>): nat
  {
    if lines == [] then 0 else Urls(lines[1..]) + (if lines[0].Url? then 1 else 0)
  }

  function Entries(lines: seq<Line>): nat
  {
    if lines == [] then 0 else Entries(lines[1..]) + (if lines[0].Entry? then 1 else 0)
  }

  lemma {:induction false} ScanCounts(st: State, lines: seq<Line>)
    ensures var r := Scan(st, lines);
            && r.extinf == st.extinf + Entries(lines)
            && |r.out| + r.orphans == |st.out| + st.orphans + Urls(lines)
            && r.extinf - |r.out| == st.extinf - |st.out| + Unanswered(lines) - (if st.pending.Some? && UrlFirst(lines) then 1 else 0)
    decreases |lines|
  {
    if lines != [] {
      ScanCounts(Step(st, lines[0]), lines[1..]);
    }
  }

  /** What the counts say of the lines: every URL is emitted or an orphan, and dropped are exactly the #EXTINF lines
      whose URL never arrived. */
  lemma CountsExactly(lines: seq<Line>)
    ensures var c := Counted(lines);
            && c.extinf == Entries(lines) && c.emitted + c.orphanUrls == Urls(lines)
            && c.emitted <= c.extinf && c.dropped == c.extinf - c.emitted == Unanswered(lines)
  {
    ScanCounts(START, lines);
  }
}
