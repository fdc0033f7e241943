/**
 The last-writer-wins map of the sync service. A write replaces the entry under its key if it
 is later, or equally late and of a greater origin; otherwise the entry stays.
 */
module LwwMap {

  /** `ts` is an instant; a device id breaks ties. */
  datatype Entry = Entry(value: string, ts: int, origin: string)

  datatype Write = Write(key: string, entry: Entry)

  predicate Less(a: string, b: string)
  {
    b != [] && (a == [] || a[0] < b[0] || (a[0] == b[0] && Less(a[1..], b[1..])))
  }

  predicate Beats(x: Entry, y: Entry)
  {
    x.ts > y.ts || (x.ts == y.ts && Less(y.origin, x.origin))
  }

  function Set(m: map<string, Entry>, w: Write): map<string, Entry>
  {
    if w.key !in m || Beats(w.entry, m[w.key]) then m[w.key := w.entry] else m
  }

  function SetAll(ws: seq<Write>): map<string, Entry>
  {
    if ws == [] then map[] else Set(SetAll(ws[..|ws| - 1]), ws[|ws| - 1])
  }

  class LWWMap {
    var values: map<string, Entry>

    constructor ()
      ensures values == map[]
    {
      values := map[];
    }

    method Put(key: string, value: string, ts: int, origin: string)
      modifies this
      ensures values == Set(old(values), Write(key, Entry(value, ts, origin)))
    {
      if key !in values || ts > values[key].ts || (ts == values[key].ts && Less(values[key].origin, origin)) {
        values := values[key := Entry(value, ts, origin)];
      }
    }

    method Get(key: string) returns (value: string)
      ensures value == if key in values then values[key].value else ""
    {
      value := if key in values then values[key].value else "";
    }
  }

  // ---------------------------------------------------------------- the order on entries

  lemma {:induction false} LessIrreflexive(a: string)
    ensures !Less(a, a)
  {
    if a != [] {
      LessIrreflexive(a[1..]);
    }
  }

  lemma {:induction false} LessTransitive(a: string, b: string, c: string)
    requires Less(a, b) && Less(b, c)
    ensures Less(a, c)
  {
    if a != [] && a[0] == b[0] == c[0] {
      LessTransitive(a[1..], b[1..], c[1..]);
    }
  }

  lemma {:induction false} LessTotal(a: string, b: string)
    ensures a == b || Less(a, b) || Less(b, a)
  {
    if a != [] && b != [] && a[0] == b[0] {
      LessTotal(a[1..], b[1..]);
      assert a == [a[0]] + a[1..] && b == [b[0]] + b[1..];
    }
  }

  lemma BeatsTransitive(x: Entry, y: Entry, z: Entry)
    requires Beats(x, y) && Beats(y, z)
    ensures Beats(x, z)
  {
    if x.ts == y.ts == z.ts {
      LessTransitive(z.origin, y.origin, x.origin);
    }
  }

  // ---------------------------------------------------------------- results

  /** w is a write to k that no write to k beats. */
  ghost predicate Latest(ws: seq<Write>, k: string, w: Write)
  {
    w in ws && w.key == k && forall v :: v in ws && v.key == k ==> !Beats(v.entry, w.entry)
  }

  /** Under every written key stands one of its latest writes, whatever the order. */
  lemma {:induction false} HoldsLatest(ws: seq<Write>, k: string)
    ensures k in SetAll(ws) <==> exists w :: w in ws && w.key == k
    ensures k in SetAll(ws) ==> Latest(ws, k, Write(k, SetAll(ws)[k]))
  {
    if ws != [] {
      var before, w := ws[..|ws| - 1], ws[|ws| - 1];
      assert ws == before + [w];
      HoldsLatest(before, k);
      var m := SetAll(before);
      LessIrreflexive(w.entry.origin);
      if w.key == k && k in m {
        forall v | v in before && v.key == k && Beats(w.entry, m[k])
          ensures !Beats(v.entry, w.entry)
        {
          if Beats(v.entry, w.entry) {
            BeatsTransitive(v.entry, w.entry, m[k]);
          }
        }
      }
    }
  }

  /** The first of the latest writes stays: nothing that follows beats it. */
  lemma {:induction false} FirstLatestStays(w: Write, ws: seq<Write>)
    requires Latest([w] + ws, w.key, w)
    ensures w.key in SetAll([w] + ws) && SetAll([w] + ws)[w.key] == w.entry
  {
    var all := [w] + ws;
    if ws == [] {
      assert all[..0] == [];
    } else {
      var before := ws[..|ws| - 1];
      assert all[..|all| - 1] == [w] + before;
      FirstLatestStays(w, before);
      assert all[|all| - 1] in all;
    }
  }

  /** The same writes, in any order and any number of times each. */
  ghost predicate SameWrites(ws: seq<Write>, vs: seq<Write>)
  {
    forall w :: w in ws <==> w in vs
  }

  ghost predicate OrderFree(ws: seq<Write>, k: string)
    requires k in SetAll(ws)
  {
    forall vs :: SameWrites(ws, vs) ==> k in SetAll(vs) && SetAll(vs)[k] == SetAll(ws)[k]
  }

  /** No two latest writes of k differ. */
  ghost predicate Agreed(ws: seq<Write>, k: string)
  {
    forall w, v :: Latest(ws, k, w) && Latest(ws, k, v) ==> w == v
  }

  lemma AgreedConverges(ws: seq<Write>, vs: seq<Write>, k: string)
    requires k in SetAll(ws) && Agreed(ws, k) && SameWrites(ws, vs)
    ensures k in SetAll(vs) && SetAll(vs)[k] == SetAll(ws)[k]
  {
    HoldsLatest(ws, k);
    HoldsLatest(vs, k);
    assert Latest(ws, k, Write(k, SetAll(vs)[k]));
  }

  lemma EveryLatestCanWin(ws: seq<Write>, k: string, w: Write)
    requires k in SetAll(ws) && OrderFree(ws, k) && Latest(ws, k, w)
    ensures SetAll(ws)[k] == w.entry
  {
    assert Latest([w] + ws, k, w);
    FirstLatestStays(w, ws);
    assert SameWrites(ws, [w] + ws);
  }

  /** A written key converges for every order and repetition of the writes if and only if its latest writes,
      those that no other beats, are one and the same. */
  lemma ConvergesExactly(ws: seq<Write>, k: string)
    requires k in SetAll(ws)
    ensures OrderFree(ws, k) <==> Agreed(ws, k)
  {
    if Agreed(ws, k) {
      forall vs | SameWrites(ws, vs)
        ensures k in SetAll(vs) && SetAll(vs)[k] == SetAll(ws)[k]
      {
        AgreedConverges(ws, vs, k);
      }
    }
    if OrderFree(ws, k) {
      forall w, v | Latest(ws, k, w) && Latest(ws, k, v)
        ensures w == v
      {
        EveryLatestCanWin(ws, k, w);
        EveryLatestCanWin(ws, k, v);
      }
    }
  }

  /** Two latest writes of a key can only differ in their value. */
  lemma LatestDifferInValue(ws: seq<Write>, k: string, w: Write, v: Write)
    requires Latest(ws, k, w) && Latest(ws, k, v)
    ensures w.entry.ts == v.entry.ts && w.entry.origin == v.entry.origin
  {
    LessTotal(w.entry.origin, v.entry.origin);
  }

  /** What every map holds, in plain terms: the entry under a written key is one of the writes to it; none of them has a
      later time, and none of the same time has a greater origin. */
  lemma HeldIsLast(ws: seq<Write>, w: Write)
    requires w in ws
    ensures w.key in SetAll(ws)
    ensures var m := SetAll(ws)[w.key];
            && Write(w.key, m) in ws
            && (w.entry.ts < m.ts || (w.entry.ts == m.ts && !Less(m.origin, w.entry.origin)))
  {
    HoldsLatest(ws, w.key);
  }

  /** Origins are compared as text: a is less if it is a proper beginning of b, or smaller at the first difference. */
  lemma {:induction false} LessExactly(a: string, b: string)
    ensures Less(a, b) <==> a < b || exists k :: 0 <= k < |a| && k < |b| && a[..k] == b[..k] && a[k] < b[k]
  {
    if a != [] && b != [] && a[0] == b[0] {
      var x, y := a[1..], b[1..];
      LessExactly(x, y);
      assert a == [a[0]] + x && b == [b[0]] + y;
      if k :| 0 <= k < |x| && k < |y| && x[..k] == y[..k] && x[k] < y[k] {
        assert a[..k + 1] == [a[0]] + x[..k] && b[..k + 1] == [b[0]] + y[..k];
        assert a[k + 1] < b[k + 1];
      }
      if k :| 0 <= k < |a| && k < |b| && a[..k] == b[..k] && a[k] < b[k] {
        assert k > 0 && x[..k - 1] == a[..k][1..] && y[..k - 1] == b[..k][1..];
        assert x[k - 1] < y[k - 1];
      }
    } else if a != [] && b != [] && a[0] < b[0] {
      assert a[..0] == b[..0] && a[0] < b[0];
    } else if k :| 0 <= k < |a| && k < |b| && a[..k] == b[..k] && a[k] < b[k] {
      SameHead(a, b, k);
    }
  }

  lemma SameHead(a: string, b: string, k: nat)
    requires k < |a| && k < |b| && a[..k] == b[..k]
    ensures k > 0 ==> a[0] == b[0]
  {
    assert k > 0 ==> a[..k][0] == a[0] && b[..k][0] == b[0];
  }
}
