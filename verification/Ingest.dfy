/**
 The consumer of a playlist refresh: entries are deduplicated by the hash of their URL, turned
 into rows, and written to the store in batches.
 */
module Ingest {
  import ExtInf

  /** The columns of a row other than the hash are a function of the entry and of fresh identifiers. */
  datatype Row = Row(entry: ExtInf.Entry, urlHash: int)

  type Hash = string -> int

  /** The entries whose hash no earlier entry has. */
  function Firsts(es: seq<ExtInf.Entry>, hash: Hash): seq<ExtInf.Entry>
  {
    if es == [] then []
    else
      var n := |es| - 1;
      if hash(es[n].url) in Hashes(es[..n], hash) then Firsts(es[..n], hash) else Firsts(es[..n], hash) + [es[n]]
  }

  function Hashes(es: seq<ExtInf.Entry>, hash: Hash): set<int> { set i | 0 <= i < |es| :: hash(es[i].url) }

  function Rows(es: seq<ExtInf.Entry>, hash: Hash): (r: seq<Row>)
    ensures |r| == |es| && forall i :: 0 <= i < |es| ==> r[i] == Row(es[i], hash(es[i].url))
  {
    if es == [] then [] else Rows(es[..|es| - 1], hash) + [Row(es[|es| - 1], hash(es[|es| - 1].url))]
  }

  function Flat(batches: seq<seq<Row>>): seq<Row>
  {
    if batches == [] then [] else Flat(batches[..|batches| - 1]) + batches[|batches| - 1]
  }

  lemma FlatSnoc(batches: seq<seq<Row>>, b: seq<Row>)
    ensures Flat(batches + [b]) == Flat(batches) + b
  {
    assert (batches + [b])[..|batches|] == batches;
  }

  ghost predicate Apart(es: seq<ExtInf.Entry>, hash: Hash)
  {
    forall i, j :: 0 <= i < j < |es| ==> hash(es[i].url) != hash(es[j].url)
  }

  lemma ApartSnoc(es: seq<ExtInf.Entry>, e: ExtInf.Entry, hash: Hash)
    requires Apart(es, hash) && hash(e.url) !in Hashes(es, hash)
    ensures Apart(es + [e], hash)
  {
    forall i | 0 <= i < |es|
      ensures hash(es[i].url) != hash(e.url)
    {
      assert hash(es[i].url) in Hashes(es, hash);
    }
  }

  lemma FirstsSnoc(es: seq<ExtInf.Entry>, e: ExtInf.Entry, hash: Hash)
    ensures Firsts(es + [e], hash) == if hash(e.url) in Hashes(es, hash) then Firsts(es, hash) else Firsts(es, hash) + [e]
  {
    assert (es + [e])[..|es|] == es;
  }

  /** What is kept: of every hash exactly one entry. */
  lemma {:induction false} FirstsExactly(es: seq<ExtInf.Entry>, hash: Hash)
    ensures Hashes(Firsts(es, hash), hash) == Hashes(es, hash) && |Firsts(es, hash)| == |Hashes(es, hash)|
    ensures Apart(Firsts(es, hash), hash)
  {
    if es != [] {
      var before, e := es[..|es| - 1], es[|es| - 1];
      FirstsExactly(before, hash);
      assert es == before + [e];
      FirstsSnoc(before, e, hash);
      HashesSnoc(before, e, hash);
      HashesSnoc(Firsts(before, hash), e, hash);
      if hash(e.url) !in Hashes(before, hash) {
        ApartSnoc(Firsts(before, hash), e, hash);
      }
    }
  }

  /** And that one is the first, so that the kept entries stand in the order of the stream. */
  lemma {:induction false} FirstsAreFirst(es: seq<ExtInf.Entry>, hash: Hash, i: nat)
    requires i < |es| && hash(es[i].url) !in Hashes(es[..i], hash)
    ensures var n := |Firsts(es[..i], hash)|; n < |Firsts(es, hash)| && Firsts(es, hash)[n] == es[i]
    decreases |es|
  {
    var before, e := es[..|es| - 1], es[|es| - 1];
    assert es == before + [e];
    FirstsSnoc(before, e, hash);
    assert before[..i] == es[..i];
    if i < |before| {
      FirstsAreFirst(before, hash, i);
    } else {
      assert es[..i] == before;
    }
  }

  lemma HashesSnoc(es: seq<ExtInf.Entry>, e: ExtInf.Entry, hash: Hash)
    ensures Hashes(es + [e], hash) == Hashes(es, hash) + {hash(e.url)}
  {
    var more := es + [e];
    assert more[|es|] == e;
    forall h
      ensures h in Hashes(more, hash) <==> h in Hashes(es, hash) + {hash(e.url)}
    {
      if h in Hashes(es, hash) {
        var i :| 0 <= i < |es| && hash(es[i].url) == h;
        assert more[i] == es[i];
      }
    }
  }

  // ---------------------------------------------------------------- batches

  /** The batches that a source's rows were written in. */
  class Store {
    var batches: seq<seq<Row>>

    constructor ()
      ensures batches == []
    {
      batches := [];
    }

    method UpsertChannelBatch(rows: seq<Row>, works: bool) returns (ok: bool)
      modifies this
      ensures ok == works && batches == if works then old(batches) + [rows] else old(batches)
    {
      if works {
        batches := batches + [rows];
      }
      return works;
    }
  }

  class Batcher {
    const store: Store
    const limit: nat
    var buf: seq<Row>
    var count: nat

    constructor (store: Store, limit: int)
      ensures this.store == store && this.limit == (if limit <= 0 then 250 else limit) && buf == [] && count == 0
    {
      this.store := store;
      this.limit := if limit <= 0 then 250 else limit;
      buf, count := [], 0;
    }

    /** All batches so far are full, and the buffer is not; together they hold these rows. */
    ghost predicate Holds(rows: seq<Row>)
      reads this, store
    {
      && (forall i :: 0 <= i < |store.batches| ==> |store.batches[i]| == limit)
      && |buf| < limit && Flat(store.batches) + buf == rows && count == |rows|
    }

    method Add(e: ExtInf.Entry, hash: Hash)
      modifies this
      ensures buf == old(buf) + [Row(e, hash(e.url))] && count == old(count) + 1
    {
      buf := buf + [Row(e, hash(e.url))];
      count := count + 1;
    }

    method Flush(works: bool) returns (ok: bool)
      modifies this, store
      ensures ok == (old(buf) == [] || works) && count == old(count)
      ensures buf == (if ok then [] else old(buf))
      ensures store.batches == if old(buf) != [] && works then old(store.batches) + [old(buf)] else old(store.batches)
    {
      if |buf| == 0 {
        return true;
      }
      ok := store.UpsertChannelBatch(buf, works);
      if ok {
        buf := [];
      }
    }
  }

  /** Batches of at most `limit` rows, all but the last of them full. */
  ghost predicate Batched(batches: seq<seq<Row>>, limit: nat)
  {
    && (forall i :: 0 <= i < |batches| ==> 0 < |batches[i]| <= limit)
    && forall i :: 0 <= i < |batches| - 1 ==> |batches[i]| == limit
  }

  /** One entry that is not a repeat: added, and flushed when the buffer is full. */
  method Consume(b: Batcher, e: ExtInf.Entry, hash: Hash, works: bool, ghost rows: seq<Row>) returns (ok: bool)
    requires b.Holds(rows)
    modifies b, b.store
    ensures ok ==> b.Holds(rows + [Row(e, hash(e.url))])
    ensures works ==> ok
    ensures !ok ==> b.store.batches == old(b.store.batches)
  {
    b.Add(e, hash);
    ok := true;
    if |b.buf| >= b.limit {
      FlatSnoc(b.store.batches, b.buf);
      ok := b.Flush(works);
    }
  }

  /** The batches hold a beginning of the rows, properly cut. */
  ghost predicate Begun(b: Batcher, rows: seq<Row>)
    reads b.store
  {
    Flat(b.store.batches) <= rows && Batched(b.store.batches, b.limit)
  }

  lemma HoldsBegun(b: Batcher, rows: seq<Row>, more: seq<Row>)
    requires b.Holds(rows) && rows <= more
    ensures Begun(b, more)
  {
    assert Flat(b.store.batches) == rows[..|Flat(b.store.batches)|];
  }

  /** The last flush. */
  method Finish(b: Batcher, works: bool, ghost rows: seq<Row>) returns (ok: bool)
    requires b.Holds(rows)
    modifies b, b.store
    ensures Begun(b, rows) && (ok ==> Flat(b.store.batches) == rows) && b.count == |rows| && (works ==> ok)
  {
    HoldsBegun(b, rows, rows);
    FlatSnoc(b.store.batches, b.buf);
    ok := b.Flush(works);
  }

  /** What is to be written of the first i entries. */
  function Kept(es: seq<ExtInf.Entry>, hash: Hash, i: nat): seq<Row>
    requires i <= |es|
  {
    Rows(Firsts(es[..i], hash), hash)
  }

  /** The consumer loop. `live(i)` says whether the context is still live when entry i is received, `works(i)` whether
      the store accepts a write then. Without an error the store holds the first entry of every hash, in order, in
      batches; after an error it holds a beginning of them. */
  method RunRefresh(entries: seq<ExtInf.Entry>, hash: Hash, limit: int, live: int -> bool, works: int -> bool)
    returns (ok: bool, store: Store, count: nat)
    ensures ok ==> Flat(store.batches) == Rows(Firsts(entries, hash), hash) && count == |Hashes(entries, hash)|
    ensures Flat(store.batches) <= Rows(Firsts(entries, hash), hash)
    ensures Batched(store.batches, if limit <= 0 then 250 else limit)
    ensures (forall i :: live(i) && works(i)) ==> ok
    ensures ok ==> forall i :: 0 <= i < |entries| ==> live(i)
  {
    store := new Store();
    var b := new Batcher(store, limit);
    ok := ConsumeAll(b, entries, hash, live, works);
    count := b.count;
    FirstsExactly(entries, hash);
  }

  method ConsumeAll(b: Batcher, entries: seq<ExtInf.Entry>, hash: Hash, live: int -> bool, works: int -> bool) returns (ok: bool)
    requires b.Holds([])
    modifies b, b.store
    ensures Begun(b, Rows(Firsts(entries, hash), hash))
    ensures ok ==> Flat(b.store.batches) == Rows(Firsts(entries, hash), hash) && b.count == |Firsts(entries, hash)|
    ensures (forall i :: live(i) && works(i)) ==> ok
    ensures ok ==> forall i :: 0 <= i < |entries| ==> live(i)
  {
    var seen: set<int> := {};
    for i := 0 to |entries|
      invariant seen == Hashes(entries[..i], hash) && b.Holds(Kept(entries, hash, i))
      invariant forall k :: 0 <= k < i ==> live(k)
    {
      var fine;
      fine, seen := Receive(b, entries, hash, i, seen, live(i), works(i));
      if !fine {
        return false;
      }
    }
    assert entries[..|entries|] == entries;
    ok := Finish(b, works(|entries|), Kept(entries, hash, |entries|));
  }

  /** One turn of the loop. */
  method Receive(b: Batcher, entries: seq<ExtInf.Entry>, hash: Hash, i: nat, seen: set<int>, live: bool, works: bool)
    returns (ok: bool, now: set<int>)
    requires i < |entries| && seen == Hashes(entries[..i], hash) && b.Holds(Kept(entries, hash, i))
    modifies b, b.store
    ensures ok ==> live && now == Hashes(entries[..i + 1], hash) && b.Holds(Kept(entries, hash, i + 1))
    ensures !ok ==> Begun(b, Rows(Firsts(entries, hash), hash))
    ensures live && works ==> ok
  {
    FirstsGrow(entries, hash, i);
    HoldsBegun(b, Kept(entries, hash, i), Rows(Firsts(entries, hash), hash));
    ok, now := live, seen;
    if !live {
      return;
    }
    NextEntry(entries, hash, i);
    var h := hash(entries[i].url);
    if h !in seen {
      now := seen + {h};
      ok := Consume(b, entries[i], hash, works, Kept(entries, hash, i));
    }
  }

  lemma NextEntry(es: seq<ExtInf.Entry>, hash: Hash, i: nat)
    requires i < |es|
    ensures Hashes(es[..i + 1], hash) == Hashes(es[..i], hash) + {hash(es[i].url)}
    ensures Kept(es, hash, i + 1) ==
            Kept(es, hash, i) + (if hash(es[i].url) in Hashes(es[..i], hash) then [] else [Row(es[i], hash(es[i].url))])
  {
    assert es[..i + 1] == es[..i] + [es[i]] && es[..i + 1][..i] == es[..i];
    HashesSnoc(es[..i], es[i], hash);
  }

  lemma {:induction false} FirstsGrow(es: seq<ExtInf.Entry>, hash: Hash, i: nat)
    requires i <= |es|
    ensures Kept(es, hash, i) <= Rows(Firsts(es, hash), hash)
    decreases |es| - i
  {
    if i == |es| {
      assert es[..i] == es;
    } else {
      NextEntry(es, hash, i);
      FirstsGrow(es, hash, i + 1);
    }
  }
}
