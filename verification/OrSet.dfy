/**
 The observed-remove set of the sync service: its values, a network of replicas that add,
 remove and merge in any order, and the in-place implementation with its nested tag maps.
 */
module OrSet {

  type Elem = string
  type Tag = string

  /** What a replica holds: the tags added to and the tags removed from each element. */
  datatype Value = Value(added: set<(Elem, Tag)>, removed: set<(Elem, Tag)>) {
    ghost predicate Contains(e: Elem) { exists t :: (e, t) in added && (e, t) !in removed }
  }

  const Empty := Value({}, {})

  function Add(v: Value, e: Elem, t: Tag): Value { v.(added := v.added + {(e, t)}) }

  function Remove(v: Value, e: Elem, tags: set<Tag>): Value { v.(removed := v.removed + set t | t in tags :: (e, t)) }

  function Merge(v: Value, w: Value): Value { Value(v.added + w.added, v.removed + w.removed) }

  /** Order, grouping and repetition of merges do not matter. */
  lemma MergeLaws(x: Value, y: Value, z: Value)
    ensures Merge(x, y) == Merge(y, x) && Merge(Merge(x, y), z) == Merge(x, Merge(y, z)) && Merge(x, x) == x
  {
    assert x.added + y.added == y.added + x.added && x.removed + y.removed == y.removed + x.removed;
    assert x.added + y.added + z.added == x.added + (y.added + z.added);
    assert x.removed + y.removed + z.removed == x.removed + (y.removed + z.removed);
    assert x.added + x.added == x.added && x.removed + x.removed == x.removed;
  }

  // ---------------------------------------------------------------- the network

  /** An issued operation. `seen` is history: the operations its replica held when it issued the removal. */
  datatype Op =
    | AddOp(elem: Elem, tag: Tag)
    | RemoveOp(elem: Elem, tags: set<Tag>, seen: set<nat>)

  /** `seen` is history: the operations issued here or received by merging, as positions in the log. */
  datatype Replica = Replica(value: Value, seen: set<nat>)

  datatype Net = Net(replicas: seq<Replica>, log: seq<Op>)

  datatype Step =
    | AddAt(r: nat, elem: Elem, tag: Tag)
    | RemoveAt(r: nat, elem: Elem, tags: set<Tag>)
    | MergeAt(r: nat, other: nat)

  function Start(n: nat): Net { Net(seq(n, _ => Replica(Empty, {})), []) }

  /** An added tag is new; a removal names tags that its replica has. */
  ghost predicate Enabled(s: Net, a: Step)
  {
    && a.r < |s.replicas|
    && match a
       case AddAt(_, _, t) => forall i :: 0 <= i < |s.log| && s.log[i].AddOp? ==> s.log[i].tag != t
       case RemoveAt(r, e, tags) => forall t :: t in tags ==> (e, t) in s.replicas[r].value.added
       case MergeAt(_, q) => q < |s.replicas|
  }

  function Apply(s: Net, a: Step): Net
    requires a.r < |s.replicas| && (a.MergeAt? ==> a.other < |s.replicas|)
  {
    var x := s.replicas[a.r];
    match a
    case AddAt(r, e, t) =>
      Net(s.replicas[r := Replica(Add(x.value, e, t), x.seen + {|s.log|})], s.log + [AddOp(e, t)])
    case RemoveAt(r, e, tags) =>
      Net(s.replicas[r := Replica(Remove(x.value, e, tags), x.seen + {|s.log|})], s.log + [RemoveOp(e, tags, x.seen)])
    case MergeAt(r, q) =>
      var y := s.replicas[q];
      s.(replicas := s.replicas[r := Replica(Merge(x.value, y.value), x.seen + y.seen)])
  }

  ghost predicate Possible(s: Net, run: seq<Step>)
    decreases |run|
  {
    run == [] || (Enabled(s, run[0]) && Possible(Apply(s, run[0]), run[1..]))
  }

  ghost function Run(s: Net, run: seq<Step>): Net
    requires Possible(s, run)
    decreases |run|
  {
    if run == [] then s else Run(Apply(s, run[0]), run[1..])
  }

  // ---------------------------------------------------------------- invariant

  ghost predicate AddedIn(log: seq<Op>, seen: set<nat>, e: Elem, t: Tag)
  {
    exists i :: i in seen && i < |log| && log[i] == AddOp(e, t)
  }

  ghost predicate RemovedIn(log: seq<Op>, seen: set<nat>, e: Elem, t: Tag)
  {
    exists i :: i in seen && i < |log| && log[i].RemoveOp? && log[i].elem == e && t in log[i].tags
  }

  /** The replica's value is the effect of exactly the operations it has seen, and their causes are seen too. */
  ghost predicate Faithful(log: seq<Op>, x: Replica)
  {
    && (forall i :: i in x.seen ==> i < |log|)
    && (forall e, t :: (e, t) in x.value.added <==> AddedIn(log, x.seen, e, t))
    && (forall e, t :: (e, t) in x.value.removed <==> RemovedIn(log, x.seen, e, t))
    && (forall i :: i in x.seen && log[i].RemoveOp? ==> log[i].seen <= x.seen)
  }

  ghost predicate LogSound(log: seq<Op>)
  {
    && (forall i, j :: 0 <= i < j < |log| && log[i].AddOp? && log[j].AddOp? ==> log[i].tag != log[j].tag)
    && (forall k :: 0 <= k < |log| && log[k].RemoveOp? ==>
          && (forall i :: i in log[k].seen ==> i < k)
          && (forall t :: t in log[k].tags ==> AddedIn(log, log[k].seen, log[k].elem, t)))
  }

  ghost predicate Inv(s: Net)
  {
    LogSound(s.log) && forall r :: 0 <= r < |s.replicas| ==> Faithful(s.log, s.replicas[r])
  }

  lemma AddedGrows(log: seq<Op>, op: Op, seen: set<nat>, e: Elem, t: Tag)
    requires forall i :: i in seen ==> i < |log|
    ensures AddedIn(log + [op], seen, e, t) <==> AddedIn(log, seen, e, t)
    ensures RemovedIn(log + [op], seen, e, t) <==> RemovedIn(log, seen, e, t)
  {
    var more := log + [op];
    if i :| i in seen && i < |log| && log[i] == AddOp(e, t) {
      assert more[i] == AddOp(e, t);
    }
    if i :| i in seen && i < |log| && log[i].RemoveOp? && log[i].elem == e && t in log[i].tags {
      assert more[i] == log[i];
    }
  }

  lemma FaithfulGrows(log: seq<Op>, op: Op, x: Replica)
    requires Faithful(log, x)
    ensures Faithful(log + [op], x)
  {
    forall e, t
      ensures AddedIn(log + [op], x.seen, e, t) <==> AddedIn(log, x.seen, e, t)
      ensures RemovedIn(log + [op], x.seen, e, t) <==> RemovedIn(log, x.seen, e, t)
    {
      AddedGrows(log, op, x.seen, e, t);
    }
  }

  /** Seeing one more operation, the last of the log, adds its effect. */
  lemma SeesLast(log: seq<Op>, op: Op, seen: set<nat>, e: Elem, t: Tag)
    requires forall i :: i in seen ==> i < |log|
    ensures AddedIn(log + [op], seen + {|log|}, e, t) <==> AddedIn(log, seen, e, t) || op == AddOp(e, t)
    ensures RemovedIn(log + [op], seen + {|log|}, e, t) <==>
            RemovedIn(log, seen, e, t) || (op.RemoveOp? && op.elem == e && t in op.tags)
  {
    var more, all := log + [op], seen + {|log|};
    AddedGrows(log, op, seen, e, t);
    assert more[|log|] == op && |log| in all;
    if i :| i in seen && i < |more| && more[i] == AddOp(e, t) {
      assert i in all;
    }
    if i :| i in seen && i < |more| && more[i].RemoveOp? && more[i].elem == e && t in more[i].tags {
      assert i in all;
    }
  }

  lemma FaithfulIssue(log: seq<Op>, op: Op, x: Replica)
    requires Faithful(log, x) && (op.RemoveOp? ==> op.seen == x.seen)
    ensures var v := match op case AddOp(e, t) => Add(x.value, e, t) case RemoveOp(e, tags, _) => Remove(x.value, e, tags);
            Faithful(log + [op], Replica(v, x.seen + {|log|}))
  {
    forall e, t
      ensures AddedIn(log + [op], x.seen + {|log|}, e, t) <==> AddedIn(log, x.seen, e, t) || op == AddOp(e, t)
      ensures RemovedIn(log + [op], x.seen + {|log|}, e, t) <==>
              RemovedIn(log, x.seen, e, t) || (op.RemoveOp? && op.elem == e && t in op.tags)
    {
      SeesLast(log, op, x.seen, e, t);
    }
  }

  lemma FaithfulMerge(log: seq<Op>, x: Replica, y: Replica)
    requires Faithful(log, x) && Faithful(log, y)
    ensures Faithful(log, Replica(Merge(x.value, y.value), x.seen + y.seen))
  {
    forall e, t
      ensures AddedIn(log, x.seen + y.seen, e, t) <==> AddedIn(log, x.seen, e, t) || AddedIn(log, y.seen, e, t)
      ensures RemovedIn(log, x.seen + y.seen, e, t) <==> RemovedIn(log, x.seen, e, t) || RemovedIn(log, y.seen, e, t)
    {
    }
  }

  lemma LogGrows(log: seq<Op>, op: Op)
    requires LogSound(log)
    requires op.AddOp? ==> forall i :: 0 <= i < |log| && log[i].AddOp? ==> log[i].tag != op.tag
    requires op.RemoveOp? ==> (forall i :: i in op.seen ==> i < |log|) && forall t :: t in op.tags ==> AddedIn(log, op.seen, op.elem, t)
    ensures LogSound(log + [op])
  {
    var more := log + [op];
    forall k | 0 <= k < |more| && more[k].RemoveOp?
      ensures forall i :: i in more[k].seen ==> i < k
      ensures forall t :: t in more[k].tags ==> AddedIn(more, more[k].seen, more[k].elem, t)
    {
      forall t | t in more[k].tags
        ensures AddedIn(more, more[k].seen, more[k].elem, t)
      {
        AddedGrows(log, op, more[k].seen, more[k].elem, t);
      }
    }
  }

  lemma InvStep(s: Net, a: Step)
    requires Inv(s) && Enabled(s, a)
    ensures Inv(Apply(s, a))
  {
    var x := s.replicas[a.r];
    match a
    case AddAt(_, e, t) => IssueStep(s, a, AddOp(e, t));
    case RemoveAt(_, e, tags) => IssueStep(s, a, RemoveOp(e, tags, x.seen));
    case MergeAt(_, q) => FaithfulMerge(s.log, x, s.replicas[q]);
  }

  lemma IssueStep(s: Net, a: Step, op: Op)
    requires Inv(s) && Enabled(s, a)
    requires op == match a
                   case AddAt(_, e, t) => AddOp(e, t)
                   case RemoveAt(_, e, tags) => RemoveOp(e, tags, s.replicas[a.r].seen)
                   case MergeAt(_, _) => op
    requires !a.MergeAt?
    ensures Inv(Apply(s, a))
  {
    LogGrows(s.log, op);
    FaithfulIssue(s.log, op, s.replicas[a.r]);
    forall r | 0 <= r < |s.replicas| && r != a.r
      ensures Faithful(s.log + [op], s.replicas[r])
    {
      FaithfulGrows(s.log, op, s.replicas[r]);
    }
  }

  lemma {:induction false} InvRun(s: Net, run: seq<Step>)
    requires Inv(s) && Possible(s, run)
    ensures Inv(Run(s, run))
    decreases |run|
  {
    if run != [] {
      InvStep(s, run[0]);
      InvRun(Apply(s, run[0]), run[1..]);
    }
  }

  lemma Reached(n: nat, run: seq<Step>)
    requires Possible(Start(n), run)
    ensures Inv(Run(Start(n), run))
  {
    InvRun(Start(n), run);
  }

  // ---------------------------------------------------------------- results

  /** Replicas that have seen the same operations agree, whatever the order, grouping or repetition of merges. */
  lemma Convergence(n: nat, run: seq<Step>, r: nat, q: nat, e: Elem)
    requires Possible(Start(n), run)
    requires var s := Run(Start(n), run); r < |s.replicas| && q < |s.replicas| && s.replicas[r].seen == s.replicas[q].seen
    ensures var s := Run(Start(n), run);
            s.replicas[r].value == s.replicas[q].value && (s.replicas[r].value.Contains(e) <==> s.replicas[q].value.Contains(e))
  {
    Reached(n, run);
    var s := Run(Start(n), run);
    var v, w := s.replicas[r].value, s.replicas[q].value;
    assert forall p: (Elem, Tag) :: p in v.added <==> (p.0, p.1) in v.added;
    assert forall p: (Elem, Tag) :: p in v.added <==> AddedIn(s.log, s.replicas[r].seen, p.0, p.1);
    assert forall p: (Elem, Tag) :: p in v.removed <==> RemovedIn(s.log, s.replicas[r].seen, p.0, p.1);
    assert v.added == w.added && v.removed == w.removed;
  }

  /** An element is present exactly when some seen Add's tag is in no seen Remove. */
  lemma PresentExactly(n: nat, run: seq<Step>, r: nat, e: Elem)
    requires Possible(Start(n), run) && r < |Run(Start(n), run).replicas|
    ensures var s := Run(Start(n), run);
            var x := s.replicas[r];
            x.value.Contains(e) <==> exists t :: AddedIn(s.log, x.seen, e, t) && !RemovedIn(s.log, x.seen, e, t)
  {
    Reached(n, run);
  }

  /** Every removal named all the tags its replica had for the element. */
  ghost predicate RemovesObserveAll(log: seq<Op>)
  {
    forall k, t :: 0 <= k < |log| && log[k].RemoveOp? && AddedIn(log, log[k].seen, log[k].elem, t) ==> t in log[k].tags
  }

  /** Operation i adds e, and no removal of e among `seen` had seen it. */
  ghost predicate Survives(log: seq<Op>, seen: set<nat>, e: Elem, i: nat)
  {
    && i in seen && i < |log| && log[i].AddOp? && log[i].elem == e
    && forall k :: k in seen && k < |log| && log[k].RemoveOp? && log[k].elem == e ==> i !in log[k].seen
  }

  /** Add wins: an Add that no seen removal of the element had seen keeps the element present. */
  lemma AddWins(n: nat, run: seq<Step>, r: nat, e: Elem, i: nat)
    requires Possible(Start(n), run) && r < |Run(Start(n), run).replicas|
    requires var s := Run(Start(n), run); Survives(s.log, s.replicas[r].seen, e, i)
    ensures Run(Start(n), run).replicas[r].value.Contains(e)
  {
    Reached(n, run);
    var s := Run(Start(n), run);
    var x := s.replicas[r];
    var t := s.log[i].tag;
    assert (e, t) in x.value.added;
    assert forall j :: 0 <= j < |s.log| && s.log[j] == AddOp(e, t) ==> j == i;
    assert forall k :: k in x.seen && s.log[k].RemoveOp? && s.log[k].elem == e ==> !AddedIn(s.log, s.log[k].seen, e, t);
  }

  /** The specification of an observed-remove set: present if and only if some Add survives. */
  lemma ObservedRemove(n: nat, run: seq<Step>, r: nat, e: Elem)
    requires Possible(Start(n), run) && r < |Run(Start(n), run).replicas|
    requires RemovesObserveAll(Run(Start(n), run).log)
    ensures var s := Run(Start(n), run);
            s.replicas[r].value.Contains(e) <==> exists i :: Survives(s.log, s.replicas[r].seen, e, i)
  {
    Reached(n, run);
    var s := Run(Start(n), run);
    var x := s.replicas[r];
    if i :| Survives(s.log, x.seen, e, i) {
      AddWins(n, run, r, e, i);
    }
    if t :| (e, t) in x.value.added && (e, t) !in x.value.removed {
      assert AddedIn(s.log, x.seen, e, t);
      var i :| i in x.seen && i < |s.log| && s.log[i] == AddOp(e, t);
      forall k | k in x.seen && k < |s.log| && s.log[k].RemoveOp? && s.log[k].elem == e
        ensures i !in s.log[k].seen
      {
        if i in s.log[k].seen {
          assert AddedIn(s.log, s.log[k].seen, e, t);
          assert RemovedIn(s.log, x.seen, e, t);
          assert false;
        }
      }
      assert Survives(s.log, x.seen, e, i);
    }
  }

  // ---------------------------------------------------------------- in place

  /** One inner map of the implementation: a mutable set of tags. The ghost fields say which element of which
      side of which set it was made for; a cell used only there is shared with nobody. */
  class TagSet {
    ghost const owner: object
    ghost const live: bool
    ghost const elem: Elem
    var tags: set<Tag>

    constructor (ghost owner: object, ghost live: bool, ghost elem: Elem)
      ensures this.owner == owner && this.live == live && this.elem == elem && tags == {}
    {
      this.owner, this.live, this.elem := owner, live, elem;
      tags := {};
    }
  }

  /** The map m of nested tag maps stands for `pairs`, with cells that belong to side `live` of set o alone. */
  ghost predicate Holds(m: map<Elem, TagSet>, o: object, live: bool, pairs: set<(Elem, Tag)>)
    reads m.Values
  {
    && (forall e :: e in m ==> m[e].owner == o && m[e].live == live && m[e].elem == e)
    && (forall e, t :: e in m ==> (t in m[e].tags <==> (e, t) in pairs))
    && (forall e, t :: (e, t) in pairs ==> e in m)
  }

  /** Put tags into the cell of e, which is made on first use; all other cells stay as they are. */
  method Insert(m: map<Elem, TagSet>, e: Elem, ts: set<Tag>, ghost o: object, ghost live: bool, ghost pairs: set<(Elem, Tag)>)
    returns (n: map<Elem, TagSet>)
    requires Holds(m, o, live, pairs)
    modifies if e in m then {m[e]} else {}
    ensures Holds(n, o, live, pairs + set t | t in ts :: (e, t))
    ensures n.Keys == m.Keys + {e}
    ensures forall f :: f in n ==> if f in m then n[f] == m[f] else fresh(n[f])
  {
    n := m;
    if e !in m {
      var cell := new TagSet(o, live, e);
      n := m[e := cell];
    }
    ghost var before := n[e].tags;
    var todo := ts;
    while todo != {}
      invariant todo <= ts && n[e].tags == before + (ts - todo)
    {
      var t :| t in todo;
      n[e].tags := n[e].tags + {t};
      todo := todo - {t};
    }
  }

  /** The loops of Merge over one of the two maps: every tag of `src` goes into `m`'s own cells. */
  method Fold(m: map<Elem, TagSet>, ghost o: object, ghost pairs: set<(Elem, Tag)>,
              src: map<Elem, TagSet>, ghost p: object, ghost more: set<(Elem, Tag)>, ghost live: bool)
    returns (n: map<Elem, TagSet>)
    requires Holds(m, o, live, pairs) && Holds(src, p, live, more) && (o == p ==> m == src)
    modifies m.Values
    ensures Holds(n, o, live, pairs + more)
    ensures Holds(src, p, live, more)
    ensures forall f :: f in n ==> if f in m then n[f] == m[f] else fresh(n[f])
  {
    n := m;
    var todo := src.Keys;
    ghost var done := {};
    while todo != {}
      invariant todo <= src.Keys
      invariant done == set x | x in more && x.0 !in todo
      invariant Holds(n, o, live, pairs + done)
      invariant Holds(src, p, live, more)
      invariant forall f :: f in n ==> if f in m then n[f] == m[f] else fresh(n[f])
      invariant m.Keys <= n.Keys
    {
      var e :| e in todo;
      ghost var ts := src[e].tags;
      n := Insert(n, e, src[e].tags, o, live, pairs + done);
      todo := todo - {e};
      ghost var now := set x | x in more && x.0 !in todo;
      assert now == done + set t | t in ts :: (e, t);
      assert pairs + done + (set t | t in ts :: (e, t)) == pairs + now;
      done := now;
    }
  }

  class ORSet {
    var added: map<Elem, TagSet>
    var removed: map<Elem, TagSet>
    ghost var value: Value

    /** Every cell belongs to one element of this set alone: tag maps are not shared, neither here nor with another set. */
    ghost predicate Valid()
      reads this, added.Values, removed.Values
    {
      Holds(added, this, true, value.added) && Holds(removed, this, false, value.removed)
    }

    constructor ()
      ensures Valid() && value == Empty && added == removed == map[]
    {
      added, removed, value := map[], map[], Empty;
    }

    method AddTag(e: Elem, t: Tag)
      requires Valid()
      modifies this, added.Values
      ensures Valid() && value == Add(old(value), e, t)
      ensures removed == old(removed)
      ensures forall f :: f in added ==> if f in old(added) then added[f] == old(added[f]) else fresh(added[f])
    {
      added := Insert(added, e, {t}, this, true, value.added);
      value := Add(value, e, t);
    }

    method RemoveTags(e: Elem, observed: set<Tag>)
      requires Valid()
      modifies this, removed.Values
      ensures Valid() && value == Remove(old(value), e, observed)
      ensures added == old(added)
      ensures forall f :: f in removed ==> if f in old(removed) then removed[f] == old(removed[f]) else fresh(removed[f])
    {
      removed := Insert(removed, e, observed, this, false, value.removed);
      value := Remove(value, e, observed);
    }

    method Contains(e: Elem) returns (found: bool)
      requires Valid()
      ensures found <==> value.Contains(e)
    {
      if e !in added {
        return false;
      }
      var todo := added[e].tags;
      while todo != {}
        invariant todo <= added[e].tags
        invariant forall t :: t in added[e].tags && t !in todo ==> (e, t) in value.removed
      {
        var t :| t in todo;
        if e !in removed || t !in removed[e].tags {
          assert (e, t) in value.added && (e, t) !in value.removed;
          return true;
        }
        todo := todo - {t};
      }
      return false;
    }

    /** Fold `other` in. It is left as it was, and still shares no cell with this set. */
    method MergeFrom(other: ORSet)
      requires Valid() && other.Valid()
      modifies this, added.Values, removed.Values
      ensures Valid() && value == Merge(old(value), old(other.value))
      ensures other.Valid() && other.value == old(other.value)
      ensures other != this ==> unchanged(other)
    {
      ghost var v, w := value, other.value;
      added := Fold(added, this, v.added, other.added, other, w.added, true);
      removed := Fold(removed, this, v.removed, other.removed, other, w.removed, false);
      value := Merge(v, w);
    }
  }
}
