/**
 * Def-exposition coverage (CoverageDefExp.java): for each call stack, the
 * set of contextual definition ids exposed under it.  Its quality is the
 * total number of ids; merging is a per-stack union; `contains` asks for
 * a per-stack superset.  Stacks are an abstract value type `S`.
 */
module DefExposition {
  import opened Wrappers
  import opened Streams
  import opened MapSums

  /** A definition id together with the stack it was reached through. */
  datatype ContextualId<S> = ContextualId(id: int, context: S)

  type DefExpo<S> = map<S, set<ContextualId<S>>>

  function SetSize<T>(s: set<T>): int { |s| }

  /** The number of exposed ids, counting each stack's set separately. */
  ghost function Quality<S>(m: DefExpo<S>): int {
    SumOver(m, SetSize, m.Keys)
  }

  /** Every stack of `o` is in `m` with a superset of `o`'s ids. */
  ghost predicate Covers<S>(m: DefExpo<S>, o: DefExpo<S>) {
    forall k :: k in o ==> k in m && o[k] <= m[k]
  }

  /** What `contains` answers for a receiver and an argument of its own kind. */
  ghost predicate Subsumes<S>(quality: int, m: DefExpo<S>, oQuality: int, o: DefExpo<S>) {
    quality >= oQuality && Covers(m, o)
  }

  function Lookup<S>(m: DefExpo<S>, k: S): set<ContextualId<S>> {
    if k in m then m[k] else {}
  }

  /** The map `merge` leaves behind: per-stack union, new stacks added. */
  function MergeMaps<S>(m: DefExpo<S>, o: DefExpo<S>): DefExpo<S> {
    map k | k in m.Keys + o.Keys :: Lookup(m, k) + Lookup(o, k)
  }

  lemma SubsetSize<T>(a: set<T>, b: set<T>)
    requires a <= b
    ensures |a| <= |b|
  {
    assert b == a + (b - a);
  }

  lemma QualityNonNegative<S>(m: DefExpo<S>)
    ensures Quality(m) >= 0
  {
    var f: set<ContextualId<S>> -> int := SetSize;
    forall k | k in m.Keys
      ensures f(m[k]) >= 0
    {
      assert f(m[k]) == SetSize(m[k]);
    }
    SumOverSubset(m, f, {}, m.Keys);
  }

  /** Covering never has less quality: quality is monotone in the covering order. */
  lemma QualityMonotone<S>(m: DefExpo<S>, o: DefExpo<S>)
    requires Covers(m, o)
    ensures Quality(o) <= Quality(m)
  {
    var f: set<ContextualId<S>> -> int := SetSize;
    forall k | k in o.Keys
      ensures f(o[k]) <= f(m[k])
    {
      SubsetSize(o[k], m[k]);
      assert f(o[k]) == SetSize(o[k]) && f(m[k]) == SetSize(m[k]);
    }
    SumOverPointwise(o, m, f, o.Keys);
    forall k | k in m.Keys
      ensures f(m[k]) >= 0
    {
      assert f(m[k]) == SetSize(m[k]);
    }
    SumOverSubset(m, f, o.Keys, m.Keys);
  }

  /** `Covers` is reflexive and transitive. */
  lemma CoversPreorder<S>(a: DefExpo<S>, b: DefExpo<S>, c: DefExpo<S>)
    ensures Covers(a, a)
    ensures Covers(a, b) && Covers(b, c) ==> Covers(a, c)
  {
  }

  /** The merged map covers both operands: `a.merge(b)` makes `a.contains(b)` true. */
  lemma MergeCovers<S>(m: DefExpo<S>, o: DefExpo<S>)
    ensures Covers(MergeMaps(m, o), m) && Covers(MergeMaps(m, o), o)
    ensures Subsumes(Quality(MergeMaps(m, o)), MergeMaps(m, o), Quality(o), o)
    ensures Quality(m) <= Quality(MergeMaps(m, o))
  {
    QualityMonotone(MergeMaps(m, o), m);
    QualityMonotone(MergeMaps(m, o), o);
  }

  /** The merged map is the least one covering both operands. */
  lemma MergeIsLeast<S>(m: DefExpo<S>, o: DefExpo<S>, u: DefExpo<S>)
    requires Covers(u, m) && Covers(u, o)
    ensures Covers(u, MergeMaps(m, o))
  {
  }

  /** Merging what is already covered changes nothing; in particular merge is idempotent. */
  lemma MergeCovered<S>(m: DefExpo<S>, o: DefExpo<S>)
    requires Covers(m, o)
    ensures MergeMaps(m, o) == m
  {
    assert MergeMaps(m, o).Keys == m.Keys;
    forall k | k in m.Keys
      ensures MergeMaps(m, o)[k] == m[k]
    {
      assert Lookup(o, k) <= m[k];
    }
  }

  lemma MergeIdempotent<S>(m: DefExpo<S>, o: DefExpo<S>)
    ensures MergeMaps(MergeMaps(m, o), o) == MergeMaps(m, o)
  {
    MergeCovers(m, o);
    MergeCovered(MergeMaps(m, o), o);
  }

  lemma MergeCommutative<S>(m: DefExpo<S>, o: DefExpo<S>)
    ensures MergeMaps(m, o) == MergeMaps(o, m)
  {
    assert MergeMaps(m, o).Keys == MergeMaps(o, m).Keys;
    forall k | k in MergeMaps(m, o).Keys
      ensures MergeMaps(m, o)[k] == MergeMaps(o, m)[k]
    {
    }
  }

  /** Merging the empty coverage changes nothing. */
  lemma MergeEmpty<S>(m: DefExpo<S>)
    ensures MergeMaps(m, map[]) == m
  {
    MergeCovered(m, map[]);
  }

  /** A receiver whose quality is up to date contains itself. */
  lemma ContainsReflexive<S>(m: DefExpo<S>)
    ensures Subsumes(Quality(m), m, Quality(m), m)
  {
  }

  // ---------------------------------------------------------------------------
  // writeExternal / readExternal, over a token stream (a stack is one token)
  // ---------------------------------------------------------------------------

  type DefExpToken<S> = Token<S>

  /** One entry as the map's iteration yields it: a stack and its ids in iteration order. */
  type EntryOrder<S> = seq<(S, seq<ContextualId<S>>)>

  function SetOf<T>(xs: seq<T>): set<T> {
    set x | x in xs
  }

  function KeysOf<S>(order: EntryOrder<S>): set<S> {
    set e | e in order :: e.0
  }

  /** `order` lists every stack of `m` once, each with every one of its ids once. */
  ghost predicate Enumerates<S>(order: EntryOrder<S>, m: DefExpo<S>) {
    |order| == |m| && KeysOf(order) == m.Keys &&
    (forall i, j :: 0 <= i < j < |order| ==> order[i].0 != order[j].0) &&
    (forall i :: 0 <= i < |order| ==>
       order[i].0 in m && SetOf(order[i].1) == m[order[i].0] && |order[i].1| == |m[order[i].0]|)
  }

  function EncodeIds<S>(ids: seq<ContextualId<S>>): seq<DefExpToken<S>> {
    if |ids| == 0 then [] else [Int(ids[0].id), Obj(ids[0].context)] + EncodeIds(ids[1..])
  }

  function EncodeEntries<S>(order: EntryOrder<S>): seq<DefExpToken<S>> {
    if |order| == 0 then []
    else [Obj(order[0].0), Int(|order[0].1|)] + EncodeIds(order[0].1) + EncodeEntries(order[1..])
  }

  /** What `writeExternal` writes: quality, number of stacks, then each stack with its ids. */
  function EncodeDefExp<S>(quality: int, m: DefExpo<S>, order: EntryOrder<S>): seq<DefExpToken<S>> {
    [Int(quality), Int(|m|)] + EncodeEntries(order)
  }

  lemma {:induction false} EncodeIdsAppend<S>(ids: seq<ContextualId<S>>, c: ContextualId<S>)
    ensures EncodeIds(ids + [c]) == EncodeIds(ids) + [Int(c.id), Obj(c.context)]
  {
    if |ids| > 0 {
      assert (ids + [c])[1..] == ids[1..] + [c];
      EncodeIdsAppend(ids[1..], c);
    } else {
      assert ids + [c] == [c];
    }
  }

  lemma {:induction false} EncodeEntriesAppend<S>(order: EntryOrder<S>, e: (S, seq<ContextualId<S>>))
    ensures EncodeEntries(order + [e]) == EncodeEntries(order) + ([Obj(e.0), Int(|e.1|)] + EncodeIds(e.1))
  {
    if |order| > 0 {
      assert (order + [e])[1..] == order[1..] + [e];
      EncodeEntriesAppend(order[1..], e);
    } else {
      assert order + [e] == [e];
    }
  }

  lemma EncodeDefExpAppend<S>(quality: int, m: DefExpo<S>, order: EntryOrder<S>, e: (S, seq<ContextualId<S>>))
    ensures EncodeDefExp(quality, m, order + [e]) == EncodeDefExp(quality, m, order) + ([Obj(e.0), Int(|e.1|)] + EncodeIds(e.1))
  {
    EncodeEntriesAppend(order, e);
  }

  /** Reads `n` (id, context) pairs into `acc`. */
  function DecodeIds<S(==)>(ts: seq<DefExpToken<S>>, n: nat, acc: set<ContextualId<S>>):
    Result<(set<ContextualId<S>>, seq<DefExpToken<S>>), StreamError>
  {
    if n == 0 then Ok((acc, ts))
    else if |ts| >= 2 && ts[0].Int? && ts[1].Obj? then
      DecodeIds(ts[2..], n - 1, acc + {ContextualId(ts[0].v, ts[1].x)})
    else Err(EndOfStream)
  }

  /**
   * Reads `n` entries, putting each into `acc`; a negative id count is
   * the capacity the set constructor refuses.
   */
  function DecodeEntries<S(==)>(ts: seq<DefExpToken<S>>, n: nat, acc: DefExpo<S>):
    Result<(DefExpo<S>, seq<DefExpToken<S>>), StreamError>
    decreases n
  {
    if n == 0 then Ok((acc, ts))
    else if |ts| >= 2 && ts[0].Obj? && ts[1].Int? then
      if ts[1].v < 0 then Err(IllegalCapacity)
      else match DecodeIds(ts[2..], ts[1].v, {})
        case Err(e) => Err(e)
        case Ok((value, rest)) => DecodeEntries(rest, n - 1, acc[ts[0].x := value])
    else Err(EndOfStream)
  }

  /**
   * What `readExternal` makes of a stream when it reads into the map `acc`:
   * the quality as read, the map with the read entries put in, and the
   * tokens after them.  A negative entry count reads no entries.
   */
  function DecodeDefExp<S(==)>(ts: seq<DefExpToken<S>>, acc: DefExpo<S>):
    Result<(int, DefExpo<S>, seq<DefExpToken<S>>), StreamError>
  {
    if |ts| >= 2 && ts[0].Int? && ts[1].Int? then
      match DecodeEntries(ts[2..], if ts[1].v < 0 then 0 else ts[1].v, acc)
      case Err(e) => Err(e)
      case Ok((m, rest)) => Ok((ts[0].v, m, rest))
    else Err(EndOfStream)
  }

  /** `acc` with the entries of `order` put in, in order. */
  function Puts<S>(acc: DefExpo<S>, order: EntryOrder<S>): DefExpo<S>
    decreases |order|
  {
    if |order| == 0 then acc else Puts(acc[order[0].0 := SetOf(order[0].1)], order[1..])
  }

  lemma {:induction false} DecodeEncodeIds<S>(ids: seq<ContextualId<S>>, rest: seq<DefExpToken<S>>, acc: set<ContextualId<S>>)
    ensures DecodeIds(EncodeIds(ids) + rest, |ids|, acc) == Ok((acc + SetOf(ids), rest))
  {
    if |ids| == 0 {
      assert EncodeIds(ids) + rest == rest;
      assert acc + SetOf(ids) == acc;
    } else {
      var ts := EncodeIds(ids) + rest;
      assert ts == [Int(ids[0].id), Obj(ids[0].context)] + (EncodeIds(ids[1..]) + rest);
      assert ts[2..] == EncodeIds(ids[1..]) + rest;
      DecodeEncodeIds(ids[1..], rest, acc + {ids[0]});
      assert acc + {ids[0]} + SetOf(ids[1..]) == acc + SetOf(ids) by {
        assert ids == [ids[0]] + ids[1..];
      }
    }
  }

  lemma EncodeEntriesCons<S>(order: EntryOrder<S>, rest: seq<DefExpToken<S>>)
    requires |order| > 0
    ensures EncodeEntries(order) + rest ==
            [Obj(order[0].0), Int(|order[0].1|)] + (EncodeIds(order[0].1) + (EncodeEntries(order[1..]) + rest))
  {
  }

  /** Reading one entry written by `writeExternal` puts its stack and ids. */
  lemma DecodeEntriesCons<S>(e: (S, seq<ContextualId<S>>), tail: seq<DefExpToken<S>>, n: nat, acc: DefExpo<S>)
    ensures DecodeEntries([Obj(e.0), Int(|e.1|)] + (EncodeIds(e.1) + tail), n + 1, acc) ==
            DecodeEntries(tail, n, acc[e.0 := SetOf(e.1)])
  {
    var ts := [Obj(e.0), Int(|e.1|)] + (EncodeIds(e.1) + tail);
    assert ts[2..] == EncodeIds(e.1) + tail;
    DecodeEncodeIds(e.1, tail, {});
    assert {} + SetOf(e.1) == SetOf(e.1);
  }

  lemma {:induction false} DecodeEncodeEntries<S>(order: EntryOrder<S>, rest: seq<DefExpToken<S>>, acc: DefExpo<S>)
    ensures DecodeEntries(EncodeEntries(order) + rest, |order|, acc) == Ok((Puts(acc, order), rest))
    decreases |order|
  {
    if |order| == 0 {
      assert EncodeEntries(order) + rest == rest;
    } else {
      EncodeEntriesCons(order, rest);
      DecodeEntriesCons(order[0], EncodeEntries(order[1..]) + rest, |order| - 1, acc);
      DecodeEncodeEntries(order[1..], rest, acc[order[0].0 := SetOf(order[0].1)]);
    }
  }

  /** Putting entries with distinct stacks: each stack ends up with its own ids, the rest keep theirs. */
  lemma {:induction false} PutsLookup<S>(acc: DefExpo<S>, order: EntryOrder<S>)
    requires forall i, j :: 0 <= i < j < |order| ==> order[i].0 != order[j].0
    ensures Puts(acc, order).Keys == acc.Keys + KeysOf(order)
    ensures forall i :: 0 <= i < |order| ==> Puts(acc, order)[order[i].0] == SetOf(order[i].1)
    ensures forall k :: k in acc && k !in KeysOf(order) ==> Puts(acc, order)[k] == acc[k]
    decreases |order|
  {
    if |order| > 0 {
      var acc' := acc[order[0].0 := SetOf(order[0].1)];
      PutsLookup(acc', order[1..]);
      assert KeysOf(order) == {order[0].0} + KeysOf(order[1..]) by {
        assert order == [order[0]] + order[1..];
      }
      forall i | 0 <= i < |order|
        ensures Puts(acc, order)[order[i].0] == SetOf(order[i].1)
      {
        if i > 0 {
          assert order[1..][i - 1] == order[i];
        }
      }
    }
  }

  /** Putting an enumeration of `m` into an empty map gives `m` back. */
  lemma PutsEnumeration<S>(order: EntryOrder<S>, m: DefExpo<S>)
    requires Enumerates(order, m)
    ensures Puts(map[], order) == m
  {
    PutsLookup(map[], order);
    var p := Puts(map[], order);
    forall k | k in m
      ensures p[k] == m[k]
    {
      var e :| e in order && e.0 == k;
      var i :| 0 <= i < |order| && order[i] == e;
    }
  }

  /** Reading back what `writeExternal` wrote, into an empty map, gives the quality and the map. */
  lemma ReadWriteRoundTrip<S>(quality: int, m: DefExpo<S>, order: EntryOrder<S>, rest: seq<DefExpToken<S>>)
    requires Enumerates(order, m)
    ensures DecodeDefExp(EncodeDefExp(quality, m, order) + rest, map[]) == Ok((quality, m, rest))
  {
    var ts := EncodeDefExp(quality, m, order) + rest;
    assert ts[2..] == EncodeEntries(order) + rest;
    DecodeEncodeEntries(order, rest, map[]);
    PutsEnumeration(order, m);
  }

  // ---------------------------------------------------------------------------
  // The coverage object
  // ---------------------------------------------------------------------------

  /** The mutable map object a coverage holds; two coverages can share one. */
  class DefExpoMap<S(==)> {
    var entries: DefExpo<S>

    constructor (entries: DefExpo<S>)
      ensures this.entries == entries
    {
      this.entries := entries;
    }

    /** The loop of `merge`: add each of `source`'s sets into the set under the same stack. */
    method AddAll(source: DefExpo<S>)
      modifies this
      ensures entries == MergeMaps(old(entries), source)
    {
      ghost var start := entries;
      var todo := source.Keys;
      ghost var done: set<S> := {};
      while todo != {}
        invariant todo <= source.Keys && done == source.Keys - todo
        invariant MergedOver(entries, start, source, done)
        decreases todo
      {
        var k :| k in todo;
        var de := if k in entries then entries[k] else {};
        MergeStep(entries, start, source, done, k, de + source[k]);
        entries := entries[k := de + source[k]];
        todo := todo - {k};
        done := done + {k};
      }
      MergeDone(entries, start, source);
    }
  }

  /** The part of `m` under `keys`. */
  function Restrict<S>(m: DefExpo<S>, keys: set<S>): DefExpo<S> {
    map k | k in keys && k in m :: m[k]
  }

  /** `order` enumerates `m` except for the stacks in `todo`. */
  ghost predicate EnumeratesBut<S>(order: EntryOrder<S>, m: DefExpo<S>, todo: set<S>) {
    KeysOf(order) == m.Keys - todo && |order| + |todo| == |m| &&
    (forall i, j :: 0 <= i < j < |order| ==> order[i].0 != order[j].0) &&
    (forall i :: 0 <= i < |order| ==>
       order[i].0 in m && SetOf(order[i].1) == m[order[i].0] && |order[i].1| == |m[order[i].0]|)
  }

  lemma KeysOfAppend<S>(order: EntryOrder<S>, e: (S, seq<ContextualId<S>>))
    ensures KeysOf(order + [e]) == KeysOf(order) + {e.0}
  {
    assert forall x :: x in order + [e] <==> x in order || x == e;
  }

  lemma EnumerationStep<S>(order: EntryOrder<S>, m: DefExpo<S>, todo: set<S>, k: S, ids: seq<ContextualId<S>>)
    requires todo <= m.Keys && EnumeratesBut(order, m, todo) && k in todo
    requires SetOf(ids) == m[k] && |ids| == |m[k]|
    ensures EnumeratesBut(order + [(k, ids)], m, todo - {k})
    ensures todo - {k} == {} ==> Enumerates(order + [(k, ids)], m)
  {
    var order' := order + [(k, ids)];
    KeysOfAppend(order, (k, ids));
    assert |todo - {k}| == |todo| - 1;
    forall i, j | 0 <= i < j < |order'|
      ensures order'[i].0 != order'[j].0
    {
      assert order'[i] == order[i];
      if j == |order| {
        assert order[i] in order;
      } else {
        assert order'[j] == order[j];
      }
    }
    forall i | 0 <= i < |order'|
      ensures order'[i].0 in m && SetOf(order'[i].1) == m[order'[i].0] && |order'[i].1| == |m[order'[i].0]|
    {
      if i < |order| {
        assert order'[i] == order[i];
      }
    }
  }

  /** The inner loop of `writeExternal`: each id of one set, in the set's iteration order. */
  method WriteIds<S(==)>(value: set<ContextualId<S>>) returns (out: seq<DefExpToken<S>>, ghost ids: seq<ContextualId<S>>)
    ensures SetOf(ids) == value && |ids| == |value|
    ensures out == EncodeIds(ids)
  {
    out := [];
    ids := [];
    var todo := value;
    while todo != {}
      invariant todo <= value && SetOf(ids) == value - todo && |ids| + |todo| == |value|
      invariant out == EncodeIds(ids)
      decreases todo
    {
      var v :| v in todo;
      EncodeIdsAppend(ids, v);
      assert SetOf(ids + [v]) == SetOf(ids) + {v};
      out := out + [Int(v.id), Obj(v.context)];
      ids := ids + [v];
      todo := todo - {v};
    }
  }

  /** The inner loop of `readExternal`: `n` (id, context) pairs into a new set. */
  method ReadIds<S(==)>(input: seq<DefExpToken<S>>, n: nat)
    returns (r: Result<(set<ContextualId<S>>, seq<DefExpToken<S>>), StreamError>)
    ensures r == DecodeIds(input, n, {})
  {
    var ins := input;
    var value: set<ContextualId<S>> := {};
    for j := 0 to n
      invariant DecodeIds(input, n, {}) == DecodeIds(ins, n - j, value)
    {
      if !(|ins| >= 2 && ins[0].Int? && ins[1].Obj?) {
        return Err(EndOfStream);
      }
      value := value + {ContextualId(ins[0].v, ins[1].x)};
      ins := ins[2..];
    }
    return Ok((value, ins));
  }

  class CoverageDefExp<S(==)> {
    const defExpo: DefExpoMap<S>
    var quality: int

    /** The quality is the number of ids in the map. */
    ghost predicate Valid()
      reads this, defExpo
    {
      quality == Quality(defExpo.entries)
    }

    /** Wraps the given map object (not a copy of it) and computes the quality. */
    constructor (defExpo: DefExpoMap<S>)
      ensures this.defExpo == defExpo && defExpo.entries == old(defExpo.entries)
      ensures Valid()
    {
      this.defExpo := defExpo;
      new;
      UpdateQuality();
    }

    /** The no-argument constructor used before `readExternal`: an empty map; quality is left 0. */
    constructor Empty()
      ensures fresh(defExpo) && defExpo.entries == map[] && quality == 0
      ensures Valid()
    {
      defExpo := new DefExpoMap(map[]);
      quality := 0;
      new;
      SumOverSubset(defExpo.entries, SetSize, {}, {});
    }

    /** `updateQuality`: add up the set sizes. */
    method UpdateQuality()
      modifies this
      ensures quality == Quality(defExpo.entries)
    {
      quality := 0;
      var todo := defExpo.entries.Keys;
      while todo != {}
        invariant todo <= defExpo.entries.Keys
        invariant quality + SumOver(defExpo.entries, SetSize, todo) == Quality(defExpo.entries)
        decreases todo
      {
        var k :| k in todo;
        SumOverRemove(defExpo.entries, SetSize, todo, k);
        quality := quality + |defExpo.entries[k]|;
        todo := todo - {k};
      }
    }

    /**
     * `contains`: `null` stands for a coverage of another kind.  Of its own
     * kind, the receiver needs at least the argument's quality and a
     * superset of ids under each of the argument's stacks.
     */
    method Contains(other: CoverageDefExp?<S>) returns (r: bool)
      ensures other == null ==> !r
      ensures other != null ==> (r <==> Subsumes(quality, defExpo.entries, other.quality, other.defExpo.entries))
    {
      if other == null {
        return false;
      }
      var o := other;
      if quality < o.quality {
        return false;
      }
      var todo := o.defExpo.entries.Keys;
      while todo != {}
        invariant todo <= o.defExpo.entries.Keys
        invariant Covers(defExpo.entries, Restrict(o.defExpo.entries, o.defExpo.entries.Keys - todo))
        decreases todo
      {
        var deKey :| deKey in todo;
        if deKey !in defExpo.entries {
          assert deKey in Restrict(o.defExpo.entries, o.defExpo.entries.Keys);
          return false;
        }
        var tde := defExpo.entries[deKey];
        var ode := o.defExpo.entries[deKey];
        if !(ode <= tde) {
          assert deKey in Restrict(o.defExpo.entries, o.defExpo.entries.Keys);
          return false;
        }
        todo := todo - {deKey};
      }
      assert Restrict(o.defExpo.entries, o.defExpo.entries.Keys) == o.defExpo.entries;
      return true;
    }

    /** `createEmpty`: a fresh coverage over a fresh empty map. */
    method CreateEmpty() returns (c: CoverageDefExp<S>)
      ensures fresh(c) && fresh(c.defExpo)
      ensures c.defExpo.entries == map[] && c.quality == 0 && c.Valid()
    {
      var m := new DefExpoMap(map[]);
      c := new CoverageDefExp(m);
      QualityNonNegative(m.entries);
      SumOverSubset(m.entries, SetSize, {}, {});
    }

    /**
     * `merge`: `null` stands for a coverage of another kind and changes
     * nothing.  Otherwise each of the argument's sets is added to the
     * receiver's set for the same stack, and the quality recomputed.
     */
    method Merge(other: CoverageDefExp?<S>)
      modifies this, defExpo
      ensures other == null ==> defExpo.entries == old(defExpo.entries) && quality == old(quality)
      ensures other != null ==> defExpo.entries == MergeMaps(old(defExpo.entries), old(other.defExpo.entries))
      ensures other != null ==> Valid()
    {
      if other != null {
        var source := other.defExpo.entries;
        defExpo.AddAll(source);
        UpdateQuality();
      }
    }

    /**
     * `writeExternal`: the stacks and ids come out in the map's own
     * iteration order, returned as `order`.
     */
    method WriteExternal() returns (out: seq<DefExpToken<S>>, ghost order: EntryOrder<S>)
      ensures Enumerates(order, defExpo.entries)
      ensures out == EncodeDefExp(quality, defExpo.entries, order)
    {
      var m := defExpo.entries;
      out := [Int(quality), Int(|m|)];
      order := [];
      var todo := m.Keys;
      while todo != {}
        invariant todo <= m.Keys && EnumeratesBut(order, m, todo)
        invariant out == EncodeDefExp(quality, m, order)
        decreases todo
      {
        var k :| k in todo;
        var ids, idOrder := WriteIds(m[k]);
        EncodeDefExpAppend(quality, m, order, (k, idOrder));
        out := out + ([Obj(k), Int(|m[k]|)] + ids);
        EnumerationStep(order, m, todo, k, idOrder);
        order := order + [(k, idOrder)];
        todo := todo - {k};
      }
    }

    /**
     * `readExternal`: the quality is taken from the stream as it stands and
     * the entries read are put into the existing map.
     */
    method ReadExternal(input: seq<DefExpToken<S>>) returns (r: Result<seq<DefExpToken<S>>, StreamError>)
      modifies this, defExpo
      ensures r.Ok? <==> DecodeDefExp(input, old(defExpo.entries)).Ok?
      ensures r.Ok? ==>
                var (q, m, rest) := DecodeDefExp(input, old(defExpo.entries)).value;
                quality == q && defExpo.entries == m && r.value == rest
      ensures r.Err? ==> r.error == DecodeDefExp(input, old(defExpo.entries)).error
    {
      var ins := input;
      if !(|ins| >= 2 && ins[0].Int? && ins[1].Int?) {
        return Err(EndOfStream);
      }
      quality := ins[0].v;
      var size := ins[1].v;
      ins := ins[2..];
      var n: nat := if size < 0 then 0 else size;
      ghost var start := ins;
      for i := 0 to n
        invariant quality == input[0].v
        invariant DecodeEntries(start, n, old(defExpo.entries)) == DecodeEntries(ins, n - i, defExpo.entries)
      {
        if !(|ins| >= 2 && ins[0].Obj? && ins[1].Int?) {
          return Err(EndOfStream);
        }
        var key := ins[0].x;
        var valueSize := ins[1].v;
        if valueSize < 0 {
          return Err(IllegalCapacity);
        }
        var value := ReadIds(ins[2..], valueSize);
        if value.Err? {
          return Err(value.error);
        }
        defExpo.entries := defExpo.entries[key := value.value.0];
        ins := value.value.1;
      }
      return Ok(ins);
    }

    /** `clone`, as written: a new coverage over the SAME map object. */
    method Clone() returns (c: CoverageDefExp<S>)
      ensures fresh(c) && c.defExpo == defExpo && defExpo.entries == old(defExpo.entries)
      ensures c.Valid()
    {
      c := new CoverageDefExp(defExpo);
    }

    /** `clone` as evidently intended: a new coverage over a copy of the map. */
    method CloneDeep() returns (c: CoverageDefExp<S>)
      requires Valid()
      ensures fresh(c) && fresh(c.defExpo)
      ensures c.defExpo.entries == defExpo.entries && c.quality == quality && c.Valid()
    {
      var m := new DefExpoMap(defExpo.entries);
      c := new CoverageDefExp(m);
    }
  }

  /** `e` is `start` with the sets of `source` under the stacks in `done` added in. */
  ghost predicate MergedOver<S>(e: DefExpo<S>, start: DefExpo<S>, source: DefExpo<S>, done: set<S>) {
    e.Keys == start.Keys + done &&
    forall j :: j in e ==> e[j] == Lookup(start, j) + (if j in done then Lookup(source, j) else {})
  }

  lemma MergeStep<S>(e: DefExpo<S>, start: DefExpo<S>, source: DefExpo<S>, done: set<S>, k: S, v: set<ContextualId<S>>)
    requires done <= source.Keys && k in source && k !in done
    requires MergedOver(e, start, source, done)
    requires v == Lookup(e, k) + source[k]
    ensures MergedOver(e[k := v], start, source, done + {k})
  {
    assert Lookup(e, k) == Lookup(start, k);
  }

  lemma MergeDone<S>(e: DefExpo<S>, start: DefExpo<S>, source: DefExpo<S>)
    requires MergedOver(e, start, source, source.Keys)
    ensures e == MergeMaps(start, source)
  {
    assert e.Keys == MergeMaps(start, source).Keys;
  }

  /**
   * The aliasing `clone` at work: a clone of an empty coverage, merged
   * with one id, changes the original's map while the original keeps its
   * old quality of 0.
   */
  method CloneThenMergeCorruptsOriginal() returns (original: CoverageDefExp<int>, copy: CoverageDefExp<int>)
    ensures copy.defExpo == original.defExpo
    ensures original.defExpo.entries == map[0 := {ContextualId(7, 0)}]
    ensures original.quality == 0 && Quality(original.defExpo.entries) == 1
    ensures !original.Valid()
  {
    var m := new DefExpoMap(map[]);
    original := new CoverageDefExp(m);
    copy := original.Clone();
    var m2 := new DefExpoMap(map[0 := {ContextualId(7, 0)}]);
    var other := new CoverageDefExp(m2);
    copy.Merge(other);
    assert MergeMaps(map[], m2.entries) == m2.entries;
    SingletonQuality(0, {ContextualId(7, 0)});
  }

  /** Merging into a deep copy leaves the original and its quality untouched. */
  method CloneDeepThenMergeKeepsOriginal(original: CoverageDefExp<int>, other: CoverageDefExp?<int>)
    returns (copy: CoverageDefExp<int>)
    requires original.Valid()
    modifies {}
    ensures original.Valid() && original.defExpo.entries == old(original.defExpo.entries)
    ensures other != null ==> copy.defExpo.entries == MergeMaps(original.defExpo.entries, old(other.defExpo.entries))
  {
    copy := original.CloneDeep();
    copy.Merge(other);
  }

  lemma SingletonQuality<S>(k: S, ids: set<ContextualId<S>>)
    ensures Quality(map[k := ids]) == |ids|
  {
    var m := map[k := ids];
    SumOverRemove(m, SetSize, m.Keys, k);
    assert m.Keys - {k} == {};
  }
}