/**
 * Mutation-score coverage (MutationCoverage.java): one single-class
 * mutation coverage per class name.  The single-class coverage is an
 * abstract value; its operations are given by `SingleOps`.
 */
module MutationScore {
  import opened Wrappers
  import opened Streams
  import opened MapSums

  /** The operations of a single-class mutation coverage, seen as values. */
  datatype SingleOps<!T> = SingleOps(
    createEmpty: T -> T,
    merge: (T, T) -> T,
    contains: (T, T) -> bool,
    quality: T -> real,
    killedNum: T -> int)

  /** A float quotient: `0/0` is not a number. */
  datatype Mean = NaN | Value(r: real)

  type Covs<T> = map<string, T>

  /** The single `add(name, cov)` leaves under `name`. */
  function Added<T>(ops: SingleOps<T>, covs: Covs<T>, name: string, cov: T): T {
    ops.merge(if name in covs then covs[name] else ops.createEmpty(cov), cov)
  }

  /** The map `merge` leaves behind: `add` of every entry of `other`. */
  function MergeCovs<T>(ops: SingleOps<T>, covs: Covs<T>, other: Covs<T>): Covs<T> {
    map k | k in covs.Keys + other.Keys :: if k in other then Added(ops, covs, k, other[k]) else covs[k]
  }

  /** What `contains` answers for an argument of its own kind: strictly more classes, each contained. */
  ghost predicate Includes<T>(ops: SingleOps<T>, covs: Covs<T>, other: Covs<T>) {
    |covs| > |other| &&
    forall k :: k in covs && k in other ==> ops.contains(covs[k], other[k])
  }

  ghost function Killed<T>(ops: SingleOps<T>, covs: Covs<T>): int {
    SumOver(covs, ops.killedNum, covs.Keys)
  }

  ghost function MeanQuality<T>(ops: SingleOps<T>, covs: Covs<T>): Mean {
    if |covs| == 0 then NaN else Value(RealSumOver(covs, ops.quality, covs.Keys) / |covs| as real)
  }

  function Restrict<T>(m: Covs<T>, keys: set<string>): Covs<T> {
    map k | k in keys && k in m :: m[k]
  }

  /** After `merge` the classes are those of both; the classes only the receiver had are untouched. */
  lemma MergeCovsShape<T>(ops: SingleOps<T>, covs: Covs<T>, other: Covs<T>)
    ensures MergeCovs(ops, covs, other).Keys == covs.Keys + other.Keys
    ensures forall k :: k in covs && k !in other ==> MergeCovs(ops, covs, other)[k] == covs[k]
    ensures forall k :: k in other ==> MergeCovs(ops, covs, other)[k] == Added(ops, covs, k, other[k])
  {
  }

  /** `contains` is irreflexive: nothing contains itself. */
  lemma IncludesIrreflexive<T>(ops: SingleOps<T>, covs: Covs<T>)
    ensures !Includes(ops, covs, covs)
  {
  }

  /** Classes present only in the argument are never compared. */
  lemma IncludesIgnoresExtraClasses<T>(ops: SingleOps<T>, covs: Covs<T>, other: Covs<T>, name: string, x: T)
    requires name !in covs && name !in other && |covs| > |other| + 1
    ensures Includes(ops, covs, other[name := x]) == Includes(ops, covs, other)
  {
    assert |other[name := x]| == |other| + 1;
    forall k | k in covs && k in other[name := x]
      ensures k in other && other[name := x][k] == other[k]
    {
    }
  }

  /**
   * When the single-class merge never lowers the killed count and a fresh
   * coverage's count is non-negative, merging never lowers the total.
   */
  lemma {:induction false} MergeKeepsKilled<T>(ops: SingleOps<T>, covs: Covs<T>, other: Covs<T>)
    requires forall x, y :: ops.killedNum(ops.merge(x, y)) >= ops.killedNum(x)
    requires forall x :: ops.killedNum(ops.merge(ops.createEmpty(x), x)) >= 0
    ensures Killed(ops, MergeCovs(ops, covs, other)) >= Killed(ops, covs)
  {
    var m := MergeCovs(ops, covs, other);
    forall k | k in covs.Keys
      ensures ops.killedNum(covs[k]) <= ops.killedNum(m[k])
    {
      if k in other {
        assert m[k] == ops.merge(covs[k], other[k]);
      }
    }
    SumOverPointwise(covs, m, ops.killedNum, covs.Keys);
    forall k | k in m.Keys
      ensures ops.killedNum(m[k]) >= 0 || k in covs
    {
      if k !in covs {
        assert m[k] == ops.merge(ops.createEmpty(other[k]), other[k]);
      }
    }
    SumOverNewKeys(m, ops.killedNum, covs.Keys);
  }

  // ---------------------------------------------------------------------------
  // writeExternal / readExternal (a single-class coverage is one token)
  // ---------------------------------------------------------------------------

  type MutToken<T> = Token<T>

  function EncodeCovs<T>(covs: Covs<T>, order: seq<string>): seq<MutToken<T>>
    requires forall i :: 0 <= i < |order| ==> order[i] in covs
  {
    if |order| == 0 then [] else [Utf(order[0]), Obj(covs[order[0]])] + EncodeCovs(covs, order[1..])
  }

  /** What `writeExternal` writes: the class count as a 16-bit short, then name and single per class. */
  function EncodeMutation<T>(covs: Covs<T>, order: seq<string>): seq<MutToken<T>>
    requires forall i :: 0 <= i < |order| ==> order[i] in covs
  {
    [Short(ShortBits(|covs|))] + EncodeCovs(covs, order)
  }

  /** `order` lists every class of `covs` exactly once. */
  ghost predicate ListsKeys<T>(order: seq<string>, covs: Covs<T>) {
    |order| == |covs| &&
    (forall i :: 0 <= i < |order| ==> order[i] in covs) &&
    (forall k :: k in covs ==> k in order) &&
    (forall i, j :: 0 <= i < j < |order| ==> order[i] != order[j])
  }

  function DecodeCovs<T>(ts: seq<MutToken<T>>, n: nat, acc: Covs<T>): Result<(Covs<T>, seq<MutToken<T>>), StreamError>
    decreases n
  {
    if n == 0 then Ok((acc, ts))
    else if |ts| >= 2 && ts[0].Utf? && ts[1].Obj? then DecodeCovs(ts[2..], n - 1, acc[ts[0].s := ts[1].x])
    else Err(EndOfStream)
  }

  /** What `readExternal` makes of a stream when reading into `acc`; a negative count reads nothing. */
  function DecodeMutation<T>(ts: seq<MutToken<T>>, acc: Covs<T>): Result<(Covs<T>, seq<MutToken<T>>), StreamError> {
    if |ts| > 0 && ts[0].Short? && 0 <= ts[0].bits < SHORT_RANGE then
      var size := SignedShort(ts[0].bits);
      DecodeCovs(ts[1..], if size < 0 then 0 else size, acc)
    else Err(EndOfStream)
  }

  /**
   * The map `readExternal` leaves behind when reading `n` pairs into `acc`:
   * every complete pair before the stream ran out is put, whether or not
   * the read then fails.
   */
  function PutsRead<T>(ts: seq<MutToken<T>>, n: nat, acc: Covs<T>): Covs<T>
    decreases n
  {
    if n == 0 then acc
    else if |ts| >= 2 && ts[0].Utf? && ts[1].Obj? then PutsRead(ts[2..], n - 1, acc[ts[0].s := ts[1].x])
    else acc
  }

  /** The map after `readExternal` into `acc`, on success and on failure alike. */
  function MapAfterRead<T>(ts: seq<MutToken<T>>, acc: Covs<T>): Covs<T> {
    if |ts| > 0 && ts[0].Short? && 0 <= ts[0].bits < SHORT_RANGE then
      var size := SignedShort(ts[0].bits);
      PutsRead(ts[1..], if size < 0 then 0 else size, acc)
    else acc
  }

  /** Reading only adds or overwrites: no class already in the map is lost. */
  lemma {:induction false} PutsReadKeepsKeys<T>(ts: seq<MutToken<T>>, n: nat, acc: Covs<T>)
    ensures acc.Keys <= PutsRead(ts, n, acc).Keys
    decreases n
  {
    if n > 0 && |ts| >= 2 && ts[0].Utf? && ts[1].Obj? {
      PutsReadKeepsKeys(ts[2..], n - 1, acc[ts[0].s := ts[1].x]);
    }
  }

  /** On a successful read, the map left behind is the decoded one. */
  lemma {:induction false} PutsReadAgrees<T>(ts: seq<MutToken<T>>, n: nat, acc: Covs<T>)
    ensures DecodeCovs(ts, n, acc).Ok? ==> PutsRead(ts, n, acc) == DecodeCovs(ts, n, acc).value.0
    decreases n
  {
    if n > 0 && |ts| >= 2 && ts[0].Utf? && ts[1].Obj? {
      PutsReadAgrees(ts[2..], n - 1, acc[ts[0].s := ts[1].x]);
    }
  }

  lemma {:induction false} EncodeCovsAppend<T>(covs: Covs<T>, order: seq<string>, k: string)
    requires forall i :: 0 <= i < |order| ==> order[i] in covs
    requires k in covs
    ensures EncodeCovs(covs, order + [k]) == EncodeCovs(covs, order) + [Utf(k), Obj(covs[k])]
  {
    if |order| > 0 {
      assert (order + [k])[1..] == order[1..] + [k];
      EncodeCovsAppend(covs, order[1..], k);
    } else {
      assert order + [k] == [k];
    }
  }

  lemma {:induction false} DecodeEncodeCovs<T>(covs: Covs<T>, order: seq<string>, rest: seq<MutToken<T>>, acc: Covs<T>)
    requires forall i :: 0 <= i < |order| ==> order[i] in covs
    ensures DecodeCovs(EncodeCovs(covs, order) + rest, |order|, acc) ==
            Ok((acc + Restrict(covs, set k | k in order), rest))
    decreases |order|
  {
    if |order| == 0 {
      assert EncodeCovs(covs, order) + rest == rest;
      assert acc + Restrict(covs, set k | k in order) == acc;
    } else {
      var ts := EncodeCovs(covs, order) + rest;
      assert ts == [Utf(order[0]), Obj(covs[order[0]])] + (EncodeCovs(covs, order[1..]) + rest);
      assert ts[2..] == EncodeCovs(covs, order[1..]) + rest;
      DecodeEncodeCovs(covs, order[1..], rest, acc[order[0] := covs[order[0]]]);
      RestrictFirst(covs, order, acc);
    }
  }

  lemma RestrictFirst<T>(covs: Covs<T>, order: seq<string>, acc: Covs<T>)
    requires 0 < |order| && order[0] in covs
    ensures acc[order[0] := covs[order[0]]] + Restrict(covs, set k | k in order[1..]) ==
            acc + Restrict(covs, set k | k in order)
  {
    assert (set k | k in order) == {order[0]} + (set k | k in order[1..]) by {
      assert order == [order[0]] + order[1..];
    }
  }

  /** A map of at most 32767 classes reads back, into an empty map, as written. */
  lemma ReadWriteRoundTrip<T>(covs: Covs<T>, order: seq<string>, rest: seq<MutToken<T>>)
    requires ListsKeys(order, covs) && |covs| <= 32767
    ensures DecodeMutation(EncodeMutation(covs, order) + rest, map[]) == Ok((covs, rest))
  {
    var ts := EncodeMutation(covs, order) + rest;
    ShortRoundTrip(|covs|);
    assert ts[1..] == EncodeCovs(covs, order) + rest;
    DecodeEncodeCovs(covs, order, rest, map[]);
    assert map[] + Restrict(covs, set k | k in order) == covs;
  }

  /** With 32768 to 65535 classes the count reads back negative: nothing is read and the entries stay on the stream. */
  lemma ReadLongMapReadsNothing<T>(covs: Covs<T>, order: seq<string>, rest: seq<MutToken<T>>)
    requires ListsKeys(order, covs) && 32768 <= |covs| < SHORT_RANGE
    ensures DecodeMutation(EncodeMutation(covs, order) + rest, map[]) == Ok((map[], EncodeCovs(covs, order) + rest))
  {
    var ts := EncodeMutation(covs, order) + rest;
    assert ts[1..] == EncodeCovs(covs, order) + rest;
  }

  // ---------------------------------------------------------------------------
  // The coverage object
  // ---------------------------------------------------------------------------

  class MutationCoverage<T> {
    const ops: SingleOps<T>
    var covs: Covs<T>

    constructor (ops: SingleOps<T>)
      ensures this.ops == ops && covs == map[]
    {
      this.ops := ops;
      covs := map[];
    }

    /** `add`: merge `cov` into the class's single, starting from an empty copy when there is none. */
    method Add(name: string, cov: T)
      modifies this
      ensures covs == old(covs)[name := Added(ops, old(covs), name, cov)]
    {
      var add: T;
      if name in covs {
        add := covs[name];
      } else {
        add := ops.createEmpty(cov);
      }
      covs := covs[name := ops.merge(add, cov)];
    }

    /** `createEmpty`. */
    method CreateEmpty() returns (c: MutationCoverage<T>)
      ensures fresh(c) && c.ops == ops && c.covs == map[]
    {
      c := new MutationCoverage(ops);
    }

    /** `getQuality`: the mean of the single qualities; not a number when there are no classes. */
    method GetQuality() returns (q: Mean)
      ensures q == MeanQuality(ops, covs)
    {
      var qTot: real := 0.0;
      var todo := covs.Keys;
      while todo != {}
        invariant todo <= covs.Keys
        invariant qTot + RealSumOver(covs, ops.quality, todo) == RealSumOver(covs, ops.quality, covs.Keys)
        decreases todo
      {
        var k :| k in todo;
        RealSumOverRemove(covs, ops.quality, todo, k);
        qTot := qTot + ops.quality(covs[k]);
        todo := todo - {k};
      }
      if |covs| == 0 {
        return NaN;
      }
      return Value(qTot / |covs| as real);
    }

    /** `getKilled`: the total of the per-class killed counts. */
    method GetKilled() returns (killed: int)
      ensures killed == Killed(ops, covs)
    {
      killed := 0;
      var todo := covs.Keys;
      while todo != {}
        invariant todo <= covs.Keys
        invariant killed + SumOver(covs, ops.killedNum, todo) == Killed(ops, covs)
        decreases todo
      {
        var k :| k in todo;
        SumOverRemove(covs, ops.killedNum, todo, k);
        killed := killed + ops.killedNum(covs[k]);
        todo := todo - {k};
      }
    }

    /** `contains`: `null` stands for a coverage of another kind. */
    method Contains(other: MutationCoverage?<T>) returns (r: bool)
      ensures other == null ==> !r
      ensures other != null ==> (r <==> Includes(ops, covs, other.covs))
    {
      if other == null || |covs| <= |other.covs| {
        return false;
      }
      var todo := covs.Keys;
      while todo != {}
        invariant todo <= covs.Keys
        invariant forall k :: k in covs && k !in todo && k in other.covs ==> ops.contains(covs[k], other.covs[k])
        decreases todo
      {
        var k :| k in todo;
        if k in other.covs && !ops.contains(covs[k], other.covs[k]) {
          return false;
        }
        todo := todo - {k};
      }
      return true;
    }

    /** `merge`: `add` of each of the argument's classes; `null` stands for a coverage of another kind. */
    method Merge(other: MutationCoverage?<T>)
      modifies this
      ensures other == null ==> covs == old(covs)
      ensures other != null ==> covs == MergeCovs(ops, old(covs), old(other.covs))
    {
      if other != null {
        var source := other.covs;
        ghost var start := covs;
        ghost var done: set<string> := {};
        var todo := source.Keys;
        assert MergeCovs(ops, start, Restrict(source, done)) == start;
        while todo != {}
          invariant todo <= source.Keys && done == source.Keys - todo
          invariant covs == MergeCovs(ops, start, Restrict(source, done))
          decreases todo
        {
          var k :| k in todo;
          MergeStep(ops, start, source, done, k);
          Add(k, source[k]);
          todo := todo - {k};
          done := done + {k};
        }
        assert Restrict(source, done) == source;
      }
    }

    /** `clone`: a fresh coverage with a copy of every single. */
    method Clone() returns (c: MutationCoverage<T>)
      ensures fresh(c) && c.ops == ops && c.covs == covs
    {
      c := new MutationCoverage(ops);
      var todo := covs.Keys;
      while todo != {}
        invariant todo <= covs.Keys
        invariant c.covs == Restrict(covs, covs.Keys - todo)
        invariant fresh(c) && c.ops == ops
        decreases todo
      {
        var k :| k in todo;
        c.covs := c.covs[k := covs[k]];
        todo := todo - {k};
      }
      assert Restrict(covs, covs.Keys) == covs;
    }

    /** `writeExternal`: classes come out in the map's own iteration order, returned as `order`. */
    method WriteExternal() returns (out: seq<MutToken<T>>, ghost order: seq<string>)
      ensures ListsKeys(order, covs)
      ensures out == EncodeMutation(covs, order)
    {
      out := [Short(ShortBits(|covs|))];
      order := [];
      var todo := covs.Keys;
      while todo != {}
        invariant todo <= covs.Keys
        invariant |order| + |todo| == |covs|
        invariant forall i :: 0 <= i < |order| ==> order[i] in covs && order[i] !in todo
        invariant forall k :: k in covs ==> k in todo || k in order
        invariant forall i, j :: 0 <= i < j < |order| ==> order[i] != order[j]
        invariant out == EncodeMutation(covs, order)
        decreases todo
      {
        var k :| k in todo;
        EncodeCovsAppend(covs, order, k);
        out := out + [Utf(k), Obj(covs[k])];
        order := order + [k];
        todo := todo - {k};
      }
    }

    /** `readExternal`: the classes read are put into the existing map. */
    method ReadExternal(input: seq<MutToken<T>>) returns (r: Result<seq<MutToken<T>>, StreamError>)
      modifies this
      ensures r.Ok? <==> DecodeMutation(input, old(covs)).Ok?
      ensures r.Ok? ==> covs == DecodeMutation(input, old(covs)).value.0 && r.value == DecodeMutation(input, old(covs)).value.1
      ensures r.Err? ==> r.error == DecodeMutation(input, old(covs)).error
      ensures covs == MapAfterRead(input, old(covs))
    {
      var ins := input;
      if !(|ins| > 0 && ins[0].Short? && 0 <= ins[0].bits < SHORT_RANGE) {
        return Err(EndOfStream);
      }
      var size := SignedShort(ins[0].bits);
      ins := ins[1..];
      var n: nat := if size < 0 then 0 else size;
      ghost var start := ins;
      for i := 0 to n
        invariant DecodeCovs(start, n, old(covs)) == DecodeCovs(ins, n - i, covs)
        invariant PutsRead(start, n, old(covs)) == PutsRead(ins, n - i, covs)
      {
        if !(|ins| >= 2 && ins[0].Utf? && ins[1].Obj?) {
          return Err(EndOfStream);
        }
        covs := covs[ins[0].s := ins[1].x];
        ins := ins[2..];
      }
      return Ok(ins);
    }
  }

  lemma MergeStep<T>(ops: SingleOps<T>, start: Covs<T>, source: Covs<T>, done: set<string>, k: string)
    requires k in source && k !in done
    ensures MergeCovs(ops, start, Restrict(source, done + {k})) ==
            MergeCovs(ops, start, Restrict(source, done))
              [k := Added(ops, MergeCovs(ops, start, Restrict(source, done)), k, source[k])]
  {
    var before := MergeCovs(ops, start, Restrict(source, done));
    var after := MergeCovs(ops, start, Restrict(source, done + {k}));
    assert after.Keys == before.Keys + {k};
    forall j | j in after.Keys
      ensures after[j] == before[k := Added(ops, before, k, source[k])][j]
    {
    }
  }
}
