/**
 * Normalisation of a captured stack trace (Fault.java): the trace is cut
 * after the last frame of the class under test, frames of the testing
 * framework are stripped from its other end, and a recursive tail is
 * collapsed to one bracketed period.
 *
 * Index 0 is the innermost frame, as in a Java `StackTraceElement[]`.
 */
module StackTraces {
  import opened Wrappers
  import JavaStrings

  /** A `StackTraceElement`: declaring class, method, source file (null when unknown) and line. */
  datatype Frame = Frame(className: string, methodName: string, fileName: Option<string>, lineNumber: int)

  /** Longest recursion period looked for (exclusive). */
  const MAX_STEP: int := 25
  /** Minimum number of periods counted before a recursion is confirmed. */
  const MIN_ITER: int := 5
  /** Innermost frames that need not take part in a recursion. */
  const IGNORE_LAST: int := 5
  /** Frames base .. base+10 are inspected before a frame is kept. */
  const LOOKAHEAD: int := 11

  /** The frames that bracket a collapsed recursion. */
  const RecursionEnd: Frame := Frame(" --  recursion", "end  -- ", Some(""), -1)
  const RecursionStart: Frame := Frame(" -- recursion", "start -- ", Some(""), -1)

  function Max(a: int, b: int): int { if a < b then b else a }
  function Min(a: int, b: int): int { if a < b then a else b }

  /** A frame of the testing framework itself. */
  predicate IsTestful(f: Frame) {
    "testful." <= f.className
  }

  // ---------------------------------------------------------------------------
  // The upper cut: one past the last frame of the class under test
  // ---------------------------------------------------------------------------

  /** The highest index below `k` whose frame belongs to class `target`, or -1. */
  function LastOf(s: seq<Frame>, target: string, k: nat): (i: int)
    requires k <= |s|
    ensures -1 <= i < k
    ensures i >= 0 ==> s[i].className == target
    ensures forall j :: i < j < k ==> s[j].className != target
  {
    if k == 0 then -1
    else if s[k - 1].className == target then k - 1
    else LastOf(s, target, k - 1)
  }

  /**
   * Where the kept part of the trace ends: one past the highest frame of
   * the class under test; the whole trace when no class is given or none of
   * its frames is on the stack.
   */
  function UpperCut(s: seq<Frame>, target: Option<string>): (n: nat)
    ensures n <= |s|
    ensures target.None? ==> n == |s|
    ensures target.Some? && (forall i | 0 <= i < |s| :: s[i].className != target.value) ==> n == |s|
    ensures target.Some? && (exists i | 0 <= i < |s| :: s[i].className == target.value) ==>
              0 < n && s[n - 1].className == target.value &&
              forall j | n <= j < |s| :: s[j].className != target.value
  {
    match target
    case None => |s|
    case Some(t) =>
      var i := LastOf(s, t, |s|);
      if i >= 0 then i + 1 else |s|
  }

  // ---------------------------------------------------------------------------
  // The lower cut: skip framework frames, looking 11 frames ahead
  // ---------------------------------------------------------------------------

  /** Some frame among base .. base+10, below `n`, belongs to the framework. */
  predicate InfrastructureAhead(s: seq<Frame>, n: int, base: int)
    requires 0 <= base && n <= |s|
  {
    exists i | base <= i < base + LOOKAHEAD && i < n :: IsTestful(s[i])
  }

  /**
   * The least index from `b` on at which no framework frame lies in the
   * lookahead window.
   */
  function LowerCutFrom(s: seq<Frame>, n: int, b: int): (base: int)
    requires 0 <= b <= n <= |s|
    decreases n - b
    ensures b <= base <= n
    ensures !InfrastructureAhead(s, n, base)
    ensures forall c | b <= c < base :: InfrastructureAhead(s, n, c)
  {
    if b < n && InfrastructureAhead(s, n, b) then LowerCutFrom(s, n, b + 1) else b
  }

  /** The trace kept before any recursion is collapsed: `s[base .. n)`. */
  function Pruned(s: seq<Frame>, target: Option<string>): (r: seq<Frame>)
  {
    var n := UpperCut(s, target);
    s[LowerCutFrom(s, n, 0) .. n]
  }

  // ---------------------------------------------------------------------------
  // checkRecursion: the period `step` repeats below the frame `initial`
  // ---------------------------------------------------------------------------

  /**
   * The number of frames `checkRecursion` compares: it walks down from
   * `initial - step` while the frame index is at least IGNORE_LAST, or while
   * it is a valid index and fewer than MIN_ITER periods have been counted.
   */
  function Span(initial: int, step: int): (k: int)
    ensures k >= 0
    ensures k <= Max(0, initial - step + 1)
  {
    Max(0, Max(initial - step - IGNORE_LAST + 1, Min(initial - step + 1, (MIN_ITER - 2) * step + 1)))
  }

  /** Periods counted after `k` comparisons: the reference one and each one begun. */
  function Counted(k: nat, step: int): int
    requires step >= 1
  {
    if k == 0 then 1 else 2 + (k - 1) / step
  }

  /** The `m`-th compared frame equals the frame at the same phase of the top period. */
  predicate SamePhase(s: seq<Frame>, initial: int, step: int, m: int)
    requires 1 <= step && 0 <= m <= initial - step && initial < |s|
  {
    var phase := m % step;
    assert 0 <= phase < step;
    s[initial - step - m] == s[initial - phase]
  }

  predicate MatchesUpTo(s: seq<Frame>, initial: int, step: int, k: int)
    requires 1 <= step && initial < |s| && 0 <= k <= Max(0, initial - step + 1)
  {
    forall m | 0 <= m < k :: SamePhase(s, initial, step, m)
  }

  /** What `checkRecursion(s, initial, step)` answers. */
  predicate Recurs(s: seq<Frame>, initial: int, step: int)
    requires 1 <= step && 0 <= initial < |s|
  {
    Counted(Span(initial, step), step) >= MIN_ITER && MatchesUpTo(s, initial, step, Span(initial, step))
  }

  lemma DivModUnique(x: int, d: int, q: int, r: int)
    requires d > 0 && 0 <= r < d && x == q * d + r
    ensures x / d == q && x % d == r
  {
    var q', r' := x / d, x % d;
    assert (q - q') * d == r' - r;
    if q > q' {
      MulAtLeast(q - q', d);
    } else if q < q' {
      MulAtLeast(q' - q, d);
    }
  }

  lemma {:induction false} MulAtLeast(a: int, d: int)
    requires a >= 1 && d > 0
    ensures a * d >= d
    decreases a
  {
    if a > 1 {
      MulAtLeast(a - 1, d);
      assert a * d == (a - 1) * d + d;
    }
  }

  /** How the phase and the period count move when one more frame is compared. */
  lemma PhaseStep(k: int, step: int)
    requires k >= 1 && step >= 1
    ensures (k - 1) % step + 1 == step ==> k % step == 0 && k / step == (k - 1) / step + 1
    ensures (k - 1) % step + 1 < step ==> k % step == (k - 1) % step + 1 && k / step == (k - 1) / step
  {
    var q, r := (k - 1) / step, (k - 1) % step;
    if r + 1 == step {
      DivModUnique(k, step, q + 1, 0);
    } else {
      DivModUnique(k, step, q, r + 1);
    }
  }

  lemma CountedBelow(k: nat, step: int)
    requires step >= 1
    ensures Counted(k, step) < MIN_ITER <==> k < (MIN_ITER - 2) * step + 1
  {
    if k >= 1 {
      var q, r := (k - 1) / step, (k - 1) % step;
      assert k - 1 == q * step + r;
      if q >= 3 {
        assert q * step >= 3 * step;
      } else {
        assert q * step <= 2 * step;
      }
    }
  }

  /** The loop guard of `checkRecursion` holds exactly while fewer than `Span` frames were compared. */
  lemma GuardIsSpan(initial: int, step: int, k: nat)
    requires step >= 1
    ensures var i := initial - step - k;
            (i >= IGNORE_LAST || (i >= 0 && Counted(k, step) < MIN_ITER)) <==> k < Span(initial, step)
  {
    CountedBelow(k, step);
  }

  /**
   * The effect of one iteration of `checkRecursion` on its phase counter `j`
   * and its period counter `n`, after `k` frames were compared.
   */
  lemma Advance(k: nat, step: int)
    requires step >= 1
    ensures var j := (if k == 0 then -1 else (k - 1) % step) + 1;
            && 0 <= j <= step
            && (j % step == 0 ==> k % step == 0 && Counted(k + 1, step) == Counted(k, step) + 1)
            && (j % step != 0 ==> j == k % step && Counted(k + 1, step) == Counted(k, step))
  {
    if k >= 1 {
      PhaseStep(k, step);
      var j := (k - 1) % step + 1;
      if j < step {
        DivModUnique(j, step, 0, j);
      } else {
        DivModUnique(j, step, 1, 0);
      }
    } else {
      DivModUnique(0, step, 0, 0);
    }
  }

  method CheckRecursion(pruned: array<Frame>, initial: int, step: int) returns (r: bool)
    requires 0 <= initial < pruned.Length
    requires 1 <= step
    ensures r == Recurs(pruned[..], initial, step)
  {
    ghost var s := pruned[..];
    ghost var span := Span(initial, step);
    ghost var k: nat := 0;
    var n := 1;
    var j := -1;
    var i := initial - step;
    GuardIsSpan(initial, step, 0);
    while i >= IGNORE_LAST || (i >= 0 && n < MIN_ITER)
      invariant i == initial - step - k
      invariant k <= span
      invariant n == Counted(k, step)
      invariant j == if k == 0 then -1 else (k - 1) % step
      invariant (i >= IGNORE_LAST || (i >= 0 && n < MIN_ITER)) <==> k < span
      invariant MatchesUpTo(s, initial, step, k)
      decreases span - k
    {
      Advance(k, step);
      j := j + 1;
      if j % step == 0 {
        j := 0;
        n := n + 1;
      }
      if pruned[i] != pruned[initial - j] {
        assert !SamePhase(s, initial, step, k);
        return false;
      }
      assert SamePhase(s, initial, step, k);
      i := i - 1;
      k := k + 1;
      GuardIsSpan(initial, step, k);
    }
    return n >= MIN_ITER;
  }

  /** Under the guard `simplify` puts on its candidates, enough periods are always counted. */
  lemma {:induction false} CountedUnderGuard(initial: int, step: int)
    requires 1 <= step && MIN_ITER * step <= initial + 1
    ensures Counted(Span(initial, step), step) >= MIN_ITER
  {
    var k := Span(initial, step);
    assert k >= (MIN_ITER - 2) * step + 1;
    CountedBelow(k, step);
  }

  /**
   * Every frame `checkRecursion` reads lies in `[0, initial]`: the compared
   * frames `initial - step - m` and the top period `initial - step + 1 .. initial`.
   */
  lemma CheckRecursionReadsBelowInitial(initial: int, step: int, m: int)
    requires 1 <= step && 0 <= m < Span(initial, step)
    ensures 0 <= initial - step - m && initial - step < initial - m % step <= initial
  {
  }

  // ---------------------------------------------------------------------------
  // simplify: the first (initial, step) that recurs, in the order tried
  // ---------------------------------------------------------------------------

  datatype Hit = Hit(initial: int, step: int)

  /** The pairs `simplify` tries on a trace of length `len`. */
  predicate Tried(len: int, initial: int, step: int) {
    0 < initial < len && 1 <= step < MAX_STEP && MIN_ITER * step <= initial + 1
  }

  /** `simplify` tries higher starting frames first and, for each, shorter periods first. */
  predicate Before(i1: int, st1: int, i2: int, st2: int) {
    i1 > i2 || (i1 == i2 && st1 < st2)
  }

  function SearchFrom(s: seq<Frame>, initial: int, step: int): (h: Option<Hit>)
    requires initial < |s| && step >= 1
    decreases initial, MAX_STEP - step
    ensures h.Some? ==> Tried(|s|, h.value.initial, h.value.step) && Recurs(s, h.value.initial, h.value.step)
  {
    if initial <= 0 then None
    else if step < MAX_STEP && initial + 1 - MIN_ITER * step >= 0 then
      if Recurs(s, initial, step) then Some(Hit(initial, step)) else SearchFrom(s, initial, step + 1)
    else SearchFrom(s, initial - 1, 1)
  }

  /** The recursion `simplify` collapses, if any. */
  function FindRecursion(s: seq<Frame>): Option<Hit> {
    SearchFrom(s, |s| - 1, 1)
  }

  lemma {:induction false} SearchFromFirst(s: seq<Frame>, initial: int, step: int)
    requires initial < |s| && step >= 1
    ensures var h := SearchFrom(s, initial, step);
            forall i, st | Tried(|s|, i, st) && (i < initial || (i == initial && st >= step)) &&
                           (h.None? || Before(i, st, h.value.initial, h.value.step)) :: !Recurs(s, i, st)
    decreases initial, MAX_STEP - step
  {
    var h := SearchFrom(s, initial, step);
    if initial <= 0 {
    } else if step < MAX_STEP && initial + 1 - MIN_ITER * step >= 0 {
      if !Recurs(s, initial, step) {
        SearchFromFirst(s, initial, step + 1);
        forall i, st | Tried(|s|, i, st) && (i < initial || (i == initial && st >= step)) &&
                       (h.None? || Before(i, st, h.value.initial, h.value.step))
          ensures !Recurs(s, i, st)
        {
          if i == initial && st == step {
          }
        }
      }
    } else {
      SearchFromFirst(s, initial - 1, 1);
    }
  }

  /**
   * `simplify` finds a recursion exactly when some pair it tries recurs, and
   * the one it finds is the first such pair in the order it tries them.
   */
  lemma FindRecursionIsFirst(s: seq<Frame>)
    ensures FindRecursion(s).None? <==> forall i, st | Tried(|s|, i, st) :: !Recurs(s, i, st)
    ensures FindRecursion(s).Some? ==>
              var h := FindRecursion(s).value;
              Tried(|s|, h.initial, h.step) && Recurs(s, h.initial, h.step) &&
              forall i, st | Tried(|s|, i, st) && Before(i, st, h.initial, h.step) :: !Recurs(s, i, st)
  {
    SearchFromFirst(s, |s| - 1, 1);
  }

  /** A recursion is found iff some tried pair has its whole compared range periodic. */
  lemma FoundIffPeriodic(s: seq<Frame>)
    ensures FindRecursion(s).None? <==>
              forall i, st | Tried(|s|, i, st) :: !MatchesUpTo(s, i, st, Span(i, st))
  {
    FindRecursionIsFirst(s);
    forall i, st | Tried(|s|, i, st)
      ensures Recurs(s, i, st) == MatchesUpTo(s, i, st, Span(i, st))
    {
      CountedUnderGuard(i, st);
    }
  }

  // ---------------------------------------------------------------------------
  // The rotation of the period: its frame with the least string form
  // ---------------------------------------------------------------------------

  /** The string forms of the frames `initial, initial-1, .., initial-step+1`. */
  function WindowKeys(s: seq<Frame>, initial: int, step: int, key: Frame -> string): (ks: seq<string>)
    requires 1 <= step && step - 1 <= initial < |s|
    ensures |ks| == step
    ensures forall i | 0 <= i < step :: ks[i] == key(s[initial - i])
  {
    seq(step, i requires 0 <= i < step => key(s[initial - i]))
  }

  /** The first index of a least element, scanning left to right with a strict comparison. */
  function EarliestMin(ks: seq<string>): (r: nat)
    requires |ks| > 0
    ensures r < |ks|
  {
    if |ks| == 1 then 0
    else
      var b := EarliestMin(ks[..|ks| - 1]);
      if JavaStrings.Less(ks[|ks| - 1], ks[b]) then |ks| - 1 else b
  }

  /** `EarliestMin` picks a least element, and the earliest of the least ones. */
  lemma {:induction false} EarliestMinIsLeast(ks: seq<string>)
    requires |ks| > 0
    ensures forall i | 0 <= i < |ks| :: !JavaStrings.Less(ks[i], ks[EarliestMin(ks)])
    ensures forall i | 0 <= i < EarliestMin(ks) :: JavaStrings.Less(ks[EarliestMin(ks)], ks[i])
  {
    if |ks| > 1 {
      var p := ks[..|ks| - 1];
      var b := EarliestMin(p);
      var last := ks[|ks| - 1];
      EarliestMinIsLeast(p);
      if JavaStrings.Less(last, ks[b]) {
        forall i | 0 <= i < |ks| ensures !JavaStrings.Less(ks[i], last) {
          JavaStrings.LessTrichotomy(ks[i], last);
          if i < |ks| - 1 && JavaStrings.Less(ks[i], last) {
            JavaStrings.LessTransitive(ks[i], last, ks[b]);
            assert false;
          }
        }
        forall i | 0 <= i < |ks| - 1 ensures JavaStrings.Less(last, ks[i]) {
          assert p[i] == ks[i];
          JavaStrings.LessTrichotomy(ks[b], ks[i]);
          if ks[b] != ks[i] {
            JavaStrings.LessTransitive(last, ks[b], ks[i]);
          }
        }
      } else {
        forall i | 0 <= i < |ks| ensures !JavaStrings.Less(ks[i], ks[b]) {
          if i < |ks| - 1 {
            assert p[i] == ks[i];
          }
        }
        forall i | 0 <= i < b ensures JavaStrings.Less(ks[b], ks[i]) {
          assert p[i] == ks[i];
        }
      }
    }
  }

  method RotationStart(stackTrace: array<Frame>, initial: int, step: int, key: Frame -> string)
    returns (first: int)
    requires 1 <= step && step - 1 <= initial < stackTrace.Length
    ensures first == EarliestMin(WindowKeys(stackTrace[..], initial, step, key))
  {
    ghost var ks := WindowKeys(stackTrace[..], initial, step, key);
    first := 0;
    assert ks[..1] == [ks[0]];
    for i := 1 to step
      invariant first == EarliestMin(ks[..i])
    {
      assert ks[..i + 1][..i] == ks[..i];
      if JavaStrings.CompareTo(key(stackTrace[initial - i]), key(stackTrace[initial - first])) < 0 {
        first := i;
      }
    }
    assert ks[..step] == ks;
  }

  // ---------------------------------------------------------------------------
  // simplify
  // ---------------------------------------------------------------------------

  /**
   * The collapsed form of a recursion of period `step` whose top frame is
   * `initial`: the period, rotated to end at its frame with the least string
   * form, bracketed by the two sentinel frames.
   */
  function Collapsed(s: seq<Frame>, initial: int, step: int, key: Frame -> string): (r: seq<Frame>)
    requires Tried(|s|, initial, step)
  {
    var first := EarliestMin(WindowKeys(s, initial, step, key));
    [RecursionEnd] + s[initial - first - step + 1 .. initial - first + 1] + [RecursionStart]
  }

  /**
   * What `simplify` returns: the trace itself when no recursion is found,
   * otherwise only the collapsed period; the frames around it are dropped.
   */
  function Simplified(s: seq<Frame>, key: Frame -> string): (r: seq<Frame>)
  {
    match FindRecursion(s)
    case None => s
    case Some(h) => Collapsed(s, h.initial, h.step, key)
  }

  /**
   * A collapsed recursion has `step + 2` frames: the end sentinel, `step`
   * frames copied in order from valid indices of the trace, the last of them
   * the least one of the period, and the start sentinel.
   */
  lemma CollapsedShape(s: seq<Frame>, initial: int, step: int, key: Frame -> string)
    requires Tried(|s|, initial, step)
    ensures var first := EarliestMin(WindowKeys(s, initial, step, key));
            var r := Collapsed(s, initial, step, key);
            && 0 <= first < step
            && |r| == step + 2
            && r[0] == RecursionEnd
            && r[step + 1] == RecursionStart
            && 0 <= initial - first - step + 1
            && initial - first < |s|
            && r[1 .. step + 1] == s[initial - first - step + 1 .. initial - first + 1]
            && r[step] == s[initial - first]
  {
    var first := EarliestMin(WindowKeys(s, initial, step, key));
    var w := s[initial - first - step + 1 .. initial - first + 1];
    var r := Collapsed(s, initial, step, key);
    assert r == [RecursionEnd] + w + [RecursionStart];
    assert |w| == step;
    assert r[step] == w[step - 1];
  }

  /** The two shapes a simplified trace can take. */
  lemma SimplifiedShape(s: seq<Frame>, key: Frame -> string)
    ensures FindRecursion(s).None? ==> Simplified(s, key) == s
    ensures FindRecursion(s).Some? ==>
              var h := FindRecursion(s).value;
              && Tried(|s|, h.initial, h.step)
              && Simplified(s, key) == Collapsed(s, h.initial, h.step, key)
              && |Simplified(s, key)| == h.step + 2
  {
    match FindRecursion(s)
    case None =>
    case Some(h) => CollapsedShape(s, h.initial, h.step, key);
  }

  /** The body of `simplify` once `checkRecursion(initial, step)` succeeded. */
  method Collapse(stackTrace: array<Frame>, initial: int, step: int, key: Frame -> string)
    returns (recursion: array<Frame>)
    requires Tried(stackTrace.Length, initial, step)
    ensures recursion[..] == Collapsed(stackTrace[..], initial, step, key)
  {
    ghost var s := stackTrace[..];
    var first := RotationStart(stackTrace, initial, step, key);
    assert 0 <= first < step;
    recursion := Bracket(stackTrace, initial - first - step + 1, step);
    assert stackTrace[..] == s;
  }

  /** A new array: the end sentinel, `step` frames of the trace from `lo` on, the start sentinel. */
  method Bracket(stackTrace: array<Frame>, lo: int, step: int) returns (recursion: array<Frame>)
    requires 0 <= lo && 0 <= step && lo + step <= stackTrace.Length
    ensures fresh(recursion)
    ensures recursion[..] == [RecursionEnd] + stackTrace[lo .. lo + step] + [RecursionStart]
  {
    recursion := new Frame[step + 2];
    recursion[0] := RecursionEnd;
    for i := 0 to step
      invariant recursion[0] == RecursionEnd
      invariant forall j :: 1 <= j <= i ==> recursion[j] == stackTrace[lo + j - 1]
    {
      recursion[i + 1] := stackTrace[lo + i];
    }
    recursion[step + 1] := RecursionStart;
    assert recursion[..] == [RecursionEnd] + stackTrace[lo .. lo + step] + [RecursionStart];
  }

  method Simplify(stackTrace: array<Frame>, key: Frame -> string) returns (r: array<Frame>)
    ensures r[..] == Simplified(stackTrace[..], key)
    ensures FindRecursion(stackTrace[..]).None? ==> r == stackTrace
  {
    ghost var s := stackTrace[..];
    var len := stackTrace.Length - 1;
    var initial := len;
    while initial > 0
      invariant initial <= len
      invariant FindRecursion(s) == SearchFrom(s, initial, 1)
    {
      var found, step := TrySteps(stackTrace, initial);
      if found {
        r := Collapse(stackTrace, initial, step, key);
        return;
      }
      initial := initial - 1;
    }
    return stackTrace;
  }

  /** The inner loop of `simplify`: the shortest period that recurs with its top frame at `initial`. */
  method TrySteps(stackTrace: array<Frame>, initial: int) returns (found: bool, step: int)
    requires 0 < initial < stackTrace.Length
    ensures found ==> Tried(stackTrace.Length, initial, step) &&
                      SearchFrom(stackTrace[..], initial, 1) == Some(Hit(initial, step))
    ensures !found ==> SearchFrom(stackTrace[..], initial, 1) == SearchFrom(stackTrace[..], initial - 1, 1)
  {
    ghost var s := stackTrace[..];
    step := 1;
    while step < MAX_STEP && initial + 1 - MIN_ITER * step >= 0
      invariant 1 <= step <= MAX_STEP
      invariant SearchFrom(s, initial, 1) == SearchFrom(s, initial, step)
    {
      found := CheckRecursion(stackTrace, initial, step);
      if found {
        return;
      }
      step := step + 1;
    }
    found := false;
  }
}
