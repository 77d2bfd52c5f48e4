/**
 * Fault identity (Fault.java): a failure observed while running a test,
 * reduced to the exception class, the normalised stack trace and the class
 * of its cause.  Messages are carried along but take no part in identity.
 */
module Faults {
  import opened Wrappers
  import opened Streams
  import opened StackTraces

  /** The kinds of `FaultyExecutionException` the normaliser distinguishes. */
  datatype FaultKind = TestStopped | UnexpectedException | OtherFault

  /** The cause of an exception: its class, its message and whether it is a `StackOverflowError`. */
  datatype Cause = Cause(className: string, message: Option<string>, isStackOverflow: bool)

  /** A thrown `FaultyExecutionException`. */
  datatype Thrown = Thrown(
    kind: FaultKind,
    className: string,
    message: Option<string>,
    stackTrace: seq<Frame>,
    cause: Option<Cause>)

  datatype Fault = Fault(
    exceptionName: string,
    message: Option<string>,
    stackTrace: seq<Frame>,
    causeExceptionName: Option<string>,
    causeMessage: Option<string>)

  /** Faults whose stack may hold a recursion: stopped tests and stack overflows. */
  predicate RecursionSensitive(t: Thrown) {
    t.kind == TestStopped ||
    (t.kind == UnexpectedException && t.cause.Some? && t.cause.value.isStackOverflow)
  }

  /** The stack trace a fault keeps for the exception `t`. */
  function ProcessedStack(t: Thrown, target: Option<string>, key: Frame -> string): (r: seq<Frame>)
  {
    if |t.stackTrace| == 0 then []
    else if RecursionSensitive(t) then Simplified(Pruned(t.stackTrace, target), key)
    else Pruned(t.stackTrace, target)
  }

  /**
   * The kept trace is empty for an empty raw trace, is the slice between
   * the two cuts when no recursion is looked for, and otherwise is that
   * slice or its collapsed recursion.
   */
  lemma ProcessedStackCases(t: Thrown, target: Option<string>, key: Frame -> string)
    ensures |t.stackTrace| == 0 ==> ProcessedStack(t, target, key) == []
    ensures var s := t.stackTrace;
            var n := UpperCut(s, target);
            var base := LowerCutFrom(s, n, 0);
            |s| > 0 && !RecursionSensitive(t) ==> ProcessedStack(t, target, key) == s[base .. n]
    ensures var p := Pruned(t.stackTrace, target);
            |t.stackTrace| > 0 && RecursionSensitive(t) ==>
              if FindRecursion(p).None? then ProcessedStack(t, target, key) == p
              else |ProcessedStack(t, target, key)| == FindRecursion(p).value.step + 2
  {
    var p := Pruned(t.stackTrace, target);
    SimplifiedShape(p, key);
  }

  /** The first loop of `processStackTrace`: one past the deepest frame of the class under test. */
  method CutAbove(stackTrace: seq<Frame>, baseClassName: Option<string>) returns (n: nat)
    requires |stackTrace| > 0
    ensures n == UpperCut(stackTrace, baseClassName)
  {
    if baseClassName.None? {
      return |stackTrace|;
    }
    var i := |stackTrace| - 1;
    while i >= 0 && baseClassName.value != stackTrace[i].className
      invariant -1 <= i < |stackTrace|
      invariant LastOf(stackTrace, baseClassName.value, |stackTrace|) == LastOf(stackTrace, baseClassName.value, i + 1)
    {
      i := i - 1;
    }
    if i >= 0 {
      n := i + 1;
    } else {
      n := |stackTrace|;
    }
  }

  /** The second loop of `processStackTrace`: skip frames while testful's own frames lie just ahead. */
  method CutBelow(stackTrace: seq<Frame>, n: nat) returns (base: nat)
    requires n <= |stackTrace|
    ensures base == LowerCutFrom(stackTrace, n, 0)
  {
    base := 0;
    while InfrastructureAhead(stackTrace, n, base)
      invariant 0 <= base <= n
      invariant LowerCutFrom(stackTrace, n, 0) == LowerCutFrom(stackTrace, n, base)
      decreases n - base
    {
      base := base + 1;
    }
  }

  /** `processStackTrace`: cut, strip and, for recursion-sensitive faults, simplify. */
  method ProcessStackTrace(fault: Thrown, baseClassName: Option<string>, key: Frame -> string)
    returns (r: array<Frame>)
    ensures r[..] == ProcessedStack(fault, baseClassName, key)
  {
    var stackTrace := fault.stackTrace;
    if |stackTrace| == 0 {
      r := new Frame[0];
      return;
    }
    var n := CutAbove(stackTrace, baseClassName);
    var base := CutBelow(stackTrace, n);

    var pruned := CopyRange(stackTrace, base, n);
    assert pruned[..] == Pruned(stackTrace, baseClassName);

    if RecursionSensitive(fault) {
      r := Simplify(pruned, key);
    } else {
      r := pruned;
    }
  }

  /** The copy loop of `processStackTrace`: a new array holding the frames `base .. n`. */
  method CopyRange(stackTrace: seq<Frame>, base: nat, n: nat) returns (pruned: array<Frame>)
    requires base <= n <= |stackTrace|
    ensures fresh(pruned)
    ensures pruned[..] == stackTrace[base .. n]
  {
    pruned := new Frame[n - base];
    for i := base to n
      invariant pruned[.. i - base] == stackTrace[base .. i]
    {
      pruned[i - base] := stackTrace[i];
    }
  }

  /** `Fault(exc, targetClassName)`. */
  method NewFault(exc: Thrown, targetClassName: Option<string>, key: Frame -> string) returns (f: Fault)
    ensures f.exceptionName == exc.className && f.message == exc.message
    ensures f.stackTrace == ProcessedStack(exc, targetClassName, key)
    ensures f.causeExceptionName == (if exc.cause.None? then None else Some(exc.cause.value.className))
    ensures f.causeMessage == (if exc.cause.None? then None else exc.cause.value.message)
    ensures WellFormedCause(f)
  {
    var stackTrace := ProcessStackTrace(exc, targetClassName, key);
    match exc.cause
    case None =>
      f := Fault(exc.className, exc.message, stackTrace[..], None, None);
    case Some(c) =>
      f := Fault(exc.className, exc.message, stackTrace[..], Some(c.className), c.message);
  }

  /** A cause message is only ever recorded together with a cause class. */
  predicate WellFormedCause(f: Fault) {
    f.causeExceptionName.None? ==> f.causeMessage.None?
  }

  // ---------------------------------------------------------------------------
  // Identity: equals and hashCode
  // ---------------------------------------------------------------------------

  /** `equals`: exception class, element-wise stack and cause class; never the messages. */
  predicate Equals(a: Fault, b: Fault) {
    a.exceptionName == b.exceptionName &&
    a.stackTrace == b.stackTrace &&
    a.causeExceptionName == b.causeExceptionName
  }

  /** The fields both constructors feed into the hash code. */
  function HashInputs(f: Fault): (string, seq<Frame>, Option<string>) {
    (f.exceptionName, f.stackTrace, f.causeExceptionName)
  }

  /** `String.hashCode`, over unbounded integers. */
  function StringHash(s: string): int {
    if |s| == 0 then 0 else 31 * StringHash(s[..|s| - 1]) + s[|s| - 1] as int
  }

  /** `StackTraceElement.hashCode`, over unbounded integers; a null file name hashes to 0. */
  function FrameHash(e: Frame): int {
    31 * (31 * (31 * StringHash(e.className) + StringHash(e.methodName)) +
          (if e.fileName.Some? then StringHash(e.fileName.value) else 0)) + e.lineNumber
  }

  /** `Arrays.hashCode` of a frame array, over unbounded integers. */
  function StackHash(s: seq<Frame>): int {
    if |s| == 0 then 1 else 31 * StackHash(s[..|s| - 1]) + FrameHash(s[|s| - 1])
  }

  /** The hash code both constructors compute. */
  function HashCode(f: Fault): int {
    var (name, stack, cause) := HashInputs(f);
    31 * 31 * 31 * StackHash(stack) + 31 * 31 * StringHash(name) +
    31 * (if cause.None? then 0 else StringHash(cause.value))
  }

  /** Two faults are equal exactly when the inputs of their hash codes agree. */
  lemma EqualsIsHashInputs(a: Fault, b: Fault)
    ensures Equals(a, b) <==> HashInputs(a) == HashInputs(b)
  {
  }

  /** Equal faults have equal hash codes. */
  lemma EqualsImpliesSameHash(a: Fault, b: Fault)
    requires Equals(a, b)
    ensures HashCode(a) == HashCode(b)
  {
  }

  /** Messages take no part in equality: replacing them never changes the answer. */
  lemma EqualsIgnoresMessages(a: Fault, b: Fault, m: Option<string>, cm: Option<string>)
    ensures Equals(a, b) == Equals(a.(message := m, causeMessage := cm), b)
  {
  }

  /** `equals` is an equivalence relation. */
  lemma EqualsIsEquivalence(a: Fault, b: Fault, c: Fault)
    ensures Equals(a, a)
    ensures Equals(a, b) ==> Equals(b, a)
    ensures Equals(a, b) && Equals(b, c) ==> Equals(a, c)
  {
  }

  // ---------------------------------------------------------------------------
  // write / read
  // ---------------------------------------------------------------------------

  type FaultToken = Token<()>

  /** Every frame has a file name, so `writeUTF` can write each of them. */
  predicate FileNamesKnown(fs: seq<Frame>) {
    forall i :: 0 <= i < |fs| ==> fs[i].fileName.Some?
  }

  function FrameTokens(e: Frame): seq<FaultToken>
    requires e.fileName.Some?
  {
    [Utf(e.className), Utf(e.methodName), Utf(e.fileName.value), Int(e.lineNumber)]
  }

  function EncodeFrames(fs: seq<Frame>): seq<FaultToken>
    requires FileNamesKnown(fs)
  {
    if |fs| == 0 then [] else FrameTokens(fs[0]) + EncodeFrames(fs[1..])
  }

  lemma {:induction false} EncodeFramesAppend(fs: seq<Frame>, e: Frame)
    requires FileNamesKnown(fs) && e.fileName.Some?
    ensures FileNamesKnown(fs + [e])
    ensures EncodeFrames(fs + [e]) == EncodeFrames(fs) + FrameTokens(e)
  {
    if |fs| > 0 {
      assert (fs + [e])[1..] == fs[1..] + [e];
      EncodeFramesAppend(fs[1..], e);
    } else {
      assert fs + [e] == [e];
    }
  }

  function EncodeCause(f: Fault): seq<FaultToken> {
    match f.causeExceptionName
    case None => [Bool(false)]
    case Some(c) =>
      [Bool(true), Utf(c)] +
      (if f.causeMessage.Some? then [Bool(true), Utf(f.causeMessage.value)] else [Bool(false)])
  }

  /** What `write` puts on the stream; `writeUTF(null)` on a missing message or file name throws. */
  function Encode(f: Fault): Result<seq<FaultToken>, StreamError> {
    if f.message.None? || !FileNamesKnown(f.stackTrace) then Err(NullPointer)
    else Ok([Utf(f.exceptionName), Utf(f.message.value), Short(ShortBits(|f.stackTrace|))] +
            EncodeFrames(f.stackTrace) + EncodeCause(f))
  }

  method Write(f: Fault) returns (r: Result<seq<FaultToken>, StreamError>)
    ensures r == Encode(f)
  {
    if f.message.None? {
      return Err(NullPointer);
    }
    var out: seq<FaultToken> := [Utf(f.exceptionName), Utf(f.message.value), Short(ShortBits(|f.stackTrace|))];
    ghost var header := out;
    for i := 0 to |f.stackTrace|
      invariant FileNamesKnown(f.stackTrace[..i])
      invariant out == header + EncodeFrames(f.stackTrace[..i])
    {
      var st := f.stackTrace[i];
      if st.fileName.None? {
        return Err(NullPointer);
      }
      EncodeFramesAppend(f.stackTrace[..i], st);
      assert f.stackTrace[..i + 1] == f.stackTrace[..i] + [st];
      out := out + [Utf(st.className), Utf(st.methodName), Utf(st.fileName.value), Int(st.lineNumber)];
    }
    assert f.stackTrace[..|f.stackTrace|] == f.stackTrace;
    ghost var body := out;
    if f.causeExceptionName.Some? {
      out := out + [Bool(true), Utf(f.causeExceptionName.value)];
      if f.causeMessage.Some? {
        out := out + [Bool(true), Utf(f.causeMessage.value)];
      } else {
        out := out + [Bool(false)];
      }
    } else {
      out := out + [Bool(false)];
    }
    assert out == body + EncodeCause(f);
    return Ok(out);
  }

  // Reading: each read consumes one token of the expected type or fails.

  function ReadUtf(ts: seq<FaultToken>): Result<(string, seq<FaultToken>), StreamError> {
    if |ts| > 0 && ts[0].Utf? then Ok((ts[0].s, ts[1..])) else Err(EndOfStream)
  }

  function ReadInt(ts: seq<FaultToken>): Result<(int, seq<FaultToken>), StreamError> {
    if |ts| > 0 && ts[0].Int? then Ok((ts[0].v, ts[1..])) else Err(EndOfStream)
  }

  function ReadBool(ts: seq<FaultToken>): Result<(bool, seq<FaultToken>), StreamError> {
    if |ts| > 0 && ts[0].Bool? then Ok((ts[0].b, ts[1..])) else Err(EndOfStream)
  }

  function ReadShort(ts: seq<FaultToken>): Result<(int, seq<FaultToken>), StreamError> {
    if |ts| > 0 && ts[0].Short? && 0 <= ts[0].bits < SHORT_RANGE then Ok((SignedShort(ts[0].bits), ts[1..]))
    else Err(EndOfStream)
  }

  /** `new StackTraceElement(readUTF(), readUTF(), readUTF(), readInt())` */
  function ReadFrame(ts: seq<FaultToken>): Result<(Frame, seq<FaultToken>), StreamError> {
    if |ts| >= 4 && ts[0].Utf? && ts[1].Utf? && ts[2].Utf? && ts[3].Int? then
      Ok((Frame(ts[0].s, ts[1].s, Some(ts[2].s), ts[3].v), ts[4..]))
    else Err(EndOfStream)
  }

  /** Prefixes the frames already read to the outcome of reading the rest. */
  function Prepend(fs: seq<Frame>, r: Result<(seq<Frame>, seq<FaultToken>), StreamError>):
    Result<(seq<Frame>, seq<FaultToken>), StreamError>
  {
    match r
    case Ok((rest, ts)) => Ok((fs + rest, ts))
    case Err(e) => Err(e)
  }

  lemma PrependTwice(a: seq<Frame>, b: seq<Frame>, r: Result<(seq<Frame>, seq<FaultToken>), StreamError>)
    ensures Prepend(a, Prepend(b, r)) == Prepend(a + b, r)
  {
    if r.Ok? {
      assert a + (b + r.value.0) == (a + b) + r.value.0;
    }
  }

  lemma PrependNothing(r: Result<(seq<Frame>, seq<FaultToken>), StreamError>)
    ensures Prepend([], r) == r
  {
    if r.Ok? {
      assert [] + r.value.0 == r.value.0;
    }
  }

  function DecodeFrames(ts: seq<FaultToken>, n: nat): Result<(seq<Frame>, seq<FaultToken>), StreamError> {
    if n == 0 then Ok(([], ts))
    else match ReadFrame(ts)
      case Err(e) => Err(e)
      case Ok((e, rest)) => Prepend([e], DecodeFrames(rest, n - 1))
  }

  function DecodeCause(ts: seq<FaultToken>): Result<(Option<string>, Option<string>, seq<FaultToken>), StreamError> {
    match ReadBool(ts)
    case Err(e) => Err(e)
    case Ok((false, rest)) => Ok((None, None, rest))
    case Ok((true, rest)) =>
      match ReadUtf(rest)
      case Err(e) => Err(e)
      case Ok((name, rest2)) =>
        match ReadBool(rest2)
        case Err(e) => Err(e)
        case Ok((false, rest3)) => Ok((Some(name), None, rest3))
        case Ok((true, rest3)) =>
          match ReadUtf(rest3)
          case Err(e) => Err(e)
          case Ok((msg, rest4)) => Ok((Some(name), Some(msg), rest4))
  }

  /** What `read` makes of a stream: the fault and the tokens after it, or the exception thrown. */
  function Decode(ts: seq<FaultToken>): Result<(Fault, seq<FaultToken>), StreamError> {
    match ReadUtf(ts)
    case Err(e) => Err(e)
    case Ok((name, ts1)) =>
      match ReadUtf(ts1)
      case Err(e) => Err(e)
      case Ok((message, ts2)) =>
        match ReadShort(ts2)
        case Err(e) => Err(e)
        case Ok((len, ts3)) =>
          if len < 0 then Err(NegativeArraySize)
          else match DecodeFrames(ts3, len)
            case Err(e) => Err(e)
            case Ok((frames, ts4)) =>
              match DecodeCause(ts4)
              case Err(e) => Err(e)
              case Ok((cname, cmsg, ts5)) => Ok((Fault(name, Some(message), frames, cname, cmsg), ts5))
  }

  method Read(input: seq<FaultToken>) returns (r: Result<(Fault, seq<FaultToken>), StreamError>)
    ensures r == Decode(input)
  {
    var ins := input;
    if !(|ins| > 0 && ins[0].Utf?) { return Err(EndOfStream); }
    var exceptionName := ins[0].s;
    ins := ins[1..];
    if !(|ins| > 0 && ins[0].Utf?) { return Err(EndOfStream); }
    var message := ins[0].s;
    ins := ins[1..];
    if !(|ins| > 0 && ins[0].Short? && 0 <= ins[0].bits < SHORT_RANGE) { return Err(EndOfStream); }
    var stackTraceLen := SignedShort(ins[0].bits);
    ins := ins[1..];
    if stackTraceLen < 0 { return Err(NegativeArraySize); }

    var frames := ReadFrames(ins, stackTraceLen);
    if frames.Err? { return Err(frames.error); }
    var stackTrace := frames.value.0;
    ins := frames.value.1;

    var causeExceptionName: Option<string> := None;
    var causeMessage: Option<string> := None;
    if !(|ins| > 0 && ins[0].Bool?) { return Err(EndOfStream); }
    var hasCause := ins[0].b;
    ins := ins[1..];
    if hasCause {
      if !(|ins| > 0 && ins[0].Utf?) { return Err(EndOfStream); }
      causeExceptionName := Some(ins[0].s);
      ins := ins[1..];
      if !(|ins| > 0 && ins[0].Bool?) { return Err(EndOfStream); }
      var hasMessage := ins[0].b;
      ins := ins[1..];
      if hasMessage {
        if !(|ins| > 0 && ins[0].Utf?) { return Err(EndOfStream); }
        causeMessage := Some(ins[0].s);
        ins := ins[1..];
      }
    }
    return Ok((Fault(exceptionName, Some(message), stackTrace, causeExceptionName, causeMessage), ins));
  }

  /** The frame loop of `read`: `len` frames into a new array, in stream order. */
  method ReadFrames(input: seq<FaultToken>, len: nat) returns (r: Result<(seq<Frame>, seq<FaultToken>), StreamError>)
    ensures r == DecodeFrames(input, len)
  {
    var ins := input;
    var stackTrace := new Frame[len];
    PrependNothing(DecodeFrames(input, len));
    assert stackTrace[..0] == [];
    for i := 0 to len
      invariant DecodeFrames(input, len) == Prepend(stackTrace[..i], DecodeFrames(ins, len - i))
    {
      ghost var before := stackTrace[..i];
      if !(|ins| >= 4 && ins[0].Utf? && ins[1].Utf? && ins[2].Utf? && ins[3].Int?) {
        return Err(EndOfStream);
      }
      var e := Frame(ins[0].s, ins[1].s, Some(ins[2].s), ins[3].v);
      assert DecodeFrames(ins, len - i) == Prepend([e], DecodeFrames(ins[4..], len - i - 1));
      PrependTwice(before, [e], DecodeFrames(ins[4..], len - i - 1));
      stackTrace[i] := e;
      assert stackTrace[..i + 1] == before + [e];
      ins := ins[4..];
    }
    assert stackTrace[..len] == stackTrace[..];
    assert stackTrace[..] + [] == stackTrace[..];
    return Ok((stackTrace[..], ins));
  }

  lemma {:induction false} DecodeEncodeFrames(fs: seq<Frame>, rest: seq<FaultToken>)
    requires FileNamesKnown(fs)
    ensures DecodeFrames(EncodeFrames(fs) + rest, |fs|) == Ok((fs, rest))
  {
    if |fs| > 0 {
      var ts := EncodeFrames(fs) + rest;
      var tail := EncodeFrames(fs[1..]) + rest;
      assert ts == FrameTokens(fs[0]) + tail;
      assert ts[4..] == tail;
      assert ReadFrame(ts) == Ok((fs[0], tail));
      DecodeEncodeFrames(fs[1..], rest);
      assert DecodeFrames(tail, |fs| - 1) == Ok((fs[1..], rest));
      assert DecodeFrames(ts, |fs|) == Prepend([fs[0]], Ok((fs[1..], rest)));
      assert [fs[0]] + fs[1..] == fs;
    } else {
      assert EncodeFrames(fs) + rest == rest;
    }
  }

  lemma DecodeEncodeCause(f: Fault, rest: seq<FaultToken>)
    requires WellFormedCause(f)
    ensures DecodeCause(EncodeCause(f) + rest) == Ok((f.causeExceptionName, f.causeMessage, rest))
  {
    var ts := EncodeCause(f) + rest;
    if f.causeExceptionName.None? {
      assert ts[1..] == rest;
    } else if f.causeMessage.None? {
      assert ts[1..][1..] == [Bool(false)] + rest;
      assert ts[1..][1..][1..] == rest;
    } else {
      assert ts[1..][1..] == [Bool(true), Utf(f.causeMessage.value)] + rest;
      assert ts[1..][1..][1..][1..] == rest;
    }
  }

  /** A fault written with a message and fewer than 32768 frames reads back as the same fault, messages included. */
  lemma ReadWriteRoundTrip(f: Fault, rest: seq<FaultToken>)
    requires f.message.Some? && WellFormedCause(f) && FileNamesKnown(f.stackTrace)
    requires |f.stackTrace| <= 32767
    ensures Encode(f).Ok?
    ensures Decode(Encode(f).value + rest) == Ok((f, rest))
  {
    var ts := Encode(f).value + rest;
    var frames := EncodeFrames(f.stackTrace);
    ShortRoundTrip(|f.stackTrace|);
    assert ts == [Utf(f.exceptionName), Utf(f.message.value), Short(ShortBits(|f.stackTrace|))] +
                 (frames + (EncodeCause(f) + rest));
    DecodeEncodeFrames(f.stackTrace, EncodeCause(f) + rest);
    assert ts[1..][1..][1..] == frames + (EncodeCause(f) + rest);
    DecodeEncodeCause(f, rest);
  }

  /** A fault without a message, or with a frame whose file name is unknown, cannot be written. */
  lemma WriteFailsOnNull(f: Fault)
    ensures Encode(f).Err? <==> f.message.None? || exists i :: 0 <= i < |f.stackTrace| && f.stackTrace[i].fileName.None?
    ensures Encode(f).Err? ==> Encode(f).error == NullPointer
  {
  }

  /** Every frame read from a stream carries the file name it was read with. */
  lemma {:induction false} DecodedFileNamesKnown(ts: seq<FaultToken>, n: nat)
    ensures DecodeFrames(ts, n).Ok? ==> FileNamesKnown(DecodeFrames(ts, n).value.0)
  {
    if n > 0 && ReadFrame(ts).Ok? {
      var (e, rest) := ReadFrame(ts).value;
      DecodedFileNamesKnown(rest, n - 1);
      var r := DecodeFrames(rest, n - 1);
      if r.Ok? {
        assert DecodeFrames(ts, n).value.0 == [e] + r.value.0;
      }
    }
  }

  /** A fault that was read can be written again: it has a message and every file name. */
  lemma ReadFaultIsWritable(ts: seq<FaultToken>)
    ensures Decode(ts).Ok? ==> Encode(Decode(ts).value.0).Ok?
  {
    if Decode(ts).Ok? {
      var ts3 := ts[1..][1..][1..];
      DecodedFileNamesKnown(ts3, SignedShort(ts[1..][1..][0].bits));
    }
  }

  /** A fault with 32768 to 65535 frames is written, but reading it back throws. */
  lemma ReadLongStackFails(f: Fault, rest: seq<FaultToken>)
    requires f.message.Some? && FileNamesKnown(f.stackTrace)
    requires 32768 <= |f.stackTrace| < SHORT_RANGE
    ensures Decode(Encode(f).value + rest) == Err(NegativeArraySize)
  {
    var ts := Encode(f).value + rest;
    assert ts[2] == Short(|f.stackTrace|);
    assert ts[2..][0] == ts[2];
    assert ts[1..][0] == ts[1];
  }
}
