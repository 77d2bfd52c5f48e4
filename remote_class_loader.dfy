/**
 * The class loader used to run tests (RemoteClassLoader.java): a fixed
 * routing policy decides which classes come from the system loader and
 * which are fetched through a data finder; a loader remembers what it has
 * defined and how long fetching took.
 */
module RemoteClassLoading {

  /** Classes always taken from the system class loader. */
  const SYSTEM_CLASSES: seq<string> := [
    "testful.coverage.TrackerDatum",
    "testful.model.IClassRegistry"
  ]

  /** Classes always fetched remotely (`testful.runner.Executor` appears twice, as in the table it models). */
  const REMOTE_CLASSES: seq<string> := [
    "testful.coverage.Tracker",
    "testful.coverage.behavior.BehaviorTracker",
    "testful.coverage.fault.FaultTracker",
    "testful.coverage.stopper.Stopper",
    "testful.coverage.stopper.Stopper$1",
    "testful.coverage.whiteBox.TrackerWhiteBox",
    "testful.runner.Executor",
    "testful.mutation.MutationTestExecutor",
    "testful.model.executor.TestExecutor",
    "testful.coverage.CoverageTestExecutor",
    "testful.model.OperationResultTestExecutor",
    "testful.regression.TestfulTestCase$FaultTestExecutor",
    "testful.model.executor.ReflectionExecutor",
    "testful.model.ClassRegistry",
    "testful.model.ClassRegistry$1",
    "testful.runner.Executor",
    "testful.runner.ObjectRegistry"
  ]

  /** Name prefixes taken from the system class loader. */
  const SYSTEM_PACKAGES: seq<string> := ["testful.model.OperationResult"]

  /** Name prefixes always fetched remotely. */
  const REMOTE_PACKAGES: seq<string> := [
    "testful.coverage.behavior.Abstractor",
    "org.apache.commons.jexl"
  ]

  predicate StartsWith(name: string, prefix: string) {
    prefix <= name
  }

  predicate HasPrefixIn(name: string, prefixes: seq<string>) {
    exists i :: 0 <= i < |prefixes| && StartsWith(name, prefixes[i])
  }

  /** The routing policy: exact lists first, then prefix lists, system loader by default. */
  predicate RoutedToSystem(name: string) {
    if name in SYSTEM_CLASSES then true
    else if name in REMOTE_CLASSES then false
    else if HasPrefixIn(name, SYSTEM_PACKAGES) then true
    else if HasPrefixIn(name, REMOTE_PACKAGES) then false
    else true
  }

  /** `canUseSystemClassLoader`: the four table scans, in their order. */
  method CanUseSystemClassLoader(name: string) returns (b: bool)
    ensures b == RoutedToSystem(name)
  {
    var found := ScanNames(name, SYSTEM_CLASSES);
    if found { return true; }
    found := ScanNames(name, REMOTE_CLASSES);
    if found { return false; }
    found := ScanPrefixes(name, SYSTEM_PACKAGES);
    if found { return true; }
    found := ScanPrefixes(name, REMOTE_PACKAGES);
    return !found;
  }

  /** One exact-name table loop: is `name` listed? */
  method ScanNames(name: string, table: seq<string>) returns (found: bool)
    ensures found <==> name in table
  {
    for i := 0 to |table|
      invariant name !in table[..i]
    {
      if name == table[i] { return true; }
    }
    assert table[..|table|] == table;
    return false;
  }

  /** One prefix table loop: does `name` start with a listed prefix? */
  method ScanPrefixes(name: string, table: seq<string>) returns (found: bool)
    ensures found == HasPrefixIn(name, table)
  {
    for i := 0 to |table|
      invariant !HasPrefixIn(name, table[..i])
    {
      if StartsWith(name, table[i]) { return true; }
    }
    assert table[..|table|] == table;
    return false;
  }

  /** The tiers in priority order: each tier decides exactly when no earlier tier did. */
  lemma RoutingPriority(name: string)
    ensures name in SYSTEM_CLASSES ==> RoutedToSystem(name)
    ensures name !in SYSTEM_CLASSES && name in REMOTE_CLASSES ==> !RoutedToSystem(name)
    ensures (name !in SYSTEM_CLASSES && name !in REMOTE_CLASSES && HasPrefixIn(name, SYSTEM_PACKAGES))
              ==> RoutedToSystem(name)
    ensures !RoutedToSystem(name) <==>
              name !in SYSTEM_CLASSES &&
              (name in REMOTE_CLASSES || (!HasPrefixIn(name, SYSTEM_PACKAGES) && HasPrefixIn(name, REMOTE_PACKAGES)))
  {
  }

  /** Every class of the remote list is fetched remotely. */
  lemma RemoteClassesAreRemote(name: string)
    requires name in REMOTE_CLASSES
    ensures !RoutedToSystem(name)
  {
  }

  /** Abstractors and the expression-language library are always fetched remotely. */
  lemma RemotePackagesAreRemote(name: string)
    requires StartsWith(name, "testful.coverage.behavior.Abstractor") || StartsWith(name, "org.apache.commons.jexl")
    ensures !RoutedToSystem(name)
  {
    if StartsWith(name, "testful.coverage.behavior.Abstractor") {
      assert |name| >= 36 && name[8] == 'c';
    } else {
      assert name[0] == 'o';
    }
    assert name !in SYSTEM_CLASSES;
    assert !HasPrefixIn(name, SYSTEM_PACKAGES);
    assert HasPrefixIn(name, REMOTE_PACKAGES) by {
      if StartsWith(name, "testful.coverage.behavior.Abstractor") {
        assert StartsWith(name, REMOTE_PACKAGES[0]);
      } else {
        assert StartsWith(name, REMOTE_PACKAGES[1]);
      }
    }
  }

  /**
   * `OperationResult` and its inner classes come from the system loader,
   * except for names that the remote list names explicitly.
   */
  lemma OperationResultIsSystem(name: string)
    requires StartsWith(name, "testful.model.OperationResult")
    requires name !in REMOTE_CLASSES
    ensures RoutedToSystem(name)
  {
    assert StartsWith(name, SYSTEM_PACKAGES[0]);
  }

  /** The one listed exception: it carries the `OperationResult` prefix yet is fetched remotely. */
  lemma OperationResultTestExecutorIsRemote()
    ensures StartsWith("testful.model.OperationResultTestExecutor", "testful.model.OperationResult")
    ensures !RoutedToSystem("testful.model.OperationResultTestExecutor")
  {
    assert REMOTE_CLASSES[10] == "testful.model.OperationResultTestExecutor";
  }

  // ---------------------------------------------------------------------------
  // Loaders
  // ---------------------------------------------------------------------------

  /** The process-wide counter loader ids are drawn from. */
  class IdGenerator {
    var next: int

    constructor ()
      ensures next == 0
    {
      next := 0;
    }
  }

  /** What the finder answers for a class name: its bytes, nothing, or a transport failure. */
  datatype FetchResult = Data(bytes: seq<bv8>) | Missing | RemoteFailure

  /** The remote source of class files, seen as a fixed answer per name. */
  datatype DataFinder = DataFinder(key: string, getData: string -> FetchResult)

  /** How a load request ends. */
  datatype LoadOutcome =
    | Delegated                    // answered by the parent class loader
    | Defined(bytes: seq<bv8>)     // defined by this loader from the fetched bytes
    | ClassNotFound(message: string)

  class RemoteClassLoader {
    const id: int
    const finder: DataFinder
    const key: string
    const ids: IdGenerator
    /** Names this loader has defined. */
    var loaded: set<string>
    /** Time spent fetching since the last reading. */
    var time: int
    /** The names this loader defined, in order. */
    ghost var defined: seq<string>

    /** Every defined name is in `loaded`, once, and ids handed out so far are below the counter. */
    ghost predicate Valid()
      reads this, ids
    {
      id < ids.next && key == finder.key &&
      (forall x :: x in loaded <==> x in defined) &&
      (forall i, j :: 0 <= i < j < |defined| ==> defined[i] != defined[j])
    }

    constructor (finder: DataFinder, ids: IdGenerator)
      modifies ids
      ensures this.finder == finder && this.key == finder.key && this.ids == ids
      ensures id == old(ids.next) && ids.next == old(ids.next) + 1
      ensures loaded == {} && time == 0 && defined == []
      ensures Valid()
    {
      this.id := ids.next;
      ids.next := ids.next + 1;
      this.loaded := {};
      this.time := 0;
      this.defined := [];
      this.finder := finder;
      this.key := finder.key;
      this.ids := ids;
    }

    /** A loader on the same finder, with an empty cache and a later id. */
    method GetNew() returns (l: RemoteClassLoader)
      requires Valid()
      modifies ids
      ensures fresh(l) && l.Valid() && Valid()
      ensures l.finder == finder && l.key == key && l.ids == ids
      ensures l.loaded == {} && l.time == 0
      ensures l.id == old(ids.next) && l.id > id
      ensures ids.next == old(ids.next) + 1
    {
      l := new RemoteClassLoader(finder, ids);
    }

    /**
     * `findClass`: fetch the bytes, timing the fetch (`elapsed` is the
     * clock difference); a transport failure leaves the time alone.
     */
    method FindClass(name: string, elapsed: int) returns (outcome: LoadOutcome)
      modifies this
      ensures finder.getData(name) == RemoteFailure ==>
                outcome == ClassNotFound("Cannot retrieve the class " + name) && time == old(time)
      ensures finder.getData(name) != RemoteFailure ==> time == old(time) + elapsed
      ensures finder.getData(name) == Missing ==> outcome == ClassNotFound("Cannot find class " + name)
      ensures finder.getData(name).Data? ==>
                outcome == Defined(finder.getData(name).bytes) &&
                loaded == old(loaded) + {name} && defined == old(defined) + [name]
      ensures !finder.getData(name).Data? ==> loaded == old(loaded) && defined == old(defined)
    {
      var b := finder.getData(name);
      if b == RemoteFailure {
        return ClassNotFound("Cannot retrieve the class " + name);
      }
      time := time + elapsed;
      if b == Missing {
        return ClassNotFound("Cannot find class " + name);
      }
      loaded := loaded + {name};
      defined := defined + [name];
      return Defined(b.bytes);
    }

    /**
     * `loadClass`: system-routed and already-defined names go to the
     * parent; only the rest are fetched, so no name is defined twice.
     */
    method LoadClass(name: string, elapsed: int) returns (outcome: LoadOutcome)
      requires Valid()
      modifies this
      ensures Valid()
      ensures RoutedToSystem(name) || name in old(loaded) ==>
                outcome == Delegated && loaded == old(loaded) && time == old(time) && defined == old(defined)
      ensures !RoutedToSystem(name) && name !in old(loaded) ==>
                outcome != Delegated &&
                (outcome.Defined? <==> finder.getData(name).Data?) &&
                (loaded == if outcome.Defined? then old(loaded) + {name} else old(loaded))
      ensures !RoutedToSystem(name) && name !in old(loaded) ==>
                (finder.getData(name) == RemoteFailure ==>
                   outcome == ClassNotFound("Cannot retrieve the class " + name) && time == old(time)) &&
                (finder.getData(name) != RemoteFailure ==> time == old(time) + elapsed) &&
                (finder.getData(name) == Missing ==> outcome == ClassNotFound("Cannot find class " + name)) &&
                (finder.getData(name).Data? ==>
                   outcome == Defined(finder.getData(name).bytes) && defined == old(defined) + [name]) &&
                (!finder.getData(name).Data? ==> defined == old(defined))
    {
      var system := CanUseSystemClassLoader(name);
      if system || name in loaded {
        return Delegated;
      }
      outcome := FindClass(name, elapsed);
    }

    /** `getLoadingTime`: the time accumulated so far, and the counter starts again from zero. */
    method GetLoadingTime() returns (ret: int)
      modifies this
      ensures ret == old(time) && time == 0
      ensures loaded == old(loaded) && defined == old(defined)
    {
      ret := time;
      time := 0;
    }
  }
}
