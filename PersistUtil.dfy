/**
 * The persistence helpers: positional parameter binding, batched iteration over a
 * query's results, single-row queries, the lazy initialisation of the shared
 * entity-manager factory, and insertion of several entities in one transaction.
 * A query's result rows, the outcome of creating a factory and the outcome of each
 * persist are inputs; the JPA provider itself is not modelled.
 */
module PersistUtil {
  import opened Wrappers

  // ---------------------------------------------------------------------------
  // Positional parameters
  // ---------------------------------------------------------------------------

  /**
   * The bindings the helpers make on a query: `params[i]` at JPA position i + 1,
   * for every i, and nothing at all when `params` is null.
   */
  method BindParameters<P>(params: Option<seq<P>>) returns (bound: map<int, P>)
    ensures params.None? ==> bound == map[]
    ensures params.Some? ==> forall p :: p in bound <==> 1 <= p <= |params.value|
    ensures params.Some? ==> forall i :: 0 <= i < |params.value| ==> bound[i + 1] == params.value[i]
  {
    bound := map[];
    if params.Some? {
      var ps := params.value;
      for i := 0 to |ps|
        invariant forall p :: p in bound <==> 1 <= p <= i
        invariant forall k :: 0 <= k < i ==> bound[k + 1] == ps[k]
      {
        bound := bound[i + 1 := ps[i]];
      }
    }
  }

  // ---------------------------------------------------------------------------
  // queryEach: batched iteration with an early stop
  // ---------------------------------------------------------------------------

  /** The batch size of the `queryEach` overload that does not take one. */
  const DefaultBatchSize: int := 20

  /**
   * The rows a query returns with first result `start` and at most `size` results
   * (a size of 0 gives none).
   */
  function Page<T>(rows: seq<T>, start: int, size: int): (page: seq<T>)
    requires 0 <= start
    ensures |page| == 0 <==> size <= 0 || start >= |rows|
    ensures (size >= 0 ==> |page| <= size) && (|page| > 0 ==> start + |page| <= |rows|)
    ensures forall k :: 0 <= k < |page| ==> page[k] == rows[start + k]
    ensures size > 0 && start < |rows| ==> |page| == (if start + size <= |rows| then size else |rows| - start)
  {
    if size <= 0 || start >= |rows| then []
    else if start + size <= |rows| then rows[start..start + size]
    else rows[start..]
  }

  /**
   * `visited` is what a handler sees when it is offered `rows` in order until it
   * returns false: a prefix of the rows, every row but the last accepted, and
   * either every row offered or the last one refused.
   */
  ghost predicate IsHandledPrefix<T>(rows: seq<T>, handler: T -> bool, visited: seq<T>) {
    && |visited| <= |rows|
    && visited == rows[..|visited|]
    && (forall i :: 0 <= i < |visited| - 1 ==> handler(visited[i]))
    && (|visited| == |rows| || (|visited| > 0 && !handler(visited[|visited| - 1])))
  }

  /** The handled prefix is determined by the rows and the handler. */
  lemma HandledPrefixIsUnique<T>(rows: seq<T>, handler: T -> bool, v: seq<T>, w: seq<T>)
    requires IsHandledPrefix(rows, handler, v) && IsHandledPrefix(rows, handler, w)
    ensures v == w
  {
  }

  /** A handler that accepts every row sees all of them. */
  lemma AcceptingHandlerSeesAll<T>(rows: seq<T>, handler: T -> bool, visited: seq<T>)
    requires forall i :: 0 <= i < |rows| ==> handler(rows[i])
    ensures IsHandledPrefix(rows, handler, visited) <==> visited == rows
  {
  }

  /** A handler that first refuses row j (0-based) sees exactly rows 0..j. */
  lemma RefusalStopsIteration<T>(rows: seq<T>, handler: T -> bool, j: nat, visited: seq<T>)
    requires j < |rows| && !handler(rows[j])
    requires forall i :: 0 <= i < j ==> handler(rows[i])
    ensures IsHandledPrefix(rows, handler, visited) <==> visited == rows[..j + 1]
  {
    if IsHandledPrefix(rows, handler, visited) {
      HandledPrefixIsUnique(rows, handler, visited, rows[..j + 1]);
    }
  }

  /** Page n of `starts` begins at n * batchSize. */
  ghost predicate PagesStartAt(starts: seq<int>, batchSize: int) {
    forall n :: 0 <= n < |starts| ==> starts[n] == n * batchSize
  }

  /**
   * How `queryEach` ends with a positive batch size: the handler saw the handled
   * prefix; it refused the last row it saw and the last page requested holds that
   * row, or it accepted every row and the last page requested was the first one
   * past the end.
   */
  ghost predicate EndsProperly<T>(rows: seq<T>, handler: T -> bool, batchSize: int, visited: seq<T>, starts: seq<int>) {
    && IsHandledPrefix(rows, handler, visited)
    && |starts| > 0
    && (|visited| > 0 && !handler(visited[|visited| - 1]) ==>
          starts[|starts| - 1] <= |visited| - 1 < starts[|starts| - 1] + batchSize)
    && ((|visited| == 0 || handler(visited[|visited| - 1])) ==>
          |rows| <= starts[|starts| - 1] && forall n :: 0 <= n < |starts| - 1 ==> starts[n] < |rows|)
  }

  lemma EndsOnEmptyPage<T>(rows: seq<T>, handler: T -> bool, batchSize: int, visited: seq<T>, starts: seq<int>)
    requires batchSize > 0 && |starts| > 0 && |rows| <= starts[|starts| - 1]
    requires forall n :: 0 <= n < |starts| - 1 ==> starts[n] < |rows|
    requires visited == rows && forall i :: 0 <= i < |visited| ==> handler(visited[i])
    ensures EndsProperly(rows, handler, batchSize, visited, starts)
  {
  }

  lemma EndsOnRefusal<T>(rows: seq<T>, handler: T -> bool, batchSize: int, visited: seq<T>, starts: seq<int>)
    requires batchSize > 0 && |starts| > 0 && 0 < |visited| <= |rows|
    requires visited == rows[..|visited|]
    requires starts[|starts| - 1] <= |visited| - 1 < starts[|starts| - 1] + batchSize
    requires forall i :: 0 <= i < |visited| - 1 ==> handler(visited[i])
    requires !handler(visited[|visited| - 1])
    ensures EndsProperly(rows, handler, batchSize, visited, starts)
  {
  }

  /**
   * The next page starts one batch further on. Kept apart from `QueryEach` so that
   * the multiplication stays out of that method's proof.
   */
  lemma NextPageStart(n: int, batchSize: int)
    ensures n * batchSize + batchSize == (n + 1) * batchSize
  {
  }

  /**
   * `queryEach(resultType, handler, batchSize, query, params)` over the query's
   * ordered result `rows`. Returns the rows the handler was called on, the first
   * result of every page requested, and false when `setMaxResults` rejects a
   * negative batch size. Page n starts at n * batchSize; iteration stops when the
   * handler refuses a row (the last page requested is the one holding it) or at the
   * first empty page (every earlier page was non-empty). A batch size of 0 gives an
   * empty first page.
   */
  method QueryEach<T>(rows: seq<T>, handler: T -> bool, batchSize: int)
    returns (visited: seq<T>, starts: seq<int>, ok: bool)
    ensures ok <==> batchSize >= 0
    ensures !ok ==> visited == [] && starts == []
    ensures PagesStartAt(starts, batchSize)
    ensures batchSize == 0 ==> visited == [] && starts == [0]
    ensures batchSize > 0 ==> EndsProperly(rows, handler, batchSize, visited, starts)
  {
    visited, starts := [], [];
    if batchSize < 0 {
      // setMaxResults throws IllegalArgumentException
      return visited, starts, false;
    }
    ok := true;
    var start := 0;
    while true
      invariant start == |starts| * batchSize
      invariant PagesStartAt(starts, batchSize)
      invariant forall n :: 0 <= n < |starts| ==> starts[n] < |rows|
      invariant batchSize == 0 ==> starts == []
      invariant start <= |rows| ==> visited == rows[..start]
      invariant start > |rows| ==> visited == rows
      invariant forall i :: 0 <= i < |visited| ==> handler(visited[i])
      decreases |rows| - start
    {
      starts := starts + [start];
      var page := Page(rows, start, batchSize);
      if |page| == 0 {
        if batchSize > 0 {
          EndsOnEmptyPage(rows, handler, batchSize, visited, starts);
        }
        return;
      }
      for k := 0 to |page|
        invariant start + |page| <= |rows| && |page| <= batchSize
        invariant visited == rows[..start + k]
        invariant forall i :: 0 <= i < |visited| ==> handler(visited[i])
      {
        visited := visited + [page[k]];
        if !handler(page[k]) {
          EndsOnRefusal(rows, handler, batchSize, visited, starts);
          return;
        }
      }
      NextPageStart(|starts| - 1, batchSize);
      start := start + batchSize;
    }
  }

  /** `queryEach` without a batch size: pages of `DefaultBatchSize` rows. */
  method QueryEachDefault<T>(rows: seq<T>, handler: T -> bool) returns (visited: seq<T>, starts: seq<int>)
    ensures EndsProperly(rows, handler, DefaultBatchSize, visited, starts)
    ensures PagesStartAt(starts, DefaultBatchSize)
  {
    var ok;
    visited, starts, ok := QueryEach(rows, handler, DefaultBatchSize);
  }

  // ---------------------------------------------------------------------------
  // queryOne and queryZeroOne
  // ---------------------------------------------------------------------------

  /** The exceptions `getSingleResult` raises. */
  datatype QueryError = NoResult | NonUniqueResult

  /** `queryOne`: the single row, NoResultException without one, NonUniqueResultException with several. */
  function QueryOne<T>(rows: seq<T>): (r: Result<T, QueryError>)
    ensures r.Success? <==> |rows| == 1
    ensures r.Success? ==> r.value == rows[0]
    ensures r == Failure(NoResult) <==> rows == []
    ensures r == Failure(NonUniqueResult) <==> |rows| > 1
  {
    if |rows| == 0 then Failure(NoResult)
    else if |rows| == 1 then Success(rows[0])
    else Failure(NonUniqueResult)
  }

  /**
   * `queryZeroOne`: as `queryOne`, except that no row is an absent result (null)
   * instead of a failure; several rows still fail.
   */
  function QueryZeroOne<T>(rows: seq<T>): (r: Result<Option<T>, QueryError>)
    ensures r == Success(None) <==> rows == []
    ensures rows != [] ==> match QueryOne(rows)
      case Success(v) => r == Success(Some(v))
      case Failure(e) => r == Failure(e)
    ensures r.Success? <==> |rows| <= 1
  {
    match QueryOne(rows)
    case Success(v) => Success(Some(v))
    case Failure(NoResult) => Success(None)
    case Failure(e) => Failure(e)
  }

  // ---------------------------------------------------------------------------
  // init: the shared entity-manager factory
  // ---------------------------------------------------------------------------

  /** What `Persistence.createEntityManagerFactory` does: a new factory, or a throw. */
  datatype Creation = Created(factory: nat) | CreationFailed(cause: string)

  /** What loading the default data does: completes, or throws. */
  datatype Seeding = Seeded | SeedingFailed(cause: string)

  /**
   * The two static fields, and the factories `init` has closed (so that a factory
   * replaced without being closed can be told apart from one that was closed).
   */
  datatype InitState = InitState(factory: Option<nat>, generatingDefaultData: bool, closed: seq<nat>)

  /** `init` returns or throws `Error("Could not initialize db", cause)`. */
  datatype InitResult = InitOk | InitError(cause: string)

  /** Closes and forgets the current factory, if any (the catch block). */
  function Abandon(s: InitState): InitState {
    if s.factory.Some? then s.(factory := None, closed := s.closed + [s.factory.value]) else s
  }

  /**
   * `init(resetDatabase)`: nothing while default data is being generated, nothing
   * without a reset once a factory exists; otherwise a reset raises the flag, a
   * factory is created, and a reset then seeds the default data and lowers the
   * flag. A failure closes and forgets whatever factory is current and raises an
   * error; it does not lower the flag.
   */
  function InitStep(s: InitState, resetDatabase: bool, creation: Creation, seeding: Seeding): (r: (InitState, InitResult))
    ensures r.1.InitOk? ==> r.0.closed == s.closed && (r.0.generatingDefaultData ==> s.generatingDefaultData)
    ensures r.1.InitError? ==> r.0.factory.None? && r.0.generatingDefaultData == resetDatabase
    ensures r.1.InitError? && creation.CreationFailed? ==>
      r.0.closed == s.closed + (if s.factory.Some? then [s.factory.value] else [])
    ensures r.1.InitError? && creation.Created? ==> r.0.closed == s.closed + [creation.factory]
    ensures r.1.InitOk? ==> r.0.factory.Some? || s.generatingDefaultData
  {
    if s.generatingDefaultData then (s, InitOk)
    else if s.factory.Some? && !resetDatabase then (s, InitOk)
    else
      var raised := if resetDatabase then s.(generatingDefaultData := true) else s;
      match creation
      case CreationFailed(cause) => (Abandon(raised), InitError(cause))
      case Created(f) =>
        var created := raised.(factory := Some(f));
        if !resetDatabase then (created, InitOk)
        else match seeding
          case SeedingFailed(cause) => (Abandon(created), InitError(cause))
          case Seeded => (created.(generatingDefaultData := false), InitOk)
  }

  /** Any `init` is a no-op while default data is being generated. */
  lemma InitSkipsWhileGenerating(s: InitState, resetDatabase: bool, creation: Creation, seeding: Seeding)
    requires s.generatingDefaultData
    ensures InitStep(s, resetDatabase, creation, seeding) == (s, InitOk)
  {
  }

  /** `init(false)` is a no-op once a factory exists. */
  lemma InitSkipsWithFactory(s: InitState, creation: Creation, seeding: Seeding)
    requires s.factory.Some?
    ensures InitStep(s, false, creation, seeding) == (s, InitOk)
  {
  }

  /**
   * When `init` runs and creating the factory fails, it raises an error and leaves
   * no factory; a factory that was current is closed, and a reset leaves the flag
   * raised.
   */
  lemma InitCreationFailure(s: InitState, resetDatabase: bool, cause: string, seeding: Seeding)
    requires !s.generatingDefaultData && (s.factory.None? || resetDatabase)
    ensures var (t, r) := InitStep(s, resetDatabase, CreationFailed(cause), seeding);
      && r == InitError(cause)
      && t.factory.None?
      && t.closed == (if s.factory.Some? then s.closed + [s.factory.value] else s.closed)
      && t.generatingDefaultData == resetDatabase
  {
  }

  /**
   * A successful `init(true)` ends with the new factory and the flag lowered; a
   * factory that was current is replaced without being closed.
   */
  lemma ResetSucceeds(s: InitState, f: nat)
    requires !s.generatingDefaultData
    ensures InitStep(s, true, Created(f), Seeded) == (s.(factory := Some(f), generatingDefaultData := false), InitOk)
  {
  }

  /** A successful `init(false)` without a factory ends with the new factory and the flag unchanged. */
  lemma LazyInitSucceeds(s: InitState, f: nat, seeding: Seeding)
    requires !s.generatingDefaultData && s.factory.None?
    ensures InitStep(s, false, Created(f), seeding) == (s.(factory := Some(f)), InitOk)
  {
  }

  /**
   * After a failed `init(true)` the flag stays raised and there is no factory, so
   * every later `init`, whatever happens in it, changes nothing.
   */
  lemma FailedResetLatches(s: InitState, creation: Creation, seeding: Seeding,
                           later: seq<(bool, Creation, Seeding)>)
    requires !s.generatingDefaultData
    requires InitStep(s, true, creation, seeding).1.InitError?
    ensures var t := InitStep(s, true, creation, seeding).0;
      t.factory.None? && t.generatingDefaultData && InitRuns(t, later) == t
  {
    var t := InitStep(s, true, creation, seeding).0;
    InitRunsWhileGenerating(t, later);
  }

  /** The state after a sequence of `init` calls, each with its own argument and outcomes. */
  function InitRuns(s: InitState, calls: seq<(bool, Creation, Seeding)>): InitState
    decreases |calls|
  {
    if calls == [] then s
    else InitRuns(InitStep(s, calls[0].0, calls[0].1, calls[0].2).0, calls[1..])
  }

  lemma {:induction false} InitRunsWhileGenerating(s: InitState, calls: seq<(bool, Creation, Seeding)>)
    requires s.generatingDefaultData
    ensures InitRuns(s, calls) == s
    decreases |calls|
  {
    if calls != [] {
      InitRunsWhileGenerating(s, calls[1..]);
    }
  }

  /** Why `createEntityManager` could not hand out an entity manager. */
  datatype ManagerError = InitFailed(cause: string) | NullFactory

  /** The static state of the helper class: the factory and the seeding flag. */
  class Persistence {
    var entityManagerFactory: Option<nat>
    var generatingDefaultData: bool
    var closedFactories: seq<nat>

    function State(): InitState
      reads this
    {
      InitState(entityManagerFactory, generatingDefaultData, closedFactories)
    }

    /** The state at class load: no factory, flag lowered. */
    constructor ()
      ensures State() == InitState(None, false, [])
    {
      entityManagerFactory := None;
      generatingDefaultData := false;
      closedFactories := [];
    }

    /** `init(resetDatabase)`, with the outcomes of factory creation and seeding as inputs. */
    method Init(resetDatabase: bool, creation: Creation, seeding: Seeding) returns (r: InitResult)
      modifies this
      ensures (State(), r) == InitStep(old(State()), resetDatabase, creation, seeding)
    {
      if generatingDefaultData {
        return InitOk;
      }
      if entityManagerFactory.Some? && !resetDatabase {
        return InitOk;
      }
      if resetDatabase {
        generatingDefaultData := true;
      }
      var failure: Option<string> := None;
      match creation {
        case CreationFailed(cause) =>
          failure := Some(cause);
        case Created(f) =>
          entityManagerFactory := Some(f);
          if resetDatabase {
            match seeding {
              case SeedingFailed(cause) =>
                failure := Some(cause);
              case Seeded =>
                generatingDefaultData := false;
            }
          }
      }
      if failure.Some? {
        if entityManagerFactory.Some? {
          closedFactories := closedFactories + [entityManagerFactory.value];
          entityManagerFactory := None;
        }
        return InitError(failure.value);
      }
      r := InitOk;
    }

    /** `resetDatabase()`: `init(true)`. */
    method ResetDatabase(creation: Creation, seeding: Seeding) returns (r: InitResult)
      modifies this
      ensures (State(), r) == InitStep(old(State()), true, creation, seeding)
    {
      r := Init(true, creation, seeding);
    }

    /**
     * `createEntityManager()`: `init(false)`, then a manager from the factory; an
     * error from `init` propagates, and a missing factory (after a failed reset) is
     * a NullPointerException.
     */
    method CreateEntityManager(creation: Creation) returns (r: Result<nat, ManagerError>)
      modifies this
      ensures State() == InitStep(old(State()), false, creation, Seeded).0
      ensures InitStep(old(State()), false, creation, Seeded).1.InitError? ==>
        r == Failure(InitFailed(InitStep(old(State()), false, creation, Seeded).1.cause))
      ensures InitStep(old(State()), false, creation, Seeded).1.InitOk? ==>
        r == (if entityManagerFactory.Some? then Success(entityManagerFactory.value) else Failure(NullFactory))
    {
      var init := Init(false, creation, Seeded);
      if init.InitError? {
        return Failure(InitFailed(init.cause));
      }
      if entityManagerFactory.None? {
        return Failure(NullFactory);
      }
      r := Success(entityManagerFactory.value);
    }
  }

  // ---------------------------------------------------------------------------
  // insert: all entities in one transaction
  // ---------------------------------------------------------------------------

  /** An exception thrown by `persist` or `commit`: a Java `Error`, or any other (unchecked) exception. */
  datatype Fault = JavaError(cause: string) | RuntimeFault(cause: string)

  /** The end of `insert`: committed, rolled back and rethrown (an `Error`), or escaped without a rollback. */
  datatype InsertResult = Committed | RolledBack(cause: string) | Escaped(cause: string)

  /** The first exception of an insert: from the first `persist` that throws, else from `commit`. */
  function FirstFault<E>(entities: seq<E>, persist: E -> Option<Fault>, commit: Option<Fault>): (r: Option<Fault>)
    ensures r.None? <==> commit.None? && forall k :: 0 <= k < |entities| ==> persist(entities[k]).None?
    ensures r.Some? ==> r == commit || exists k :: 0 <= k < |entities| && persist(entities[k]) == r
    ensures (forall k :: 0 <= k < |entities| ==> persist(entities[k]).None?) ==> r == commit
    ensures (exists k :: 0 <= k < |entities| && persist(entities[k]).Some?) ==>
      exists k :: 0 <= k < |entities| && persist(entities[k]) == r && forall i :: 0 <= i < k ==> persist(entities[i]).None?
    decreases |entities|
  {
    if entities == [] then commit
    else if persist(entities[0]).Some? then persist(entities[0])
    else
      var r := FirstFault(entities[1..], persist, commit);
      assert forall k :: 0 < k < |entities| ==> entities[k] == entities[1..][k - 1];
      r
  }

  /** The database, seen as the sequence of committed entities and the number of rollbacks. */
  class Store<E> {
    var rows: seq<E>
    var rollbacks: nat

    constructor ()
      ensures rows == [] && rollbacks == 0
    {
      rows := [];
      rollbacks := 0;
    }

    /**
     * `insert(entities...)`: all entities are committed together, or none is. Only
     * an `Error` is caught, so only an `Error` leads to a rollback; any other
     * exception leaves the transaction to be discarded with the entity manager.
     */
    method Insert(entities: seq<E>, persist: E -> Option<Fault>, commit: Option<Fault>) returns (r: InsertResult)
      modifies this
      ensures r == match FirstFault(entities, persist, commit)
        case None => Committed
        case Some(JavaError(cause)) => RolledBack(cause)
        case Some(RuntimeFault(cause)) => Escaped(cause)
      ensures rows == if r.Committed? then old(rows) + entities else old(rows)
      ensures rollbacks == if r.RolledBack? then old(rollbacks) + 1 else old(rollbacks)
    {
      var pending: seq<E> := [];
      var fault: Option<Fault> := None;
      var i := 0;
      while i < |entities|
        invariant 0 <= i <= |entities|
        invariant pending == entities[..i]
        invariant FirstFault(entities, persist, commit) == FirstFault(entities[i..], persist, commit)
        invariant rows == old(rows) && rollbacks == old(rollbacks)
      {
        assert entities[i..][1..] == entities[i + 1..];
        var thrown := persist(entities[i]);
        if thrown.Some? {
          fault := thrown;
          break;
        }
        pending := pending + [entities[i]];
        i := i + 1;
      }
      if fault.None? {
        assert entities[i..] == [];
        fault := commit;
        if commit.None? {
          assert pending == entities;
          rows := rows + pending;
          return Committed;
        }
      }
      match fault.value {
        case JavaError(cause) =>
          rollbacks := rollbacks + 1;
          r := RolledBack(cause);
        case RuntimeFault(cause) =>
          r := Escaped(cause);
      }
    }
  }
}
