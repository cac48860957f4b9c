/** The generic single-row INSERT executor (`Add`): it builds one parameter
    per insertable column, renders the INSERT statement, runs it either as an
    identity-fetching scalar query or as a plain command depending on whether
    the entity's key is still unassigned, and on any failure rolls the
    transaction back once before reporting a duplicate-key or generic error. */
module Insert {
  import opened Values
  import opened Parameters

  /** The base class's `__comma`, removed again by `Remove(0, 2)`. */
  const Comma: string := ", "

  /** The OleDb parameter connector, `@`. */
  const ParameterConnector: string := "@"

  const IdentityQuery: string := "SELECT SCOPE_IDENTITY() "

  const DuplicateKeyText: string := "duplicate key"

  const FailedToAdd: string := "Failed to add record to: "

  /** What `StringBuilder.Remove(0, 2)` throws on a builder shorter than two characters. */
  const RemoveOutOfRange: Exception :=
    Exception(ArgumentOutOfRange, "Index was out of range. (Parameter 'length')", RuntimeSource, None)

  /** The collaborators `Add` consults and cannot see into: the store's
      `Extract`, the base class's `ToSafeParamName`, what the base class's
      `ExecuteScalar` (with the conversion of its result to Int32) and
      `ExecuteNonQuery` return or throw, and whether the store's
      `GetPrimaryKey` and `SetPrimaryKey` throw. */
  datatype Backend = Backend(
    extract: string -> Result<Value, Exception>,
    safeName: string -> string,
    scalarReply: Result<int32, Exception>,
    nonQueryReply: Option<Exception>,
    keyReadFailure: Option<Exception>,
    keyWriteFailure: Option<Exception>)

  /** An observable effect on the database, the transaction or the store. */
  datatype Event =
    | ScalarExecuted(sql: string, parameters: seq<Parameter>)
    | NonQueryExecuted(sql: string, parameters: seq<Parameter>)
    | RolledBack
    | KeyAssigned(key: int32)

  /** How a call ends: normally, or by throwing. */
  datatype Outcome = Done | Thrown(error: Exception)

  /** The effects of one call, the entity's key afterwards, and how it ended. */
  datatype Run = Run(events: seq<Event>, key: int32, outcome: Outcome)

  // ---------------------------------------------------------------------------
  // Statement assembly

  /** The columns that contribute to an INSERT, in list order. */
  function Insertable(columns: seq<TableColumn>): seq<TableColumn>
  {
    if columns == [] then []
    else
      var last := columns[|columns| - 1];
      Insertable(columns[..|columns| - 1]) + (if last.isInsertable then [last] else [])
  }

  /** One parameter per column, in order; the first failing column's error otherwise. */
  function CreateAll(columns: seq<TableColumn>, b: Backend): Result<seq<Parameter>, Exception>
  {
    if columns == [] then Success([])
    else
      match CreateAll(columns[..|columns| - 1], b)
      case Failure(e) => Failure(e)
      case Success(ps) =>
        match CreateParameter(b.extract, columns[|columns| - 1], b.safeName)
        case Failure(e) => Failure(e)
        case Success(p) => Success(ps + [p])
  }

  function Names(columns: seq<TableColumn>): seq<string>
  {
    seq(|columns|, i requires 0 <= i < |columns| => columns[i].name)
  }

  function Placeholders(ps: seq<Parameter>): seq<string>
  {
    seq(|ps|, i requires 0 <= i < |ps| => ParameterConnector + ps[i].name)
  }

  /** The text of a StringBuilder after `Append(__comma).Append(x)` for each x. */
  function Prefixed(xs: seq<string>): string
  {
    if xs == [] then "" else Prefixed(xs[..|xs| - 1]) + Comma + xs[|xs| - 1]
  }

  /** The usual comma-separated list of a non-empty sequence. */
  function JoinList(xs: seq<string>): string
    requires xs != []
  {
    if |xs| == 1 then xs[0] else JoinList(xs[..|xs| - 1]) + Comma + xs[|xs| - 1]
  }

  /** Steps 1 and 2 of `Add`: the parameters and the INSERT statement, or the
      exception that ends the try block first. */
  function Statement(table: string, columns: seq<TableColumn>, b: Backend): Result<(string, seq<Parameter>), Exception>
  {
    var cols := Insertable(columns);
    match CreateAll(cols, b)
    case Failure(e) => Failure(e)
    case Success(ps) =>
      var sbColumns := Prefixed(Names(cols));
      var sbValues := Prefixed(Placeholders(ps));
      if |sbColumns| < 2 || |sbValues| < 2 then Failure(RemoveOutOfRange)
      else Success(("INSERT INTO " + table + " (" + sbColumns[2..] + ") VALUES (" + sbValues[2..] + ") ", ps))
  }

  /** A key of 0 or `Int32.MinValue` is unassigned: the row's identity is to be fetched. */
  predicate IsUnassignedKey(key: int32)
  {
    key == 0 || key == MinInt32
  }

  /** The try block of `Add`: what it does and how it ends, before any catch. */
  function TryInsertRun(table: string, columns: seq<TableColumn>, b: Backend, key: int32): Run
  {
    match Statement(table, columns, b)
    case Failure(e) => Run([], key, Thrown(e))
    case Success((sql, ps)) =>
      if b.keyReadFailure.Some? then Run([], key, Thrown(b.keyReadFailure.value))
      else if IsUnassignedKey(key) then
        var call := ScalarExecuted(sql + IdentityQuery, ps);
        match b.scalarReply
        case Failure(e) => Run([call], key, Thrown(e))
        case Success(id) =>
          match b.keyWriteFailure
          case Some(e) => Run([call], key, Thrown(e))
          case None => Run([call, KeyAssigned(id)], id, Done)
      else
        var call := NonQueryExecuted(sql, ps);
        match b.nonQueryReply
        case Some(e) => Run([call], key, Thrown(e))
        case None => Run([call], key, Done)
  }

  /** The catch blocks of `Add`: an ApplicationException that mentions a
      duplicate key becomes a FolderException with the same message; any other
      exception becomes an ApplicationException naming the table. */
  function Translate(e: Exception, table: string): Exception
  {
    if e.kind == ApplicationError && Contains(e.message, DuplicateKeyText) then
      Raise(FolderError, e.message, Some(e))
    else
      Raise(ApplicationError, FailedToAdd + table + "<BR>" + e.message + "<BR>" + e.source, Some(e))
  }

  /** The whole of `Add`: the try block, then on failure one rollback and the
      translated exception. */
  function AddRun(table: string, columns: seq<TableColumn>, b: Backend, key: int32): Run
  {
    var attempt := TryInsertRun(table, columns, b, key);
    match attempt.outcome
    case Done => attempt
    case Thrown(e) => Run(attempt.events + [RolledBack], attempt.key, Thrown(Translate(e, table)))
  }

  function Occurrences(events: seq<Event>, e: Event): nat
  {
    |set i | 0 <= i < |events| && events[i] == e|
  }

  // ---------------------------------------------------------------------------
  // Lemmas: the statement

  lemma InsertableStep(columns: seq<TableColumn>, j: nat)
    requires j < |columns|
    ensures columns[j].isInsertable ==> Insertable(columns[..j + 1]) == Insertable(columns[..j]) + [columns[j]]
    ensures !columns[j].isInsertable ==> Insertable(columns[..j + 1]) == Insertable(columns[..j])
  {
    assert columns[..j + 1][..j] == columns[..j];
    assert Insertable(columns[..j]) + [] == Insertable(columns[..j]);
  }

  /** `idx` lists, in strictly increasing order, the positions of `columns`
      that `sub` is made of: `sub` is a subsequence of `columns`. */
  ghost predicate SelectsInOrder(columns: seq<TableColumn>, sub: seq<TableColumn>, idx: seq<int>)
  {
    && |idx| == |sub|
    && (forall k :: 0 <= k < |idx| ==> 0 <= idx[k] < |columns| && sub[k] == columns[idx[k]])
    && (forall k, l :: 0 <= k < l < |idx| ==> idx[k] < idx[l])
  }

  /** Exactly the insertable columns contribute. */
  lemma {:induction false} InsertableIsFilter(columns: seq<TableColumn>)
    ensures forall c :: c in Insertable(columns) ==> c in columns && c.isInsertable
    ensures forall i :: 0 <= i < |columns| && columns[i].isInsertable ==> columns[i] in Insertable(columns)
    ensures Insertable(columns) == [] <==> forall i :: 0 <= i < |columns| ==> !columns[i].isInsertable
    ensures |Insertable(columns)| <= |columns|
  {
    if columns != [] {
      var init := columns[..|columns| - 1];
      InsertableIsFilter(init);
      assert forall i :: 0 <= i < |init| ==> init[i] == columns[i];
    }
  }

  /** The positions of the insertable columns, in list order. */
  ghost function InsertablePositions(columns: seq<TableColumn>): seq<int>
  {
    if columns == [] then []
    else
      var last := |columns| - 1;
      InsertablePositions(columns[..last]) + (if columns[last].isInsertable then [last] else [])
  }

  /** ... each once and in list order: the contributing columns are taken
      from strictly increasing positions, and every insertable position is
      taken. */
  lemma {:induction false} InsertableKeepsOrder(columns: seq<TableColumn>)
    ensures SelectsInOrder(columns, Insertable(columns), InsertablePositions(columns))
    ensures forall i :: 0 <= i < |columns| && columns[i].isInsertable ==> i in InsertablePositions(columns)
  {
    if columns != [] {
      var last := |columns| - 1;
      var init := columns[..last];
      InsertableKeepsOrder(init);
      SelectsSnoc(columns, Insertable(init), InsertablePositions(init));
    }
  }

  /** The inductive step of InsertableKeepsOrder: selecting from all but the
      last column extends to all columns. */
  lemma SelectsSnoc(columns: seq<TableColumn>, sub0: seq<TableColumn>, idx0: seq<int>)
    requires columns != []
    requires sub0 == Insertable(columns[..|columns| - 1]) && idx0 == InsertablePositions(columns[..|columns| - 1])
    requires SelectsInOrder(columns[..|columns| - 1], sub0, idx0)
    requires forall i :: 0 <= i < |columns| - 1 && columns[i].isInsertable ==> i in idx0
    ensures SelectsInOrder(columns, Insertable(columns), InsertablePositions(columns))
    ensures forall i :: 0 <= i < |columns| && columns[i].isInsertable ==> i in InsertablePositions(columns)
  {
    var last := |columns| - 1;
    SelectsWiden(columns, last, sub0, idx0);
    if columns[last].isInsertable {
      assert Insertable(columns) == sub0 + [columns[last]];
      assert InsertablePositions(columns) == idx0 + [last];
      SelectsExtend(columns, sub0, idx0, last);
    } else {
      assert Insertable(columns) == sub0;
      assert InsertablePositions(columns) == idx0;
    }
  }

  /** A selection from a prefix is a selection from the whole, at positions
      below the prefix's length. */
  lemma SelectsWiden(columns: seq<TableColumn>, n: nat, sub: seq<TableColumn>, idx: seq<int>)
    requires n <= |columns| && SelectsInOrder(columns[..n], sub, idx)
    ensures SelectsInOrder(columns, sub, idx)
    ensures forall k :: 0 <= k < |idx| ==> idx[k] < n
  {
    assert forall k :: 0 <= k < |idx| ==> columns[..n][idx[k]] == columns[idx[k]];
  }

  /** Appending a column at a position beyond every selected one keeps the selection ordered. */
  lemma SelectsExtend(columns: seq<TableColumn>, sub: seq<TableColumn>, idx: seq<int>, j: nat)
    requires SelectsInOrder(columns, sub, idx) && j < |columns|
    requires forall k :: 0 <= k < |idx| ==> idx[k] < j
    ensures SelectsInOrder(columns, sub + [columns[j]], idx + [j])
  {
  }

  /** `CreateAll` keeps the columns' order and stops at the first failure. */
  lemma {:induction false} CreateAllInOrder(columns: seq<TableColumn>, b: Backend)
    ensures CreateAll(columns, b).Success? ==>
      && |CreateAll(columns, b).value| == |columns|
      && forall i :: 0 <= i < |columns| ==>
           CreateParameter(b.extract, columns[i], b.safeName) == Success(CreateAll(columns, b).value[i])
    ensures CreateAll(columns, b).Failure? ==>
      exists k :: 0 <= k < |columns|
        && CreateParameter(b.extract, columns[k], b.safeName) == Failure(CreateAll(columns, b).error)
        && forall j :: 0 <= j < k ==> CreateParameter(b.extract, columns[j], b.safeName).Success?
    ensures (forall i :: 0 <= i < |columns| ==> CreateParameter(b.extract, columns[i], b.safeName).Success?)
         ==> CreateAll(columns, b).Success?
  {
    if columns != [] {
      var init := columns[..|columns| - 1];
      CreateAllInOrder(init, b);
      assert forall i :: 0 <= i < |init| ==> init[i] == columns[i];
      var last := |columns| - 1;
      if CreateAll(init, b).Failure? {
        var k :| 0 <= k < |init|
          && CreateParameter(b.extract, init[k], b.safeName) == Failure(CreateAll(init, b).error)
          && forall j :: 0 <= j < k ==> CreateParameter(b.extract, init[j], b.safeName).Success?;
        assert CreateParameter(b.extract, columns[k], b.safeName) == Failure(CreateAll(columns, b).error);
      } else if CreateParameter(b.extract, columns[last], b.safeName).Failure? {
        assert CreateParameter(b.extract, columns[last], b.safeName) == Failure(CreateAll(columns, b).error);
      }
    }
  }

  lemma {:induction false} PrefixedLength(xs: seq<string>)
    ensures xs == [] <==> |Prefixed(xs)| < 2
  {
    if xs != [] {
      PrefixedLength(xs[..|xs| - 1]);
    }
  }

  /** `Remove(0, 2)` on the comma-prefixed builder leaves the ordinary list. */
  lemma {:induction false} PrefixedDropsToJoin(xs: seq<string>)
    requires xs != []
    ensures |Prefixed(xs)| >= 2 && Prefixed(xs)[2..] == JoinList(xs)
  {
    var init := xs[..|xs| - 1];
    if |xs| == 1 {
      assert Prefixed(xs) == "" + Comma + xs[0];
    } else {
      PrefixedDropsToJoin(init);
      assert Prefixed(xs)[2..] == Prefixed(init)[2..] + Comma + xs[|xs| - 1];
    }
  }

  /** The rendered statement: it exists exactly when some column is insertable
      and every insertable column yields a parameter; it is then
      `INSERT INTO t (c1, c2) VALUES (@p1, @p2) ` with one parameter per
      insertable column, the i-th column and the i-th placeholder belonging
      to the i-th parameter. */
  lemma StatementShape(table: string, columns: seq<TableColumn>, b: Backend)
    ensures var cols := Insertable(columns);
      Statement(table, columns, b).Success? <==>
        cols != [] && forall i :: 0 <= i < |cols| ==> CreateParameter(b.extract, cols[i], b.safeName).Success?
    ensures Statement(table, columns, b).Success? ==>
      var cols := Insertable(columns);
      var (sql, ps) := Statement(table, columns, b).value;
      && |ps| == |cols| > 0
      && sql == "INSERT INTO " + table + " (" + JoinList(Names(cols)) + ") VALUES (" + JoinList(Placeholders(ps)) + ") "
      && (forall i :: 0 <= i < |ps| ==>
            && ps[i].sourceColumn == Names(cols)[i]
            && Placeholders(ps)[i] == "@" + ps[i].name
            && CreateParameter(b.extract, cols[i], b.safeName) == Success(ps[i]))
  {
    var cols := Insertable(columns);
    CreateAllInOrder(cols, b);
    PrefixedLength(Names(cols));
    if CreateAll(cols, b).Success? {
      var ps := CreateAll(cols, b).value;
      PrefixedLength(Placeholders(ps));
      if cols != [] {
        PrefixedDropsToJoin(Names(cols));
        PrefixedDropsToJoin(Placeholders(ps));
      }
    }
  }

  // ---------------------------------------------------------------------------
  // Lemmas: execution, rollback and error translation

  /** With no insertable column the call fails before executing anything: the
      only effect is one rollback, and the error names the table. */
  lemma NoInsertableColumnFails(table: string, columns: seq<TableColumn>, b: Backend, key: int32)
    requires forall i :: 0 <= i < |columns| ==> !columns[i].isInsertable
    ensures AddRun(table, columns, b, key) == Run([RolledBack], key, Thrown(Translate(RemoveOutOfRange, table)))
    ensures Translate(RemoveOutOfRange, table).kind == ApplicationError
  {
    InsertableIsFilter(columns);
    PrefixedLength(Names(Insertable(columns)));
  }

  /** When the statement can be built and the key read, exactly one
      execution is issued, with the statement's parameters: the
      identity-fetching scalar query for an unassigned key, the plain command
      otherwise. */
  lemma ExecutesOnce(table: string, columns: seq<TableColumn>, b: Backend, key: int32)
    requires Statement(table, columns, b).Success? && b.keyReadFailure.None?
    ensures var (sql, ps) := Statement(table, columns, b).value;
      var run := AddRun(table, columns, b, key);
      && |run.events| >= 1
      && run.events[0] == (if IsUnassignedKey(key) then ScalarExecuted(sql + IdentityQuery, ps) else NonQueryExecuted(sql, ps))
      && forall i :: 1 <= i < |run.events| ==> !run.events[i].ScalarExecuted? && !run.events[i].NonQueryExecuted?
  {
  }

  /** An unassigned key is replaced by the identity the scalar query returns,
      when the store accepts it. */
  lemma IdentityFetched(table: string, columns: seq<TableColumn>, b: Backend, key: int32, id: int32)
    requires Statement(table, columns, b).Success? && IsUnassignedKey(key) && b.scalarReply == Success(id)
    requires b.keyReadFailure.None? && b.keyWriteFailure.None?
    ensures var (sql, ps) := Statement(table, columns, b).value;
      AddRun(table, columns, b, key) == Run([ScalarExecuted(sql + IdentityQuery, ps), KeyAssigned(id)], id, Done)
  {
  }

  /** A failure of the store's key read ends the call before any execution;
      a failure of its key write, after the row was inserted and the
      identity fetched, rolls the insert back and leaves the key unchanged.
      Either way the error names the table unless it is a duplicate-key one. */
  lemma KeyAccessFailures(table: string, columns: seq<TableColumn>, b: Backend, key: int32)
    requires Statement(table, columns, b).Success?
    ensures b.keyReadFailure.Some? ==>
      AddRun(table, columns, b, key) == Run([RolledBack], key, Thrown(Translate(b.keyReadFailure.value, table)))
    ensures b.keyReadFailure.None? && IsUnassignedKey(key) && b.scalarReply.Success? && b.keyWriteFailure.Some? ==>
      var (sql, ps) := Statement(table, columns, b).value;
      AddRun(table, columns, b, key)
        == Run([ScalarExecuted(sql + IdentityQuery, ps), RolledBack], key, Thrown(Translate(b.keyWriteFailure.value, table)))
  {
  }

  /** An assigned key is never written and never changes, whatever happens. */
  lemma AssignedKeyKept(table: string, columns: seq<TableColumn>, b: Backend, key: int32)
    requires !IsUnassignedKey(key)
    ensures var run := AddRun(table, columns, b, key);
      && run.key == key
      && forall i :: 0 <= i < |run.events| ==> !run.events[i].KeyAssigned? && !run.events[i].ScalarExecuted?
  {
  }

  /** The transaction is rolled back exactly when the call fails, exactly once,
      and as its last effect. */
  lemma RollbackOnlyOnFailure(table: string, columns: seq<TableColumn>, b: Backend, key: int32)
    ensures var run := AddRun(table, columns, b, key);
      && (run.outcome.Thrown? <==> Occurrences(run.events, RolledBack) == 1)
      && (run.outcome.Done? <==> Occurrences(run.events, RolledBack) == 0)
      && (run.outcome.Thrown? ==> run.events[|run.events| - 1] == RolledBack)
  {
    var attempt := TryInsertRun(table, columns, b, key);
    var run := AddRun(table, columns, b, key);
    assert forall i :: 0 <= i < |attempt.events| ==> attempt.events[i] != RolledBack;
    if run.outcome.Thrown? {
      assert run.events == attempt.events + [RolledBack];
      assert (set i | 0 <= i < |run.events| && run.events[i] == RolledBack) == {|attempt.events|};
    } else {
      assert (set i | 0 <= i < |run.events| && run.events[i] == RolledBack) == {};
    }
  }

  /** The error classification of the catch blocks: a duplicate-key
      ApplicationException surfaces as a FolderException with its message;
      every other failure as an ApplicationException whose message names the
      table. Either way the original exception is kept as the cause. */
  lemma ErrorClassification(e: Exception, table: string)
    ensures Translate(e, table).inner == Some(e)
    ensures e.kind == ApplicationError && Contains(e.message, DuplicateKeyText) ==>
      Translate(e, table).kind == FolderError && Translate(e, table).message == e.message
    ensures !(e.kind == ApplicationError && Contains(e.message, DuplicateKeyText)) ==>
      Translate(e, table).kind == ApplicationError && Contains(Translate(e, table).message, table)
  {
    var m := FailedToAdd + table + "<BR>" + e.message + "<BR>" + e.source;
    assert m[|FailedToAdd|..|FailedToAdd| + |table|] == table;
    ContainsAt(m, table, |FailedToAdd|);
  }

  // ---------------------------------------------------------------------------
  // The executor as an object

  /** The database object's executor and transaction, together with the store
      holding the entity being inserted. `trace` records every effect;
      `primaryKey` is what the store's `GetPrimaryKey` reads. */
  class Session {
    var trace: seq<Event>
    var primaryKey: int32
    const backend: Backend

    constructor (backend: Backend, key: int32)
      ensures this.backend == backend && primaryKey == key && trace == []
    {
      this.backend := backend;
      primaryKey := key;
      trace := [];
    }

    method ExecuteScalar(sql: string, parameters: seq<Parameter>) returns (r: Result<int32, Exception>)
      modifies this`trace
      ensures trace == old(trace) + [ScalarExecuted(sql, parameters)] && r == backend.scalarReply
    {
      trace := trace + [ScalarExecuted(sql, parameters)];
      r := backend.scalarReply;
    }

    method ExecuteNonQuery(sql: string, parameters: seq<Parameter>) returns (failure: Option<Exception>)
      modifies this`trace
      ensures trace == old(trace) + [NonQueryExecuted(sql, parameters)] && failure == backend.nonQueryReply
    {
      trace := trace + [NonQueryExecuted(sql, parameters)];
      failure := backend.nonQueryReply;
    }

    method RollbackTransaction()
      modifies this`trace
      ensures trace == old(trace) + [RolledBack]
    {
      trace := trace + [RolledBack];
    }

    /** The store's `GetPrimaryKey`: the entity's key, or what the store throws. */
    method GetPrimaryKey() returns (r: Result<int32, Exception>)
      ensures backend.keyReadFailure.Some? ==> r == Failure(backend.keyReadFailure.value)
      ensures backend.keyReadFailure.None? ==> r == Success(primaryKey)
    {
      if backend.keyReadFailure.Some? {
        r := Failure(backend.keyReadFailure.value);
      } else {
        r := Success(primaryKey);
      }
    }

    /** The store's `SetPrimaryKey`: stores the key, or throws and changes nothing. */
    method SetPrimaryKey(key: int32) returns (failure: Option<Exception>)
      modifies this
      ensures failure == backend.keyWriteFailure
      ensures failure.Some? ==> primaryKey == old(primaryKey) && trace == old(trace)
      ensures failure.None? ==> primaryKey == key && trace == old(trace) + [KeyAssigned(key)]
    {
      failure := backend.keyWriteFailure;
      if failure.None? {
        primaryKey := key;
        trace := trace + [KeyAssigned(key)];
      }
    }

    /** The try block of `Add`. */
    method TryInsert(tableName: string, columns: seq<TableColumn>) returns (outcome: Outcome)
      modifies this
      ensures var run := TryInsertRun(tableName, columns, backend, old(primaryKey));
        trace == old(trace) + run.events && primaryKey == run.key && outcome == run.outcome
    {
      var statement := BuildStatement(tableName, columns, backend);
      if statement.Failure? {
        return Thrown(statement.error);
      }
      var (sql, parameters) := statement.value;
      var key := GetPrimaryKey();
      if key.Failure? {
        return Thrown(key.error);
      }
      if key.value == 0 || key.value == MinInt32 {
        sql := sql + IdentityQuery;
        var reply := ExecuteScalar(sql, parameters);
        if reply.Failure? {
          return Thrown(reply.error);
        }
        var failure := SetPrimaryKey(reply.value);
        if failure.Some? {
          return Thrown(failure.value);
        }
      } else {
        var failure := ExecuteNonQuery(sql, parameters);
        if failure.Some? {
          return Thrown(failure.value);
        }
      }
      outcome := Done;
    }

    /** Inserts the entity: the try block, then on any failure one rollback
      and the translated exception. */
    method Add(tableName: string, columns: seq<TableColumn>) returns (outcome: Outcome)
      modifies this
      ensures var run := AddRun(tableName, columns, backend, old(primaryKey));
        trace == old(trace) + run.events && primaryKey == run.key && outcome == run.outcome
    {
      var attempt := TryInsert(tableName, columns);
      if attempt.Thrown? {
        RollbackTransaction();
        outcome := Thrown(Translate(attempt.error, tableName));
      } else {
        outcome := Done;
      }
    }
  }

  /** Steps 1 and 2 of `Add`: walks the columns, creating a parameter for
      each insertable one and appending its name and placeholder to two
      builders, then removes the leading separators and renders the INSERT. */
  method BuildStatement(tableName: string, columns: seq<TableColumn>, b: Backend)
    returns (r: Result<(string, seq<Parameter>), Exception>)
    ensures r == Statement(tableName, columns, b)
  {
    var parameters: seq<Parameter> := [];
    var sbColumns := "";
    var sbValues := "";
    var i := 0;
    while i < |columns|
      invariant 0 <= i <= |columns|
      invariant CreateAll(Insertable(columns[..i]), b) == Success(parameters)
      invariant sbColumns == Prefixed(Names(Insertable(columns[..i])))
      invariant sbValues == Prefixed(Placeholders(parameters))
    {
      var col := columns[i];
      if col.isInsertable {
        var parameter := CreateParameter(b.extract, col, b.safeName);
        if parameter.Failure? {
          StepFails(columns, i, parameters, b);
          FailureSticks(columns, b, i + 1, |columns|, parameter.error);
          assert columns[..|columns|] == columns;
          return Failure(parameter.error);
        }
        StepAdds(columns, i, parameters, b);
        sbColumns := sbColumns + Comma + col.name;
        sbValues := sbValues + Comma + ParameterConnector + parameter.value.name;
        parameters := parameters + [parameter.value];
      } else {
        InsertableStep(columns, i);
      }
      i := i + 1;
    }
    assert columns[..|columns|] == columns;
    if |sbColumns| < 2 || |sbValues| < 2 {
      return Failure(RemoveOutOfRange);
    }
    r := Success(("INSERT INTO " + tableName + " (" + sbColumns[2..] + ") VALUES (" + sbValues[2..] + ") ", parameters));
  }

  lemma StepAdds(columns: seq<TableColumn>, i: nat, parameters: seq<Parameter>, b: Backend)
    requires i < |columns| && columns[i].isInsertable
    requires CreateAll(Insertable(columns[..i]), b) == Success(parameters)
    requires CreateParameter(b.extract, columns[i], b.safeName).Success?
    ensures var p := CreateParameter(b.extract, columns[i], b.safeName).value;
      && CreateAll(Insertable(columns[..i + 1]), b) == Success(parameters + [p])
      && Prefixed(Names(Insertable(columns[..i + 1]))) == Prefixed(Names(Insertable(columns[..i]))) + Comma + columns[i].name
      && Prefixed(Placeholders(parameters + [p])) == Prefixed(Placeholders(parameters)) + Comma + ParameterConnector + p.name
  {
    var p := CreateParameter(b.extract, columns[i], b.safeName).value;
    InsertableStep(columns, i);
    var done := Insertable(columns[..i]);
    assert (done + [columns[i]])[..|done|] == done;
    assert Names(done + [columns[i]]) == Names(done) + [columns[i].name];
    PrefixedSnoc(Names(done), columns[i].name);
    assert Placeholders(parameters + [p]) == Placeholders(parameters) + [ParameterConnector + p.name];
    PrefixedSnoc(Placeholders(parameters), ParameterConnector + p.name);
  }

  lemma StepFails(columns: seq<TableColumn>, i: nat, parameters: seq<Parameter>, b: Backend)
    requires i < |columns| && columns[i].isInsertable
    requires CreateAll(Insertable(columns[..i]), b) == Success(parameters)
    requires CreateParameter(b.extract, columns[i], b.safeName).Failure?
    ensures CreateAll(Insertable(columns[..i + 1]), b) == Failure(CreateParameter(b.extract, columns[i], b.safeName).error)
  {
    InsertableStep(columns, i);
    var done := Insertable(columns[..i]);
    assert (done + [columns[i]])[..|done|] == done;
  }

  lemma PrefixedSnoc(xs: seq<string>, x: string)
    ensures Prefixed(xs + [x]) == Prefixed(xs) + Comma + x
  {
    assert (xs + [x])[..|xs|] == xs;
  }

  /** Once the parameters of a prefix of the columns fail, so do those of
      every longer prefix, with the same error. */
  lemma {:induction false} FailureSticks(columns: seq<TableColumn>, b: Backend, i: nat, j: nat, e: Exception)
    requires i <= j <= |columns|
    requires CreateAll(Insertable(columns[..i]), b) == Failure(e)
    ensures CreateAll(Insertable(columns[..j]), b) == Failure(e)
    decreases j - i
  {
    if i < j {
      InsertableStep(columns, i);
      var done := Insertable(columns[..i]);
      if columns[i].isInsertable {
        assert Insertable(columns[..i + 1]) == done + [columns[i]];
        assert (done + [columns[i]])[..|done|] == done;
      } else {
        assert Insertable(columns[..i + 1]) == done;
      }
      FailureSticks(columns, b, i + 1, j, e);
    }
  }
}
