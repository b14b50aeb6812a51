/**
 * The sandbox executor: runs one already-validated statement on a pooled
 * PostgreSQL connection inside a transaction that is always rolled back,
 * and turns the driver's answer into a caller-safe result.
 *
 * The database is not modelled: the reply to the k-th command sent on a
 * connection is `replies(k)`, given as a parameter, and so is the outcome of
 * acquiring the connection.
 */
module DbService {
  import opened Wrappers
  import opened JsText

  const DefaultTimeoutMs: int := 2000

  /** `parseInt(env) || 2000`, used for both `STATEMENT_TIMEOUT_MS` and `LOCK_TIMEOUT_MS`. */
  function TimeoutMs(env: Option<int>): (ms: int)
    ensures ms != 0
    ensures env.Some? && env.value != 0 ==> ms == env.value
    ensures env.None? || env.value == 0 ==> ms == DefaultTimeoutMs
  {
    IntOrDefault(env, DefaultTimeoutMs)
  }

  const StatementTimeoutPrefix := "SET LOCAL statement_timeout = '"
  const LockTimeoutPrefix := "SET LOCAL lock_timeout = '"
  const MillisecondsSuffix := "ms'"

  /** `SET LOCAL statement_timeout = '${ms}ms'`: the setting, then digits that read back as `ms`. */
  function StatementTimeoutCommand(ms: int): (r: string)
    ensures TimeoutSetting(r, StatementTimeoutPrefix, ms)
  {
    SettingOf(StatementTimeoutPrefix, ms)
  }

  /** `SET LOCAL lock_timeout = '${ms}ms'`: the setting, then digits that read back as `ms`. */
  function LockTimeoutCommand(ms: int): (r: string)
    ensures TimeoutSetting(r, LockTimeoutPrefix, ms)
  {
    SettingOf(LockTimeoutPrefix, ms)
  }

  /** `cmd` is `prefix`, a rendering of `ms` in decimal, then `ms'`. */
  predicate TimeoutSetting(cmd: string, prefix: string, ms: int) {
    && |cmd| > |prefix| + 3 && cmd[..|prefix|] == prefix && cmd[|cmd| - 3..] == MillisecondsSuffix
    && (forall i :: |prefix| <= i < |cmd| - 3 ==> IsDigit(cmd[i]) || cmd[i] == '-')
    && SignedDecimalValue(cmd[|prefix|..|cmd| - 3]) == ms
  }

  function SettingOf(prefix: string, ms: int): (r: string)
    ensures TimeoutSetting(r, prefix, ms)
  {
    var d := IntToDecimal(ms);
    IntToDecimalRoundTrip(ms);
    var r := prefix + d + MillisecondsSuffix;
    assert r[|prefix|..|r| - 3] == d;
    assert r[..|prefix|] == prefix;
    assert r[|r| - 3..] == MillisecondsSuffix;
    r
  }

  /** A column value as the driver hands it over; rows are passed through untouched. */
  datatype Value = Null | Text(t: string) | Number(n: int) | Boolean(b: bool)

  type Row = map<string, Value>

  /** A column description as the driver reports it. */
  datatype DriverField = DriverField(
    name: string, tableID: int, columnID: int, dataTypeID: int,
    dataTypeSize: int, dataTypeModifier: int, format: string)

  /** The column description handed to the caller. */
  datatype Field = Field(name: string, dataTypeID: int)

  /** A fault raised by the driver or the server; `code` is the SQLSTATE when there is one. */
  datatype PgError = PgError(code: Option<string>, message: Option<string>)

  /**
   * The driver's answer to one command. `rowCount` is `None` when the driver
   * reports `null`, as it does for a command whose completion tag carries no
   * count (the empty statement, EXPLAIN, SHOW).
   */
  datatype Reply = Ok(rows: seq<Row>, fields: seq<DriverField>, rowCount: Option<int>) | Err(error: PgError)

  /** `{ success, rows, fields, rowCount, error }`, `null` being `None`. */
  datatype QueryResult = QueryResult(
    success: bool, rows: seq<Row>, fields: seq<Field>, rowCount: Option<int>, error: Option<string>)

  /** What the asynchronous call settles to: a result, or a fault it lets escape. */
  datatype Execution = Returned(result: QueryResult) | Threw(fault: PgError)

  const TimeoutMessage := "Query timeout: Your query took too long to execute"
  const TableNotFoundMessage := "Table not found"
  const ColumnNotFoundMessage := "Column not found"
  const SyntaxErrorMessage := "SQL syntax error"
  const GenericFailureMessage := "Query execution failed"

  /** SQLSTATE codes (Appendix A of the PostgreSQL documentation) that get a fixed message. */
  const QueryCanceled := "57014"
  const UndefinedTable := "42P01"
  const UndefinedColumn := "42703"
  const SyntaxError := "42601"

  /** A message that is present and not the empty string. */
  predicate HasMessage(e: PgError) {
    e.message.Some? && e.message.value != []
  }

  /** The caller-safe text for a fault: a fixed message for four SQLSTATEs, else the first line of the message. */
  function SanitizeError(e: PgError): (msg: string)
    ensures '\n' !in msg
  {
    if e.code == Some(QueryCanceled) then TimeoutMessage
    else if e.code == Some(UndefinedTable) then TableNotFoundMessage
    else if e.code == Some(UndefinedColumn) then ColumnNotFoundMessage
    else if e.code == Some(SyntaxError) then SyntaxErrorMessage
    else if HasMessage(e) then FirstLine(e.message.value)
    else GenericFailureMessage
  }

  /** `result.fields.map(f => ({ name: f.name, dataTypeID: f.dataTypeID }))` */
  function ProjectFields(fs: seq<DriverField>): (r: seq<Field>)
    ensures |r| == |fs|
    ensures forall i :: 0 <= i < |fs| ==> r[i].name == fs[i].name && r[i].dataTypeID == fs[i].dataTypeID
  {
    if fs == [] then [] else [Field(fs[0].name, fs[0].dataTypeID)] + ProjectFields(fs[1..])
  }

  /** The success result: the reply's rows and count as they are, each field reduced to its name and type. */
  function Success(reply: Reply): (r: QueryResult)
    requires reply.Ok?
    ensures r.success && r.error.None? && r.rows == reply.rows && r.rowCount == reply.rowCount
    ensures |r.fields| == |reply.fields|
    ensures forall i :: 0 <= i < |r.fields| ==> r.fields[i] == Field(reply.fields[i].name, reply.fields[i].dataTypeID)
  {
    QueryResult(true, reply.rows, ProjectFields(reply.fields), reply.rowCount, None)
  }

  /** The failure result: no data, a zero count, and the fault's caller-safe one-line message. */
  function Failure(e: PgError): (r: QueryResult)
    ensures !r.success && r.rows == [] && r.fields == [] && r.rowCount == Some(0)
    ensures r.error == Some(SanitizeError(e)) && '\n' !in r.error.value
  {
    QueryResult(false, [], [], Some(0), Some(SanitizeError(e)))
  }

  /**
   * The commands the try block sends, in order, when none fails: the user's
   * statement is the fourth, inside BEGIN, the two settings and ROLLBACK, and
   * none of the others is COMMIT.
   */
  function Commands(sql: string, statementMs: int, lockMs: int): (r: seq<string>)
    ensures |r| == 5 && r[0] == "BEGIN" && r[3] == sql && r[4] == "ROLLBACK"
    ensures r[1] == StatementTimeoutCommand(statementMs) && r[2] == LockTimeoutCommand(lockMs)
    ensures forall j :: 0 <= j < 5 && j != 3 ==> r[j] != "COMMIT"
  {
    var statement, lock := StatementTimeoutCommand(statementMs), LockTimeoutCommand(lockMs);
    SettingIsNotCommit(statement, StatementTimeoutPrefix, statementMs);
    SettingIsNotCommit(lock, LockTimeoutPrefix, lockMs);
    ["BEGIN", statement, lock, sql, "ROLLBACK"]
  }

  lemma SettingIsNotCommit(cmd: string, prefix: string, ms: int)
    requires TimeoutSetting(cmd, prefix, ms) && |prefix| >= 3
    ensures cmd != "COMMIT"
  {
  }

  /** The position of the first failing reply among the first `n` commands. */
  function FirstFault(replies: nat -> Reply, n: nat): (r: Option<nat>)
    ensures r.Some? ==> r.value < n && replies(r.value).Err?
    ensures r.Some? ==> forall j :: 0 <= j < r.value ==> replies(j).Ok?
    ensures r.None? ==> forall j :: 0 <= j < n ==> replies(j).Ok?
  {
    if n == 0 then None
    else
      var earlier := FirstFault(replies, n - 1);
      if earlier.Some? then earlier
      else if replies(n - 1).Err? then Some(n - 1)
      else None
  }

  /** What the connection receives: the commands up to the first failure, then one more ROLLBACK when one failed. */
  function ExpectedLog(sql: string, statementMs: int, lockMs: int, replies: nat -> Reply): seq<string> {
    var cmds := Commands(sql, statementMs, lockMs);
    match FirstFault(replies, |cmds|)
    case None => cmds
    case Some(i) => cmds[..i + 1] + ["ROLLBACK"]
  }

  /** What the call returns once connected: the user statement's rows on success, the mapped first fault otherwise. */
  function ExpectedResult(replies: nat -> Reply): QueryResult {
    match FirstFault(replies, 5)
    case None => Success(replies(3))
    case Some(i) => Failure(replies(i).error)
  }

  /** The pool the connections are leased from. */
  class Pool {
    /** Connections handed out and not yet released. */
    var leased: nat

    constructor ()
      ensures leased == 0
    {
      leased := 0;
    }

    /** `pgPool.connect()`, which either fails with `fault` or leases a fresh connection answering with `replies`. */
    method Connect(fault: Option<PgError>, replies: nat -> Reply) returns (r: Result)
      modifies this
      ensures fault.Some? ==> r == Failed(fault.value) && leased == old(leased)
      ensures fault.None? ==> r.Connected? && fresh(r.client) && leased == old(leased) + 1
      ensures fault.None? ==> r.client.pool == this && r.client.replies == replies
      ensures fault.None? ==> r.client.log == [] && r.client.releases == 0
    {
      if fault.Some? {
        r := Failed(fault.value);
      } else {
        var c := new Client(this, replies);
        leased := leased + 1;
        r := Connected(c);
      }
    }
  }

  datatype Result = Connected(client: Client) | Failed(fault: PgError)

  /** A leased connection: it records every command sent on it and every release. */
  class Client {
    const pool: Pool
    const replies: nat -> Reply
    var log: seq<string>
    var releases: nat

    constructor (pool: Pool, replies: nat -> Reply)
      ensures this.pool == pool && this.replies == replies
      ensures log == [] && releases == 0
    {
      this.pool := pool;
      this.replies := replies;
      log := [];
      releases := 0;
    }

    /** `client.query(cmd)`: the command is sent and answered by the reply for its position. */
    method Query(cmd: string) returns (reply: Reply)
      modifies this
      ensures log == old(log) + [cmd]
      ensures reply == replies(|old(log)|)
      ensures releases == old(releases)
    {
      reply := replies(|log|);
      log := log + [cmd];
    }

    /** `client.release()`: the connection goes back to the pool. */
    method Release()
      requires pool.leased > 0
      modifies this, pool
      ensures releases == old(releases) + 1 && log == old(log)
      ensures pool.leased == old(pool.leased) - 1
    {
      releases := releases + 1;
      pool.leased := pool.leased - 1;
    }
  }

  /**
   * The try block after its first `n` commands: all of them answered, or
   * stopped right after the first one that failed, holding that failure.
   */
  ghost predicate SentSoFar(log: seq<string>, fault: Option<PgError>, cmds: seq<string>, replies: nat -> Reply, n: nat)
    requires n <= |cmds|
  {
    match FirstFault(replies, n)
    case None => fault.None? && log == cmds[..n]
    case Some(i) => fault == Some(replies(i).error) && log == cmds[..i + 1]
  }

  /** Once a command has failed, the later ones are skipped. */
  lemma FaultPersists(log: seq<string>, fault: Option<PgError>, cmds: seq<string>, replies: nat -> Reply, n: nat)
    requires n < |cmds| && fault.Some? && SentSoFar(log, fault, cmds, replies, n)
    ensures SentSoFar(log, fault, cmds, replies, n + 1)
  {
  }

  /**
   * One `await client.query(cmd)` of the try block: sent while nothing has
   * failed, skipped (the earlier failure still propagating) once something has.
   */
  method Step(client: Client, cmd: string, fault: Option<PgError>, ghost cmds: seq<string>, ghost n: nat)
    returns (next: Option<PgError>, reply: Reply)
    requires n < |cmds| && cmds[n] == cmd
    requires SentSoFar(client.log, fault, cmds, client.replies, n)
    modifies client
    ensures fault.None? ==> reply == client.replies(n)
    ensures fault.None? ==> next == if reply.Err? then Some(reply.error) else None
    ensures fault.Some? ==> next == fault
    ensures SentSoFar(client.log, next, cmds, client.replies, n + 1)
    ensures client.releases == old(client.releases)
  {
    if fault.None? {
      reply := client.Query(cmd);
      next := if reply.Err? then Some(reply.error) else None;
      assert cmds[..n + 1] == cmds[..n] + [cmd];
    } else {
      next := fault;
      reply := Err(fault.value);
      FaultPersists(client.log, fault, cmds, client.replies, n);
    }
  }

  /** The try block: the five commands in order, up to the first that fails; the fourth is the user's. */
  method TryBlock(client: Client, cmds: seq<string>)
    returns (fault: Option<PgError>, result: Reply)
    requires |cmds| == 5 && client.log == []
    modifies client
    ensures SentSoFar(client.log, fault, cmds, client.replies, 5)
    ensures fault.None? ==> result == client.replies(3)
    ensures client.releases == old(client.releases)
  {
    var reply;
    fault, reply := Step(client, cmds[0], None, cmds, 0);
    fault, reply := Step(client, cmds[1], fault, cmds, 1);
    fault, reply := Step(client, cmds[2], fault, cmds, 2);
    fault, result := Step(client, cmds[3], fault, cmds, 3);
    fault, reply := Step(client, cmds[4], fault, cmds, 4);
  }

  /**
   * `executeSandboxQuery(sql)` with the two timeouts already read from the
   * environment. A failed connect lets its fault escape and leases nothing;
   * otherwise the connection gets exactly `ExpectedLog`, the call returns
   * `ExpectedResult`, and the connection is released exactly once.
   */
  method ExecuteSandboxQuery(
    pool: Pool, connectFault: Option<PgError>, replies: nat -> Reply,
    sql: string, statementMs: int, lockMs: int)
    returns (r: Execution, client: Client?)
    modifies pool
    ensures pool.leased == old(pool.leased)
    ensures connectFault.Some? ==> r == Threw(connectFault.value) && client == null
    ensures connectFault.None? ==> client != null && fresh(client) && client.replies == replies
    ensures connectFault.None? ==> client.log == ExpectedLog(sql, statementMs, lockMs, replies)
    ensures connectFault.None? ==> client.releases == 1
    ensures connectFault.None? ==> r == Returned(ExpectedResult(replies))
  {
    var acquired := pool.Connect(connectFault, replies);
    if acquired.Failed? {
      return Threw(acquired.fault), null;
    }
    client := acquired.client;
    var fault, result := TryBlock(client, Commands(sql, statementMs, lockMs));
    assert Commands(sql, statementMs, lockMs)[..5] == Commands(sql, statementMs, lockMs);
    if fault.None? {
      r := Returned(Success(result));
    } else {
      // The rollback's own failure is ignored.
      var _ := client.Query("ROLLBACK");
      r := Returned(Failure(fault.value));
    }
    client.Release();
  }

  // Properties of the protocol, stated on its specification.

  /** Every path opens with BEGIN and ends with ROLLBACK. */
  lemma BeginsAndRollsBack(sql: string, statementMs: int, lockMs: int, replies: nat -> Reply)
    ensures var log := ExpectedLog(sql, statementMs, lockMs, replies);
      && 2 <= |log| <= 6 && log[0] == "BEGIN" && log[|log| - 1] == "ROLLBACK"
  {
  }

  /**
   * The service never sends COMMIT: apart from the user's statement at
   * position 3, every command is BEGIN, one of the two timeouts, or ROLLBACK.
   */
  lemma NeverCommits(sql: string, statementMs: int, lockMs: int, replies: nat -> Reply)
    ensures var log := ExpectedLog(sql, statementMs, lockMs, replies);
      forall j :: 0 <= j < |log| && j != 3 ==>
        log[j] in {"BEGIN", StatementTimeoutCommand(statementMs), LockTimeoutCommand(lockMs), "ROLLBACK"}
    ensures var log := ExpectedLog(sql, statementMs, lockMs, replies);
      forall j :: 0 <= j < |log| && log[j] == "COMMIT" ==> j == 3 && sql == "COMMIT"
  {
    var cmds := Commands(sql, statementMs, lockMs);
    LogEntries(cmds, ExpectedLog(sql, statementMs, lockMs, replies), FirstFault(replies, 5));
  }

  /** Each entry of a run's log is the command sent at that position, or the recovery ROLLBACK. */
  lemma LogEntries(cmds: seq<string>, log: seq<string>, fault: Option<nat>)
    requires |cmds| == 5
    requires fault.None? ==> log == cmds
    requires fault.Some? ==> fault.value < 5 && log == cmds[..fault.value + 1] + ["ROLLBACK"]
    ensures forall j :: 0 <= j < |log| ==> log[j] == "ROLLBACK" || (j < 5 && log[j] == cmds[j])
  {
  }

  /** Success exactly when no command failed, and then the connection got exactly the five commands. */
  lemma SuccessMeansFullProtocol(sql: string, statementMs: int, lockMs: int, replies: nat -> Reply)
    ensures ExpectedResult(replies).success <==> forall j :: 0 <= j < 5 ==> replies(j).Ok?
    ensures ExpectedResult(replies).success ==>
      ExpectedLog(sql, statementMs, lockMs, replies) == Commands(sql, statementMs, lockMs)
    ensures !ExpectedResult(replies).success ==> |ExpectedLog(sql, statementMs, lockMs, replies)| <= 6
  {
  }

  /** A success carries the user statement's rows and count untouched and its fields projected in order. */
  lemma SuccessCarriesUserResult(replies: nat -> Reply)
    requires ExpectedResult(replies).success
    ensures var res := ExpectedResult(replies);
      && replies(3).Ok?
      && res.rows == replies(3).rows && res.rowCount == replies(3).rowCount && res.error.None?
      && |res.fields| == |replies(3).fields|
      && forall i :: 0 <= i < |res.fields| ==>
           res.fields[i] == Field(replies(3).fields[i].name, replies(3).fields[i].dataTypeID)
  {
  }

  /** Every failure has empty rows and fields, a zero count and a one-line message. */
  lemma FailureShape(replies: nat -> Reply)
    requires !ExpectedResult(replies).success
    ensures var res := ExpectedResult(replies);
      && res.rows == [] && res.fields == [] && res.rowCount == Some(0)
      && res.error.Some? && '\n' !in res.error.value
  {
  }

  /**
   * The fault reported is the first one, even when it is the closing
   * ROLLBACK of a successful query; whatever the recovery ROLLBACK answers
   * changes neither the result nor the commands sent.
   */
  lemma RecoveryRollbackIgnored(sql: string, statementMs: int, lockMs: int, replies: nat -> Reply, other: nat -> Reply, i: nat)
    requires FirstFault(replies, 5) == Some(i)
    requires forall j :: 0 <= j <= i ==> other(j) == replies(j)
    ensures ExpectedResult(other) == ExpectedResult(replies) == Failure(replies(i).error)
    ensures ExpectedLog(sql, statementMs, lockMs, other) == ExpectedLog(sql, statementMs, lockMs, replies)
    ensures ExpectedLog(sql, statementMs, lockMs, replies) == Commands(sql, statementMs, lockMs)[..i + 1] + ["ROLLBACK"]
  {
    FirstFaultDependsOnPrefix(replies, other, i, 5);
    FailedRun(sql, statementMs, lockMs, replies, i);
    FailedRun(sql, statementMs, lockMs, other, i);
  }

  /** After the first failure at position `i`: the mapped failure, and the commands up to `i` then ROLLBACK. */
  lemma FailedRun(sql: string, statementMs: int, lockMs: int, replies: nat -> Reply, i: nat)
    requires FirstFault(replies, 5) == Some(i)
    ensures i < 5 && replies(i).Err?
    ensures ExpectedResult(replies) == Failure(replies(i).error)
    ensures ExpectedLog(sql, statementMs, lockMs, replies) == Commands(sql, statementMs, lockMs)[..i + 1] + ["ROLLBACK"]
  {
  }

  lemma {:induction false} FirstFaultDependsOnPrefix(replies: nat -> Reply, other: nat -> Reply, i: nat, n: nat)
    requires FirstFault(replies, n) == Some(i)
    requires forall j :: 0 <= j <= i ==> other(j) == replies(j)
    ensures FirstFault(other, n) == Some(i)
  {
    if n - 1 != i {
      FirstFaultDependsOnPrefix(replies, other, i, n - 1);
    } else {
      NoFaultDependsOnPrefix(replies, other, i);
    }
  }

  lemma {:induction false} NoFaultDependsOnPrefix(replies: nat -> Reply, other: nat -> Reply, n: nat)
    requires FirstFault(replies, n).None?
    requires forall j :: 0 <= j < n ==> other(j) == replies(j)
    ensures FirstFault(other, n).None?
  {
    if n > 0 {
      NoFaultDependsOnPrefix(replies, other, n - 1);
    }
  }

  /** The SQLSTATE-to-message table, and the fallbacks when the code is none of the four. */
  lemma ErrorMappingTable(e: PgError)
    ensures e.code == Some("57014") ==> SanitizeError(e) == "Query timeout: Your query took too long to execute"
    ensures e.code == Some("42P01") ==> SanitizeError(e) == "Table not found"
    ensures e.code == Some("42703") ==> SanitizeError(e) == "Column not found"
    ensures e.code == Some("42601") ==> SanitizeError(e) == "SQL syntax error"
    ensures e.code !in {Some("57014"), Some("42P01"), Some("42703"), Some("42601")} ==>
      if HasMessage(e) then
        var m := e.message.value;
        var r := SanitizeError(e);
        r <= m && (|r| == |m| || m[|r|] == '\n')
      else SanitizeError(e) == "Query execution failed"
  {
  }

  /** The timeout commands embed the configured values, 2000 ms each when unset, unparsable or 0. */
  lemma TimeoutCommandsDefault()
    ensures StatementTimeoutCommand(TimeoutMs(None)) == "SET LOCAL statement_timeout = '2000ms'"
    ensures LockTimeoutCommand(TimeoutMs(Some(0))) == "SET LOCAL lock_timeout = '2000ms'"
  {
    assert NatToDecimal(2) == "2";
    assert NatToDecimal(20) == "20";
    assert NatToDecimal(200) == "200";
  }
}
