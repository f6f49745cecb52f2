# EasyQtSql transactions, modelled in Dafny

EasyQtSql wraps Qt's `QSqlDatabase`. This model covers two classes. `Database`
picks a connection and opens it, and runs statements under one error policy.
`Transaction` derives from `Database`. It begins a transaction when it is made,
and commits it only when the caller asks. If the caller never commits, it rolls
the transaction back when the object goes out of scope.

The connection is modelled as the class `Driver.Connection`. It has a fixed
`valid` flag, an `isOpen` flag and a log of every call it receives
(`Open`, `Begin`, `Commit`, `Rollback`, `Exec(sql)`), each with the driver's
answer. The driver is foreign code, so its answers are method parameters
(`openAnswer`, `answer`, `errorValid`, ...). Each promise of the wrapper is
stated over that log.

The build switch `DB_EXCEPTIONS_ENABLED` becomes the constant `exceptions` of a
`Database`. A `throw DBException` becomes the `Threw` case of
`Results.Outcome`. Every contract covers both modes.

Layout:

- `driver.dfy`: the connection, its call log and call counting.
- `results.dfy`: `DBException`, `Outcome`, and the result wrappers.
- `transaction_model.dfy`: each operation as a function of the flags, the log
  and the driver's answer. The contracts of these functions state what one call
  promises.
- `scope.dfy`: the whole life of one `Transaction` object, from constructor to
  destructor. It holds the lemmas about what the connection sees over that life.
- `easy_qt_sql.dfy`: the classes `Database` and `Transaction`. Each method is
  proved to do exactly what its function in `TransactionModel` says.

How C++ maps to Dafny:

- A Dafny constructor cannot throw. So each throwing C++ constructor becomes a
  static method `New` that returns an `Outcome`. The constructor `Bind` only
  sets the fields.
- C++ does not run the destructor of an object whose constructor threw.
  `Scope.ScopeLog` follows this: when construction throws, there is no rollback.
- There is no class inheritance here. `Transaction` holds its `Database` part in
  the field `base`. The helper methods it inherits are called through that field.
- `~Transaction()` becomes the method `Transaction.Destroy`.
- `Scope` models the scope pattern from the class documentation: the try block
  wraps the whole scope, so the first exception ends the scope, and then the
  destructor runs.

An explicit `rollback()` does not end the transaction's rollback duty:

- `rollback()` leaves `m_commited` false (EasyQtSql/EasyQtSql_Transaction.h:326),
  and the destructor rolls back whenever `m_commited` is false (lines 284-287).
  So an explicit `rollback()` is followed by a second rollback at the end of
  scope, even when the explicit rollback failed
  (`Scope.ExplicitRollbackIsRepeatedAtExit`). This is what line 206 promises,
  "automatic rollback of non-explicitly committed transactions", applied to a
  transaction that was rolled back by hand. The model keeps this behaviour.

## Model

| member | source | states |
|---|---|---|
| `TransactionModel.OpenIfClosed` | EasyQtSql/EasyQtSql_Transaction.h:79-92 | open() is called only if the connection is not open; afterwards it is open iff it was already open or open() succeeded; the constructor throws ConnectionError(Open) exactly when exceptions are enabled and the connection is still closed |
| `EasyQtSql.Database.New` | EasyQtSql/EasyQtSql_Transaction.h:79-92 | the supplied handle is used if valid, otherwise the default connection; the chosen connection's open state and log follow `OpenIfClosed`; the other connection is untouched; on success the new Database holds the chosen connection and the mode |
| `TransactionModel.ExecStep` | EasyQtSql/EasyQtSql_Transaction.h:107-142 | one Exec call is logged; with exceptions enabled the call throws QueryError exactly when the query's last error is valid; otherwise it returns the executed query |
| `EasyQtSql.Database.ExecNonQuery` | EasyQtSql/EasyQtSql_Transaction.h:107-121 | log and outcome as `ExecStep`; a returned value is a NonQueryResult that wraps the executed query |
| `EasyQtSql.Database.ExecQuery` | EasyQtSql/EasyQtSql_Transaction.h:128-142 | log and outcome as `ExecStep`; a returned value is a QueryResult that wraps the executed query |
| `TransactionModel.BeginStep` | EasyQtSql/EasyQtSql_Transaction.h:267-280 | one transaction() call is logged; started equals its answer; committed is false; with exceptions enabled the constructor throws exactly when the transaction is not started |
| `TransactionModel.Construct` | EasyQtSql/EasyQtSql_Transaction.h:267-280 | the Transaction constructor throws exactly when exceptions are enabled and open or begin failed; the log gains open() only if the connection was closed, then transaction() unless a failed open already threw; a constructed transaction has started equal to the begin answer and is not committed |
| `TransactionModel.ConstructCalls` | EasyQtSql/EasyQtSql_Transaction.h:267-280 | construction calls open() at most once and transaction() at most once, and calls neither commit() nor rollback() |
| `EasyQtSql.Transaction.New` | EasyQtSql/EasyQtSql_Transaction.h:267-280 | the connection's log and the outcome follow `Construct`; a new Transaction reports started() equal to the begin answer and commited() false |
| `EasyQtSql.Transaction.Started` | EasyQtSql/EasyQtSql_Transaction.h:335-338 | the getter's value is stated by the contracts around it: `Transaction.New` (started() equals the begin answer), `Transaction.Commit` and `Transaction.Rollback` (through `State()`, which keeps started), and `Scope.RunKeepsStarted` |
| `EasyQtSql.Transaction.Commited` | EasyQtSql/EasyQtSql_Transaction.h:343-346 | the getter's value is stated by the contracts around it: `Transaction.New` (commited() is false), `Transaction.Commit` and `Transaction.Rollback` (through `State()`), and `Scope.RunConsistent` (committed iff the log holds a successful commit) |
| `TransactionModel.CommitStep` | EasyQtSql/EasyQtSql_Transaction.h:297-313 | an underlying commit is made only when not yet committed, and then exactly one; afterwards committed holds iff it already held or that commit succeeded; a returned value equals the committed flag; with exceptions enabled it throws exactly when the transaction is still not committed; started does not change |
| `EasyQtSql.Transaction.Commit` | EasyQtSql/EasyQtSql_Transaction.h:297-313 | flags, log and outcome are those of `CommitStep`; the open state does not change |
| `TransactionModel.CommitTwice` | EasyQtSql/EasyQtSql_Transaction.h:297-313 | commit() twice, the first call succeeding, makes exactly one underlying commit, and both calls return true |
| `TransactionModel.RollbackStep` | EasyQtSql/EasyQtSql_Transaction.h:318-330 | the flags never change; an underlying rollback is made exactly when not committed; it returns true iff that rollback was made and succeeded; it never throws |
| `EasyQtSql.Transaction.Rollback` | EasyQtSql/EasyQtSql_Transaction.h:318-330 | flags, log and result are those of `RollbackStep`; the open state does not change |
| `TransactionModel.DestroyLog` | EasyQtSql/EasyQtSql_Transaction.h:282-288 | the destructor adds exactly one rollback to the log if not committed and none if committed, whatever started says; it adds no other call |
| `EasyQtSql.Transaction.Destroy` | EasyQtSql/EasyQtSql_Transaction.h:282-288 | the connection's log becomes `DestroyLog` of the current flags; the open state does not change |
| `TransactionModel.RollbackThenDestroy` | EasyQtSql/EasyQtSql_Transaction.h:282-330 | rollback() on an uncommitted transaction, then its destructor, makes two underlying rollbacks |
| `Scope.ApplyConsistent` | EasyQtSql/EasyQtSql_Transaction.h:297-330 | commit(), rollback() and a statement each keep the committed flag equal to "the log holds a successful commit", keep the log sealed, and keep started |
| `Scope.RunConsistent` | EasyQtSql/EasyQtSql_Transaction.h:297-330 | any sequence of operations keeps the committed flag in agreement with the log, and keeps the log sealed |
| `Scope.RunKeepsStarted` | EasyQtSql/EasyQtSql_Transaction.h:267-338 | no sequence of commit(), rollback() or statements changes started |
| `Scope.ConstructConsistent` | EasyQtSql/EasyQtSql_Transaction.h:267-280 | a newly constructed transaction is not committed, and its log holds no successful commit |
| `Scope.RunStatements` | EasyQtSql/EasyQtSql_Transaction.h:107-142 | statements run through a transaction change neither flag and add no open, begin, commit or rollback call |
| `Scope.CommitIsFinal` | EasyQtSql/EasyQtSql_Transaction.h:297-330 | over a whole life, after a successful commit the connection receives only statements: no second commit, no rollback from the caller, and none from the destructor |
| `Scope.RollbackAtExit` | EasyQtSql/EasyQtSql_Transaction.h:282-288 | for a constructed transaction, the last call of its life is the destructor's rollback iff no commit succeeded, for either value of started |
| `Scope.UntouchedRollsBackOnce` | EasyQtSql/EasyQtSql_Transaction.h:282-288 | a constructed transaction that only runs statements gets exactly one rollback over its life, and no commit |
| `Scope.FailedConstructionNeverRollsBack` | EasyQtSql/EasyQtSql_Transaction.h:267-288 | with exceptions enabled, a transaction whose open or begin failed never gets a commit or a rollback: its destructor never runs |
| `Scope.ExplicitRollbackIsRepeatedAtExit` | EasyQtSql/EasyQtSql_Transaction.h:282-330 | an explicit rollback() followed by the end of scope makes two underlying rollbacks |

## Left out

- The Qt SQL driver is not modelled. Its answers to open, transaction, commit, rollback and exec are free inputs. Rules such as "a closed connection cannot begin a transaction" are not assumed.
- `QSqlDatabase::database()` returns the default connection, and Qt may open it as part of that call. The model passes the default connection in as the parameter `fallback`, in whatever state it has.
- `lastError()` (EasyQtSql/EasyQtSql_Transaction.h:97-100) is left out. It only passes through the driver's error object. A `DBException` in the model records only the failed call or the failed query, not Qt's error object.
- `insertInto`, `deleteFrom`, `update` and `prepare` (EasyQtSql/EasyQtSql_Transaction.h:148-187) are left out. They only construct query-builder objects, and those types are not part of this model.
- `qSqlDatabase()` and `Q_DISABLE_COPY` are left out. They are about C++ references and ownership, not behaviour.
- SQL text is carried as an uninterpreted string.
- Scope.ScopeLog covers only the documented pattern, where the first exception leaves the scope. A caller who catches an exception inside the scope and keeps using the object is covered by the class methods one call at a time, not by the lifetime lemmas.
- The Doxygen class index `docs/hierarchy.js` is generated data with no behaviour. It is not part of this model.
