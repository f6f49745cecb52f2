/** The two wrapper classes, Database and Transaction.

    C++ constructors that may throw become a static method `New` returning an
    Outcome; the plain constructor `Bind` is the member initialisation that
    runs once the checks have passed. Transaction derives from Database in
    the source; here it holds its Database part in `base`, and the helper
    methods it inherits are reached through it (`t.base.ExecNonQuery(...)`).
 */
module EasyQtSql {
  import opened Driver
  import opened Results
  import opened TransactionModel

  class Database {
    /** The build switch DB_EXCEPTIONS_ENABLED. */
    const exceptions: bool
    /** m_db */
    const db: Connection

    constructor Bind(exceptions: bool, db: Connection)
      ensures this.exceptions == exceptions && this.db == db
    {
      this.exceptions := exceptions;
      this.db := db;
    }

    /** Database(db): use `supplied` if it is valid, otherwise the default
        connection `fallback`; open it if it is not open. With exceptions
        enabled, a failed open throws. */
    static method New(exceptions: bool, supplied: Connection, fallback: Connection, openAnswer: bool)
      returns (r: Outcome<Database>)
      modifies supplied, fallback
      ensures var c := if supplied.valid then supplied else fallback;
              var o := OpenIfClosed(exceptions, old(c.isOpen), old(c.log), openAnswer);
              c.isOpen == o.isOpen && c.log == o.log &&
              (r.Threw? <==> o.out.Threw?) &&
              (r.Threw? ==> r.error == o.out.error) &&
              (r.Returned? ==> fresh(r.value) && r.value.db == c && r.value.exceptions == exceptions)
      ensures supplied.valid && fallback != supplied ==> unchanged(fallback)
      ensures !supplied.valid && fallback != supplied ==> unchanged(supplied)
    {
      var c := if supplied.valid then supplied else fallback;
      if !c.isOpen {
        var ok := c.Open(openAnswer);
        if !ok && exceptions {
          return Threw(ConnectionError(Open));
        }
      }
      var d := new Database.Bind(exceptions, c);
      r := Returned(d);
    }

    /** execNonQuery(sql): run the statement; with exceptions enabled a query
        whose last error is valid throws, otherwise its result is returned. */
    method ExecNonQuery(sql: string, errorValid: bool) returns (r: Outcome<NonQueryResult>)
      modifies db
      ensures var e := ExecStep(exceptions, old(db.log), sql, errorValid);
              db.log == e.log && db.isOpen == old(db.isOpen) &&
              (r.Threw? <==> e.out.Threw?) &&
              (r.Threw? ==> r.error == e.out.error) &&
              (r.Returned? ==> r.value == NonQueryResult(e.out.value))
    {
      var q := db.Exec(sql, errorValid);
      if exceptions && q.errorValid {
        return Threw(QueryError(q));
      }
      r := Returned(NonQueryResult(q));
    }

    /** execQuery(sql): as ExecNonQuery, returning a row-set result. */
    method ExecQuery(sql: string, errorValid: bool) returns (r: Outcome<QueryResult>)
      modifies db
      ensures var e := ExecStep(exceptions, old(db.log), sql, errorValid);
              db.log == e.log && db.isOpen == old(db.isOpen) &&
              (r.Threw? <==> e.out.Threw?) &&
              (r.Threw? ==> r.error == e.out.error) &&
              (r.Returned? ==> r.value == QueryResult(e.out.value))
    {
      var q := db.Exec(sql, errorValid);
      if exceptions && q.errorValid {
        return Threw(QueryError(q));
      }
      r := Returned(QueryResult(q));
    }
  }

  class Transaction {
    /** The Database this Transaction derives from. */
    const base: Database
    /** m_started */
    var started: bool
    /** m_commited */
    var commited: bool

    constructor Bind(base: Database, started: bool)
      ensures this.base == base && this.started == started && !commited
    {
      this.base := base;
      this.started := started;
      commited := false;
    }

    /** The flags, as the model's transitions see them. */
    function State(): (tx: Tx)
      reads this
    {
      Tx(started, commited)
    }

    /** started() */
    function Started(): (b: bool)
      reads this
    {
      started
    }

    /** commited() */
    function Commited(): (b: bool)
      reads this
    {
      commited
    }

    /** Transaction(db): the Database constructor, then begin a transaction
        and record whether that worked. With exceptions enabled a failed
        begin throws. */
    static method New(exceptions: bool, supplied: Connection, fallback: Connection,
                      openAnswer: bool, beginAnswer: bool)
      returns (r: Outcome<Transaction>)
      modifies supplied, fallback
      ensures var c := if supplied.valid then supplied else fallback;
              var s := Construct(exceptions, old(c.isOpen), openAnswer, beginAnswer, old(c.log));
              c.isOpen == (old(c.isOpen) || openAnswer) && c.log == s.log &&
              (r.Threw? <==> s.out.Threw?) &&
              (r.Threw? ==> r.error == s.out.error) &&
              (r.Returned? ==> fresh(r.value) && fresh(r.value.base) &&
                               r.value.base.db == c && r.value.base.exceptions == exceptions &&
                               r.value.State() == s.tx)
      ensures r.Returned? ==> r.value.Started() == beginAnswer && !r.value.Commited()
      ensures supplied.valid && fallback != supplied ==> unchanged(fallback)
      ensures !supplied.valid && fallback != supplied ==> unchanged(supplied)
    {
      var d := Database.New(exceptions, supplied, fallback, openAnswer);
      if d.Threw? {
        return Threw(d.error);
      }
      var ok := d.value.db.Transaction(beginAnswer);
      if exceptions && !ok {
        return Threw(ConnectionError(Begin));
      }
      var t := new Transaction.Bind(d.value, ok);
      r := Returned(t);
    }

    /** ~Transaction(): roll back unless committed. */
    method Destroy(answer: bool)
      modifies base.db
      ensures base.db.log == DestroyLog(State(), old(base.db.log), answer)
      ensures base.db.isOpen == old(base.db.isOpen)
    {
      if !commited {
        var ignored := base.db.Rollback(answer);
      }
    }

    /** commit() */
    method Commit(answer: bool) returns (r: Outcome<bool>)
      modifies this, base.db
      ensures var s := CommitStep(base.exceptions, old(State()), old(base.db.log), answer);
              State() == s.tx && base.db.log == s.log && r == s.out
      ensures base.db.isOpen == old(base.db.isOpen)
    {
      if !commited {
        commited := base.db.Commit(answer);
        if base.exceptions && !commited {
          return Threw(ConnectionError(Call.Commit));
        }
      }
      r := Returned(commited);
    }

    /** rollback() */
    method Rollback(answer: bool) returns (r: bool)
      modifies this, base.db
      ensures var s := RollbackStep(old(State()), old(base.db.log), answer);
              State() == s.tx && base.db.log == s.log && s.out == Returned(r)
      ensures base.db.isOpen == old(base.db.isOpen)
    {
      r := false;
      if !commited {
        r := base.db.Rollback(answer);
        commited := false;
      }
    }
  }
}
