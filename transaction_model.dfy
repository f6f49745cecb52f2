/** The wrapper's operations as functions of the wrapper's flags, the
    connection's call log and the driver's answers. The classes in module
    EasyQtSql are proved to do exactly what these functions say; the
    functions' own contracts state what each call promises.

    `exceptions` is the build switch DB_EXCEPTIONS_ENABLED: when true, every
    failure the source guards throws a DBException; when false, failures are
    silent and nothing throws.
 */
module TransactionModel {
  import opened Driver
  import opened Results

  /** The two flags of a Transaction: m_started and m_commited. */
  datatype Tx = Tx(started: bool, commited: bool)

  /** The flags and the connection's log after a call, and what the call
      returned or threw. */
  datatype Step<T> = Step(tx: Tx, log: seq<Event>, out: Outcome<T>)

  /** The connection's open state and log after the Database constructor,
      and whether the constructor threw. */
  datatype Opened = Opened(isOpen: bool, log: seq<Event>, out: Outcome<()>)

  /** The connection's log after a statement, and the query or the exception. */
  datatype Executed = Executed(log: seq<Event>, out: Outcome<Query>)

  /** The Database constructor on the selected connection: open it if it is
      not open; with exceptions enabled a failed open throws. */
  function OpenIfClosed(exceptions: bool, wasOpen: bool, log: seq<Event>, answer: bool): (o: Opened)
    ensures o.isOpen <==> wasOpen || answer
    ensures o.log == log + (if wasOpen then [] else [Event(Open, answer)])
    ensures o.out.Threw? <==> exceptions && !o.isOpen
    ensures o.out.Threw? ==> o.out.error == ConnectionError(Open)
  {
    if wasOpen then Opened(true, log, Returned(()))
    else
      var out := if exceptions && !answer then Threw(ConnectionError(Open)) else Returned(());
      Opened(answer, log + [Event(Open, answer)], out)
  }

  /** execNonQuery / execQuery: one statement on the connection; with
      exceptions enabled a query whose last error is valid throws. */
  function ExecStep(exceptions: bool, log: seq<Event>, sql: string, errorValid: bool): (e: Executed)
    ensures e.log == log + [Event(Exec(sql), !errorValid)]
    ensures e.out.Threw? <==> exceptions && errorValid
    ensures e.out.Threw? ==> e.out.error == QueryError(Query(sql, errorValid))
    ensures e.out.Returned? ==> e.out.value == Query(sql, errorValid)
  {
    var q := Query(sql, errorValid);
    Executed(log + [Event(Exec(sql), !errorValid)],
             if exceptions && q.errorValid then Threw(QueryError(q)) else Returned(q))
  }

  /** The Transaction constructor's own part: begin a transaction and record
      whether that worked; with exceptions enabled a failed begin throws. */
  function BeginStep(exceptions: bool, log: seq<Event>, answer: bool): (s: Step<()>)
    ensures s.tx.started == answer && !s.tx.commited
    ensures s.log == log + [Event(Begin, answer)]
    ensures s.out.Threw? <==> exceptions && !s.tx.started
    ensures s.out.Threw? ==> s.out.error == ConnectionError(Begin)
  {
    var out := if exceptions && !answer then Threw(ConnectionError(Begin)) else Returned(());
    Step(Tx(answer, false), log + [Event(Begin, answer)], out)
  }

  /** The whole Transaction constructor: the Database constructor, then the
      begin. A throw from the Database part ends construction before any
      begin is attempted. */
  function Construct(exceptions: bool, wasOpen: bool, openAnswer: bool, beginAnswer: bool,
                     log: seq<Event>): (s: Step<()>)
    ensures s.out.Threw? <==> exceptions && !((wasOpen || openAnswer) && beginAnswer)
    ensures s.log == log + (if wasOpen then [] else [Event(Open, openAnswer)])
                         + (if exceptions && !wasOpen && !openAnswer then [] else [Event(Begin, beginAnswer)])
    ensures s.out.Returned? ==> s.tx == Tx(beginAnswer, false)
  {
    var o := OpenIfClosed(exceptions, wasOpen, log, openAnswer);
    if o.out.Threw? then Step(Tx(false, false), o.log, Threw(o.out.error))
    else BeginStep(exceptions, o.log, beginAnswer)
  }

  /** Construction opens the connection at most once, begins at most once,
      and neither commits nor rolls back. */
  lemma ConstructCalls(exceptions: bool, wasOpen: bool, openAnswer: bool, beginAnswer: bool,
                       log: seq<Event>)
    ensures var s := Construct(exceptions, wasOpen, openAnswer, beginAnswer, log);
            CallCount(s.log, Open) == CallCount(log, Open) + (if wasOpen then 0 else 1) &&
            CallCount(s.log, Begin) == CallCount(log, Begin) +
              (if exceptions && !wasOpen && !openAnswer then 0 else 1) &&
            CallCount(s.log, Commit) == CallCount(log, Commit) &&
            CallCount(s.log, Rollback) == CallCount(log, Rollback)
  {
    var s := Construct(exceptions, wasOpen, openAnswer, beginAnswer, log);
    var added := s.log[|log|..];
    assert s.log == log + added;
    CallCountAppend(log, added, Open);
    CallCountAppend(log, added, Begin);
    CallCountAppend(log, added, Commit);
    CallCountAppend(log, added, Rollback);
    CallCountAbsent(added, Commit);
    CallCountAbsent(added, Rollback);
  }

  /** commit(): only while not yet committed, one underlying commit whose
      answer becomes the committed flag; returns the committed flag; with
      exceptions enabled a failed commit throws. */
  function CommitStep(exceptions: bool, tx: Tx, log: seq<Event>, answer: bool): (s: Step<bool>)
    ensures s.tx.started == tx.started
    ensures s.tx.commited <==> tx.commited || answer
    ensures s.log == log + (if tx.commited then [] else [Event(Commit, answer)])
    ensures s.out.Threw? <==> exceptions && !s.tx.commited
    ensures s.out.Threw? ==> s.out.error == ConnectionError(Commit)
    ensures s.out.Returned? ==> s.out.value == s.tx.commited
  {
    if tx.commited then Step(tx, log, Returned(true))
    else
      var out := if exceptions && !answer then Threw(ConnectionError(Commit)) else Returned(answer);
      Step(tx.(commited := answer), log + [Event(Commit, answer)], out)
  }

  /** rollback(): only while not committed, one underlying rollback whose
      answer is returned; the flags never change, so an uncommitted
      transaction stays uncommitted; never throws. */
  function RollbackStep(tx: Tx, log: seq<Event>, answer: bool): (s: Step<bool>)
    ensures s.tx == tx
    ensures s.log == log + (if tx.commited then [] else [Event(Rollback, answer)])
    ensures s.out.Returned?
    ensures s.out.value <==> !tx.commited && answer
  {
    if !tx.commited then Step(tx.(commited := false), log + [Event(Rollback, answer)], Returned(answer))
    else Step(tx, log, Returned(false))
  }

  /** ~Transaction(): the log after the destructor, which issues one
      rollback exactly when the transaction is not committed, whatever
      `started` says. */
  function DestroyLog(tx: Tx, log: seq<Event>, answer: bool): (l: seq<Event>)
    ensures |l| == |log| + (if tx.commited then 0 else 1) && l[..|log|] == log
    ensures CallCount(l, Rollback) == CallCount(log, Rollback) + (if tx.commited then 0 else 1)
    ensures forall c :: c != Rollback ==> CallCount(l, c) == CallCount(log, c)
  {
    var l := if tx.commited then log else log + [Event(Rollback, answer)];
    assert l[..|l| - (if tx.commited then 0 else 1)] == log;
    l
  }

  /** Calling commit() twice, the first time successfully, makes one
      underlying commit and both calls return true. */
  lemma CommitTwice(exceptions: bool, tx: Tx, log: seq<Event>, first: bool, second: bool)
    requires !tx.commited && first
    ensures var s1 := CommitStep(exceptions, tx, log, first);
            var s2 := CommitStep(exceptions, s1.tx, s1.log, second);
            s1.out == s2.out == Returned(true) &&
            s2.log == log + [Event(Commit, true)] &&
            CallCount(s2.log, Commit) == CallCount(log, Commit) + 1
  {
  }

  /** A rollback() on an uncommitted transaction followed by the end of its
      life makes two underlying rollbacks: rollback() leaves the committed
      flag false, so the destructor rolls back again. */
  lemma RollbackThenDestroy(tx: Tx, log: seq<Event>, manual: bool, atExit: bool)
    requires !tx.commited
    ensures var s := RollbackStep(tx, log, manual);
            var l := DestroyLog(s.tx, s.log, atExit);
            l == log + [Event(Rollback, manual), Event(Rollback, atExit)] &&
            CallCount(l, Rollback) == CallCount(log, Rollback) + 2
  {
  }
}
