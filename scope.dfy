/** The life of one Transaction object, as the class documentation uses it:
    construct it inside a try block, run commit(), rollback() and statements
    through it, and let it go out of scope, normally or because a
    DBException propagates. The first throw ends the scope; the destructor
    then runs, unless it was the constructor that threw (C++ does not run
    the destructor of an object whose constructor did not finish).

    The logs here start empty: they are the calls this one Transaction
    makes on its connection.
 */
module Scope {
  import opened Driver
  import opened Results
  import opened TransactionModel

  /** What the scope does with a live Transaction, with the driver's answer. */
  datatype Op =
    | CommitOp(answer: bool)
    | RollbackOp(answer: bool)
    | ExecOp(sql: string, errorValid: bool)

  /** One operation on the Transaction. */
  function Apply(exceptions: bool, tx: Tx, log: seq<Event>, op: Op): (r: Step<()>)
  {
    match op
    case CommitOp(answer) =>
      var s := CommitStep(exceptions, tx, log, answer);
      Step(s.tx, s.log, s.out.Discard())
    case RollbackOp(answer) =>
      var s := RollbackStep(tx, log, answer);
      Step(s.tx, s.log, Returned(()))
    case ExecOp(sql, errorValid) =>
      var e := ExecStep(exceptions, log, sql, errorValid);
      Step(tx, e.log, e.out.Discard())
  }

  /** The operations in order, up to and including the first that throws. */
  function Run(exceptions: bool, tx: Tx, log: seq<Event>, ops: seq<Op>): (r: Step<()>)
    decreases |ops|
  {
    if ops == [] then Step(tx, log, Returned(()))
    else
      var s := Apply(exceptions, tx, log, ops[0]);
      if s.out.Threw? then s else Run(exceptions, s.tx, s.log, ops[1..])
  }

  /** Every call the Transaction makes on a connection that was `wasOpen`,
      from its constructor to its destructor. */
  function ScopeLog(exceptions: bool, wasOpen: bool, openAnswer: bool, beginAnswer: bool,
                    ops: seq<Op>, exitAnswer: bool): (l: seq<Event>)
  {
    var c := Construct(exceptions, wasOpen, openAnswer, beginAnswer, []);
    if c.out.Threw? then c.log
    else
      var r := Run(exceptions, c.tx, c.log, ops);
      DestroyLog(r.tx, r.log, exitAnswer)
  }

  /** The log holds a successful commit. */
  ghost predicate Committed(log: seq<Event>)
  {
    exists i :: 0 <= i < |log| && log[i] == Event(Commit, true)
  }

  /** After a successful commit the connection receives nothing but statements. */
  ghost predicate Sealed(log: seq<Event>)
  {
    forall i, j :: 0 <= i < j < |log| && log[i] == Event(Commit, true) ==> log[j].call.Exec?
  }

  /** The committed flag agrees with the log, and the log is sealed. */
  ghost predicate Consistent(tx: Tx, log: seq<Event>)
  {
    (tx.commited <==> Committed(log)) && Sealed(log)
  }

  /** Appending a call keeps a log sealed as long as it is a statement or
      nothing was committed yet. */
  lemma Append(log: seq<Event>, e: Event)
    requires Sealed(log)
    requires e.call.Exec? || !Committed(log)
    ensures Sealed(log + [e])
    ensures Committed(log + [e]) <==> Committed(log) || e == Event(Commit, true)
  {
    var l := log + [e];
    forall i, j | 0 <= i < j < |l| && l[i] == Event(Commit, true)
      ensures l[j].call.Exec?
    {
      assert l[i] == log[i];
      if j < |log| {
        assert l[j] == log[j];
      }
    }
    if Committed(l) {
      var i :| 0 <= i < |l| && l[i] == Event(Commit, true);
      if i < |log| {
        assert log[i] == l[i];
      }
    }
    if Committed(log) {
      var i :| 0 <= i < |log| && log[i] == Event(Commit, true);
      assert l[i] == log[i];
    }
    assert l[|log|] == e;
  }

  /** Each operation keeps the flags consistent with the log and leaves
      `started` alone. */
  lemma ApplyConsistent(exceptions: bool, tx: Tx, log: seq<Event>, op: Op)
    requires Consistent(tx, log)
    ensures var s := Apply(exceptions, tx, log, op);
            Consistent(s.tx, s.log) && s.tx.started == tx.started
  {
    match op
    case CommitOp(answer) =>
      if !tx.commited {
        Append(log, Event(Commit, answer));
      }
    case RollbackOp(answer) =>
      if !tx.commited {
        Append(log, Event(Rollback, answer));
      }
    case ExecOp(sql, errorValid) =>
      Append(log, Event(Exec(sql), !errorValid));
  }

  /** Running operations keeps the flags consistent with the log. */
  lemma {:induction false} RunConsistent(exceptions: bool, tx: Tx, log: seq<Event>, ops: seq<Op>)
    requires Consistent(tx, log)
    ensures Consistent(Run(exceptions, tx, log, ops).tx, Run(exceptions, tx, log, ops).log)
    decreases |ops|
  {
    if ops != [] {
      ApplyConsistent(exceptions, tx, log, ops[0]);
      var s := Apply(exceptions, tx, log, ops[0]);
      if !s.out.Threw? {
        RunConsistent(exceptions, s.tx, s.log, ops[1..]);
      }
    }
  }

  /** `started` is set by the constructor only: no commit(), rollback() or
      statement changes it. */
  lemma {:induction false} RunKeepsStarted(exceptions: bool, tx: Tx, log: seq<Event>, ops: seq<Op>)
    ensures Run(exceptions, tx, log, ops).tx.started == tx.started
    decreases |ops|
  {
    if ops != [] {
      var s := Apply(exceptions, tx, log, ops[0]);
      if !s.out.Threw? {
        RunKeepsStarted(exceptions, s.tx, s.log, ops[1..]);
      }
    }
  }

  /** Statements alone change neither flag and add no call other than
      statements. */
  lemma {:induction false} RunStatements(exceptions: bool, tx: Tx, log: seq<Event>, ops: seq<Op>, c: Call)
    requires !c.Exec?
    requires forall k :: 0 <= k < |ops| ==> ops[k].ExecOp?
    ensures Run(exceptions, tx, log, ops).tx == tx
    ensures CallCount(Run(exceptions, tx, log, ops).log, c) == CallCount(log, c)
    decreases |ops|
  {
    if ops != [] {
      var s := Apply(exceptions, tx, log, ops[0]);
      assert s.log == log + [Event(Exec(ops[0].sql), !ops[0].errorValid)];
      CallCountAppend(log, [Event(Exec(ops[0].sql), !ops[0].errorValid)], c);
      if !s.out.Threw? {
        RunStatements(exceptions, s.tx, s.log, ops[1..], c);
      }
    }
  }

  /** A freshly constructed Transaction is consistent with its log: nothing
      is committed yet. */
  lemma ConstructConsistent(exceptions: bool, wasOpen: bool, openAnswer: bool, beginAnswer: bool)
    ensures var c := Construct(exceptions, wasOpen, openAnswer, beginAnswer, []);
            c.out.Returned? ==> Consistent(c.tx, c.log)
  {
  }

  /** Once a commit has succeeded, the connection receives no further commit
      and no rollback, neither from the caller nor from the destructor. */
  lemma CommitIsFinal(exceptions: bool, wasOpen: bool, openAnswer: bool, beginAnswer: bool,
                      ops: seq<Op>, exitAnswer: bool)
    ensures Sealed(ScopeLog(exceptions, wasOpen, openAnswer, beginAnswer, ops, exitAnswer))
  {
    var c := Construct(exceptions, wasOpen, openAnswer, beginAnswer, []);
    if c.out.Threw? {
      ConstructCalls(exceptions, wasOpen, openAnswer, beginAnswer, []);
      CallCountZero(c.log, Commit);
    } else {
      ConstructConsistent(exceptions, wasOpen, openAnswer, beginAnswer);
      RunConsistent(exceptions, c.tx, c.log, ops);
      var r := Run(exceptions, c.tx, c.log, ops);
      if !r.tx.commited {
        Append(r.log, Event(Rollback, exitAnswer));
      }
    }
  }

  /** Once constructed, a Transaction's last call is the destructor's
      rollback exactly when no commit succeeded, whether or not the begin
      succeeded. */
  lemma RollbackAtExit(exceptions: bool, wasOpen: bool, openAnswer: bool, beginAnswer: bool,
                       ops: seq<Op>, exitAnswer: bool)
    requires Construct(exceptions, wasOpen, openAnswer, beginAnswer, []).out.Returned?
    ensures var l := ScopeLog(exceptions, wasOpen, openAnswer, beginAnswer, ops, exitAnswer);
            |l| > 0 && (l[|l| - 1] == Event(Rollback, exitAnswer) <==> !Committed(l))
  {
    var c := Construct(exceptions, wasOpen, openAnswer, beginAnswer, []);
    ConstructConsistent(exceptions, wasOpen, openAnswer, beginAnswer);
    RunConsistent(exceptions, c.tx, c.log, ops);
    var r := Run(exceptions, c.tx, c.log, ops);
    var l := ScopeLog(exceptions, wasOpen, openAnswer, beginAnswer, ops, exitAnswer);
    if r.tx.commited {
      assert l == r.log;
      var i :| 0 <= i < |l| && l[i] == Event(Commit, true);
      assert i < |l| - 1 ==> l[|l| - 1].call.Exec?;
    } else {
      Append(r.log, Event(Rollback, exitAnswer));
      assert l == r.log + [Event(Rollback, exitAnswer)];
    }
  }

  /** A constructed Transaction that is neither committed nor rolled back by
      the caller gets exactly one rollback, the destructor's, and no commit. */
  lemma UntouchedRollsBackOnce(exceptions: bool, wasOpen: bool, openAnswer: bool, beginAnswer: bool,
                               ops: seq<Op>, exitAnswer: bool)
    requires Construct(exceptions, wasOpen, openAnswer, beginAnswer, []).out.Returned?
    requires forall k :: 0 <= k < |ops| ==> ops[k].ExecOp?
    ensures var l := ScopeLog(exceptions, wasOpen, openAnswer, beginAnswer, ops, exitAnswer);
            CallCount(l, Rollback) == 1 && CallCount(l, Commit) == 0
  {
    var c := Construct(exceptions, wasOpen, openAnswer, beginAnswer, []);
    ConstructCalls(exceptions, wasOpen, openAnswer, beginAnswer, []);
    RunStatements(exceptions, c.tx, c.log, ops, Rollback);
    RunStatements(exceptions, c.tx, c.log, ops, Commit);
    var r := Run(exceptions, c.tx, c.log, ops);
    assert ScopeLog(exceptions, wasOpen, openAnswer, beginAnswer, ops, exitAnswer)
        == DestroyLog(c.tx, r.log, exitAnswer);
  }

  /** A Transaction whose constructor throws (exceptions enabled, open or
      begin failed) is never committed and never rolled back. */
  lemma FailedConstructionNeverRollsBack(exceptions: bool, wasOpen: bool, openAnswer: bool,
                                         beginAnswer: bool, ops: seq<Op>, exitAnswer: bool)
    requires exceptions && !((wasOpen || openAnswer) && beginAnswer)
    ensures var l := ScopeLog(exceptions, wasOpen, openAnswer, beginAnswer, ops, exitAnswer);
            CallCount(l, Rollback) == 0 && CallCount(l, Commit) == 0 && !Committed(l)
  {
    var c := Construct(exceptions, wasOpen, openAnswer, beginAnswer, []);
    ConstructCalls(exceptions, wasOpen, openAnswer, beginAnswer, []);
    assert ScopeLog(exceptions, wasOpen, openAnswer, beginAnswer, ops, exitAnswer) == c.log;
    CallCountZero(c.log, Commit);
  }

  /** An explicit rollback() is followed by a second rollback from the
      destructor, because rollback() leaves the transaction uncommitted. */
  lemma ExplicitRollbackIsRepeatedAtExit(exceptions: bool, wasOpen: bool, openAnswer: bool,
                                         beginAnswer: bool, answer: bool, exitAnswer: bool)
    requires Construct(exceptions, wasOpen, openAnswer, beginAnswer, []).out.Returned?
    ensures var l := ScopeLog(exceptions, wasOpen, openAnswer, beginAnswer, [RollbackOp(answer)], exitAnswer);
            CallCount(l, Rollback) == 2
  {
    var c := Construct(exceptions, wasOpen, openAnswer, beginAnswer, []);
    ConstructCalls(exceptions, wasOpen, openAnswer, beginAnswer, []);
    var s := RollbackStep(c.tx, c.log, answer);
    assert Run(exceptions, c.tx, c.log, [RollbackOp(answer)]) == Step(s.tx, s.log, Returned(()));
    assert ScopeLog(exceptions, wasOpen, openAnswer, beginAnswer, [RollbackOp(answer)], exitAnswer)
        == DestroyLog(s.tx, s.log, exitAnswer);
    RollbackThenDestroy(c.tx, c.log, answer, exitAnswer);
  }
}
