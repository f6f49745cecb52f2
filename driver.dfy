/** The underlying SQL client connection (a QSqlDatabase) as the wrapper sees it.

    The driver itself is foreign code: what `open`, `transaction`, `commit`,
    `rollback` and `exec` answer is a free input (a method parameter), and
    every call is recorded in the connection's log, so that the wrapper's
    promises can be stated as properties of that log.
 */
module Driver {

  /** The calls the wrapper makes on a connection. */
  datatype Call = Open | Begin | Commit | Rollback | Exec(sql: string)

  /** One call as the connection received it, with the driver's answer
      (for `Exec`: whether the statement ran without error). */
  datatype Event = Event(call: Call, ok: bool)

  /** An executed statement (QSqlQuery) and whether its last error is valid. */
  datatype Query = Query(sql: string, errorValid: bool)

  /** The number of calls `c` in `log`. */
  function CallCount(log: seq<Event>, c: Call): (n: nat)
  {
    if log == [] then 0
    else CallCount(log[..|log| - 1], c) + (if log[|log| - 1].call == c then 1 else 0)
  }

  /** Counting distributes over appending to a log. */
  lemma {:induction false} CallCountAppend(log: seq<Event>, more: seq<Event>, c: Call)
    ensures CallCount(log + more, c) == CallCount(log, c) + CallCount(more, c)
    decreases |more|
  {
    if more == [] {
      assert log + more == log;
    } else {
      var init := more[..|more| - 1];
      assert (log + more)[..|log + more| - 1] == log + init;
      assert (log + more)[|log + more| - 1] == more[|more| - 1];
      CallCountAppend(log, init, c);
    }
  }

  /** A log with no event for `c` counts no call `c`. */
  lemma {:induction false} CallCountAbsent(log: seq<Event>, c: Call)
    requires forall i :: 0 <= i < |log| ==> log[i].call != c
    ensures CallCount(log, c) == 0
    decreases |log|
  {
    if log != [] {
      CallCountAbsent(log[..|log| - 1], c);
    }
  }

  /** A log that counts no call `c` holds no event for `c`. */
  lemma {:induction false} CallCountZero(log: seq<Event>, c: Call)
    requires CallCount(log, c) == 0
    ensures forall i :: 0 <= i < |log| ==> log[i].call != c
    decreases |log|
  {
    if log != [] {
      var init := log[..|log| - 1];
      CallCountZero(init, c);
      assert forall i :: 0 <= i < |init| ==> log[i] == init[i];
    }
  }

  /** A connection handle. `valid` is fixed when the handle is made; `isOpen`
      and the call log change as the wrapper uses it. Copies of a QSqlDatabase
      share one connection, so the model passes references to one object. */
  class Connection {
    const valid: bool
    var isOpen: bool
    var log: seq<Event>

    constructor (valid: bool, isOpen: bool)
      ensures this.valid == valid && this.isOpen == isOpen && log == []
    {
      this.valid := valid;
      this.isOpen := isOpen;
      log := [];
    }

    method Open(answer: bool) returns (ok: bool)
      modifies this
      ensures ok == answer && isOpen == answer
      ensures log == old(log) + [Event(Call.Open, answer)]
    {
      ok := answer;
      isOpen := answer;
      log := log + [Event(Call.Open, answer)];
    }

    method Transaction(answer: bool) returns (ok: bool)
      modifies this
      ensures ok == answer && isOpen == old(isOpen)
      ensures log == old(log) + [Event(Begin, answer)]
    {
      ok := answer;
      log := log + [Event(Begin, answer)];
    }

    method Commit(answer: bool) returns (ok: bool)
      modifies this
      ensures ok == answer && isOpen == old(isOpen)
      ensures log == old(log) + [Event(Call.Commit, answer)]
    {
      ok := answer;
      log := log + [Event(Call.Commit, answer)];
    }

    method Rollback(answer: bool) returns (ok: bool)
      modifies this
      ensures ok == answer && isOpen == old(isOpen)
      ensures log == old(log) + [Event(Call.Rollback, answer)]
    {
      ok := answer;
      log := log + [Event(Call.Rollback, answer)];
    }

    /** Runs `sql`; `errorValid` is whether the resulting query reports an error. */
    method Exec(sql: string, errorValid: bool) returns (q: Query)
      modifies this
      ensures q == Query(sql, errorValid) && isOpen == old(isOpen)
      ensures log == old(log) + [Event(Call.Exec(sql), !errorValid)]
    {
      q := Query(sql, errorValid);
      log := log + [Event(Call.Exec(sql), !errorValid)];
    }
  }
}
