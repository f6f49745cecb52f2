/** What the wrapper's calls return or throw. */
module Results {
  import opened Driver

  /** A DBException: the error of the connection after a failed call, or the
      failed query (which carries the statement text). */
  datatype DBException = ConnectionError(call: Call) | QueryError(query: Query)

  /** A call that either returns a value or throws a DBException. With
      exceptions disabled the wrapper never produces `Threw`. */
  datatype Outcome<+T> = Returned(value: T) | Threw(error: DBException) {

    /** The same outcome with the returned value forgotten. */
    function Discard(): (o: Outcome<()>)
    {
      match this
      case Returned(_) => Returned(())
      case Threw(e) => Threw(e)
    }
  }

  /** Result wrappers around an executed query. */
  datatype NonQueryResult = NonQueryResult(query: Query)
  datatype QueryResult = QueryResult(query: Query)
}
