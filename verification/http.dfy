/** What a route handler answers: a status code and a JSON body. */
module Http {
  import opened Records

  /** The body of `GET /api/transactions/summary/:userId`. */
  datatype Summary = Summary(
    totalIncome: int,
    totalExpenses: int,
    balance: int,
    dailyLimit: int,
    spentToday: int,
    remainingToday: int)

  datatype Body =
    | Message(text: string)
    | SummaryBody(summary: Summary)
    | TransactionsBody(items: seq<Transaction>)
    | TransactionBody(item: Transaction)
    | UserBody(user: PublicUser)

  datatype Response = Response(status: int, body: Body)

  const OK: int := 200
  const CREATED: int := 201
  const BAD_REQUEST: int := 400
  const UNAUTHORIZED: int := 401
  const NOT_FOUND: int := 404
  const SERVER_ERROR: int := 500

  /** A failure answer: the status and a `{ message }` body. */
  function Error(status: int, text: string): Response
  {
    Response(status, Message(text))
  }

  /** A success answer that carries only a `{ message }` body. */
  function Reply(status: int, text: string): Response
  {
    Response(status, Message(text))
  }
}
