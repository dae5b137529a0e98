/** The database: the three collections the services read and write, keyed by id. */
module Store {
  import opened Wrappers
  import opened Ids
  import opened Errors
  import opened ProductModel
  import opened TransactionModel
  import opened Users

  datatype Db = Db(
    products: map<ProductId, Product>,
    transactions: map<TransactionId, Transaction>,
    users: map<UserId, User>)

  /** The state after a service call, and what the call returned or threw. */
  datatype Outcome<+T> = Outcome(db: Db, result: Result<T, ServiceError>)
}
