/** The transaction controller: buyer injection on creation, the status-presence
    gate, and the counted purchase and sales lists. */
module TransactionController {
  import opened Wrappers
  import opened Ids
  import opened Errors
  import opened ProductModel
  import opened TransactionModel
  import opened Store
  import opened ErrorHandler
  import opened TransactionService

  /** `createTransaction`: the buyer is the authenticated user, whatever the body says. */
  function CreateTransaction(db: Db, txId: TransactionId, userId: UserId, body: TransactionInput,
                             now: int, nodeEnv: Option<string>): (r: (Db, Reply<Transaction>))
    requires txId !in db.transactions
    ensures r.0 == Settle(db, txId, body.(buyer := Some(userId)), now).db
    ensures var out := Settle(db, txId, body.(buyer := Some(userId)), now);
      && (out.result.Success? ==> r.1 == Ok(201, out.result.value) && out.result.value.buyer == userId)
      && (out.result.Failure? ==> r.1 == Err(500, Message(out.result.error)))
  {
    var out := Settle(db, txId, body.(buyer := Some(userId)), now);
    match out.result
    case Success(t) => (out.db, Ok(201, t))
    case Failure(e) =>
      ServiceErrorsAre500<Transaction>(e, nodeEnv);
      (out.db, Thrown(e, nodeEnv))
  }

  /** A request for a listed product without a delivery option stores nothing and
      is answered with 500 and the message of Mongoose's validation error, which
      names the model, the path and the `required` message:
      "Transaction validation failed: deliveryOption: Path `deliveryOption` is required." */
  lemma MissingDeliveryOptionReply(db: Db, txId: TransactionId, userId: UserId, body: TransactionInput,
                                   now: int, nodeEnv: Option<string>)
    requires txId !in db.transactions
    requires body.product.Some? && body.product.value in db.products
    requires db.products[body.product.value].status == Listed
    requires body.deliveryOption.None? && body.status.None?
    ensures CreateTransaction(db, txId, userId, body, now, nodeEnv) ==
      (db, Err(500, ValidationHeading("Transaction") + ": " + "deliveryOption" + ": " + RequiredMessage("deliveryOption")))
  {
    var p := db.products[body.product.value];
    var doc := SnapshotInput(body.(buyer := Some(userId)), p);
    var f := PathError("deliveryOption", RequiredMessage("deliveryOption"));
    assert TransactionViolations(doc) == [f];
    SingleFailureMessage("Transaction", f);
  }

  /** A buyer named in the body is overridden. */
  lemma BodyBuyerIgnored(db: Db, txId: TransactionId, userId: UserId, body: TransactionInput,
                         other: Option<UserId>, now: int, nodeEnv: Option<string>)
    requires txId !in db.transactions
    ensures CreateTransaction(db, txId, userId, body.(buyer := other), now, nodeEnv) ==
            CreateTransaction(db, txId, userId, body, now, nodeEnv)
  {
    assert body.(buyer := other).(buyer := Some(userId)) == body.(buyer := Some(userId));
  }

  /** `updateTransactionStatus`: a missing or empty status is refused with 400
      before the service runs. */
  function UpdateTransactionStatusHandler(db: Db, id: TransactionId, status: Option<string>, userId: UserId,
                                          nodeEnv: Option<string>): (r: (Db, Reply<Transaction>))
    ensures (status.None? || status.value == "") ==> r == (db, Err(400, "Please provide a status"))
    ensures status.Some? && status.value != "" ==>
      r.0 == UpdateTransactionStatus(db, id, status.value, userId).db
    ensures r.1.Ok? ==> r.1.status == 200
  {
    if status.None? || status.value == "" then (db, Err(400, "Please provide a status"))
    else
      var out := UpdateTransactionStatus(db, id, status.value, userId);
      match out.result
      case Success(t) => (out.db, Ok(200, t))
      case Failure(e) => (out.db, Thrown(e, nodeEnv))
  }

  /** `getUserPurchases`: the user's purchases with their count. */
  method GetUserPurchasesHandler(db: Db, userId: UserId) returns (r: ListReply<(TransactionId, Transaction)>)
    ensures r.status == 200 && r.count == |r.data|
    ensures forall e :: e in r.data <==> e.0 in db.transactions && db.transactions[e.0] == e.1 && e.1.buyer == userId
  {
    var found := GetUserPurchases(db, userId);
    r := ListReply(200, |found|, found);
  }

  /** `getUserSales`: the user's sales with their count. */
  method GetUserSalesHandler(db: Db, userId: UserId) returns (r: ListReply<(TransactionId, Transaction)>)
    ensures r.status == 200 && r.count == |r.data|
    ensures forall e :: e in r.data <==> e.0 in db.transactions && db.transactions[e.0] == e.1 && e.1.seller == userId
  {
    var found := GetUserSales(db, userId);
    r := ListReply(200, |found|, found);
  }
}
