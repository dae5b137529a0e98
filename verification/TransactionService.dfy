/** The transaction service: settlement of a purchase, the participant-only status
    overwrite and the purchase and sales queries. */
module TransactionService {
  import opened Wrappers
  import opened Ids
  import opened Errors
  import opened EcoImpact
  import opened ProductModel
  import opened TransactionModel
  import opened Users
  import opened Store
  import Collections

  const BuyerPoints := 30
  const SellerPoints := 50

  /** The credit to the buyer's ledger. */
  function BuyerCredit(impact: Impact): map<string, int>
  {
    map["totalCO2Saved" := impact.co2Saved, "totalWaterSaved" := impact.waterSaved,
        "totalItemsBought" := 1, "ecoPoints" := BuyerPoints]
  }

  /** The credit to the seller's ledger: no CO2 or water. */
  function SellerCredit(): map<string, int>
  {
    map["totalItemsSold" := 1, "ecoPoints" := SellerPoints]
  }

  /** The document `Transaction.create` receives: the request, with price, seller
      and eco-impact taken from the product. */
  function SnapshotInput(input: TransactionInput, p: Product): TransactionInput
  {
    input.(price := Some(p.price), seller := Some(p.seller), ecoImpact := Some(p.ecoImpact))
  }

  /** `createTransaction`: a read followed by four sequential writes without
      rollback. It loads the product and requires it listed, then creates the
      transaction, marks the product sold, credits the buyer and credits the
      seller. A failure in a later step leaves the earlier writes in place. */
  function Settle(db: Db, txId: TransactionId, input: TransactionInput, now: int): (r: Outcome<Transaction>)
    requires txId !in db.transactions
    ensures (input.product.None? || input.product.value !in db.products) ==>
      r == Outcome(db, Failure(ProductNotFound))
    ensures input.product.Some? && input.product.value in db.products &&
            db.products[input.product.value].status != Listed ==>
      r == Outcome(db, Failure(NoLongerAvailable))
    ensures r.result.Failure? && r.result.error != UserNotFound ==> r.db == db
    ensures r.result.Success? ==>
      && input.product.Some? && input.product.value in db.products
      && var p := db.products[input.product.value];
         && p.status == Listed
         && r.result.value.product == input.product.value
         && r.result.value.price == p.price
         && r.result.value.seller == p.seller
         && r.result.value.ecoImpact == p.ecoImpact
         && Some(r.result.value.buyer) == input.buyer
         && r.db.transactions == db.transactions[txId := r.result.value]
         && r.db.products == db.products[input.product.value := p.(status := Sold)]
         && r.db.users.Keys == db.users.Keys
  {
    if input.product.None? || input.product.value !in db.products then Outcome(db, Failure(ProductNotFound))
    else
      var pid := input.product.value;
      var p := db.products[pid];
      if p.status != Listed then Outcome(db, Failure(NoLongerAvailable))
      else match CreateTransactionRecord(SnapshotInput(input, p), now)
        case Failure(e) => Outcome(db, Failure(e))
        case Success(t) =>
          var db1 := db.(transactions := db.transactions[txId := t],
                         products := db.products[pid := p.(status := Sold)]);
          match UpdateEcoStats(db1.users, t.buyer, BuyerCredit(p.ecoImpact))
          case Failure(e) => Outcome(db1, Failure(e))
          case Success(users2) =>
            match UpdateEcoStats(users2, p.seller, SellerCredit())
            case Failure(e) => Outcome(db1.(users := users2), Failure(e))
            case Success(users3) => Outcome(db1.(users := users3), Success(t))
  }

  /** The ledger effect of a successful settlement. Between distinct users the buyer
      gains the product's CO2 and water, one item bought and 30 points, and the seller
      one item sold and 50 points, with CO2 and water unchanged. Nothing forbids a
      seller buying their own product; that user then receives both credits. Nobody
      else changes. */
  lemma SettlementCredits(db: Db, txId: TransactionId, input: TransactionInput, now: int)
    requires txId !in db.transactions
    requires Settle(db, txId, input, now).result.Success?
    ensures var t := Settle(db, txId, input, now).result.value;
            var users := Settle(db, txId, input, now).db.users;
            t.buyer != t.seller ==>
              && t.buyer in db.users && t.seller in db.users
              && var b := db.users[t.buyer].ecoStats;
                 var s := db.users[t.seller].ecoStats;
                 && users[t.buyer].ecoStats == b.(
                      totalCO2Saved := b.totalCO2Saved + t.ecoImpact.co2Saved,
                      totalWaterSaved := b.totalWaterSaved + t.ecoImpact.waterSaved,
                      totalItemsBought := b.totalItemsBought + 1,
                      ecoPoints := b.ecoPoints + 30)
                 && users[t.seller].ecoStats == s.(
                      totalItemsSold := s.totalItemsSold + 1,
                      ecoPoints := s.ecoPoints + 50)
                 && forall u :: u in db.users && u != t.buyer && u != t.seller ==> users[u] == db.users[u]
    ensures var t := Settle(db, txId, input, now).result.value;
            var users := Settle(db, txId, input, now).db.users;
            t.buyer == t.seller ==>
              && t.buyer in db.users
              && var b := db.users[t.buyer].ecoStats;
                 && users[t.buyer].ecoStats == b.(
                      totalCO2Saved := b.totalCO2Saved + t.ecoImpact.co2Saved,
                      totalWaterSaved := b.totalWaterSaved + t.ecoImpact.waterSaved,
                      totalItemsBought := b.totalItemsBought + 1,
                      totalItemsSold := b.totalItemsSold + 1,
                      ecoPoints := b.ecoPoints + 80)
                 && forall u :: u in db.users && u != t.buyer ==> users[u] == db.users[u]
  {
  }

  /** A user-not-found failure after the transaction is written leaves the
      transaction stored and the product sold: the settlement is not atomic. */
  lemma PartialSettlement(db: Db, txId: TransactionId, input: TransactionInput, now: int)
    requires txId !in db.transactions
    requires Settle(db, txId, input, now).result == Failure(UserNotFound)
    ensures var after := Settle(db, txId, input, now).db;
            && txId in after.transactions
            && input.product.Some? && input.product.value in db.products
            && db.products[input.product.value].status == Listed
            && after.products[input.product.value].status == Sold
  {
  }

  /** Once settled, the product cannot be settled again: the second attempt fails
      as no longer available and changes nothing, so there is no second
      transaction and no second credit. */
  lemma SecondSettlementFails(db: Db, txId: TransactionId, input: TransactionInput, now: int,
                              txId2: TransactionId, input2: TransactionInput, now2: int)
    requires txId !in db.transactions
    requires Settle(db, txId, input, now).result.Success?
    requires txId2 !in Settle(db, txId, input, now).db.transactions
    requires input2.product == input.product
    ensures var db1 := Settle(db, txId, input, now).db;
            Settle(db1, txId2, input2, now2) == Outcome(db1, Failure(NoLongerAvailable))
  {
  }

  /** `updateTransactionStatus`: not found first, then the participant check, then
      the enum check of `save`; any status may replace any other. */
  function UpdateTransactionStatus(db: Db, id: TransactionId, status: string, userId: UserId)
    : (r: Outcome<Transaction>)
    ensures r.result.Failure? ==> r.db == db
    ensures id !in db.transactions ==> r.result == Failure(TransactionNotFound)
    ensures id in db.transactions && db.transactions[id].buyer != userId && db.transactions[id].seller != userId ==>
      r.result == Failure(NotAuthorizedForTransaction)
    ensures r.result.Success? ==>
      && id in db.transactions
      && Some(r.result.value.status) == ParseTransactionStatus(status)
      && r.result.value == db.transactions[id].(status := r.result.value.status)
      && r.db == db.(transactions := db.transactions[id := r.result.value])
    ensures (id in db.transactions && (db.transactions[id].buyer == userId || db.transactions[id].seller == userId) &&
             ParseTransactionStatus(status).Some?) ==> r.result.Success?
  {
    if id !in db.transactions then Outcome(db, Failure(TransactionNotFound))
    else
      var t := db.transactions[id];
      if t.buyer != userId && t.seller != userId then Outcome(db, Failure(NotAuthorizedForTransaction))
      else match ParseTransactionStatus(status)
        case None => Outcome(db, Failure(Validation("Transaction", TransactionStatusErrors(Some(status)))))
        case Some(s) =>
          var t2 := t.(status := s);
          Outcome(db.(transactions := db.transactions[id := t2]), Success(t2))
  }

  /** No forward-only ordering: a participant may move a completed transaction back to purchased. */
  lemma StatusMayGoBackwards(db: Db, id: TransactionId)
    requires id in db.transactions && db.transactions[id].status == Completed
    ensures UpdateTransactionStatus(db, id, "purchased", db.transactions[id].buyer).result.Success?
    ensures UpdateTransactionStatus(db, id, "purchased", db.transactions[id].buyer).result.value.status == Purchased
  {
  }

  /** `getUserPurchases`: exactly the transactions whose buyer is the user. */
  method GetUserPurchases(db: Db, userId: UserId) returns (r: seq<(TransactionId, Transaction)>)
    ensures forall e :: e in r <==> e.0 in db.transactions && db.transactions[e.0] == e.1 && e.1.buyer == userId
    ensures |r| == |set id | id in db.transactions && db.transactions[id].buyer == userId|
  {
    r := Collections.Select(db.transactions, (t: Transaction) => t.buyer == userId);
    assert (set id | id in db.transactions && db.transactions[id].buyer == userId) ==
           Collections.Matching(db.transactions, (t: Transaction) => t.buyer == userId);
  }

  /** `getUserSales`: exactly the transactions whose seller is the user. */
  method GetUserSales(db: Db, userId: UserId) returns (r: seq<(TransactionId, Transaction)>)
    ensures forall e :: e in r <==> e.0 in db.transactions && db.transactions[e.0] == e.1 && e.1.seller == userId
    ensures |r| == |set id | id in db.transactions && db.transactions[id].seller == userId|
  {
    r := Collections.Select(db.transactions, (t: Transaction) => t.seller == userId);
    assert (set id | id in db.transactions && db.transactions[id].seller == userId) ==
           Collections.Matching(db.transactions, (t: Transaction) => t.seller == userId);
  }
}
