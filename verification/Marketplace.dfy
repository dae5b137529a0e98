/** The store-wide consistency the services keep together: like counters match
    their likers, and every product has at most one transaction, after which it
    is no longer listed. */
module Marketplace {
  import opened Wrappers
  import opened Ids
  import opened Text
  import opened Errors
  import opened EcoImpact
  import opened ProductModel
  import opened TransactionModel
  import opened Users
  import opened Store
  import opened ProductService
  import opened TransactionService

  ghost predicate Consistent(db: Db)
  {
    && (forall id :: id in db.products ==> LikesConsistent(db.products[id]))
    && (forall t :: t in db.transactions && db.transactions[t].product in db.products ==>
          db.products[db.transactions[t].product].status != Listed)
    && (forall t1, t2 :: t1 in db.transactions && t2 in db.transactions && t1 != t2 ==>
          db.transactions[t1].product != db.transactions[t2].product)
  }

  /** Fresh ObjectIds are never reused, not even those of deleted products. */
  ghost predicate FreshProductId(db: Db, id: ProductId)
  {
    id !in db.products && forall t :: t in db.transactions ==> db.transactions[t].product != id
  }

  /** The mutating service calls. */
  datatype Operation =
    | CreateOp(id: ProductId, input: ProductInput, userId: UserId, now: int)
    | ViewOp(id: ProductId)
    | EditOp(id: ProductId, patch: ProductPatch, userId: UserId)
    | DeleteOp(id: ProductId, userId: UserId)
    | LikeOp(id: ProductId, userId: UserId)
    | BuyOp(txId: TransactionId, request: TransactionInput, now: int)
    | StatusOp(txId: TransactionId, status: string, userId: UserId)
    | CreditOp(userId: UserId, delta: map<string, int>)

  ghost predicate Allowed(db: Db, op: Operation)
  {
    match op
    case CreateOp(id, _, _, _) => FreshProductId(db, id)
    case BuyOp(txId, _, _) => txId !in db.transactions
    case _ => true
  }

  /** The state after one call, with the two corrected services: creation drops
      the counters from the submitted document, and listing edits use the
      guarded update, which drops the seller and the counters from the body and
      keeps sold and removed final. */
  function Apply(db: Db, op: Operation): Db
    requires op.CreateOp? ==> op.id !in db.products
    requires op.BuyOp? ==> op.txId !in db.transactions
  {
    match op
    case CreateOp(id, input, userId, now) => CreateProductFresh(db, id, input, userId, now).db
    case ViewOp(id) => GetProductById(db, id).0
    case EditOp(id, patch, userId) => UpdateProductGuarded(db, id, patch, userId).db
    case DeleteOp(id, userId) => DeleteProduct(db, id, userId).db
    case LikeOp(id, userId) => ToggleLikeProduct(db, id, userId).db
    case BuyOp(txId, input, now) => Settle(db, txId, input, now).db
    case StatusOp(txId, status, userId) => UpdateTransactionStatus(db, txId, status, userId).db
    case CreditOp(userId, delta) =>
      match UpdateEcoStats(db.users, userId, delta)
      case Failure(_) => db
      case Success(users) => db.(users := users)
  }

  /** Settlement keeps the store consistent, whether it completes or stops
      after writing the transaction. */
  lemma SettleKeepsConsistent(db: Db, txId: TransactionId, input: TransactionInput, now: int)
    requires Consistent(db) && txId !in db.transactions
    ensures Consistent(Settle(db, txId, input, now).db)
  {
    var after := Settle(db, txId, input, now).db;
    if after != db {
      var pid := input.product.value;
      var p := db.products[pid];
      assert p.status == Listed;
      var t := after.transactions[txId];
      assert after.transactions == db.transactions[txId := t];
      assert after.products == db.products[pid := p.(status := Sold)];
      assert t.product == pid;
      forall t1 | t1 in db.transactions ensures db.transactions[t1].product != pid {
      }
    }
  }

  /** Replacing one product by a record with the same status and consistent likes
      keeps the store consistent. */
  lemma ReplaceProductKeepsConsistent(db: Db, id: ProductId, q: Product)
    requires Consistent(db) && id in db.products
    requires q.status == db.products[id].status && LikesConsistent(q)
    ensures Consistent(db.(products := db.products[id := q]))
  {
  }

  /** Creating a product under a fresh id, from the schema's counter defaults,
      keeps the store consistent. */
  lemma CreateKeepsConsistent(db: Db, id: ProductId, input: ProductInput, userId: UserId, now: int)
    requires Consistent(db) && FreshProductId(db, id)
    ensures Consistent(CreateProductFresh(db, id, input, userId, now).db)
  {
    var r := CreateProductFresh(db, id, input, userId, now);
    if r.result.Success? {
      AddProductKeepsConsistent(db, id, r.result.value);
    }
  }

  /** Adding a record with consistent likes under a fresh id keeps the store consistent. */
  lemma AddProductKeepsConsistent(db: Db, id: ProductId, q: Product)
    requires Consistent(db) && FreshProductId(db, id) && LikesConsistent(q)
    ensures Consistent(db.(products := db.products[id := q]))
  {
  }

  /** A guarded edit keeps the counters and the likers, and the status of a sold
      or removed product, so a product with a transaction is never listed again. */
  lemma EditKeepsConsistent(db: Db, id: ProductId, patch: ProductPatch, userId: UserId)
    requires Consistent(db)
    ensures Consistent(UpdateProductGuarded(db, id, patch, userId).db)
  {
    var r := UpdateProductGuarded(db, id, patch, userId);
    if r.result.Success? {
      var q := r.result.value;
      assert r.db == db.(products := db.products[id := q]);
      forall t | t in db.transactions && db.transactions[t].product in r.db.products
        ensures r.db.products[db.transactions[t].product].status != Listed
      {
      }
    }
  }

  lemma DeleteKeepsConsistent(db: Db, id: ProductId, userId: UserId)
    requires Consistent(db)
    ensures Consistent(DeleteProduct(db, id, userId).db)
  {
  }

  lemma ViewKeepsConsistent(db: Db, id: ProductId)
    requires Consistent(db)
    ensures Consistent(GetProductById(db, id).0)
  {
    if id in db.products {
      ReplaceProductKeepsConsistent(db, id, GetProductById(db, id).1.value);
    }
  }

  lemma LikeKeepsConsistent(db: Db, id: ProductId, userId: UserId)
    requires Consistent(db)
    ensures Consistent(ToggleLikeProduct(db, id, userId).db)
  {
    if id in db.products {
      ToggleKeepsLikesConsistent(db.products[id], userId);
      ReplaceProductKeepsConsistent(db, id, Toggle(db.products[id], userId));
    }
  }

  lemma StatusKeepsConsistent(db: Db, txId: TransactionId, status: string, userId: UserId)
    requires Consistent(db)
    ensures Consistent(UpdateTransactionStatus(db, txId, status, userId).db)
  {
    var r := UpdateTransactionStatus(db, txId, status, userId);
    if r.result.Success? {
      assert r.db.transactions == db.transactions[txId := r.result.value];
      assert r.result.value.product == db.transactions[txId].product;
    }
  }

  /** Every call keeps the store consistent. */
  lemma ApplyKeepsConsistent(db: Db, op: Operation)
    requires Consistent(db) && Allowed(db, op)
    ensures Consistent(Apply(db, op))
  {
    match op
    case CreateOp(id, input, userId, now) => CreateKeepsConsistent(db, id, input, userId, now);
    case ViewOp(id) => ViewKeepsConsistent(db, id);
    case EditOp(id, patch, userId) => EditKeepsConsistent(db, id, patch, userId);
    case DeleteOp(id, userId) => DeleteKeepsConsistent(db, id, userId);
    case LikeOp(id, userId) => LikeKeepsConsistent(db, id, userId);
    case BuyOp(txId, input, now) => SettleKeepsConsistent(db, txId, input, now);
    case StatusOp(txId, status, userId) => StatusKeepsConsistent(db, txId, status, userId);
    case CreditOp(userId, delta) =>
  }

  const EmptyDb := Db(map[], map[], map[])

  /** A valid listing whose request body also claims three likes. */
  const PresetLikes := ProductInput(Some("Desk"), Some("Oak desk"), Some(4000), None, Some("Furniture"),
                                    Some("Good"), Some("Pune"), None, None, None, None, None, Some(3), None)

  /** The listing passes validation whatever seller and eco-impact it is given. */
  lemma PresetLikesValid(seller: Option<UserId>, impact: Option<Impact>)
    requires seller.Some?
    ensures ProductViolations(PresetLikes.(seller := seller, ecoImpact := impact)) == []
  {
    DeskTitle();
    DeskDescription();
    DeskCategory();
    DeskCondition();
  }

  /** The fields of the listing, path by path. */
  lemma DeskTitle()
    ensures TitleErrors(Some("Desk")) == []
  {
    assert LeadingSpaces("Desk") == 0 && ContentEnd("Desk") == 4;
    assert Utf16Length("Desk") == 4;
  }

  lemma DeskDescription()
    ensures DescriptionErrors(Some("Oak desk")) == []
  {
    assert Utf16Length("Oak desk") == 8;
  }

  lemma DeskCategory()
    ensures CategoryErrors(Some("Furniture")) == []
  {
    assert Categories[3] == "Furniture";
  }

  lemma DeskCondition()
    ensures ConditionErrors(Some("Good")) == []
  {
    assert Conditions[2] == "Good";
  }

  /** As written, the create stores the likes the client sent: the new product
      has three likes and no likers, so the empty store is consistent and the
      store after the create is not. */
  lemma PresetLikesBreakConsistency()
    ensures Consistent(EmptyDb)
    ensures CreateProduct(EmptyDb, 1, PresetLikes, 1, 0).result.Success?
    ensures CreateProduct(EmptyDb, 1, PresetLikes, 1, 0).result.value.likes == 3
    ensures CreateProduct(EmptyDb, 1, PresetLikes, 1, 0).result.value.likedBy == []
    ensures !Consistent(CreateProduct(EmptyDb, 1, PresetLikes, 1, 0).db)
  {
    PresetLikesValid(Some(1), Some(InputEstimate(PresetLikes)));
    var r := CreateProduct(EmptyDb, 1, PresetLikes, 1, 0);
    assert r.db.products[1] == r.result.value;
    assert !LikesConsistent(r.db.products[1]);
  }

  /** A store with one sold product (id 1, seller 1) and its transaction (id 1, buyer 2). */
  function SoldOnce(): Db
  {
    var p := Product("Desk", "Oak desk", 4000, None, "Furniture", "Good", "Pune", [], 1, Sold,
                     Impact(120, 1000), 0, 0, [], 0);
    var t := Transaction(1, 1, 2, 4000, 0, Pickup, None, Purchased, Impact(120, 1000));
    var u := User("user", map[], EcoStats(0, 0, 0, 0, 0));
    Db(map[1 := p], map[1 := t], map[1 := u, 2 := u])
  }

  const Relist := EmptyPatch.(status := Some("listed"))

  const BuyAgain := TransactionInput(Some(1), None, Some(2), None, Some("pickup"), None, None, None)

  /** As written, the owner's edit sets a sold product back to listed, and a second
      settlement of the same product then succeeds: two transactions for one
      product, and the buyer and seller are credited twice. */
  lemma RelistAllowsSecondSale()
    ensures Consistent(SoldOnce())
    ensures UpdateProduct(SoldOnce(), 1, Relist, 1).result.Success?
    ensures var relisted := UpdateProduct(SoldOnce(), 1, Relist, 1).db;
            && Settle(relisted, 2, BuyAgain, 1).result.Success?
            && !Consistent(Settle(relisted, 2, BuyAgain, 1).db)
  {
    var db := SoldOnce();
    assert LikesConsistent(db.products[1]);
    assert PatchViolations(Relist) == [];
    var relisted := UpdateProduct(db, 1, Relist, 1).db;
    assert relisted.products[1].status == Listed;
    assert TransactionViolations(SnapshotInput(BuyAgain, relisted.products[1])) == [];
    var twice := Settle(relisted, 2, BuyAgain, 1).db;
    assert twice.transactions[1].product == twice.transactions[2].product;
  }

  /** An owner's body that claims seven likes. */
  const PresetLikesPatch := EmptyPatch.(likes := Some(7))

  /** As written, the owner's edit stores the likes the body sent: the sold desk
      then has seven likes and no likers, and the store is no longer consistent.
      The guarded edit accepts the same body and keeps the likes at zero. */
  lemma PatchedLikesBreakConsistency()
    ensures Consistent(SoldOnce())
    ensures UpdateProduct(SoldOnce(), 1, PresetLikesPatch, 1).result.Success?
    ensures UpdateProduct(SoldOnce(), 1, PresetLikesPatch, 1).result.value.likes == 7
    ensures UpdateProduct(SoldOnce(), 1, PresetLikesPatch, 1).result.value.likedBy == []
    ensures !Consistent(UpdateProduct(SoldOnce(), 1, PresetLikesPatch, 1).db)
    ensures UpdateProductGuarded(SoldOnce(), 1, PresetLikesPatch, 1).result.Success?
    ensures UpdateProductGuarded(SoldOnce(), 1, PresetLikesPatch, 1).result.value.likes == 0
  {
    var db := SoldOnce();
    assert LikesConsistent(db.products[1]);
    assert PatchViolations(PresetLikesPatch) == [];
    var r := UpdateProduct(db, 1, PresetLikesPatch, 1);
    assert r.db.products[1] == r.result.value;
    assert !LikesConsistent(r.db.products[1]);
  }

  /** With the guard, the relisting edit is refused and the product stays sold. */
  lemma GuardRefusesRelist()
    ensures UpdateProductGuarded(SoldOnce(), 1, Relist, 1) == Outcome(SoldOnce(), Failure(StatusLocked))
  {
  }
}
