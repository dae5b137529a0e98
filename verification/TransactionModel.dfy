/** The Transaction schema: required paths, enumerations and defaults. */
module TransactionModel {
  import opened Wrappers
  import opened Ids
  import opened EcoImpact
  import opened Errors

  datatype DeliveryOption = Delivery | Pickup

  datatype TransactionStatus = Purchased | Shipped | Delivered | Completed | Canceled

  function ParseDeliveryOption(s: string): (r: Option<DeliveryOption>)
    ensures r.Some? <==> s in ["delivery", "pickup"]
  {
    match s
    case "delivery" => Some(Delivery)
    case "pickup" => Some(Pickup)
    case _ => None
  }

  function ParseTransactionStatus(s: string): (r: Option<TransactionStatus>)
    ensures r.Some? <==> s in ["purchased", "shipped", "delivered", "completed", "canceled"]
  {
    match s
    case "purchased" => Some(Purchased)
    case "shipped" => Some(Shipped)
    case "delivered" => Some(Delivered)
    case "completed" => Some(Completed)
    case "canceled" => Some(Canceled)
    case _ => None
  }

  datatype Transaction = Transaction(
    product: ProductId,
    seller: UserId,
    buyer: UserId,
    price: nat,
    datePurchased: int,
    deliveryOption: DeliveryOption,
    deliveryAddress: Option<string>,
    status: TransactionStatus,
    ecoImpact: Impact)

  /** The document handed to `Transaction.create`: every path optional. */
  datatype TransactionInput = TransactionInput(
    product: Option<ProductId>,
    seller: Option<UserId>,
    buyer: Option<UserId>,
    price: Option<nat>,
    deliveryOption: Option<string>,
    deliveryAddress: Option<string>,
    status: Option<string>,
    ecoImpact: Option<Impact>)

  /** The failures of the `status` path: only its `enum` validator. */
  function TransactionStatusErrors(v: Option<string>): seq<PathError>
  {
    if v.None? || ParseTransactionStatus(v.value).Some? then []
    else [PathError("status", EnumMessage(v.value, "status"))]
  }

  /** The failing paths of `input`, in schema order, with Mongoose's default
      messages (the schema sets none of its own). */
  function TransactionViolations(input: TransactionInput): seq<PathError>
  {
    (if input.product.Some? then [] else [PathError("product", RequiredMessage("product"))]) +
    (if input.seller.Some? then [] else [PathError("seller", RequiredMessage("seller"))]) +
    (if input.buyer.Some? then [] else [PathError("buyer", RequiredMessage("buyer"))]) +
    (if input.price.Some? then [] else [PathError("price", RequiredMessage("price"))]) +
    (if input.deliveryOption.None? || input.deliveryOption.value == "" then
       [PathError("deliveryOption", RequiredMessage("deliveryOption"))]
     else if ParseDeliveryOption(input.deliveryOption.value).None? then
       [PathError("deliveryOption", EnumMessage(input.deliveryOption.value, "deliveryOption"))]
     else []) +
    TransactionStatusErrors(input.status)
  }

  /** `Transaction.create`: validate and apply the schema defaults. The delivery
      address is optional whatever the delivery option. */
  function CreateTransactionRecord(input: TransactionInput, now: int): (r: Result<Transaction, ServiceError>)
    ensures r.Success? <==>
      && input.product.Some? && input.seller.Some? && input.buyer.Some? && input.price.Some?
      && input.deliveryOption.Some? && input.deliveryOption.value in ["delivery", "pickup"]
      && (input.status.None? ||
          input.status.value in ["purchased", "shipped", "delivered", "completed", "canceled"])
    ensures r.Failure? ==> r.error.Validation? && r.error.model == "Transaction" && |r.error.failures| > 0
    ensures r.Success? ==>
      && r.value.product == input.product.value
      && r.value.seller == input.seller.value
      && r.value.buyer == input.buyer.value
      && r.value.price == input.price.value
      && Some(r.value.deliveryOption) == ParseDeliveryOption(input.deliveryOption.value)
      && r.value.deliveryAddress == input.deliveryAddress
      && r.value.status == (if input.status.None? then Purchased else ParseTransactionStatus(input.status.value).value)
      && r.value.ecoImpact == (if input.ecoImpact.None? then Impact(0, 0) else input.ecoImpact.value)
      && r.value.datePurchased == now
  {
    var v := TransactionViolations(input);
    if |v| > 0 then Failure(Validation("Transaction", v))
    else
      Success(Transaction(
        input.product.value,
        input.seller.value,
        input.buyer.value,
        input.price.value,
        now,
        ParseDeliveryOption(input.deliveryOption.value).value,
        input.deliveryAddress,
        match input.status case None => Purchased case Some(s) => ParseTransactionStatus(s).value,
        input.ecoImpact.GetOr(Impact(0, 0))))
  }
}
