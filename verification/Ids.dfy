/** Abstract identities of stored records (MongoDB ObjectIds). */
module Ids {
  type UserId = nat
  type ProductId = nat
  type TransactionId = nat
}
