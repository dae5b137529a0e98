/** A product as the browser holds it: the catalogue entries of the listing page
    and the records kept in the local ledger share this shape. */
module FrontItem {
  import opened EcoImpact

  /** `dated` is the `dateListed`/`datePurchased` stamp a ledger record receives;
      `datePosted` is the catalogue date the listing page sorts by. Both are
      milliseconds since the epoch. */
  datatype Item = Item(
    id: int,
    title: string,
    description: string,
    category: string,
    condition: string,
    location: string,
    price: int,
    images: seq<string>,
    views: int,
    likes: int,
    status: string,
    datePosted: int,
    dated: int,
    ecoImpact: Impact)

  /** Two items agree on every field a ledger insertion copies unchanged. */
  predicate SameListing(a: Item, b: Item)
  {
    && a.title == b.title && a.description == b.description
    && a.category == b.category && a.condition == b.condition
    && a.location == b.location && a.price == b.price && a.images == b.images
    && a.likes == b.likes && a.datePosted == b.datePosted
  }
}
