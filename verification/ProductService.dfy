/** The product service: listing creation, reads, owner-only edits and deletes,
    the like toggle and the two listing queries. */
module ProductService {
  import opened Wrappers
  import opened Text
  import opened Ids
  import opened Errors
  import opened EcoImpact
  import opened ProductModel
  import opened Store
  import Collections

  /** The estimate `createProduct` computes from the submitted document. Without
      a category the table has no entry and the estimate is zero; a tabled
      category without a price is rejected by validation before it is stored. */
  function InputEstimate(input: ProductInput): Impact
  {
    if input.category.Some? && input.price.Some? then Estimate(input.category.value, input.price.value)
    else Impact(0, 0)
  }

  /** `createProduct`: the seller becomes the acting user and the eco-impact the
      computed estimate, whatever the submitted document said. Every other path
      of the document, the view and like counters included, is stored as sent. */
  function CreateProduct(db: Db, id: ProductId, input: ProductInput, userId: UserId, now: int)
    : (r: Outcome<Product>)
    requires id !in db.products
    ensures r.result.Failure? ==> r.db == db && r.result.error.Validation?
    ensures r.result.Success? ==>
      && r.result.value.seller == userId
      && input.category.Some? && input.price.Some?
      && r.result.value.ecoImpact == Estimate(input.category.value, input.price.value)
      && r.result.value.views == input.views.GetOr(0) && r.result.value.likes == input.likes.GetOr(0)
      && r.result.value.likedBy == input.likedBy.GetOr([])
      && ValidProduct(r.result.value)
      && r.db == db.(products := db.products[id := r.result.value])
  {
    var doc := input.(seller := Some(userId), ecoImpact := Some(InputEstimate(input)));
    match CreateRecord(doc, now)
    case Failure(e) => Outcome(db, Failure(e))
    case Success(p) =>
      CreatedIsValid(doc, now);
      Outcome(db.(products := db.products[id := p]), Success(p))
  }

  /** `createProduct` with the counters dropped from the submitted document, so
      that a new listing starts from the schema defaults: no views, no likes and
      no likers. It accepts exactly the documents the as-written create accepts. */
  function CreateProductFresh(db: Db, id: ProductId, input: ProductInput, userId: UserId, now: int)
    : (r: Outcome<Product>)
    requires id !in db.products
    ensures r.result.Success? <==> CreateProduct(db, id, input, userId, now).result.Success?
    ensures r.result.Failure? ==> r.db == db && r.result.error.Validation?
    ensures r.result.Success? ==>
      && r.result.value.seller == userId
      && r.result.value.views == 0 && r.result.value.likes == 0 && r.result.value.likedBy == []
      && LikesConsistent(r.result.value)
      && ValidProduct(r.result.value)
      && r.db == db.(products := db.products[id := r.result.value])
  {
    CreateProduct(db, id, input.(views := None, likes := None, likedBy := None), userId, now)
  }

  /** Seller and eco-impact in the submitted document have no effect. */
  lemma CreateIgnoresSubmittedSellerAndImpact(db: Db, id: ProductId, input: ProductInput,
                                             seller: Option<UserId>, impact: Option<Impact>, userId: UserId, now: int)
    requires id !in db.products
    ensures CreateProduct(db, id, input.(seller := seller, ecoImpact := impact), userId, now) ==
            CreateProduct(db, id, input, userId, now)
  {
    var a := input.(seller := seller, ecoImpact := impact);
    assert a.(seller := Some(userId), ecoImpact := Some(InputEstimate(a))) ==
           input.(seller := Some(userId), ecoImpact := Some(InputEstimate(input)));
  }

  /** `getProductById`: a found product has its view counter raised by one, and
      nothing else changes; a missing id yields nothing and changes nothing. */
  function GetProductById(db: Db, id: ProductId): (r: (Db, Option<Product>))
    ensures r.1.None? <==> id !in db.products
    ensures r.1.None? ==> r.0 == db
    ensures r.1.Some? ==>
      && r.1.value.views == db.products[id].views + 1
      && r.1.value.(views := db.products[id].views) == db.products[id]
      && r.0 == db.(products := db.products[id := r.1.value])
  {
    if id !in db.products then (db, None)
    else
      var p := db.products[id];
      var viewed := p.(views := p.views + 1);
      (db.(products := db.products[id := viewed]), Some(viewed))
  }

  /** `updateProduct`: a missing product is reported before ownership is checked;
      an owner's valid patch is applied without recomputing the eco-impact. */
  function UpdateProduct(db: Db, id: ProductId, patch: ProductPatch, userId: UserId)
    : (r: Outcome<Product>)
    ensures r.result.Failure? ==> r.db == db
    ensures id !in db.products ==> r.result == Failure(ProductNotFound)
    ensures id in db.products && db.products[id].seller != userId ==> r.result == Failure(NotAuthorizedToUpdate)
    ensures r.result.Success? ==>
      && id in db.products && db.products[id].seller == userId
      && |PatchViolations(patch)| == 0
      && r.result.value == ApplyPatch(db.products[id], patch)
      && r.db == db.(products := db.products[id := r.result.value])
    ensures id in db.products && db.products[id].seller == userId && |PatchViolations(patch)| == 0 ==>
      r.result.Success?
  {
    if id !in db.products then Outcome(db, Failure(ProductNotFound))
    else
      var p := db.products[id];
      if p.seller != userId then Outcome(db, Failure(NotAuthorizedToUpdate))
      else
        var v := PatchViolations(patch);
        if |v| > 0 then Outcome(db, Failure(Validation("", v)))
        else
          var q := ApplyPatch(p, patch);
          Outcome(db.(products := db.products[id := q]), Success(q))
  }

  /** The status a patch would give `p`. */
  function PatchedStatus(p: Product, patch: ProductPatch): ProductStatus
  {
    if patch.status.Some? && ParseProductStatus(patch.status.value).Some?
    then ParseProductStatus(patch.status.value).value else p.status
  }

  /** The body of an owner's edit without the paths the server manages: the
      seller, the view counter and the like counter with its likers. */
  function OwnerPaths(patch: ProductPatch): (q: ProductPatch)
    ensures q.seller.None? && q.views.None? && q.likes.None? && q.likedBy.None?
    ensures q.(seller := patch.seller, views := patch.views, likes := patch.likes, likedBy := patch.likedBy) == patch
    ensures PatchViolations(q) == PatchViolations(patch)
  {
    patch.(seller := None, views := None, likes := None, likedBy := None)
  }

  /** `updateProduct` as intended: the server-managed paths of the body are
      dropped, and a guard makes sold and removed final for the owner's edit, so
      a sold or removed product cannot be moved to another status. Otherwise it
      accepts exactly what the as-written update accepts. */
  function UpdateProductGuarded(db: Db, id: ProductId, patch: ProductPatch, userId: UserId)
    : (r: Outcome<Product>)
    ensures r.result.Failure? ==> r.db == db
    ensures id !in db.products ==> r.result == Failure(ProductNotFound)
    ensures id in db.products && db.products[id].seller != userId ==> r.result == Failure(NotAuthorizedToUpdate)
    ensures r.result.Success? <==>
      && id in db.products && db.products[id].seller == userId
      && |PatchViolations(patch)| == 0
      && (db.products[id].status != Listed ==> PatchedStatus(db.products[id], patch) == db.products[id].status)
    ensures r.result.Success? ==>
      && (db.products[id].status != Listed ==> r.result.value.status == db.products[id].status)
      && r.result.value == ApplyPatch(db.products[id], OwnerPaths(patch))
      && r.result.value.seller == db.products[id].seller
      && r.result.value.views == db.products[id].views
      && r.result.value.likes == db.products[id].likes
      && r.result.value.likedBy == db.products[id].likedBy
      && r.db == db.(products := db.products[id := r.result.value])
  {
    if id !in db.products then Outcome(db, Failure(ProductNotFound))
    else
      var p := db.products[id];
      if p.seller != userId then Outcome(db, Failure(NotAuthorizedToUpdate))
      else if p.status != Listed && PatchedStatus(p, patch) != p.status then Outcome(db, Failure(StatusLocked))
      else UpdateProduct(db, id, OwnerPaths(patch), userId)
  }

  /** `deleteProduct`: not-found before ownership; an owner's delete removes the record. */
  function DeleteProduct(db: Db, id: ProductId, userId: UserId): (r: Outcome<()>)
    ensures r.result.Failure? ==> r.db == db
    ensures id !in db.products ==> r.result == Failure(ProductNotFound)
    ensures id in db.products && db.products[id].seller != userId ==> r.result == Failure(NotAuthorizedToDelete)
    ensures id in db.products && db.products[id].seller == userId ==>
      r.result.Success? && r.db == db.(products := db.products - {id})
  {
    if id !in db.products then Outcome(db, Failure(ProductNotFound))
    else if db.products[id].seller != userId then Outcome(db, Failure(NotAuthorizedToDelete))
    else Outcome(db.(products := db.products - {id}), Success(()))
  }

  /** `likedBy.splice(likedBy.indexOf(u), 1)`: drops the first occurrence of `u`;
      the likers before and after it keep their order. */
  function RemoveFirst(s: seq<UserId>, u: UserId): (r: seq<UserId>)
    ensures u in s ==> var i := IndexOf(s, u).value; r == s[..i] + s[i + 1..]
    ensures u in s ==> |r| == |s| - 1 && multiset(r) == multiset(s) - multiset{u}
    ensures u !in s ==> r == s
    ensures forall x :: x in r ==> x in s
  {
    CutOutFirst(s, u);
    if s == [] then []
    else if s[0] == u then
      assert s[..0] + s[1..] == s[1..];
      s[1..]
    else
      var rest := RemoveFirst(s[1..], u);
      RemoveFirstStep(s, u, rest);
      [s[0]] + rest
  }

  /** The recursive step: keeping a head that is not `u` in front of the tail's
      removal cuts out the same entry of the whole list. */
  lemma RemoveFirstStep(s: seq<UserId>, u: UserId, rest: seq<UserId>)
    requires s != [] && s[0] != u
    requires u in s[1..] ==> var j := IndexOf(s[1..], u).value; rest == s[1..][..j] + s[1..][j + 1..]
    requires u !in s[1..] ==> rest == s[1..]
    ensures u in s ==> var i := IndexOf(s, u).value; [s[0]] + rest == s[..i] + s[i + 1..]
    ensures u !in s ==> [s[0]] + rest == s
  {
    var t := s[1..];
    assert s == [s[0]] + t;
    if u in t {
      var j := IndexOf(t, u).value;
      assert IndexOf(s, u).value == j + 1;
      assert s[..j + 1] == [s[0]] + t[..j];
      assert s[j + 2..] == t[j + 1..];
    }
  }

  /** Cutting out the entry at the first index of `u` loses exactly one `u`. */
  lemma CutOutFirst(s: seq<UserId>, u: UserId)
    ensures u in s ==> var i := IndexOf(s, u).value;
      && |s[..i] + s[i + 1..]| == |s| - 1
      && multiset(s[..i] + s[i + 1..]) == multiset(s) - multiset{u}
      && forall x :: x in s[..i] + s[i + 1..] ==> x in s
  {
    if u in s {
      var i := IndexOf(s, u).value;
      assert s == s[..i] + [u] + s[i + 1..];
      assert multiset(s) == multiset(s[..i]) + multiset{u} + multiset(s[i + 1..]);
      forall x | x in s[..i] + s[i + 1..] ensures x in s {
        assert x in multiset(s[..i] + s[i + 1..]);
      }
    }
  }

  /** The liker list after a toggle: appended when absent, first occurrence removed otherwise. */
  function ToggleLikers(s: seq<UserId>, u: UserId): (r: seq<UserId>)
    ensures u !in s ==> r == s + [u]
    ensures u in s ==> var i := IndexOf(s, u).value; r == s[..i] + s[i + 1..]
    ensures u in s ==> |r| == |s| - 1 && multiset(r) == multiset(s) - multiset{u}
  {
    if u !in s then s + [u] else RemoveFirst(s, u)
  }

  lemma {:induction false} RemoveAppended(s: seq<UserId>, u: UserId)
    requires u !in s
    ensures RemoveFirst(s + [u], u) == s
  {
    if s != [] {
      assert (s + [u])[1..] == s[1..] + [u];
      RemoveAppended(s[1..], u);
    }
  }

  /** Two toggles by the same user restore the multiset of likers, and the exact
      list when the user was not among them. */
  lemma ToggleLikersTwice(s: seq<UserId>, u: UserId)
    requires NoDuplicates(s)
    ensures multiset(ToggleLikers(ToggleLikers(s, u), u)) == multiset(s)
    ensures u !in s ==> ToggleLikers(ToggleLikers(s, u), u) == s
  {
    var t := ToggleLikers(s, u);
    if u !in s {
      assert u in t;
      RemoveAppended(s, u);
    } else {
      RemoveFirstKeepsNoDuplicates(s, u);
      assert multiset(t + [u]) == multiset(t) + multiset{u};
    }
  }

  /** The membership flip of `toggleLikeProduct` on one record. */
  function Toggle(p: Product, userId: UserId): (q: Product)
    ensures userId !in p.likedBy ==> q.likes == p.likes + 1 && q.likedBy == p.likedBy + [userId]
    ensures userId in p.likedBy ==>
      && q.likes == p.likes - 1
      && var i := IndexOf(p.likedBy, userId).value;
         q.likedBy == p.likedBy[..i] + p.likedBy[i + 1..]
    ensures userId in p.likedBy ==> multiset(q.likedBy) == multiset(p.likedBy) - multiset{userId}
    ensures q.(likes := p.likes, likedBy := p.likedBy) == p
  {
    p.(likes := if userId !in p.likedBy then p.likes + 1 else p.likes - 1,
       likedBy := ToggleLikers(p.likedBy, userId))
  }

  /** `toggleLikeProduct`: fails on a missing product, otherwise flips the user's like. */
  function ToggleLikeProduct(db: Db, id: ProductId, userId: UserId): (r: Outcome<Product>)
    ensures id !in db.products ==> r.result == Failure(ProductNotFound) && r.db == db
    ensures id in db.products ==>
      r.result == Success(Toggle(db.products[id], userId)) &&
      r.db == db.(products := db.products[id := Toggle(db.products[id], userId)])
  {
    if id !in db.products then Outcome(db, Failure(ProductNotFound))
    else
      var q := Toggle(db.products[id], userId);
      Outcome(db.(products := db.products[id := q]), Success(q))
  }

  /** Toggling twice restores the like counter and the multiset of likers; when the
      user had not liked the product the record is restored exactly. */
  lemma ToggleTwice(p: Product, userId: UserId)
    requires NoDuplicates(p.likedBy)
    ensures Toggle(Toggle(p, userId), userId).likes == p.likes
    ensures multiset(Toggle(Toggle(p, userId), userId).likedBy) == multiset(p.likedBy)
    ensures userId !in p.likedBy ==> Toggle(Toggle(p, userId), userId) == p
  {
    ToggleLikersTwice(p.likedBy, userId);
    if userId in p.likedBy {
      RemoveFirstKeepsNoDuplicates(p.likedBy, userId);
    }
  }

  /** No user appears twice among the likers. */
  predicate NoDuplicates(s: seq<UserId>)
  {
    forall i, j :: 0 <= i < j < |s| ==> s[i] != s[j]
  }

  /** The like counter equals the number of likers, and nobody likes twice. */
  predicate LikesConsistent(p: Product)
  {
    p.likes == |p.likedBy| && NoDuplicates(p.likedBy)
  }

  lemma NoDuplicatesCons(h: UserId, t: seq<UserId>)
    requires NoDuplicates(t) && h !in t
    ensures NoDuplicates([h] + t)
  {
    var r := [h] + t;
    forall i, j | 0 <= i < j < |r| ensures r[i] != r[j] {
      assert r[j] == t[j - 1];
      if i > 0 {
        assert r[i] == t[i - 1];
      }
    }
  }

  lemma {:induction false} RemoveFirstKeepsNoDuplicates(s: seq<UserId>, u: UserId)
    requires NoDuplicates(s)
    ensures NoDuplicates(RemoveFirst(s, u)) && u !in RemoveFirst(s, u)
  {
    if s != [] {
      var tail := s[1..];
      assert NoDuplicates(tail) by {
        forall i, j | 0 <= i < j < |tail| ensures tail[i] != tail[j] {
          assert tail[i] == s[i + 1] && tail[j] == s[j + 1];
        }
      }
      assert s[0] !in tail by {
        forall j | 0 <= j < |tail| ensures tail[j] != s[0] {
          assert tail[j] == s[j + 1];
        }
      }
      if s[0] != u {
        RemoveFirstKeepsNoDuplicates(tail, u);
        NoDuplicatesCons(s[0], RemoveFirst(tail, u));
      }
    }
  }

  lemma NoDuplicatesAppend(s: seq<UserId>, u: UserId)
    requires NoDuplicates(s) && u !in s
    ensures NoDuplicates(s + [u])
  {
    var r := s + [u];
    forall i, j | 0 <= i < j < |r| ensures r[i] != r[j] {
      assert r[i] == s[i];
      if j < |s| {
        assert r[j] == s[j];
      }
    }
  }

  /** Each branch of the toggle keeps `likes == |likedBy|` and duplicate-freedom. */
  lemma ToggleKeepsLikesConsistent(p: Product, userId: UserId)
    requires LikesConsistent(p)
    ensures LikesConsistent(Toggle(p, userId))
  {
    if userId in p.likedBy {
      RemoveFirstKeepsNoDuplicates(p.likedBy, userId);
    } else {
      NoDuplicatesAppend(p.likedBy, userId);
    }
  }

  /** `getProductsByUser`: every product of that seller, whatever its status, newest first. */
  method GetProductsByUser(db: Db, userId: UserId) returns (r: seq<(ProductId, Product)>)
    ensures forall e :: e in r <==> e.0 in db.products && db.products[e.0] == e.1 && e.1.seller == userId
    ensures |r| == |set id | id in db.products && db.products[id].seller == userId|
    ensures forall i, j :: 0 <= i < j < |r| ==> r[i].1.createdAt >= r[j].1.createdAt
  {
    var mine := Collections.Select(db.products, (p: Product) => p.seller == userId);
    var newestFirst := (e: (ProductId, Product)) => -e.1.createdAt;
    r := Collections.SortBy(mine, newestFirst);
    assert |r| == |multiset(r)| == |multiset(mine)| == |mine|;
    assert (set id | id in db.products && db.products[id].seller == userId) ==
           Collections.Matching(db.products, (p: Product) => p.seller == userId);
    forall e ensures e in r <==> e in mine {
      assert e in r <==> e in multiset(r);
      assert e in mine <==> e in multiset(mine);
    }
    forall i, j | 0 <= i < j < |r| ensures r[i].1.createdAt >= r[j].1.createdAt {
      assert newestFirst(r[i]) <= newestFirst(r[j]);
    }
  }

  /** The Mongo query `getProducts` builds; None means "no constraint". */
  datatype ProductFilter = ProductFilter(
    category: Option<string>,
    condition: Option<string>,
    minPrice: Option<int>,
    maxPrice: Option<int>,
    search: Option<string>)

  /** The case-insensitive substring test `{ $regex: term, $options: 'i' }`. */
  predicate MatchesText(field: string, term: string)
  {
    Contains(ToLower(field), ToLower(term))
  }

  /** A product satisfies the query: every supplied constraint, joined by AND;
      the text clause is an OR over title and description. */
  predicate MatchesFilter(f: ProductFilter, p: Product)
  {
    && (f.category.None? || p.category == f.category.value)
    && (f.condition.None? || p.condition == f.condition.value)
    && (f.minPrice.None? || p.price >= f.minPrice.value)
    && (f.maxPrice.None? || p.price <= f.maxPrice.value)
    && (f.search.None? || MatchesText(p.title, f.search.value) || MatchesText(p.description, f.search.value))
  }

  /** `getAllProducts`: only listed products matching the query, each once. */
  method GetAllProducts(db: Db, f: ProductFilter) returns (r: seq<(ProductId, Product)>)
    ensures forall e :: e in r <==>
      e.0 in db.products && db.products[e.0] == e.1 && e.1.status == Listed && MatchesFilter(f, e.1)
    ensures |r| == |set id | id in db.products && db.products[id].status == Listed && MatchesFilter(f, db.products[id])|
  {
    r := Collections.Select(db.products, (p: Product) => p.status == Listed && MatchesFilter(f, p));
    assert (set id | id in db.products && db.products[id].status == Listed && MatchesFilter(f, db.products[id])) ==
           Collections.Matching(db.products, (p: Product) => p.status == Listed && MatchesFilter(f, p));
  }
}
