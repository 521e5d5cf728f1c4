/** The review service: UUID-guarded creation, lookup, rating update and
    physical deletion of reviews, and the per-product and per-user listings,
    newest first. */
module Reviews {
  import opened Common

  /** `ProductRating`: the whole numbers one to five. */
  type Rating = r: int | 1 <= r <= 5 witness 1

  datatype Review = Review(id: Id, userId: Id, productId: Id, rating: Rating, createdAt: int)

  datatype NewReview = NewReview(rating: Rating, userId: Id, productId: Id)

  function IdOf(r: Review): Id { r.id }

  function CreatedAt(r: Review): int { r.createdAt }

  function ByProduct(productId: Id): Review -> bool {
    (r: Review) => r.productId == productId
  }

  function ByUser(userId: Id): Review -> bool {
    (r: Review) => r.userId == userId
  }

  /** The review after `update`: a given rating replaces the old one. Every
      rating is truthy, so `Some` always applies. */
  function Rated(r: Review, rating: Option<Rating>): Review {
    r.(rating := rating.GetOr(r.rating))
  }

  // ---------------------------------------------------------------------
  // Queries

  /** `findAll()`: every review, newest first. */
  function FindAll(table: seq<Review>): (r: Response<seq<Review>>)
    ensures r.Ok? || r == NotFound("No reviews found")
    ensures r.NotFound? <==> table == []
    ensures r.Ok? ==> r.status == 200 && SortedDesc(r.data, CreatedAt)
    ensures r.Ok? ==> multiset(r.data) == multiset(table)
  {
    if table == [] then NotFound("No reviews found")
    else Ok(200, "Reviews fetched successfully", SortDesc(table, CreatedAt))
  }

  function NotFoundMessage(id: Id): string {
    "Review with ID " + id + " not found"
  }

  /** `findOne(id)`. */
  function FindOne(table: seq<Review>, id: Id): (r: Response<Review>)
    ensures r.BadRequest? <==> !IsUuid(id)
    ensures r.BadRequest? ==> r.message == "Invalid review ID"
    ensures r.NotFound? <==> IsUuid(id) && Absent(table, IdOf, id)
    ensures r.NotFound? ==> r.message == NotFoundMessage(id)
    ensures r.Ok? ==> r.status == 200 && r.data in table && r.data.id == id
    ensures !r.ServerError?
  {
    if !IsUuid(id) then BadRequest("Invalid review ID")
    else
      match IndexOf(table, IdOf, id)
      case None => NotFound(NotFoundMessage(id))
      case Some(i) => Ok(200, "Review fetched successfully", table[i])
  }

  /** `findByProduct(productId)`: exactly that product's reviews, newest
      first. */
  function FindByProduct(table: seq<Review>, productId: Id): (r: Response<seq<Review>>)
    ensures r.BadRequest? <==> !IsUuid(productId)
    ensures r.BadRequest? ==> r.message == "Invalid product ID"
    ensures r.NotFound? <==> IsUuid(productId) && forall k :: 0 <= k < |table| ==> table[k].productId != productId
    ensures r.NotFound? ==> r.message == "No reviews found for this product"
    ensures r.Ok? ==> r.status == 200 && SortedDesc(r.data, CreatedAt)
    ensures r.Ok? ==> forall k :: 0 <= k < |r.data| ==> r.data[k] in table && r.data[k].productId == productId
    ensures r.Ok? ==> forall k :: 0 <= k < |table| && table[k].productId == productId ==> table[k] in r.data
    ensures r.Ok? ==> multiset(r.data) == multiset(Filter(table, ByProduct(productId)))
  {
    if !IsUuid(productId) then BadRequest("Invalid product ID")
    else
      var rows := NewestFirst(table, ByProduct(productId), CreatedAt);
      if rows == [] then NotFound("No reviews found for this product")
      else Ok(200, "Product reviews fetched successfully", rows)
  }

  /** `findByUser(userId)`: exactly that user's reviews, newest first. */
  function FindByUser(table: seq<Review>, userId: Id): (r: Response<seq<Review>>)
    ensures r.BadRequest? <==> !IsUuid(userId)
    ensures r.BadRequest? ==> r.message == "Invalid user ID"
    ensures r.NotFound? <==> IsUuid(userId) && forall k :: 0 <= k < |table| ==> table[k].userId != userId
    ensures r.NotFound? ==> r.message == "No reviews found for this user"
    ensures r.Ok? ==> r.status == 200 && SortedDesc(r.data, CreatedAt)
    ensures r.Ok? ==> forall k :: 0 <= k < |r.data| ==> r.data[k] in table && r.data[k].userId == userId
    ensures r.Ok? ==> forall k :: 0 <= k < |table| && table[k].userId == userId ==> table[k] in r.data
    ensures r.Ok? ==> multiset(r.data) == multiset(Filter(table, ByUser(userId)))
  {
    if !IsUuid(userId) then BadRequest("Invalid user ID")
    else
      var rows := NewestFirst(table, ByUser(userId), CreatedAt);
      if rows == [] then NotFound("No reviews found for this user")
      else Ok(200, "User reviews fetched successfully", rows)
  }

  // ---------------------------------------------------------------------
  // Properties relating the writes and the queries

  /** Nothing stops a user from reviewing the same product twice: after two
      creations for the same pair, both reviews are listed for the product. */
  lemma SecondReviewListedToo(table: seq<Review>, dto: NewReview, id1: Id, id2: Id, t1: int, t2: int)
    requires IsUuid(dto.productId) && id1 != id2
    ensures var after := table + [Review(id1, dto.userId, dto.productId, dto.rating, t1)]
                               + [Review(id2, dto.userId, dto.productId, dto.rating, t2)];
            var r := FindByProduct(after, dto.productId);
            r.Ok? && |r.data| >= 2
  {
    var after := table + [Review(id1, dto.userId, dto.productId, dto.rating, t1)]
                       + [Review(id2, dto.userId, dto.productId, dto.rating, t2)];
    var r := FindByProduct(after, dto.productId);
    assert after[|table|].productId == dto.productId;
    assert after[|table|] in r.data;
    assert after[|table| + 1] in r.data;
    var i :| 0 <= i < |r.data| && r.data[i] == after[|table|];
    var j :| 0 <= j < |r.data| && r.data[j] == after[|table| + 1];
    assert i != j;
  }

  /** A rating update changes nothing but the rating of that one review. */
  lemma UpdateTouchesOnlyRating(table: seq<Review>, id: Id, rating: Option<Rating>)
    ensures var after := MapWhere(table, IdOf, id, (r: Review) => Rated(r, rating));
            (forall k :: 0 <= k < |table| ==> after[k].(rating := table[k].rating) == table[k]) &&
            (forall k :: 0 <= k < |table| && table[k].id != id ==> after[k] == table[k]) &&
            (rating.None? ==> after == table)
  {
    var after := MapWhere(table, IdOf, id, (r: Review) => Rated(r, rating));
    forall k | 0 <= k < |table| ensures after[k].(rating := table[k].rating) == table[k] {
    }
  }

  /** A removed review is no longer found. */
  lemma RemovedNotFound(table: seq<Review>, id: Id)
    requires IsUuid(id)
    ensures FindOne(RemoveKey(table, IdOf, id), id) == NotFound(NotFoundMessage(id))
  {
  }

  // ---------------------------------------------------------------------
  // The service over the review table

  class ReviewService {
    var reviews: seq<Review>

    ghost predicate Valid()
      reads this
    {
      UniqueKeys(reviews, IdOf)
    }

    constructor ()
      ensures Valid() && reviews == []
    {
      reviews := [];
    }

    /** `create(dto)`: both ids must be UUIDs; `newId` is the id the database
        generates and `now` the creation time. No check is made for an
        earlier review of the same product by the same user. */
    method Create(dto: NewReview, newId: Id, now: int) returns (r: Response<()>)
      requires Valid() && Absent(reviews, IdOf, newId)
      modifies this
      ensures Valid()
      ensures !IsUuid(dto.productId) || !IsUuid(dto.userId) ==>
        r == BadRequest("Invalid user ID or product ID") && reviews == old(reviews)
      ensures IsUuid(dto.productId) && IsUuid(dto.userId) ==>
        r == Ok(201, "Review created successfully", ()) &&
        reviews == old(reviews) + [Review(newId, dto.userId, dto.productId, dto.rating, now)]
    {
      if !IsUuid(dto.productId) || !IsUuid(dto.userId) {
        return BadRequest("Invalid user ID or product ID");
      }
      var review := Review(newId, dto.userId, dto.productId, dto.rating, now);
      AppendKeepsUnique(reviews, IdOf, review);
      reviews := reviews + [review];
      r := Ok(201, "Review created successfully", ());
    }

    /** `update(id, dto)`: a given rating replaces the old one. */
    method Update(id: Id, rating: Option<Rating>) returns (r: Response<()>)
      requires Valid()
      modifies this
      ensures Valid()
      ensures !IsUuid(id) ==> r == BadRequest("Invalid review ID") && reviews == old(reviews)
      ensures IsUuid(id) && Absent(old(reviews), IdOf, id) ==>
        r == NotFound("Review not found") && reviews == old(reviews)
      ensures IsUuid(id) && !Absent(old(reviews), IdOf, id) ==>
        r == Ok(200, "Review updated successfully", ()) &&
        reviews == MapWhere(old(reviews), IdOf, id, (r: Review) => Rated(r, rating))
    {
      if !IsUuid(id) {
        return BadRequest("Invalid review ID");
      }
      var found := IndexOf(reviews, IdOf, id);
      if found.None? {
        return NotFound("Review not found");
      }
      var i := found.value;
      UpdateAtIsMapWhere(reviews, IdOf, i, (r: Review) => Rated(r, rating));
      UpdateKeepsUnique(reviews, IdOf, i, Rated(reviews[i], rating));
      reviews := reviews[i := Rated(reviews[i], rating)];
      r := Ok(200, "Review updated successfully", ());
    }

    /** `remove(id)`: the row is deleted, not marked. */
    method Remove(id: Id) returns (r: Response<()>)
      requires Valid()
      modifies this
      ensures Valid()
      ensures !IsUuid(id) ==> r == BadRequest("Invalid review ID") && reviews == old(reviews)
      ensures IsUuid(id) && Absent(old(reviews), IdOf, id) ==>
        r == NotFound("Review not found") && reviews == old(reviews)
      ensures IsUuid(id) && !Absent(old(reviews), IdOf, id) ==>
        r == Ok(200, "Review deleted successfully", ()) &&
        reviews == RemoveKey(old(reviews), IdOf, id) && |reviews| == |old(reviews)| - 1
    {
      if !IsUuid(id) {
        return BadRequest("Invalid review ID");
      }
      var found := IndexOf(reviews, IdOf, id);
      if found.None? {
        return NotFound("Review not found");
      }
      RemovePresentCount(reviews, IdOf, found.value);
      RemoveKeepsUnique(reviews, IdOf, id);
      reviews := RemoveKey(reviews, IdOf, id);
      r := Ok(200, "Review deleted successfully", ());
    }
  }
}
