/** The cart service: adding a product to a user's cart (an upsert keyed by
    the (user, product) pair), the searched or paged listing, lookup,
    partial update and deletion. It reads the product and user tables and
    writes only the cart table. */
module Carts {
  import opened Common
  import Products
  import Users

  datatype Cart = Cart(id: Id, userId: Id, productId: Id, quantity: int)

  /** An add-to-cart request. */
  datatype NewCartItem = NewCartItem(userId: Id, productId: Id, quantity: int)

  /** The fields an update request may carry; `None` leaves a field as it is. */
  datatype CartPatch = CartPatch(quantity: Option<int>, productId: Option<Id>, userId: Option<Id>)

  const PageSize: nat := 5

  function IdOf(c: Cart): Id { c.id }

  /** Whether the ORM's `update` can apply the patch. A cart has the
      relations `user` and `product` but no property `userId` or `productId`,
      so a patch naming either is refused; a patch naming no field leaves
      nothing to set and is refused too. Only a quantity-only patch is
      written. */
  predicate Writable(patch: CartPatch) {
    patch.quantity.Some? && patch.productId.None? && patch.userId.None?
  }

  function WithQuantity(c: Cart, quantity: int): Cart { c.(quantity := quantity) }

  /** The invariant of the upsert: at most one row per (user, product). */
  predicate PairsUnique(carts: seq<Cart>) {
    forall i, j :: 0 <= i < j < |carts| ==>
      carts[i].userId != carts[j].userId || carts[i].productId != carts[j].productId
  }

  predicate HoldsPair(c: Cart, userId: Id, productId: Id) {
    c.userId == userId && c.productId == productId
  }

  /** The lookup of an existing row for the pair. */
  function FindPair(carts: seq<Cart>, userId: Id, productId: Id): (r: Option<nat>)
    ensures r.Some? ==> r.value < |carts| && HoldsPair(carts[r.value], userId, productId)
    ensures r.None? <==> forall k :: 0 <= k < |carts| ==> !HoldsPair(carts[k], userId, productId)
  {
    if carts == [] then None
    else if HoldsPair(carts[0], userId, productId) then Some(0)
    else
      match FindPair(carts[1..], userId, productId)
      case None => None
      case Some(i) => Some(i + 1)
  }

  /** The cart table after a successful add: the existing row for the pair
      gets `quantity` more, or one new row is appended. */
  function Added(carts: seq<Cart>, userId: Id, productId: Id, quantity: int, newId: Id): seq<Cart> {
    match FindPair(carts, userId, productId)
    case Some(i) => carts[i := carts[i].(quantity := carts[i].quantity + quantity)]
    case None => carts + [Cart(newId, userId, productId, quantity)]
  }

  /** The row an add writes: the pair's existing row, or the appended one. */
  function AddedIndex(carts: seq<Cart>, userId: Id, productId: Id): nat {
    match FindPair(carts, userId, productId)
    case Some(i) => i
    case None => |carts|
  }

  /** Adding keeps at most one row per pair, and afterwards the pair has
      exactly one row. */
  lemma AddedKeepsPairsUnique(carts: seq<Cart>, userId: Id, productId: Id, quantity: int, newId: Id)
    requires PairsUnique(carts)
    ensures PairsUnique(Added(carts, userId, productId, quantity, newId))
    ensures var after := Added(carts, userId, productId, quantity, newId);
            exists k :: 0 <= k < |after| && HoldsPair(after[k], userId, productId)
  {
    var after := Added(carts, userId, productId, quantity, newId);
    match FindPair(carts, userId, productId)
    case Some(i) =>
      forall a, b | 0 <= a < b < |after|
        ensures after[a].userId != after[b].userId || after[a].productId != after[b].productId
      {
        assert after[a].userId == carts[a].userId && after[a].productId == carts[a].productId;
        assert after[b].userId == carts[b].userId && after[b].productId == carts[b].productId;
      }
      assert HoldsPair(after[i], userId, productId);
    case None =>
      assert HoldsPair(after[|carts|], userId, productId);
  }

  /** An existing pair keeps the row count and its row's id, and its
      quantity grows by the added amount; a new pair adds one row. */
  lemma AddedRowCount(carts: seq<Cart>, userId: Id, productId: Id, quantity: int, newId: Id)
    ensures FindPair(carts, userId, productId).Some? ==>
      |Added(carts, userId, productId, quantity, newId)| == |carts|
    ensures FindPair(carts, userId, productId).None? ==>
      Added(carts, userId, productId, quantity, newId) == carts + [Cart(newId, userId, productId, quantity)]
    ensures forall k :: 0 <= k < |carts| && !HoldsPair(carts[k], userId, productId) ==>
      Added(carts, userId, productId, quantity, newId)[k] == carts[k]
    ensures FindPair(carts, userId, productId).Some? ==>
      var i := FindPair(carts, userId, productId).value;
      Added(carts, userId, productId, quantity, newId)[i] == carts[i].(quantity := carts[i].quantity + quantity)
  {
  }

  /** An add writes no id but `newId`. */
  lemma AddedKeepsAbsent(carts: seq<Cart>, userId: Id, productId: Id, quantity: int, newId: Id, other: Id)
    requires other != newId && Absent(carts, IdOf, other)
    ensures Absent(Added(carts, userId, productId, quantity, newId), IdOf, other)
  {
    var after := Added(carts, userId, productId, quantity, newId);
    assert forall k :: 0 <= k < |carts| ==> after[k].id == carts[k].id;
  }

  /** After an add, the pair is found on the row the add wrote, so a second
      add of the same product updates that row and `create` answers 200. */
  lemma AddedFindsSameRow(carts: seq<Cart>, userId: Id, productId: Id, q: int, newId: Id)
    requires PairsUnique(carts)
    ensures var once := Added(carts, userId, productId, q, newId);
            FindPair(once, userId, productId).Some? &&
            AddedIndex(once, userId, productId) == AddedIndex(carts, userId, productId)
  {
    var once := Added(carts, userId, productId, q, newId);
    AddedKeepsPairsUnique(carts, userId, productId, q, newId);
    match FindPair(carts, userId, productId)
    case Some(i) =>
      FindPairAt(once, userId, productId, i);
    case None =>
      FindPairAt(once, userId, productId, |carts|);
  }

  /** Adding q1 and then q2 of the same product leaves the table a single
      add of q1 + q2 would: one row holding the sum, never two rows. */
  lemma AddTwiceAccumulates(carts: seq<Cart>, userId: Id, productId: Id, q1: int, q2: int, id1: Id, id2: Id)
    requires PairsUnique(carts)
    ensures Added(Added(carts, userId, productId, q1, id1), userId, productId, q2, id2)
         == Added(carts, userId, productId, q1 + q2, id1)
  {
    var once := Added(carts, userId, productId, q1, id1);
    AddedFindsSameRow(carts, userId, productId, q1, id1);
    var i := AddedIndex(carts, userId, productId);
    var j := FindPair(once, userId, productId).value;
    assert j == i;
    assert Added(once, userId, productId, q2, id2) == once[i := once[i].(quantity := once[i].quantity + q2)];
    match FindPair(carts, userId, productId)
    case Some(_) =>
      assert once == carts[i := carts[i].(quantity := carts[i].quantity + q1)];
    case None =>
      assert once == carts + [Cart(id1, userId, productId, q1)];
  }

  /** Under the invariant, the row holding the pair is the one found. */
  lemma FindPairAt(carts: seq<Cart>, userId: Id, productId: Id, i: nat)
    requires PairsUnique(carts) && i < |carts| && HoldsPair(carts[i], userId, productId)
    ensures FindPair(carts, userId, productId) == Some(i)
  {
    var r := FindPair(carts, userId, productId);
    assert r.Some?;
  }

  /** The only write `updateCart` performs, a new quantity on the row with
      that id, keeps the ids unique and at most one row per pair, and
      changes no other row and no other field. */
  lemma {:induction false} UpdateKeepsPairsUnique(carts: seq<Cart>, id: Id, quantity: int)
    requires PairsUnique(carts)
    ensures var after := MapWhere(carts, IdOf, id, c => WithQuantity(c, quantity));
            PairsUnique(after) &&
            (forall k :: 0 <= k < |carts| ==> after[k].(quantity := carts[k].quantity) == carts[k]) &&
            (forall k :: 0 <= k < |carts| && carts[k].id == id ==> after[k].quantity == quantity)
  {
    var after := MapWhere(carts, IdOf, id, c => WithQuantity(c, quantity));
    forall a, b | 0 <= a < b < |after|
      ensures after[a].userId != after[b].userId || after[a].productId != after[b].productId
    {
      assert after[a].userId == carts[a].userId && after[a].productId == carts[a].productId;
      assert after[b].userId == carts[b].userId && after[b].productId == carts[b].productId;
    }
  }

  /** A table with at most one row per pair is its first row, whose pair no
      later row holds, before a tail with at most one row per pair. */
  lemma PairsUniqueSplit(carts: seq<Cart>)
    requires PairsUnique(carts) && carts != []
    ensures PairsUnique(carts[1..])
    ensures forall k :: 0 <= k < |carts[1..]| ==> !HoldsPair(carts[1..][k], carts[0].userId, carts[0].productId)
  {
    var rest := carts[1..];
    forall a, b | 0 <= a < b < |rest|
      ensures rest[a].userId != rest[b].userId || rest[a].productId != rest[b].productId
    {
      assert rest[a] == carts[a + 1] && rest[b] == carts[b + 1];
    }
  }

  /** Putting a row before a tail that holds its pair nowhere keeps at most
      one row per pair. */
  lemma PairsUniqueCons(c: Cart, tail: seq<Cart>)
    requires PairsUnique(tail)
    requires forall k :: 0 <= k < |tail| ==> !HoldsPair(tail[k], c.userId, c.productId)
    ensures PairsUnique([c] + tail)
  {
    var r := [c] + tail;
    forall a, b | 0 <= a < b < |r|
      ensures r[a].userId != r[b].userId || r[a].productId != r[b].productId
    {
      assert r[b] == tail[b - 1];
      if a > 0 {
        assert r[a] == tail[a - 1];
      }
    }
  }

  /** Deleting rows by id keeps at most one row per pair. */
  lemma {:induction false} RemoveKeepsPairsUnique(carts: seq<Cart>, id: Id)
    requires PairsUnique(carts)
    ensures PairsUnique(RemoveKey(carts, IdOf, id))
  {
    if carts != [] {
      var rest := carts[1..];
      PairsUniqueSplit(carts);
      RemoveKeepsPairsUnique(rest, id);
      if IdOf(carts[0]) != id {
        var tail := RemoveKey(rest, IdOf, id);
        forall k | 0 <= k < |tail| ensures !HoldsPair(tail[k], carts[0].userId, carts[0].productId) {
          assert tail[k] in rest;
        }
        PairsUniqueCons(carts[0], tail);
      }
    }
  }

  // ---------------------------------------------------------------------
  // Queries

  /** The product-name search of `findAll`: the cart's product, looked up
      in the product table, has a name containing `search`. */
  predicate ProductNameMatches(products: seq<Products.Product>, c: Cart, search: string) {
    match IndexOf(products, Products.IdOf, c.productId)
    case None => false
    case Some(i) => Contains(products[i].name, search)
  }

  /** The rows `findAll` asks the repository for, before the emptiness check. */
  function Listing(carts: seq<Cart>, products: seq<Products.Product>, search: string, page: nat): (rows: seq<Cart>)
    ensures search != "" ==>
      forall k :: 0 <= k < |rows| ==> rows[k] in carts && ProductNameMatches(products, rows[k], search)
    ensures search != "" ==>
      forall k :: 0 <= k < |carts| && ProductNameMatches(products, carts[k], search) ==> carts[k] in rows
    ensures search == "" && page != 0 ==>
      |rows| == if Skip(page) >= |carts| then 0 else Min(PageSize, |carts| - Skip(page))
    ensures search == "" && page != 0 ==>
      forall k :: 0 <= k < |rows| ==> Skip(page) + k < |carts| && rows[k] == carts[Skip(page) + k]
    ensures search == "" && page == 0 ==> rows == carts
  {
    if search != "" then Filter(carts, (c: Cart) => ProductNameMatches(products, c, search))
    else if page != 0 then Window(carts, Skip(page), PageSize)
    else carts
  }

  /** `skip: (page - 1) * 5` for a non-zero page. */
  function Skip(page: nat): nat {
    if page == 0 then 0 else (page - 1) * PageSize
  }

  /** `findAll(search, page)`: a product-name search (unpaged) or a page of
      five rows, or every row when neither is given; nothing found is a bad
      request. */
  function FindAll(carts: seq<Cart>, products: seq<Products.Product>, search: string, page: nat): (r: Response<seq<Cart>>)
    ensures r.Ok? || r == BadRequest("No carts found")
    ensures r.Ok? <==> Listing(carts, products, search, page) != []
    ensures r.Ok? ==> r == Ok(200, "Carts fetched successfully", Listing(carts, products, search, page))
  {
    var rows := Listing(carts, products, search, page);
    if |rows| == 0 then BadRequest("No carts found")
    else Ok(200, "Carts fetched successfully", rows)
  }

  /** `findCart(id)`: an empty id and an unknown id are both bad requests. */
  function FindCart(carts: seq<Cart>, id: Id): (r: Response<Cart>)
    ensures r.BadRequest? <==> id == "" || Absent(carts, IdOf, id)
    ensures r.BadRequest? ==> r.message == if id == "" then "Cart ID is required" else "Cart not found"
    ensures r.Ok? ==> r.status == 200 && r.data in carts && r.data.id == id
    ensures !r.NotFound? && !r.ServerError?
  {
    if id == "" then BadRequest("Cart ID is required")
    else
      match IndexOf(carts, IdOf, id)
      case None => BadRequest("Cart not found")
      case Some(i) => Ok(200, "Cart fetched successfully", carts[i])
  }

  // ---------------------------------------------------------------------
  // The service

  class CartService {
    var carts: seq<Cart>
    var products: seq<Products.Product>
    var users: seq<Users.User>

    ghost predicate Valid()
      reads this
    {
      UniqueKeys(carts, IdOf) && UniqueKeys(products, Products.IdOf) && UniqueKeys(users, Users.IdOf)
    }

    constructor (products: seq<Products.Product>, users: seq<Users.User>)
      requires UniqueKeys(products, Products.IdOf) && UniqueKeys(users, Users.IdOf)
      ensures Valid() && carts == [] && this.products == products && this.users == users
    {
      this.carts := [];
      this.products := products;
      this.users := users;
    }

    /** `create(dto)`: the product is looked up first, then the user; then
        the existing row for the pair gets `quantity` more (status 200) or a
        new row is inserted (status 201). `newId` is the UUID the database
        would give a new row. The quantity is not checked. */
    method Create(dto: NewCartItem, newId: Id) returns (r: Response<Cart>)
      requires Valid() && Absent(carts, IdOf, newId)
      modifies this`carts
      ensures Valid()
      ensures Absent(old(products), Products.IdOf, dto.productId) ==>
        r == BadRequest("Product not found") && carts == old(carts)
      ensures !Absent(old(products), Products.IdOf, dto.productId) && Absent(old(users), Users.IdOf, dto.userId) ==>
        r == BadRequest("User not found") && carts == old(carts)
      ensures !Absent(old(products), Products.IdOf, dto.productId) && !Absent(old(users), Users.IdOf, dto.userId) ==>
        carts == Added(old(carts), dto.userId, dto.productId, dto.quantity, newId) &&
        r.Ok? && AddedIndex(old(carts), dto.userId, dto.productId) < |carts| &&
        r.data == carts[AddedIndex(old(carts), dto.userId, dto.productId)] &&
        HoldsPair(r.data, dto.userId, dto.productId) &&
        r.status == (if FindPair(old(carts), dto.userId, dto.productId).Some? then 200 else 201) &&
        r.message == (if FindPair(old(carts), dto.userId, dto.productId).Some? then "Cart updated successfully"
                      else "Cart created successfully")
      ensures PairsUnique(old(carts)) ==> PairsUnique(carts)
    {
      var product := IndexOf(products, Products.IdOf, dto.productId);
      if product.None? {
        return BadRequest("Product not found");
      }
      var user := IndexOf(users, Users.IdOf, dto.userId);
      if user.None? {
        return BadRequest("User not found");
      }
      r := Upsert(dto, newId);
    }

    /** The write half of `create`: the pair's row grows by `quantity`, or a
        new row is appended. */
    method Upsert(dto: NewCartItem, newId: Id) returns (r: Response<Cart>)
      requires UniqueKeys(carts, IdOf) && Absent(carts, IdOf, newId)
      modifies this`carts
      ensures UniqueKeys(carts, IdOf)
      ensures carts == Added(old(carts), dto.userId, dto.productId, dto.quantity, newId)
      ensures AddedIndex(old(carts), dto.userId, dto.productId) < |carts|
      ensures r == Ok(if FindPair(old(carts), dto.userId, dto.productId).Some? then 200 else 201,
                      if FindPair(old(carts), dto.userId, dto.productId).Some? then "Cart updated successfully"
                      else "Cart created successfully",
                      carts[AddedIndex(old(carts), dto.userId, dto.productId)])
      ensures HoldsPair(r.data, dto.userId, dto.productId)
      ensures PairsUnique(old(carts)) ==> PairsUnique(carts)
    {
      if PairsUnique(carts) {
        AddedKeepsPairsUnique(carts, dto.userId, dto.productId, dto.quantity, newId);
      }
      var existing := FindPair(carts, dto.userId, dto.productId);
      if existing.Some? {
        var i := existing.value;
        var updated := carts[i].(quantity := carts[i].quantity + dto.quantity);
        UpdateKeepsUnique(carts, IdOf, i, updated);
        carts := carts[i := updated];
        return Ok(200, "Cart updated successfully", updated);
      }
      var cart := Cart(newId, dto.userId, dto.productId, dto.quantity);
      AppendKeepsUnique(carts, IdOf, cart);
      carts := carts + [cart];
      r := Ok(201, "Cart created successfully", cart);
    }

    /** `updateCart(id, dto)`: an unknown id is a bad request; the ORM
        refuses any patch but a quantity-only one, and its error reaches the
        caller as a server error; a quantity-only patch overwrites the row's
        quantity. */
    method UpdateCart(id: Id, patch: CartPatch) returns (r: Response<()>)
      requires Valid()
      modifies this`carts
      ensures Valid()
      ensures Absent(old(carts), IdOf, id) ==> r == BadRequest("Cart not found") && carts == old(carts)
      ensures !Absent(old(carts), IdOf, id) && !Writable(patch) ==>
        r == ServerError("Internal server error") && carts == old(carts)
      ensures !Absent(old(carts), IdOf, id) && Writable(patch) ==>
        r == Ok(200, "Cart updated successfully", ()) &&
        carts == MapWhere(old(carts), IdOf, id, c => WithQuantity(c, patch.quantity.value))
      ensures PairsUnique(old(carts)) ==> PairsUnique(carts)
    {
      var found := IndexOf(carts, IdOf, id);
      if found.None? {
        return BadRequest("Cart not found");
      }
      if !Writable(patch) {
        return ServerError("Internal server error");
      }
      var i := found.value;
      var quantity := patch.quantity.value;
      UpdateAtIsMapWhere(carts, IdOf, i, c => WithQuantity(c, quantity));
      UpdateKeepsUnique(carts, IdOf, i, WithQuantity(carts[i], quantity));
      if PairsUnique(carts) {
        UpdateKeepsPairsUnique(carts, carts[i].id, quantity);
      }
      carts := carts[i := WithQuantity(carts[i], quantity)];
      r := Ok(200, "Cart updated successfully", ());
    }

    /** `remove(id)`: only an empty id is refused; the delete result is
        always truthy, so an unknown id is reported as success. */
    method Remove(id: Id) returns (r: Response<()>)
      requires Valid()
      modifies this`carts
      ensures Valid()
      ensures id == "" ==> r == BadRequest("Cart ID is required") && carts == old(carts)
      ensures id != "" ==> r == Ok(200, "Cart deleted successfully", ()) && carts == RemoveKey(old(carts), IdOf, id)
      ensures id != "" && Absent(old(carts), IdOf, id) ==> carts == old(carts)
      ensures PairsUnique(old(carts)) ==> PairsUnique(carts)
    {
      if id == "" {
        return BadRequest("Cart ID is required");
      }
      if PairsUnique(carts) {
        RemoveKeepsPairsUnique(carts, id);
      }
      RemoveKeepsUnique(carts, IdOf, id);
      carts := RemoveKey(carts, IdOf, id);
      r := Ok(200, "Cart deleted successfully", ());
    }
  }
}
