/** The product catalog service: creation, paged name search, lookup by id,
    partial update, the status toggle and soft removal. */
module Products {
  import opened Common
  import opened SoftDelete

  datatype Product = Product(
    id: Id,
    name: string,
    price: int,               // a JavaScript number, kept as an integer (cents)
    description: Option<string>,
    image: Option<string>,
    status: Status,
    stockQuantity: int)

  /** The fields a create request carries. */
  datatype NewProduct = NewProduct(
    name: string,
    price: int,
    description: Option<string>,
    image: Option<string>,
    stockQuantity: Option<int>)

  /** The fields an update request may carry; `None` leaves a field as it is. */
  datatype ProductPatch = ProductPatch(
    name: Option<string>,
    price: Option<int>,
    description: Option<string>,
    image: Option<string>,
    stockQuantity: Option<int>,
    categoryId: Option<Id>)

  const PageSize: nat := 5

  /** The stock a product gets when the request names none. */
  const DefaultStock: int := 1

  function IdOf(p: Product): Id { p.id }

  function ToggleRow(p: Product): Product { p.(status := Toggled(p.status)) }

  function DeleteRow(p: Product): Product { p.(status := Deleted) }

  /** Whether the ORM's `update` can apply the patch. A product has the
      relation `category` but no property `categoryId`, so a patch naming it
      is refused; a patch naming no field leaves nothing to set and is
      refused too. */
  predicate Writable(patch: ProductPatch) {
    patch.categoryId.None? &&
    (patch.name.Some? || patch.price.Some? || patch.description.Some? ||
     patch.image.Some? || patch.stockQuantity.Some?)
  }

  /** The row a writable patch leaves: every field the patch names is
      overwritten, the others (id and status included) are kept. */
  function Patched(p: Product, patch: ProductPatch): Product {
    p.(name := patch.name.GetOr(p.name),
       price := patch.price.GetOr(p.price),
       description := if patch.description.Some? then patch.description else p.description,
       image := if patch.image.Some? then patch.image else p.image,
       stockQuantity := patch.stockQuantity.GetOr(p.stockQuantity))
  }

  function ChangeStatusMessage(before: Status): string {
    "Product status updated successfully to " + ToggledName(before)
  }

  // ---------------------------------------------------------------------
  // Queries

  /** The rows the `where` clause of `findAll` admits: a name search when
      `search` is non-empty, every row otherwise. No status is checked. */
  function Matching(table: seq<Product>, search: string): (m: seq<Product>)
    ensures forall k :: 0 <= k < |m| ==> m[k] in table && (search != "" ==> Contains(m[k].name, search))
    ensures forall k :: 0 <= k < |table| && (search == "" || Contains(table[k].name, search)) ==> table[k] in m
    ensures search == "" ==> m == table
    ensures |m| <= |table|
  {
    if search == "" then table else Filter(table, (p: Product) => Contains(p.name, search))
  }

  /** `skip: page ? (page - 1) * 5 : 0`, page 0 standing for an absent page. */
  function PageStart(page: nat): nat {
    if page == 0 then 0 else (page - 1) * PageSize
  }

  /** `findAll(search, page)`: one page of at most five matching products. */
  function FindAll(table: seq<Product>, search: string, page: nat): (r: Response<seq<Product>>)
    ensures r.Ok? || r == NotFound("No products found")
    ensures r.NotFound? <==> |Matching(table, search)| <= PageStart(page)
    ensures r.Ok? ==> r.status == 200 && 1 <= |r.data| <= PageSize
    ensures r.Ok? ==> forall k :: 0 <= k < |r.data| ==>
      r.data[k] in table && (search != "" ==> Contains(r.data[k].name, search))
    ensures r.Ok? ==> PageStart(page) + |r.data| <= |Matching(table, search)|
    ensures r.Ok? ==> forall k :: 0 <= k < |r.data| ==>
      r.data[k] == Matching(table, search)[PageStart(page) + k]
    ensures r.Ok? ==> |r.data| == PageSize || PageStart(page) + |r.data| == |Matching(table, search)|
  {
    var matching := Matching(table, search);
    var rows := Window(matching, PageStart(page), PageSize);
    if |rows| == 0 then NotFound("No products found")
    else Ok(200, "Products retrieved successfully", rows)
  }

  /** Without a search, the first page lists the first five rows whatever
      their status: a Deleted product is listed like any other. */
  lemma {:induction false} FindAllListsEveryStatus(table: seq<Product>, k: nat)
    requires k < |table| && k < PageSize
    ensures FindAll(table, "", 0).Ok? && FindAll(table, "", 0).data[k] == table[k]
    ensures FindAll(table, "", 1) == FindAll(table, "", 0)
  {
    assert Matching(table, "") == table;
  }

  /** `findOne(id)`. */
  function FindOne(table: seq<Product>, id: Id): (r: Response<Product>)
    ensures r.BadRequest? <==> !IsUuid(id)
    ensures r.BadRequest? ==> r.message == "Invalid product ID"
    ensures r.NotFound? <==> IsUuid(id) && Absent(table, IdOf, id)
    ensures r.NotFound? ==> r.message == "Product not found"
    ensures r.Ok? ==> r.status == 200 && r.data in table && r.data.id == id
  {
    if !IsUuid(id) then BadRequest("Invalid product ID")
    else
      match IndexOf(table, IdOf, id)
      case None => NotFound("Product not found")
      case Some(i) => Ok(200, "Product fetched successfully", table[i])
  }

  // ---------------------------------------------------------------------
  // Properties of the status updates over the whole table

  /** Toggling the same product twice restores the table when the product
      was Active or Inactive. */
  lemma ToggleTwiceRestores(table: seq<Product>, id: Id)
    requires forall k :: 0 <= k < |table| && table[k].id == id ==> table[k].status != Deleted
    ensures MapWhere(MapWhere(table, IdOf, id, ToggleRow), IdOf, id, ToggleRow) == table
  {
    var once := MapWhere(table, IdOf, id, ToggleRow);
    var twice := MapWhere(once, IdOf, id, ToggleRow);
    forall k | 0 <= k < |table| ensures twice[k] == table[k] {
      if table[k].id == id {
        ToggleTwice(table[k].status);
      }
    }
  }

  /** Removing twice is the same as removing once. */
  lemma RemoveIdempotent(table: seq<Product>, id: Id)
    ensures MapWhere(MapWhere(table, IdOf, id, DeleteRow), IdOf, id, DeleteRow)
         == MapWhere(table, IdOf, id, DeleteRow)
  {
    var once := MapWhere(table, IdOf, id, DeleteRow);
    var twice := MapWhere(once, IdOf, id, DeleteRow);
    forall k | 0 <= k < |table| ensures twice[k] == once[k] {
    }
  }

  /** The toggle and the removal write only the status of the product with
      that id; every other field and every other product stay as they were. */
  lemma StatusWritesTouchOnlyStatus(table: seq<Product>, id: Id)
    ensures var toggled := MapWhere(table, IdOf, id, ToggleRow);
            var removed := MapWhere(table, IdOf, id, DeleteRow);
            (forall k :: 0 <= k < |table| ==> toggled[k].(status := table[k].status) == table[k]) &&
            (forall k :: 0 <= k < |table| ==> removed[k].(status := table[k].status) == table[k]) &&
            (forall k :: 0 <= k < |table| && table[k].id != id ==> toggled[k] == table[k] && removed[k] == table[k])
  {
    var toggled := MapWhere(table, IdOf, id, ToggleRow);
    var removed := MapWhere(table, IdOf, id, DeleteRow);
    forall k | 0 <= k < |table|
      ensures toggled[k].(status := table[k].status) == table[k]
      ensures removed[k].(status := table[k].status) == table[k]
    {
    }
  }

  /** A removed product is still found by id, now with status Deleted. */
  lemma RemovedStillFound(table: seq<Product>, id: Id)
    requires IsUuid(id) && !Absent(table, IdOf, id)
    ensures FindOne(MapWhere(table, IdOf, id, DeleteRow), id).Ok?
    ensures FindOne(MapWhere(table, IdOf, id, DeleteRow), id).data.status == Deleted
  {
    var after := MapWhere(table, IdOf, id, DeleteRow);
    var i :| 0 <= i < |table| && table[i].id == id;
    assert after[i].id == id;
    assert !Absent(after, IdOf, id);
  }

  // ---------------------------------------------------------------------
  // The service over the product table

  class ProductService {
    var products: seq<Product>

    ghost predicate Valid()
      reads this
    {
      UniqueKeys(products, IdOf)
    }

    constructor ()
      ensures Valid() && products == []
    {
      products := [];
    }

    /** `create(dto)`; `newId` is the UUID the database generates. */
    method Create(dto: NewProduct, newId: Id) returns (r: Response<()>)
      requires Valid() && IsUuid(newId) && Absent(products, IdOf, newId)
      modifies this
      ensures Valid()
      ensures r == Ok(201, "Product created successfully", ())
      ensures products == old(products) + [Product(newId, dto.name, dto.price, dto.description,
                                                    dto.image, Active, dto.stockQuantity.GetOr(DefaultStock))]
    {
      var product := Product(newId, dto.name, dto.price, dto.description, dto.image,
                             Active, dto.stockQuantity.GetOr(DefaultStock));
      AppendKeepsUnique(products, IdOf, product);
      products := products + [product];
      r := Ok(201, "Product created successfully", ());
    }

    /** `update(id, dto)`: the update result is always truthy, so an unknown
        id is reported as success and changes nothing; a patch the ORM
        refuses reaches the caller as a server error. */
    method Update(id: Id, patch: ProductPatch) returns (r: Response<()>)
      requires Valid()
      modifies this
      ensures Valid()
      ensures !IsUuid(id) ==> r == BadRequest("Invalid product ID") && products == old(products)
      ensures IsUuid(id) && !Writable(patch) ==>
        r == ServerError("Internal server error") && products == old(products)
      ensures IsUuid(id) && Writable(patch) ==>
        r == Ok(200, "Product updated successfully", ()) &&
        products == MapWhere(old(products), IdOf, id, p => Patched(p, patch))
      ensures Absent(old(products), IdOf, id) ==> products == old(products)
    {
      if !IsUuid(id) {
        return BadRequest("Invalid product ID");
      }
      if !Writable(patch) {
        return ServerError("Internal server error");
      }
      var found := IndexOf(products, IdOf, id);
      if found.Some? {
        var i := found.value;
        UpdateAtIsMapWhere(products, IdOf, i, p => Patched(p, patch));
        UpdateKeepsUnique(products, IdOf, i, Patched(products[i], patch));
        products := products[i := Patched(products[i], patch)];
      } else {
        MapWhereAbsent(products, IdOf, id, p => Patched(p, patch));
      }
      r := Ok(200, "Product updated successfully", ());
    }

    /** `changeStatus(id)`: Active becomes Inactive, any other status Active. */
    method ChangeStatus(id: Id) returns (r: Response<()>)
      requires Valid()
      modifies this
      ensures Valid()
      ensures !IsUuid(id) ==> r == BadRequest("Invalid product ID") && products == old(products)
      ensures IsUuid(id) && Absent(old(products), IdOf, id) ==>
        r == NotFound("Product not found") && products == old(products)
      ensures IsUuid(id) && !Absent(old(products), IdOf, id) ==>
        products == MapWhere(old(products), IdOf, id, ToggleRow)
      ensures forall k :: 0 <= k < |old(products)| && old(products)[k].id == id && IsUuid(id) ==>
        r == Ok(200, ChangeStatusMessage(old(products)[k].status), ())
    {
      if !IsUuid(id) {
        return BadRequest("Invalid product ID");
      }
      var found := IndexOf(products, IdOf, id);
      if found.None? {
        return NotFound("Product not found");
      }
      var i := found.value;
      var product := products[i];
      UpdateAtIsMapWhere(products, IdOf, i, ToggleRow);
      UpdateKeepsUnique(products, IdOf, i, ToggleRow(product));
      products := products[i := ToggleRow(product)];
      r := Ok(200, ChangeStatusMessage(product.status), ());
    }

    /** `remove(id)`: a soft delete; the row stays with status Deleted. */
    method Remove(id: Id) returns (r: Response<()>)
      requires Valid()
      modifies this
      ensures Valid()
      ensures !IsUuid(id) ==> r == BadRequest("Invalid product ID") && products == old(products)
      ensures IsUuid(id) && Absent(old(products), IdOf, id) ==>
        r == NotFound("Product not found") && products == old(products)
      ensures IsUuid(id) && !Absent(old(products), IdOf, id) ==>
        r == Ok(200, "Product deleted successfully", ()) &&
        products == MapWhere(old(products), IdOf, id, DeleteRow)
    {
      if !IsUuid(id) {
        return BadRequest("Invalid product ID");
      }
      var found := IndexOf(products, IdOf, id);
      if found.None? {
        return NotFound("Product not found");
      }
      var i := found.value;
      UpdateAtIsMapWhere(products, IdOf, i, DeleteRow);
      UpdateKeepsUnique(products, IdOf, i, DeleteRow(products[i]));
      products := products[i := DeleteRow(products[i])];
      r := Ok(200, "Product deleted successfully", ());
    }
  }
}
