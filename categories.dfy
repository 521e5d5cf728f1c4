/** The category directory service: creation, the Active-only listing,
    lookup by id, partial update, the status toggle and soft removal. Unlike
    the product service, none of these checks the id's UUID form. */
module Categories {
  import opened Common
  import opened SoftDelete

  datatype Category = Category(id: Id, name: string, description: Option<string>, status: Status)

  datatype NewCategory = NewCategory(name: string, description: Option<string>)

  /** The fields an update request may carry; `None` leaves a field as it is. */
  datatype CategoryPatch = CategoryPatch(name: Option<string>, description: Option<string>)

  function IdOf(c: Category): Id { c.id }

  function ToggleRow(c: Category): Category { c.(status := Toggled(c.status)) }

  function DeleteRow(c: Category): Category { c.(status := Deleted) }

  /** Whether the ORM's `update` can apply the patch: a patch naming no
      field leaves nothing to set and is refused. */
  predicate Writable(patch: CategoryPatch) {
    patch.name.Some? || patch.description.Some?
  }

  function Patched(c: Category, patch: CategoryPatch): Category {
    c.(name := patch.name.GetOr(c.name),
       description := if patch.description.Some? then patch.description else c.description)
  }

  function ChangeStatusMessage(before: Status): string {
    "Category status updated successfully to " + ToggledName(before)
  }

  // ---------------------------------------------------------------------
  // Queries

  /** The `where` clause of `findAll`: status Active, and the name search
      when `search` is non-empty. */
  predicate Listed(c: Category, search: string) {
    c.status == Active && (search != "" ==> Contains(c.name, search))
  }

  /** `findAll(search)`: every listed category, in table order, unpaged. */
  function FindAll(table: seq<Category>, search: string): (r: Response<seq<Category>>)
    ensures r.Ok? || r == NotFound("No categories found")
    ensures r.Ok? ==> r.status == 200 && r.data != []
    ensures r.Ok? ==> forall k :: 0 <= k < |r.data| ==> r.data[k] in table && Listed(r.data[k], search)
    ensures forall k :: 0 <= k < |table| && Listed(table[k], search) ==> r.Ok? && table[k] in r.data
    ensures r.NotFound? <==> forall k :: 0 <= k < |table| ==> !Listed(table[k], search)
  {
    var rows := Filter(table, (c: Category) => Listed(c, search));
    if |rows| == 0 then NotFound("No categories found")
    else Ok(200, "Categories fetched successfully", rows)
  }

  /** `findOne(id)`: no UUID check, an unknown id is NotFound. */
  function FindOne(table: seq<Category>, id: Id): (r: Response<Category>)
    ensures r.Ok? || r == NotFound("Category not found")
    ensures r.NotFound? <==> Absent(table, IdOf, id)
    ensures r.Ok? ==> r.status == 200 && r.data in table && r.data.id == id
  {
    match IndexOf(table, IdOf, id)
    case None => NotFound("Category not found")
    case Some(i) => Ok(200, "Category fetched successfully", table[i])
  }

  // ---------------------------------------------------------------------
  // Properties of the status updates over the whole table

  /** Toggling the same category twice restores the table when it was
      Active or Inactive. */
  lemma ToggleTwiceRestores(table: seq<Category>, id: Id)
    requires forall k :: 0 <= k < |table| && table[k].id == id ==> table[k].status != Deleted
    ensures MapWhere(MapWhere(table, IdOf, id, ToggleRow), IdOf, id, ToggleRow) == table
  {
    var once := MapWhere(table, IdOf, id, ToggleRow);
    var twice := MapWhere(once, IdOf, id, ToggleRow);
    forall k | 0 <= k < |table| ensures twice[k] == table[k] {
      if table[k].id == id {
        ToggleTwice(table[k].status);
      }
    }
  }

  /** Removing twice is the same as removing once. */
  lemma RemoveIdempotent(table: seq<Category>, id: Id)
    ensures MapWhere(MapWhere(table, IdOf, id, DeleteRow), IdOf, id, DeleteRow)
         == MapWhere(table, IdOf, id, DeleteRow)
  {
    var once := MapWhere(table, IdOf, id, DeleteRow);
    var twice := MapWhere(once, IdOf, id, DeleteRow);
    forall k | 0 <= k < |table| ensures twice[k] == once[k] {
    }
  }

  /** A removed category is kept in the table, now with status Deleted. */
  lemma RemovedStillFound(table: seq<Category>, id: Id)
    requires !Absent(table, IdOf, id)
    ensures FindOne(MapWhere(table, IdOf, id, DeleteRow), id).Ok?
    ensures FindOne(MapWhere(table, IdOf, id, DeleteRow), id).data.status == Deleted
  {
    var after := MapWhere(table, IdOf, id, DeleteRow);
    var i :| 0 <= i < |table| && table[i].id == id;
    assert after[i].id == id;
  }

  /** A removed category is no longer listed, whatever the search. */
  lemma RemovedNotListed(table: seq<Category>, id: Id, search: string)
    ensures var r := FindAll(MapWhere(table, IdOf, id, DeleteRow), search);
            r.Ok? ==> forall k :: 0 <= k < |r.data| ==> r.data[k].id != id
  {
    var after := MapWhere(table, IdOf, id, DeleteRow);
    assert forall j :: 0 <= j < |after| && after[j].id == id ==> !Listed(after[j], search);
    var r := FindAll(after, search);
    if r.Ok? {
      forall k | 0 <= k < |r.data| ensures r.data[k].id != id {
        var j :| 0 <= j < |after| && after[j] == r.data[k];
      }
    }
  }

  /** Toggling a removed category reactivates it, so that a search its name
      matches lists it again. */
  lemma ToggleAfterRemoveRelists(table: seq<Category>, i: nat, search: string)
    requires i < |table|
    requires search != "" ==> Contains(table[i].name, search)
    ensures var after := MapWhere(MapWhere(table, IdOf, table[i].id, DeleteRow), IdOf, table[i].id, ToggleRow);
            var r := FindAll(after, search);
            r.Ok? && table[i].(status := Active) in r.data
  {
    var id := table[i].id;
    var removed := MapWhere(table, IdOf, id, DeleteRow);
    var after := MapWhere(removed, IdOf, id, ToggleRow);
    assert removed[i] == table[i].(status := Deleted);
    assert after[i] == table[i].(status := Active);
    assert Listed(after[i], search);
  }

  // ---------------------------------------------------------------------
  // The service over the category table

  class CategoryService {
    var categories: seq<Category>

    ghost predicate Valid()
      reads this
    {
      UniqueKeys(categories, IdOf)
    }

    constructor ()
      ensures Valid() && categories == []
    {
      categories := [];
    }

    /** `create(dto)`; `newId` is the UUID the database generates, and the
        column default makes the new category Active. */
    method Create(dto: NewCategory, newId: Id) returns (r: Response<()>)
      requires Valid() && IsUuid(newId) && Absent(categories, IdOf, newId)
      modifies this
      ensures Valid()
      ensures r == Ok(201, "Category created successfully", ())
      ensures categories == old(categories) + [Category(newId, dto.name, dto.description, Active)]
    {
      var category := Category(newId, dto.name, dto.description, Active);
      AppendKeepsUnique(categories, IdOf, category);
      categories := categories + [category];
      r := Ok(201, "Category created successfully", ());
    }

    /** `update(id, dto)`: the update result is always truthy, so every id,
        known or not, is reported as success; an empty patch, which the ORM
        refuses, reaches the caller as a server error. */
    method Update(id: Id, patch: CategoryPatch) returns (r: Response<()>)
      requires Valid()
      modifies this
      ensures Valid()
      ensures !Writable(patch) ==> r == ServerError("Internal server error") && categories == old(categories)
      ensures Writable(patch) ==>
        r == Ok(200, "Category updated successfully", ()) &&
        categories == MapWhere(old(categories), IdOf, id, c => Patched(c, patch))
      ensures Absent(old(categories), IdOf, id) ==> categories == old(categories)
    {
      if !Writable(patch) {
        return ServerError("Internal server error");
      }
      var found := IndexOf(categories, IdOf, id);
      if found.Some? {
        var i := found.value;
        UpdateAtIsMapWhere(categories, IdOf, i, c => Patched(c, patch));
        UpdateKeepsUnique(categories, IdOf, i, Patched(categories[i], patch));
        categories := categories[i := Patched(categories[i], patch)];
      } else {
        MapWhereAbsent(categories, IdOf, id, c => Patched(c, patch));
      }
      r := Ok(200, "Category updated successfully", ());
    }

    /** `changeStatus(id)`: Active becomes Inactive, any other status Active. */
    method ChangeStatus(id: Id) returns (r: Response<()>)
      requires Valid()
      modifies this
      ensures Valid()
      ensures Absent(old(categories), IdOf, id) ==>
        r == NotFound("Category not found") && categories == old(categories)
      ensures !Absent(old(categories), IdOf, id) ==>
        categories == MapWhere(old(categories), IdOf, id, ToggleRow)
      ensures forall k :: 0 <= k < |old(categories)| && old(categories)[k].id == id ==>
        r == Ok(200, ChangeStatusMessage(old(categories)[k].status), ())
    {
      var found := IndexOf(categories, IdOf, id);
      if found.None? {
        return NotFound("Category not found");
      }
      var i := found.value;
      var category := categories[i];
      UpdateAtIsMapWhere(categories, IdOf, i, ToggleRow);
      UpdateKeepsUnique(categories, IdOf, i, ToggleRow(category));
      categories := categories[i := ToggleRow(category)];
      r := Ok(200, ChangeStatusMessage(category.status), ());
    }

    /** `remove(id)`: a soft delete; the row stays with status Deleted. */
    method Remove(id: Id) returns (r: Response<()>)
      requires Valid()
      modifies this
      ensures Valid()
      ensures Absent(old(categories), IdOf, id) ==>
        r == NotFound("Category not found") && categories == old(categories)
      ensures !Absent(old(categories), IdOf, id) ==>
        r == Ok(200, "Category deleted successfully", ()) &&
        categories == MapWhere(old(categories), IdOf, id, DeleteRow)
    {
      var found := IndexOf(categories, IdOf, id);
      if found.None? {
        return NotFound("Category not found");
      }
      var i := found.value;
      UpdateAtIsMapWhere(categories, IdOf, i, DeleteRow);
      UpdateKeepsUnique(categories, IdOf, i, DeleteRow(categories[i]));
      categories := categories[i := DeleteRow(categories[i])];
      r := Ok(200, "Category deleted successfully", ());
    }
  }
}
