/** The user directory service wired into the users module: the searched or
    paged listing, lookup by id, and deletion by affected-row count. */
module Users {
  import opened Common

  datatype Role = Customer | Admin | SuperAdmin

  /** A user row; the password hash is left out of the model. */
  datatype User = User(id: Id, username: string, email: string, role: Role)

  /** The page size `findAll` uses when the caller gives no limit. */
  const DefaultLimit: nat := 5

  function IdOf(u: User): Id { u.id }

  function NameMatches(u: User, search: string): bool { Contains(u.username, search) }

  /** The rows `findAll` asks the repository for, before the emptiness check:
      a username search when `search` is non-empty (paging ignored), else the
      window `skip (page - 1) * limit, take limit` when `page` is non-zero,
      else the whole table. */
  function Listing(table: seq<User>, search: string, page: nat, limit: nat): (rows: seq<User>)
    ensures search != "" ==> forall k :: 0 <= k < |rows| ==> rows[k] in table && NameMatches(rows[k], search)
    ensures search != "" ==> forall k :: 0 <= k < |table| && NameMatches(table[k], search) ==> table[k] in rows
    ensures search == "" && page != 0 ==>
      |rows| == if Skip(page, limit) >= |table| then 0 else Min(limit, |table| - Skip(page, limit))
    ensures search == "" && page != 0 ==>
      forall k :: 0 <= k < |rows| ==> Skip(page, limit) + k < |table| && rows[k] == table[Skip(page, limit) + k]
    ensures search == "" && page == 0 ==> rows == table
  {
    if search != "" then Filter(table, (u: User) => NameMatches(u, search))
    else if page != 0 then Window(table, Skip(page, limit), limit)
    else table
  }

  /** `skip: (page - 1) * limit` for a non-zero page. */
  function Skip(page: nat, limit: nat): nat {
    if page == 0 then 0 else (page - 1) * limit
  }

  /** `findAll(search, page, limit = 5)`; `None` is an absent limit. */
  function FindAll(table: seq<User>, search: string, page: nat, limit: Option<nat>): (r: Response<seq<User>>)
    ensures r.Ok? || r == BadRequest("No users found")
    ensures r.Ok? ==> r.status == 200 && r.data != []
    ensures r.Ok? && search != "" ==>
      forall k :: 0 <= k < |r.data| ==> r.data[k] in table && NameMatches(r.data[k], search)
    ensures search != "" ==>
      forall k :: 0 <= k < |table| && NameMatches(table[k], search) ==> r.Ok? && table[k] in r.data
    ensures r.Ok? <==> Listing(table, search, page, limit.GetOr(DefaultLimit)) != []
    ensures r.Ok? ==> r.data == Listing(table, search, page, limit.GetOr(DefaultLimit))
    ensures search == "" && page != 0 ==>
      var size := limit.GetOr(DefaultLimit);
      (r.Ok? <==> Skip(page, size) < |table| && size != 0) &&
      (r.Ok? ==> |r.data| == Min(size, |table| - Skip(page, size)) &&
                 forall k :: 0 <= k < |r.data| ==> r.data[k] == table[Skip(page, size) + k])
    ensures search == "" && page == 0 ==> r == if table == [] then BadRequest("No users found")
                                                else Ok(200, "Users fetched successfully", table)
  {
    var users := Listing(table, search, page, limit.GetOr(DefaultLimit));
    if |users| == 0 then BadRequest("No users found")
    else Ok(200, "Users fetched successfully", users)
  }

  /** A search makes the page and limit irrelevant. */
  lemma SearchIgnoresPaging(table: seq<User>, search: string, p1: nat, l1: Option<nat>, p2: nat, l2: Option<nat>)
    requires search != ""
    ensures FindAll(table, search, p1, l1) == FindAll(table, search, p2, l2)
  {
  }

  /** `findOne(id)`: an unknown id is reported as a bad request. */
  function FindOne(table: seq<User>, id: Id): (r: Response<User>)
    ensures r.Ok? || r == BadRequest("User not found")
    ensures r.BadRequest? <==> Absent(table, IdOf, id)
    ensures r.Ok? ==> r.status == 200 && r.data in table && r.data.id == id
  {
    match IndexOf(table, IdOf, id)
    case None => BadRequest("User not found")
    case Some(i) => Ok(200, "User fetched successfully", table[i])
  }

  class UserService {
    var users: seq<User>

    ghost predicate Valid()
      reads this
    {
      UniqueKeys(users, IdOf)
    }

    constructor ()
      ensures Valid() && users == []
    {
      users := [];
    }

    /** `remove(id)`: `delete(id)` reports how many rows it removed; none is
        a bad request, otherwise exactly that user is gone. */
    method Remove(id: Id) returns (r: Response<()>)
      requires Valid()
      modifies this
      ensures Valid()
      ensures Absent(old(users), IdOf, id) ==> r == BadRequest("User not found") && users == old(users)
      ensures !Absent(old(users), IdOf, id) ==>
        r == Ok(200, "User deleted successfully", ()) &&
        users == RemoveKey(old(users), IdOf, id) && |users| == |old(users)| - 1
    {
      var found := IndexOf(users, IdOf, id);
      if found.None? {
        return BadRequest("User not found");
      }
      RemovePresentCount(users, IdOf, found.value);
      RemoveKeepsUnique(users, IdOf, id);
      users := RemoveKey(users, IdOf, id);
      r := Ok(200, "User deleted successfully", ());
    }
  }
}
