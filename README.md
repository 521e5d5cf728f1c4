# Verified model of the nest-project e-commerce services

This project models the service layer of a NestJS/TypeORM shop backend in Dafny. The layer covers:

- products and categories, with a three-state soft delete (Active, Inactive, Deleted);
- a cart that upserts one row per (user, product) pair;
- orders with their item rows;
- reviews;
- a user directory;
- three analytics reports.

Each TypeORM repository becomes a table held as a sequence field of a service class, in insertion order. The services' methods change those tables. Their read-only queries are functions over the tables.

Each thrown `BadRequestException` or `NotFoundException` becomes a `BadRequest(message)` or `NotFound(message)` value of `Common.Response`. A successful reply is `Ok(status, message, data)`. `ServerError` stands for an error the code does not catch, which Nest's default exception filter answers with status 500. There are two kinds. One is the crash with a JavaScript `TypeError` in the sales report. The other is TypeORM's `update(id, values)` refusing its values (the ORM's 0.3 behaviour, the version whose `findOneBy` the services call). It refuses a key that is not a property of the entity, with `EntityPropertyNotFoundError`. It also refuses values that set nothing, with `UpdateValuesMissingError`, since no entity here has an `@UpdateDateColumn`.

`isUUID` is the case-insensitive 8-4-4-4-12 hexadecimal form of RFC 4122, section 3. Some values come from outside the service, and the model takes them as parameters:

- the UUIDs the database generates for new rows (`newId`, `orderId`, `itemIds`), each required to be fresh;
- the clock (`now`);
- the analytics rows.

A request field the client may omit is an `Option`, and `None` means the key is missing from the request body. A search string is absent when it is empty, and a page number is absent when it is 0, as JavaScript truthiness makes them. The SQL `LIKE '%s%'` search is substring containment (`Common.Contains`). `order: { createdAt: 'DESC' }` is a stable sort with the newest rows first.

Files:

- `common.dfy`: responses, the UUID form, keyed tables, filters, windows and sorts.
- `soft_delete.dfy`: the shared status toggle.
- `products.dfy`, `categories.dfy`, `users.dfy`, `carts.dfy`, `orders.dfy`, `reviews.dfy`: one service each.
- `analytics.dfy`: the three reports.

Where the code and the design notes of the repository disagree, the model follows the code:

- The toggle sends Deleted to Active, so Deleted is not terminal under `changeStatus`. Toggling twice from Deleted ends in Inactive (`SoftDelete.ToggleTwice`).
- An order update that is rejected for a non-UUID product id has already deleted the order's items. The order is left with none, and no crash is needed for that (`Orders.RejectedReplaceEmptiesOrder`).
- The update DTOs of carts and products offer `userId`, `productId` and `categoryId`, but the entities hold these as the relations `user`, `product` and `category`. An update naming any of them is refused by the ORM, so only the quantity of a cart can be changed, and "at most one row per pair" survives `updateCart` (`Carts.UpdateKeepsPairsUnique`).

## Model

| member | source | states |
|---|---|---|
| Common.IndexOf | src/products/products.service.ts:117-120 | the lookup by id finds a row with that id, the first one, exactly when one exists |
| Common.UpdateAtIsMapWhere | src/products/products.service.ts:121-126 | with unique ids, rewriting the row found by id is the same as an `update` over every row with that id |
| Common.MapWhereAbsent | src/categories/categories.service.ts:65 | an `update` whose id no row holds leaves the table unchanged |
| Common.MapWhereKeepsUnique | src/categories/categories.service.ts:65 | an `update` that writes no id keeps ids unique and in place, and leaves every row with another id as it was |
| Common.RemoveKey | src/users/services/users/users.service.ts:68 | `delete(id)` leaves no row with that id, keeps every other row and removes nothing when the id is unknown |
| Common.RemovePresentCount | src/users/services/users/users.service.ts:68-71 | deleting an id that is present in a table of unique ids removes exactly one row |
| Common.ContainsIffOccurs | src/products/products.service.ts:47 | the `Like('%s%')` match holds exactly when the search occurs at some position of the name |
| Common.Window | src/products/products.service.ts:49-50 | `skip`/`take` yields the rows from the offset on, at most `take` of them, and none past the end |
| Common.Filter | src/categories/categories.service.ts:33-36 | a `where` filter keeps exactly the rows that satisfy it, with no row added |
| Common.FilterConcat | src/orders/orders.service.ts:153 | filtering a concatenation is concatenating the filtered parts |
| Common.FilterFilter | src/orders/orders.service.ts:153 | a narrower filter applied after a wider one is the narrower filter alone |
| Common.FilterSplitCount | src/analytics/analytics.service.ts:70-71 | two complementary filters have lengths adding up to the table's |
| Common.FilterSplitMultiset | src/analytics/analytics.service.ts:70-71 | two complementary filters together hold each row as often as the table does |
| Common.SortDesc | src/orders/orders.service.ts:77-80 | `order: DESC` returns a permutation of the rows with non-increasing keys |
| Common.NewestFirst | src/reviews/reviews.service.ts:170-176 | a filtered, newest-first `find` is a sorted permutation of exactly the rows that satisfy the filter, and is empty exactly when none does |
| SoftDelete.Toggled | src/products/products.service.ts:121-126 | the toggle writes Inactive exactly when the status was Active, and never writes Deleted |
| SoftDelete.ToggledName | src/products/products.service.ts:128-130 | the message names "Inactive" exactly when the old status was Active, and "Active" otherwise |
| SoftDelete.ToggledNameNamesNewStatus | src/categories/categories.service.ts:83-92 | the message names the status that the toggle writes |
| SoftDelete.ToggleTwice | src/products/products.service.ts:121-126 | two toggles restore Active and Inactive; Deleted comes back as Inactive |
| Products.Matching | src/products/products.service.ts:47 | the listing's filter admits exactly the table rows whose name contains a non-empty search, and every row without one; it checks no status |
| Products.FindAll | src/products/products.service.ts:45-63 | at most five matching rows from offset (page-1)*5, or from 0 without a page; consecutive matches in table order; a full page unless the matches end; NotFound exactly when the offset is past the matches |
| Products.FindAllListsEveryStatus | src/products/products.service.ts:45-51 | with no search, the first page is the first five rows whatever their status, and page 1 equals no page |
| Products.FindOne | src/products/products.service.ts:70-84 | BadRequest exactly for a non-UUID id; NotFound exactly for an unknown UUID; otherwise the row with that id |
| Products.ToggleTwiceRestores | src/products/products.service.ts:121-126 | toggling the same product twice restores the table when it was not Deleted |
| Products.RemoveIdempotent | src/products/products.service.ts:150-152 | removing twice leaves the same table as removing once |
| Products.StatusWritesTouchOnlyStatus | src/products/products.service.ts:121-152 | the toggle and the removal change only the status of the product with that id |
| Products.RemovedStillFound | src/products/products.service.ts:150-152 | a removed product is still found by id, with status Deleted |
| Products.ProductService.Create | src/products/products.service.ts:26-37 | appends one Active row, with stock 1 when none is given, and answers 201 |
| Products.ProductService.Update | src/products/products.service.ts:92-105 | BadRequest for a non-UUID id; a server error with no change for a patch naming `categoryId` or no field; otherwise overwrites the given fields of the row with that id and reports success even when there is no such row |
| Products.ProductService.ChangeStatus | src/products/products.service.ts:113-134 | BadRequest for a non-UUID id, NotFound for an unknown one; otherwise toggles that row and names the new status |
| Products.ProductService.Remove | src/products/products.service.ts:142-158 | BadRequest for a non-UUID id, NotFound for an unknown one; otherwise sets Deleted and keeps the row |
| Categories.FindAll | src/categories/categories.service.ts:32-48 | exactly the Active categories, restricted by name when a search is given; NotFound exactly when there are none |
| Categories.FindOne | src/categories/categories.service.ts:50-61 | no UUID check; NotFound exactly for an unknown id; otherwise the row with that id |
| Categories.ToggleTwiceRestores | src/categories/categories.service.ts:83-88 | toggling twice restores the table when the category was not Deleted |
| Categories.RemoveIdempotent | src/categories/categories.service.ts:103-105 | removing twice leaves the same table as removing once |
| Categories.RemovedStillFound | src/categories/categories.service.ts:98-105 | a removed category is kept and found, with status Deleted |
| Categories.RemovedNotListed | src/categories/categories.service.ts:33-36 | a removed category is no longer listed, whatever the search |
| Categories.ToggleAfterRemoveRelists | src/categories/categories.service.ts:83-88 | toggling a removed category makes it Active, and a search its name matches lists it again |
| Categories.CategoryService.Create | src/categories/categories.service.ts:19-30 | appends one Active row and answers 201 |
| Categories.CategoryService.Update | src/categories/categories.service.ts:63-76 | a server error with no change for a patch naming no field; otherwise overwrites the given fields of the row with that id and reports success, even for an unknown id |
| Categories.CategoryService.ChangeStatus | src/categories/categories.service.ts:78-96 | NotFound for an unknown id; otherwise toggles that row and names the new status |
| Categories.CategoryService.Remove | src/categories/categories.service.ts:98-111 | NotFound for an unknown id; otherwise sets Deleted and keeps the row |
| Users.Listing | src/users/services/users/users.service.ts:19-28 | a search returns exactly the users whose username contains it; otherwise a page is the rows from offset (page-1)*limit on, `limit` of them or as many as remain past the offset; with neither, the whole table |
| Users.FindAll | src/users/services/users/users.service.ts:19-39 | the listing with the limit defaulting to 5; BadRequest exactly when it is empty, so a page answers exactly when its offset is inside the table and the limit is not 0, with min(limit, rows past the offset) consecutive rows |
| Users.SearchIgnoresPaging | src/users/services/users/users.service.ts:21-22 | with a search, the page and the limit do not change the result |
| Users.FindOne | src/users/services/users/users.service.ts:45-60 | BadRequest exactly for an unknown id; otherwise the row with that id |
| Users.UserService.Remove | src/users/services/users/users.service.ts:67-77 | BadRequest and no change when no row has the id; otherwise exactly that user's row is removed |
| Carts.FindPair | src/carts/carts.service.ts:43-48 | finds a row holding the (user, product) pair exactly when one exists |
| Carts.AddedKeepsPairsUnique | src/carts/carts.service.ts:43-71 | an add keeps at most one row per pair, and the pair has a row afterwards |
| Carts.AddedRowCount | src/carts/carts.service.ts:50-71 | an existing pair keeps the row count and its row, with the quantity grown by the added amount; a new pair appends one row with the given quantity; rows of other pairs are untouched |
| Carts.FindPairAt | src/carts/carts.service.ts:43-48 | while at most one row holds each pair, the lookup finds exactly the row that holds it |
| Carts.AddedFindsSameRow | src/carts/carts.service.ts:43-57 | after an add the pair is found on the row that add wrote, so a second add of the same product updates that row and answers 200 |
| Carts.AddTwiceAccumulates | src/carts/carts.service.ts:43-57 | adding q1 and then q2 of a product gives the table of a single add of q1 + q2 |
| Carts.UpdateKeepsPairsUnique | src/carts/carts.service.ts:137 | writing a new quantity to the row with an id keeps at most one row per pair and changes no other field and no other row |
| Carts.Listing | src/carts/carts.service.ts:80-89 | a search returns exactly the carts whose product's name contains it, unpaged; otherwise a page is the rows from offset (page-1)*5 on, five of them or as many as remain past the offset; with neither, every row |
| Carts.FindAll | src/carts/carts.service.ts:80-100 | BadRequest exactly when the listing is empty, the listing otherwise |
| Carts.FindCart | src/carts/carts.service.ts:107-123 | BadRequest exactly for an empty or unknown id, with the matching message; otherwise the row with that id |
| Carts.CartService.Create | src/carts/carts.service.ts:29-72 | a missing product (checked first) or user is a BadRequest with no change; otherwise the pair's row grows by the quantity (200) or one row is added (201), the answer is the row written, and at most one row per pair is kept |
| Carts.CartService.Upsert | src/carts/carts.service.ts:43-71 | the pair's row grows by the quantity (200, "Cart updated successfully") or a new row is appended (201, "Cart created successfully"); the answer is the row written, and at most one row per pair is kept |
| Carts.CartService.UpdateCart | src/carts/carts.service.ts:130-143 | BadRequest for an unknown id; a server error with no change for a patch naming `productId` or `userId`, or no field; otherwise only that row's quantity is overwritten, and at most one row per pair is kept |
| Carts.RemoveKeepsPairsUnique | src/carts/carts.service.ts:154 | deleting rows by id keeps at most one row per pair |
| Carts.CartService.Remove | src/carts/carts.service.ts:150-162 | BadRequest only for an empty id; otherwise any row with the id is deleted and success is reported even when none matched; at most one row per pair is kept |
| Orders.FirstInvalid | src/orders/orders.service.ts:47-50 | the first item whose product id is not a UUID, if any |
| Orders.BuildItems | src/orders/orders.service.ts:47-57 | the `map` stops at the first non-UUID product id, and otherwise yields one row per item for the order, in request order |
| Orders.FindAllOrders | src/orders/orders.service.ts:76-92 | every order, newest first; NotFound exactly when there are none |
| Orders.FindUserOrders | src/orders/orders.service.ts:100-121 | BadRequest for a non-UUID id; otherwise exactly that user's orders, newest first, and NotFound exactly when there are none |
| Orders.CreatedItems | src/orders/orders.service.ts:47-59 | after creation the new order's items are exactly one row per request item, and other orders keep theirs |
| Orders.ReplacedItems | src/orders/orders.service.ts:152-170 | after an update with items, the order's items are exactly the new list, and other orders keep theirs |
| Orders.RejectedReplaceEmptiesOrder | src/orders/orders.service.ts:152-160 | an update rejected for a bad product id leaves the order with no items, and other orders keep theirs |
| Orders.AppliedTouchesOnlyGivenFields | src/orders/orders.service.ts:145-150 | the total changes only when one is given, and the status only when one is given |
| Orders.StatusChangeTouchesOnlyStatus | src/orders/orders.service.ts:193-202 | a status change sets that order's status, from any status, and changes nothing else |
| Orders.CancelIdempotent | src/orders/orders.service.ts:224-230 | cancelling twice is cancelling once |
| Orders.OrderService.CreateOrder | src/orders/orders.service.ts:31-69 | BadRequest with no change for a non-UUID user; otherwise the order is saved with the given total and the status given or Pending, then either every item is saved (201) or, at a non-UUID product id, none is and the order stays without items |
| Orders.OrderService.UpdateOrder | src/orders/orders.service.ts:131-178 | BadRequest or NotFound with no change for a bad or unknown id; otherwise the given total and status are applied and the items replaced, except that a bad product id rejects the request after the old items are gone |
| Orders.OrderService.ChangeOrderStatus | src/orders/orders.service.ts:188-210 | the id is checked, then existence, then a status is required; the order takes the status from any prior status |
| Orders.OrderService.CancelOrder | src/orders/orders.service.ts:219-237 | BadRequest or NotFound for a bad or unknown id; otherwise the order becomes Cancelled |
| Reviews.FindAll | src/reviews/reviews.service.ts:50-66 | every review, newest first; NotFound exactly when there are none |
| Reviews.FindOne | src/reviews/reviews.service.ts:73-93 | BadRequest for a non-UUID id, NotFound naming the id for an unknown one, otherwise the row with that id |
| Reviews.FindByProduct | src/reviews/reviews.service.ts:165-188 | BadRequest for a non-UUID id; otherwise exactly the product's reviews, newest first, and NotFound exactly when there are none |
| Reviews.FindByUser | src/reviews/reviews.service.ts:195-218 | BadRequest for a non-UUID id; otherwise exactly the user's reviews, newest first, and NotFound exactly when there are none |
| Reviews.SecondReviewListedToo | src/reviews/reviews.service.ts:26-32 | two reviews of the same product by the same user are both kept and both listed |
| Reviews.UpdateTouchesOnlyRating | src/reviews/reviews.service.ts:116-120 | an update changes only that review's rating, and nothing without a rating |
| Reviews.RemovedNotFound | src/reviews/reviews.service.ts:143-148 | after removal the review is not found |
| Reviews.ReviewService.Create | src/reviews/reviews.service.ts:26-43 | BadRequest with no change unless both ids are UUIDs; otherwise exactly one row is appended, with no per-pair check |
| Reviews.ReviewService.Update | src/reviews/reviews.service.ts:102-130 | BadRequest or NotFound with no change for a bad or unknown id; otherwise the given rating replaces the old one |
| Reviews.ReviewService.Remove | src/reviews/reviews.service.ts:138-158 | BadRequest or NotFound with no change for a bad or unknown id; otherwise the row is physically deleted |
| Analytics.SumByConcat | src/analytics/analytics.service.ts:25 | a summing `reduce` over a concatenation is the sum of the parts |
| Analytics.SumByUpdate | src/analytics/analytics.service.ts:31 | replacing one value changes the sum by the difference |
| Analytics.SumOverFlatten | src/analytics/analytics.service.ts:25 | summing order totals row by row is summing them over all the orders |
| Analytics.BumpUnique | src/analytics/analytics.service.ts:28-31 | updating the accumulator keeps one entry per day |
| Analytics.BumpCount | src/analytics/analytics.service.ts:28-31 | the update adds the row's order count to its day and leaves the other days |
| Analytics.BumpKeys | src/analytics/analytics.service.ts:28-31 | the days after the update are the days before it and the row's day |
| Analytics.BumpTotal | src/analytics/analytics.service.ts:28-31 | the update adds the row's order count to the sum of the values |
| Analytics.HistogramUnique | src/analytics/analytics.service.ts:26-33 | `ordersByDate` has each day once |
| Analytics.HistogramKeys | src/analytics/analytics.service.ts:26-33 | its days are exactly the days of the rows' first orders |
| Analytics.HistogramCount | src/analytics/analytics.service.ts:26-33 | a day's value is the number of orders in the rows whose first order falls on it |
| Analytics.HistogramTotal | src/analytics/analytics.service.ts:26-33 | the values add up to the total number of orders |
| Analytics.AddToDay | src/analytics/analytics.service.ts:29-31 | the accumulator update adds `n` to the day's value (from 0 for a new day) and leaves every other day's, lists the day and adds no other, and keeps one entry per day |
| Analytics.OrdersByDate | src/analytics/analytics.service.ts:26-33 | the accumulating loop builds that histogram, and fails exactly when some row has no orders |
| Analytics.GetSales | src/analytics/analytics.service.ts:16-40 | NotFound exactly for no rows; a crash exactly when a row has no orders; otherwise the row count, the sum of all order totals and the histogram, whose values sum to the order count |
| Analytics.SortDescInPlace | src/analytics/analytics.service.ts:52 | the in-place sort leaves the array a permutation of itself with non-increasing keys |
| Analytics.PrefixIsTop | src/analytics/analytics.service.ts:52 | the first rows of a sorted list are sorted and drawn from it, and no row left out has a larger key than any row kept |
| Analytics.GetProduct | src/analytics/analytics.service.ts:42-59 | NotFound exactly for no rows; otherwise the row count, the sum of all item counts, and min(5, n) best sellers, sorted, drawn from the rows and outselling every row left out |
| Analytics.GetUser | src/analytics/analytics.service.ts:61-80 | NotFound exactly for no rows; otherwise the active rows (with orders) and the inactive ones (without) partition the rows, and the new users are the inactive ones |

## Left out

- Database access, HTTP routing, module wiring, authentication, password hashing and token signing are not part of this model. Concurrency and the atomicity of separate statements are also out.
- Branches that test a falsy result of `save`, `create`, `remove` or `delete` cannot be taken, because these calls always return an object. Examples are "Failed to create order" and "Failed to delete cart". They are not modelled, with two exceptions: `update(…)` is always truthy, so it reports success, and `result.affected` in the user service is modelled.
- The SQL `LIKE` search is plain substring containment. Wildcard characters inside the search string and case-insensitive collations are not modelled.
- Page and limit values that are negative, fractional or non-numeric strings from the query string are not modelled. A page is a natural number, with 0 meaning absent.
- Users.FindAll: a limit of 0 is modelled as an empty page, although TypeORM may treat `take: 0` as no limit.
- Orders.OrderService.CreateOrder: the foreign keys the schema gets from `synchronize: true` are not modelled; the model assumes the user and every product named exist. With an unknown but UUID-shaped user id the order save fails with status 500 and nothing is written; with such a product id the item save fails with status 500 after the order row is written. The model saves both.
- Orders.OrderService.UpdateOrder: likewise, an unknown but UUID-shaped product id makes the item save fail with status 500 after the old items are deleted; the model assumes every product named exists and saves the new rows.
- Users.UserService.Remove: likewise, the model assumes no cart, order or review still points to the user. Deleting a user that one still points to fails with status 500 and changes nothing, where the model removes the row.
- Relations loaded into responses are not modelled; responses carry the table rows themselves. The relations in question are category, product, user, cart and orderItems.
- The cart search joins each cart to its product row. A cart whose product row is missing never matches.
- Products.ProductService.Create and Categories.CategoryService.Create: the product's category (`categoryId`) is not stored. A category update carrying `products` is not modelled: the category patch holds only the name and the description. For both, and validator limits such as the 3 to 20 character names are not checked.
- Orders: src/orders/entities/order.entity.ts is not part of this model. The three statuses are those the services name. Saving an order is modelled as writing only its own columns, not any cascade to loaded items. If that save did write back the order's loaded `orderItems`, stale item rows could be restored or orphaned; Orders.ReplacedItems and Orders.CreatedItems rest on it not doing so.
- Orders.OrderService.UpdateOrder: the request's `userId` is ignored, as in the code. An update item without a quantity or price is not modelled.
- Orders.FindAllOrders and Orders.FindUserOrders: the second sort key, `updatedAt`, is not modelled. Orders with equal `createdAt` keep table order, which the database does not promise. Reviews.FindAll has the same simplification.
- Reviews.ReviewService.Create: the new row carries the request's user and product ids. A review entity has the relations `user` and `product` but no `userId` or `productId` property, so whether `create(dto)` keeps those ids is left to the ORM. Reviews.FindByProduct, Reviews.FindByUser and Reviews.SecondReviewListedToo rest on it keeping them.
- The analytics fetch and its `where` filters on related rows (Shipped orders, Active products, Customer users) are not modelled; the fetched rows are an input. Each order's `orderItems` count is taken as given, although `orderItems` is not among the loaded relations. The day key of `createdAt.toISOString()` is an abstract string.
- Analytics.GetSales: the crash on a row without orders is modelled as `ServerError`, although the fetch filter may never return such a row.
- Analytics.SortDescInPlace: like `Array.prototype.sort`, the sort keeps rows with equal keys in their input order, but its contract states only sortedness and permutation, not stability.
- Prices and totals are JavaScript numbers in the source. They are modelled as integers, for example cents, with no floating-point rounding.
