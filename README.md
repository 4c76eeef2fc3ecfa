# Seafood marketplace server core, modelled in Dafny

This project models the back end of the seafood marketplace admin system. It covers:

- the configuration (delivery-governance) controller: the paged list with whole-collection statistics and month-over-month counts, the governance and delivery breakdowns, and the rows of the spreadsheet export;
- the order, user and product route handlers;
- the product, order and configuration schemas: required fields, minimums, enumerations, defaults, the `toJSON` transform and the pre-save hook;
- the client's `getStatusCN` label lookup and its label tables.

Each MongoDB collection is a sequence of records in natural (insertion) order. The model spells out the query semantics the handlers rely on:

- `skip` and `limit`: a limit of 0 means no limit, a negative limit means its absolute value, and a negative skip is a server error.
- Sorting on one field: absent < numbers < strings, strings compared character by character. Sort is applied before skip and limit.
- A `$regex` with option `'i'` is a case-insensitive substring match.
- A `$group` with `_id: null` is a fold over the collection.
- An id that is not an ObjectId makes the driver throw a cast error, which each handler answers from its `catch` block.
- An id names the ObjectId its 24 hexadecimal digits denote, whatever their letter case. Ids are compared in their lower-case form (`Common.CanonicalId`), and a product reference is stored in that form.

The stores whose handlers change state (`ProductStore`, `OrderStore`, `UserStore`) are classes. Their create, update and delete methods change the stored sequence in place and state the whole new state. The list, lookup, statistics and export handlers are functions over a sequence.

Prices, revenue and rates are integers: prices in cents, rates in whole percent. Times are integer timestamps. The following values are parameters:

- the current time `now`;
- the "one month ago" cutoff;
- the id the driver generates for a new document;
- the password hash function;
- the validators of the User schema.

Files:

| file | module | models |
|---|---|---|
| common.dfy | Common | responses, ids, truthiness, case-insensitive match, `trim` |
| query.dfy | Query | filter, count, sum, lookup by id, skip/limit, one-field sort |
| enums.dfy | Enums | src/types/enums.ts |
| config_model.dfy | ConfigModel | server/src/models/config.ts |
| config_controller.dfy | ConfigController | server/src/controllers/configController.ts |
| json_doc.dfy | JsonDoc | the `toJSON` transform shared by Product.ts and Order.ts |
| product_model.dfy | ProductModel | server/src/models/Product.ts |
| order_model.dfy | OrderModel | server/src/models/Order.ts |
| products.dfy | Products | server/src/routes/products.ts |
| orders.dfy | Orders | server/src/routes/orders.ts |
| users.dfy | Users | server/src/routes/users.ts |

## Model

| member | source | states |
|---|---|---|
| ConfigController.Matching | server/src/controllers/configController.ts:10 | every kept record is stored; for a non-empty search a record is kept exactly when its name contains the term ignoring case; an empty search keeps every record in order |
| ConfigController.GovernanceTally | server/src/controllers/configController.ts:97-136 | normal + warning + error + others equals the number of records |
| ConfigController.GetGovernanceData | server/src/controllers/configController.ts:95-142 | the four buckets add up to the record count; an empty collection gives the all-zero object |
| ConfigController.GovernanceBucketsAreCounts | server/src/controllers/configController.ts:97-136 | each bucket is the count of records with that status, and `others` counts every status outside normal/warning/error |
| ConfigController.ValidRecordsHaveNoOthers | server/src/controllers/configController.ts:97-136 | on a collection that satisfies the schema enumerations, both `others` buckets are 0 |
| ConfigController.DeliveryTally | server/src/controllers/configController.ts:146-185 | delivered + delivering + undelivered + others equals the number of records (the bucket contents are `DeliveryBucketsAreCounts`) |
| ConfigController.GetDeliveryData | server/src/controllers/configController.ts:144-191 | the four buckets add up to the record count; an empty collection gives the all-zero object (the bucket contents are `DeliveryBucketsAreCounts`) |
| ConfigController.DeliveryBucketsAreCounts | server/src/controllers/configController.ts:146-185 | each bucket is the count of records with that delivery status, and `others` counts every status outside delivered/delivering/undelivered |
| ConfigController.SummaryOf | server/src/controllers/configController.ts:20-45 | totalConfigs is the record count and each status count is at most that |
| ConfigController.MonthlyChangeOf | server/src/controllers/configController.ts:47-80 | each monthly count is at most the record count (what each counts is `MonthlyChangeCounts`) |
| ConfigController.GetConfigList | server/src/controllers/configController.ts:5-93 | 500 with the handler's message exactly when the skip is negative, otherwise 200; the statistics and monthlyChange are absent exactly on an empty collection, and totalConfigs is the record count |
| ConfigController.GetConfigListPage | server/src/controllers/configController.ts:5-18 | the page is the skip/limit window at (page−1)·pageSize over the matches, at most pageSize long; total counts every match |
| ConfigController.GetConfigListMembers | server/src/controllers/configController.ts:10-16 | every listed record is stored and, for a non-empty search, its name contains the term ignoring case |
| ConfigController.StatisticsIgnoreSearch | server/src/controllers/configController.ts:20-89 | the statistics are the same whatever the search; they are absent on an empty collection |
| ConfigController.SummaryAgreesWithGovernance | server/src/controllers/configController.ts:20-45 | the list's normal/warning/error counts equal the governance buckets, total minus them is `others`, and deliveryCount is the sum of totalDelivery |
| ConfigController.MonthlyChangeCounts | server/src/controllers/configController.ts:47-80 | configs counts records created at or after the cutoff, delivery those whose last delivery is at or after it, upgrade those with status 'upgraded' |
| ConfigController.MonthlyChangeMonotone | server/src/controllers/configController.ts:47-80 | a later cutoff never counts more records, and does not change upgrade |
| ConfigController.StatusLabel | server/src/controllers/configController.ts:203 | 正常 exactly for 'normal', 预警 exactly for 'warning', 异常 for everything else |
| ConfigController.DeliveryStatusLabel | server/src/controllers/configController.ts:204-205 | 已送达 exactly for 'delivered', 送达中 exactly for 'delivering', 未送达 for everything else |
| ConfigController.UpgradeStatusLabel | server/src/controllers/configController.ts:206 | 已升级 exactly for 'upgraded', otherwise 未升级 |
| ConfigController.LastDeliveryCell | server/src/controllers/configController.ts:210 | the time when present, otherwise the text 无 |
| ConfigController.RowOf | server/src/controllers/configController.ts:201-212 | a row carries its record's name, totalDelivery, rates and times; it shows 正常, 已送达 and 已升级 exactly for normal, delivered and upgraded records, and 无 exactly when there is no last delivery |
| ConfigController.ExportConfigData | server/src/controllers/configController.ts:193-213 | there are as many rows as records passing the name search; with an empty search, row i is the row of record i |
| ConfigController.ExportRowsFollowRecords | server/src/controllers/configController.ts:193-213 | one row per matching record, unpaged and in fetch order, row i being the row of the i-th match, as many as the list's total; an empty search exports every record |
| ConfigController.UpgradedRowsMatchMonthlyUpgrade | server/src/controllers/configController.ts:206 | the 已升级 rows of an unfiltered export number exactly monthlyChange.upgrade |
| ConfigModel.NewConfig | server/src/models/config.ts:4-39 | a record is created exactly when the name is non-empty and every supplied status is in its enumeration; the result satisfies the schema |
| ConfigModel.NameOnlyGetsDefaults | server/src/models/config.ts:9-39 | a record given only a name is normal, undelivered and not_upgraded, has zero counts and rates, and a null lastDeliveryTime |
| ConfigModel.SuppliedFieldsKept | server/src/models/config.ts:9-39 | every supplied field is stored as given: status, deliveryStatus, upgradeDeliveryStatus, totalDelivery, deliveryRate, upgradeRate, lastDeliveryTime, createdAt and updatedAt |
| ConfigModel.InsertConfig | server/src/models/config.ts:4-8 | an insert is refused exactly when the name is already taken |
| ConfigModel.InsertKeepsNamesUnique | server/src/models/config.ts:4-8 | the unique index keeps names unique |
| Enums.GetStatusCN | src/types/enums.ts:62-73 | a key name of the chosen table becomes its label, and any other string comes back unchanged |
| Enums.OrderKeyNamesTranslate | src/types/enums.ts:8-13 | 'PENDING', 'PROCESSING', 'COMPLETED' and 'CANCELLED' become 待处理, 处理中, 已完成 and 已取消 |
| Enums.StoredOrderStatusesUntranslated | src/types/enums.ts:1-6 | the lower-case status values the server stores are returned untranslated |
| Enums.GetStatusCNIdempotent | src/types/enums.ts:62-73 | translating a label again leaves it unchanged |
| Enums.GetStatusCNChangesOnlyKeys | src/types/enums.ts:64-69 | a string is changed exactly when it is a key name of the chosen table |
| Enums.TablesInjective | src/types/enums.ts:8-37 | different key names of one table have different labels |
| Enums.CategoryCN | src/types/enums.ts:45-49 | a label exists exactly for Fish, Shellfish and Other |
| Enums.CategoryLabels | src/types/enums.ts:45-49 | Fish, Shellfish and Other become 鱼类, 贝类 and 其他 |
| JsonDoc.JsonObject.RenameId | server/src/models/Product.ts:46-53 | `id` takes the value of `_id`, `_id` and `__v` are removed, and every other field is kept |
| ProductModel.NewProduct | server/src/models/Product.ts:15-60 | a product is created exactly when name (after trimming), description, a price ≥ 0 and a listed category are given and any stock is ≥ 0; the name is stored trimmed, stock defaults to 0, and createdAt and updatedAt are now |
| ProductModel.ApplyUpdate | server/src/routes/products.ts:67-71 | each supplied field replaces the stored one (the name trimmed), every other field is kept, id and createdAt are kept and updatedAt becomes now |
| ProductModel.UpdateValidIffAccepted | server/src/models/Product.ts:15-43 | an update of a valid product gives a valid product exactly when the supplied fields pass their validators |
| ProductModel.EmptyUpdateOnlyTouches | server/src/routes/products.ts:67-71 | an empty update changes only updatedAt |
| ProductModel.PreSave | server/src/models/Product.ts:57-60 | saving sets updatedAt to the current time and changes nothing else |
| ProductModel.ToJson | server/src/models/Product.ts:46-53 | the JSON form is exactly the product's fields under their own names with `id` for the document id: no `_id` or `__v`, and its keys are the document's keys without `_id` and `__v`, plus `id` |
| ProductModel.RenamedDocumentIsFields | server/src/models/Product.ts:46-53 | renaming the stored document gives the product's fields with `id` in place of `_id` |
| OrderModel.NewOrder | server/src/models/Order.ts:13-32 | an order is created exactly when the product reference is an ObjectId, quantity ≥ 1, totalPrice ≥ 0 and the status is listed; an absent status is 'pending' |
| OrderModel.StatusDefaultsToPending | server/src/models/Order.ts:28-32 | an order created without a status is pending |
| OrderModel.ToJson | server/src/models/Order.ts:35-42 | the JSON form holds exactly `id` (the document id), product, quantity, totalPrice, status, createdAt and updatedAt, each with its stored value, and no `_id` or `__v` |
| Products.ListProducts | server/src/routes/products.ts:7-38 | a stored product passes the filter and is sorted newest first; the page is at most pageSize long; total counts every match; page and pageSize are echoed; a negative skip is 500 |
| Products.ListProductsWindow | server/src/routes/products.ts:10-27 | the page is the skip/limit window at (page−1)·pageSize over the matches sorted newest first, and total is the number of matches |
| Products.ListedPageIsWindow | server/src/routes/products.ts:10-25 | for pageSize > 0, page k is answered 200 and is the window starting at (k−1)·pageSize of the matches sorted newest first |
| Products.ListPagesWalkTheMatches | server/src/routes/products.ts:10-25 | the pages 1…m returned by the list handler, one after another, are exactly the first m·pageSize matches newest first (all of them once m·pageSize passes the end) |
| Products.GetProduct | server/src/routes/products.ts:41-51 | 500 for an id that is not an ObjectId; 404 exactly when no stored product has an id denoting the same ObjectId (letter case ignored); otherwise a stored product with that id |
| Products.GetProductIgnoresCase | server/src/routes/products.ts:43 | two id texts differing only in letter case get the same answer |
| Products.SearchProducts | server/src/routes/products.ts:101-114 | at most 10 products, each stored and matching the term in name or description |
| Products.SearchIsFirstMatches | server/src/routes/products.ts:104-109 | the search result is exactly the first min(10, matches) matches in natural order |
| Products.EmptySearchIsFirstTen | server/src/routes/products.ts:104-109 | an empty term matches everything, so the result is the first ten products |
| Products.ProductStore.Create | server/src/routes/products.ts:54-62 | a valid product is appended and returned with 201; otherwise 400 and nothing is stored; ids stay unique and every stored product valid |
| Products.ProductStore.Update | server/src/routes/products.ts:65-79 | 400 for an id that is not an ObjectId or a refused field, 404 when no stored product has that id (letter case ignored), otherwise that one product is replaced by the update and returned |
| Products.ProductStore.Delete | server/src/routes/products.ts:82-98 | 400 for an empty id, 500 for an id that is not an ObjectId, 404 when no stored product has that id (letter case ignored), otherwise exactly that product is removed |
| Products.CreatedIsFound | server/src/routes/products.ts:41-62 | a created product is then found by its id |
| Products.DeletedIsGone | server/src/routes/products.ts:41-98 | a deleted product is then 404 |
| Products.UpdatedIsFound | server/src/routes/products.ts:41-79 | after an update a lookup returns the updated product |
| Orders.StatsTally | server/src/routes/orders.ts:11-25 | totalOrders is the record count and completedOrders is at most that |
| Orders.OrderStatistics | server/src/routes/orders.ts:9-41 | an empty collection gives all zeros; totalOrders is the count and completedOrders ≤ totalOrders |
| Orders.StatisticsCounts | server/src/routes/orders.ts:15-23 | completedOrders is the count of 'completed' orders and totalRevenue the sum of totalPrice |
| Orders.RevenueNonNegative | server/src/routes/orders.ts:21-23 | over orders that passed the schema, revenue is not negative |
| Orders.StatisticsAfterCreate | server/src/routes/orders.ts:11-36 | one more order adds one to the count, its price to the revenue, and one to completedOrders exactly when it is completed |
| Orders.EmptyOrderFilterKeepsAll | server/src/routes/orders.ts:55-68 | with no search and no status the query keeps every order |
| Orders.OrderFilterFindsOwnStatus | server/src/routes/orders.ts:58-68 | an order passes a search and a status filter that are its own status |
| Orders.ListOrders | server/src/routes/orders.ts:44-95 | total counts every match, the page is at most pageSize long, page and pageSize are echoed, a negative skip is 500 |
| Orders.ListOrdersMembers | server/src/routes/orders.ts:55-68 | every listed order is stored and passes the search, and with a status filter has exactly that status |
| Orders.ListOrdersWindow | server/src/routes/orders.ts:74-83 | the page is the skip/limit window at (page−1)·pageSize over the sorted matches, and total is the number of matches |
| Orders.ListOrdersSorted | server/src/routes/orders.ts:71-78 | the page is sorted on sortField, descending exactly when sortOrder is 'desc' |
| Orders.GetOrder | server/src/routes/orders.ts:127-145 | 400 for an id that is not an ObjectId before any lookup, 404 exactly when no order has an id denoting the same ObjectId (letter case ignored), otherwise that stored order |
| Orders.GetOrderIgnoresCase | server/src/routes/orders.ts:135-138 | two id texts differing only in letter case get the same answer |
| Orders.ApplyPatch | server/src/routes/orders.ts:150-154 | each supplied field replaces the stored one (the product reference in its lower-case form), updatedAt becomes now, and id and createdAt are kept |
| Orders.PatchKeepsTotalPrice | server/src/routes/orders.ts:150-154 | changing only the quantity keeps totalPrice, which then differs from unit price × new quantity |
| Orders.PatchSkipsValidators | server/src/routes/orders.ts:150-154 | the patch stores a status outside the enumeration, or a zero quantity |
| Orders.EmptyPatchOnlyTouches | server/src/routes/orders.ts:150-154 | an empty patch changes only updatedAt |
| Orders.OrderStore.Create | server/src/routes/orders.ts:98-124 | 404 without a productId or when no product has that id (letter case ignored); 400 for a productId that is not an ObjectId or a refused order; otherwise the order referencing the product, priced price × quantity, with `status || 'pending'`, is appended and returned with 201 |
| Orders.OrderStore.Patch | server/src/routes/orders.ts:148-165 | 400 for an id or product reference that is not an ObjectId, 404 when no order has that id (letter case ignored), otherwise that one order is replaced by the patched one |
| Orders.OrderStore.Delete | server/src/routes/orders.ts:168-181 | 400 for an id that is not an ObjectId, 404 when no order has that id (letter case ignored), otherwise exactly that order is removed and the answer is 204 |
| Orders.CreatedOrderPriced | server/src/routes/orders.ts:108-115 | a valid product and quantity ≥ 1 give an order priced price × quantity, with the given status or 'pending' |
| Orders.CreateRefusesBadOrders | server/src/routes/orders.ts:110-123 | a missing or sub-one quantity, or an unlisted status, is refused |
| Orders.DeletedOrderIsGone | server/src/routes/orders.ts:127-181 | a deleted order is then 404 |
| Orders.PatchedOrderIsFound | server/src/routes/orders.ts:127-165 | after a patch a lookup returns the patched order |
| Users.Public | server/src/routes/users.ts:46 | the public form keeps id, name, email and role and has no password |
| Users.EmptyUserFilterKeepsAll | server/src/routes/users.ts:20-33 | with no search and no role the query keeps every user |
| Users.UserFilterFindsOwnEmail | server/src/routes/users.ts:20-33 | a user with an email passes a search for that email together with a filter on its own role |
| Users.ListUsers | server/src/routes/users.ts:8-60 | total counts every match, the page is at most pageSize long, page and pageSize are echoed, a negative skip is 500 |
| Users.ListUsersMembers | server/src/routes/users.ts:20-48 | every listed user is the password-free form of a stored user passing the search and role filter, and with a role filter has exactly that role |
| Users.ListUsersWindow | server/src/routes/users.ts:39-47 | the page is the password-free form of the skip/limit window at (page−1)·pageSize over the sorted matches, and total is the number of matches |
| Users.ListUsersSorted | server/src/routes/users.ts:36-46 | the page is sorted on sortField (default createdAt), descending exactly when sortOrder is 'desc' (the default) |
| Users.GetUser | server/src/routes/users.ts:93-111 | 400 for an id that is not an ObjectId, 404 exactly when no user has an id denoting the same ObjectId (letter case ignored), otherwise that user without the password |
| Users.GetUserIgnoresCase | server/src/routes/users.ts:101-104 | two id texts differing only in letter case get the same answer |
| Users.RoleOrDefault | server/src/routes/users.ts:81 | the given role when non-empty, otherwise 'user' |
| Users.EmailTakenIffFilterNonEmpty | server/src/routes/users.ts:68-71 | the duplicate check fires exactly when `find` with the `{ email }` filter returns some user, so that `findOne` finds one |
| Users.CreateKeepsEmailsUnique | server/src/routes/users.ts:68-71 | a user that passes the duplicate check keeps present emails unique |
| Users.BuildUpdateData | server/src/routes/users.ts:123-132 | the update has a name, email or role exactly when a non-empty one was given, and then the given one; it has a password exactly when a non-empty one was given, and then its hash |
| Users.ApplyUpdate | server/src/routes/users.ts:134-138 | each field of the update replaces the stored one and every other field is kept |
| Users.PatchWithoutPasswordKeepsHash | server/src/routes/users.ts:129-132 | a patch without a password keeps the stored hash |
| Users.EmptyUpdateChangesNothing | server/src/routes/users.ts:123-138 | an update with no fields leaves the user unchanged |
| Users.PatchCanDuplicateEmail | server/src/routes/users.ts:114-149 | the patch has no duplicate-email check: it can give two users the same email |
| Users.UserStore.Create | server/src/routes/users.ts:63-90 | 400 when the email is taken or no password is given; otherwise the user with the hashed password and `role || 'user'` is appended and returned without the password, 201; nothing is stored on any failure |
| Users.UserStore.Patch | server/src/routes/users.ts:114-149 | 400 for an id that is not an ObjectId, 404 when no user has that id (letter case ignored), otherwise only the non-empty fields change (the password hashed), the id is kept, and the user is returned without the password |
| Users.UserStore.Delete | server/src/routes/users.ts:152-171 | 400 for an id that is not an ObjectId, 404 when no user has that id (letter case ignored), otherwise exactly that user is removed and the answer is 204 |
| Users.CreatedUserIsFound | server/src/routes/users.ts:63-111 | a created user is then found by id, without the password |
| Users.DeletedUserIsGone | server/src/routes/users.ts:93-171 | a deleted user is then 404 |
| Query.Paginate | server/src/controllers/configController.ts:13-15 | the result is the slice after the skip; a non-zero limit keeps min(|limit|, remaining) documents; limit 0 keeps all |
| Query.PageIsSlice | server/src/controllers/configController.ts:13-15 | a page is the slice starting at the skip, no longer than a positive limit, and empty once the skip reaches the end |
| Query.PagesArePrefix | server/src/controllers/configController.ts:8 | the first m pages are the first m·pageSize documents |
| Query.AllPagesCoverAll | server/src/controllers/configController.ts:8 | the pages 1…⌈n/pageSize⌉ together are the whole result |
| Query.ConcatOfWindows | server/src/controllers/configController.ts:8-15 | pages 1…m, each the window at (k−1)·n, one after another are the paginated walk |
| Query.WalkWindows | server/src/controllers/configController.ts:8-15 | pages 1…m, each the window at (k−1)·n, one after another are the first m·n documents |
| Query.SortBy | server/src/routes/orders.ts:71-78 | the result is a permutation of the input, sorted on the key in the chosen direction |
| Query.SortDirection | server/src/routes/orders.ts:72 | −1 exactly when sortOrder is 'desc' (the default), otherwise 1 |
| Query.SortedPage | server/src/routes/users.ts:41-46 | a page of the sorted matches holds only stored documents that pass the filter, in sorted order |
| Common.Trim | server/src/models/Product.ts:15-19 | the result has no whitespace at either end and is no longer than the input |
| Common.TrimIdempotent | server/src/models/Product.ts:15-19 | trimming a trimmed string changes nothing |
| Common.TrimEmptyIffBlank | server/src/models/Product.ts:15-19 | a string trims to empty exactly when it is all whitespace, which `required` then refuses |
| Common.ContainsIffOccurs | server/src/routes/products.ts:15-16 | the substring test holds exactly when the term occurs at some position |
| Common.CanonicalIdKeepsObjectId | server/src/routes/products.ts:43 | an id is an ObjectId exactly when its lower-case form is |

## Left out

- Floating point: prices, revenue and rates are integers. The two averages of the list statistics (`avgDeliveryRate`, `avgUpgradeRate`), the `$round` of revenue and the `Math.round` of the export's rate cells are not modelled.
- Dates: `toLocaleString` formatting and the `setMonth` arithmetic that computes the cutoff are not modelled. The cutoff is a parameter and times are integers.
- The spreadsheet: building the workbook, column widths, the file name and the `Content-Disposition` header are not modelled. The export is the list of rows.
- Regular expressions: a search term is matched as literal text. Metacharacters and case folding beyond ASCII letters are not modelled.
- Query parameters that are not numbers (`Number('abc')` is NaN) are not modelled. Page and page size are integers.
- Database failures and the error objects sent with a 500 or 400 body are not modelled. A response is its status and its message.
- Sort-spec errors from the database are not modelled, for example an empty `sortField`. The sort key of a field records do not have is treated as absent in every record. This includes `__v`: the version key is not part of a stored order or user here, so sorting on `__v` leaves the matches in natural order, while the database would order them by version.
- Sorting on an id compares the hexadecimal text, which agrees with the byte order for lower-case ids.
- Order among equal sort keys: the model keeps records with equal keys in natural order, a stable sort. This is a choice of the model: MongoDB promises no order among ties, so over equal keys its pages can repeat or skip a record. The window lemmas (`Products.ListProductsWindow`, `Products.ListPagesWalkTheMatches`, `Orders.ListOrdersWindow`, `Users.ListUsersWindow`) hold for this chosen order.
- `Promise.all`: the page and the count are computed sequentially over one snapshot.
- `populate`, `lean` and `select`: orders are returned with the bare product id. The password is left out by the type of `PublicUser`.
- Express route order: products.ts declares `/:id` before `/search`, so Express never reaches the search handler. Each handler is modelled as its own operation.
- The `'product.name'` clause of the order search is never true, because the reference is not populated. The order search therefore matches on status alone.
- `mongoose.Types.ObjectId.isValid` also accepts any 12-character string. Only 24-digit hexadecimal ids are treated as valid.
- The `/search` handler's `q` is taken as a string. An absent `q` is not modelled.
- Request bodies are typed: a field is present with the schema's type, or absent. Casting strings to numbers and fields outside the schema are not modelled.
- server/src/models/User.ts is not part of this model. The user record holds the fields the routes read and write, plus a creation time for the default sort. Its validators are the `validate` parameter of `Users.UserStore.Create`. Its timestamps and a unique index on email, if any, are not modelled.
- bcrypt: the salted hash is the `hash` parameter, so the same password always gives the same hash.
- `getStatusCN` with a string that names a property of `Object.prototype` is not modelled.
- Seed scripts, the React client other than src/types/enums.ts, connection setup and CORS are not modelled.
- Users.EmailTaken: a request without an email is read as `findOne({})`, the absent key dropping out of the filter, so the check fires whenever any user is stored. This reading is a modelling choice the model does not verify. If the driver instead sends the absent value as `null`, the filter `{ email: null }` matches only users without an email, and a request without an email then goes on to hashing and saving even when every stored user has an email. Under either reading an absent email with an empty user store passes the check, and the user is stored if `validate` accepts it; whether the User schema requires an email cannot be stated, because User.ts is not part of this model.
