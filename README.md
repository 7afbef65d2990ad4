# sky-take-out back end: a Dafny model of its business rules

The system is a food-ordering back end. Customers fill a shopping cart,
place orders, pay, cancel and re-order. Merchants maintain dishes (with
flavors), set-meals (bundles of dishes) and staff accounts. They also
confirm orders and read reports. Two scheduled jobs sweep stale orders.
Customers list dishes through a key-value cache. An aspect stamps audit
fields on catalog and staff rows before a mapper writes them.

The model keeps the source's structure:

- `Store.Database` is a class with one `seq` field per table and the
  auto-increment counters.
- Each mapper statement is a pure function over those sequences. A
  `WHERE` clause is `Store.Filter`. Three single-row selects count their
  matches: order `getByNumber`, employee `getByUsername` and employee
  `getById`. For those, no match is a null and several are a
  `TooManyResults` error. Every other lookup by primary key (dish,
  set-meal, address book, order by id) takes the first row with the key
  (`Store.FindFirst`), because a primary key rules out a second one; a
  missing row is a null.
- Each service operation that writes the store is a method with a field
  frame (``modifies db`orders``). Its `ensures` gives the new state in
  terms of those functions.
- Every Java loop is a Dafny loop with its invariants: building order
  lines, the sweeps, tying flavors and links, the check loops and delete
  loops, the cascade, the date walk and the count lists.
- The dish cache is a class holding a `map`.
- Pure rules are functions with lemmas about them: login, the
  cancellation guard, the dashboard counts, the dish summary string, the
  audit fill and the report columns.
- Outside values are parameters: the clock (`now`, nanoseconds), the
  millisecond clock behind order numbers, the caller's id and the MD5
  digest (`md5: string -> string`).
- Exceptions become `Err`/`Fail` values. A `@Transactional` method that
  throws is modelled as leaving the store unchanged.

Modules:

| module | contents |
|---|---|
| `Common` | shared types and helpers |
| `AutoFill` | the audit-field fill |
| `Entities` | the table rows |
| `Store` | the tables and mapper statements |
| `OrderService` | submit, pay, cancel, re-order, confirm, statistics, dish summary |
| `OrderTask` | the two sweeps |
| `ShoppingCartService` | add, show, clean, subtract |
| `DishService` | dishes and their flavors |
| `SetmealService` | set-meals and their dish links |
| `DishCache` | the cached customer listing |
| `EmployeeService` | staff accounts |
| `ReportService` | the reports |

Where the specification of the system and the code disagree, the model
follows the code:

- The order amount is copied from the request. It is not recomputed from
  the line items.
- `paySuccess` and `confirmOrder` check no status: any order with the
  number or key is written. `OrderService.PaidFromAnyStatus` states this.
- A customer cancellation records the reason `用户取消`.
- Nothing ever invalidates the dish cache. `DishCache.CachedListGoesStale`
  states the consequence.
- Taking a portion out of the cart selects the row by key, not by owner.
  This is the finding below.
- The service has no reject, dispatch, complete or remind operation, so
  the model has none.

## Model

| member | source | states |
|---|---|---|
| AutoFill.FillEntity | sky-server/src/main/java/com/sky/aspect/AutoFillAspect.java:61-111 | All required setters are looked up before any is invoked. If one is missing, no field is written: the error is raised for INSERT and swallowed for UPDATE. The entity's class is unchanged. |
| AutoFill.Stamp | sky-server/src/main/java/com/sky/aspect/AutoFillAspect.java:80-107 | Once the setters are found, both update fields become now and the caller. INSERT sets both create fields the same way, and UPDATE keeps them. |
| AutoFill.Autofill | sky-server/src/main/java/com/sky/aspect/AutoFillAspect.java:53-61 | With no arguments the advice does nothing. Otherwise only the first argument is filled and the rest are untouched. UPDATE never fails. |
| AutoFill.InsertFillsFour | sky-server/src/main/java/com/sky/aspect/AutoFillAspect.java:68-98 | INSERT succeeds exactly when all four setters exist. It then sets createTime = updateTime = now and createUser = updateUser = the caller. |
| AutoFill.UpdateFillsTwo | sky-server/src/main/java/com/sky/aspect/AutoFillAspect.java:100-111 | UPDATE sets updateTime/updateUser and keeps both create fields. A class without the two setters is left as it was. |
| AutoFill.AutofillIdempotent | sky-server/src/main/java/com/sky/aspect/AutoFillAspect.java:64-111 | Filling twice with the same clock and caller equals filling once. |
| AutoFill.EntityFill | sky-server/src/main/java/com/sky/aspect/AutoFillAspect.java:68-108 | For an entity declaring all four setters, the fill for either operation is exactly the audit stamp. |
| OrderService.PlacedOrder | sky-server/src/main/java/com/sky/service/impl/OrderServiceImpl.java:95-106 | A new order is consistent, awaiting payment and unpaid. |
| OrderService.DetailsFromCart | sky-server/src/main/java/com/sky/service/impl/OrderServiceImpl.java:113-120 | One line item per cart row, in cart order, each copied from its row and tied to the order. |
| OrderService.SubmitOrder | sky-server/src/main/java/com/sky/service/impl/OrderServiceImpl.java:64-136 | A missing address book fails first, then an empty cart; both leave the store unchanged. Otherwise the order is appended under the next key, its line items are the caller's cart rows, and the caller's cart is deleted. The result carries the key, number, amount and time. Order and cart integrity is kept. |
| OrderService.SubmittedDetailsReadBack | sky-server/src/main/java/com/sky/service/impl/OrderServiceImpl.java:113-122 | The line items read back for the new order are exactly those the submission wrote. |
| OrderService.SubmitClearsOnlyCallersCart | sky-server/src/main/java/com/sky/service/impl/OrderServiceImpl.java:82-126 | After submission the caller's cart is empty. Every other user's cart is as it was. |
| OrderService.PaySuccess | sky-server/src/main/java/com/sky/service/impl/OrderServiceImpl.java:176-189 | An unknown number is a null dereference and a duplicated number is a single-row error; neither writes. Otherwise the order becomes to-be-confirmed and paid, with checkout time now. |
| OrderService.PaidFromAnyStatus | sky-server/src/main/java/com/sky/service/impl/OrderServiceImpl.java:179-189 | The payment write applies whatever the order's status was, even cancelled or completed. It keeps the order's key, number, amount and owner. |
| OrderService.UserCancelCheck | sky-server/src/main/java/com/sky/service/impl/OrderServiceImpl.java:291-301 | A missing order is `OrderNotFound`. Otherwise cancellation passes iff the status is at most to-be-confirmed, and fails with `OrderStatusError` otherwise. |
| OrderService.UserCancelById | sky-server/src/main/java/com/sky/service/impl/OrderServiceImpl.java:280-321 | The guard decides; a failure writes nothing. A pass writes cancelled, the fixed reason and now, plus a refund when the order was to-be-confirmed. Order integrity is kept. |
| OrderService.UserCancelEffect | sky-server/src/main/java/com/sky/service/impl/OrderServiceImpl.java:299-319 | Cancellation passes exactly for pending-payment and to-be-confirmed orders. Afterwards the order is cancelled with reason and time. Pay status becomes REFUND iff it was to-be-confirmed, and is otherwise kept. |
| OrderService.CartRowsFromDetails | sky-server/src/main/java/com/sky/service/impl/OrderServiceImpl.java:385-398 | One cart row per line item, in order, owned by the caller and stamped now. |
| OrderService.Repetition | sky-server/src/main/java/com/sky/service/impl/OrderServiceImpl.java:379-400 | The order's line items are appended to the cart as new rows under fresh keys, and the key counter advances by their number. Cart integrity is kept. |
| OrderService.RepetitionAddsToCallersCart | sky-server/src/main/java/com/sky/service/impl/OrderServiceImpl.java:388-400 | Re-ordering grows the caller's cart by one row per line item, leaves every other user's cart alone, and merges no rows. |
| OrderService.ConfirmOrder | sky-server/src/main/java/com/sky/service/impl/OrderServiceImpl.java:516-523 | The order's status becomes confirmed, whatever it was. Nothing else is written. |
| OrderService.Statistics | sky-server/src/main/java/com/sky/service/impl/OrderServiceImpl.java:495-510 | Each dashboard count is the number of orders in that status. The three counts together never exceed the number of orders. |
| OrderService.CountsBounded | sky-server/src/main/java/com/sky/service/impl/OrderServiceImpl.java:498-500 | The counts of three distinct statuses add up to at most the number of orders. |
| OrderService.SubmitLeavesStatisticsAlone | sky-server/src/main/java/com/sky/service/impl/OrderServiceImpl.java:495-510 | Placing an order, which starts awaiting payment, changes no dashboard count. |
| OrderService.DishEntry | sky-server/src/main/java/com/sky/service/impl/OrderServiceImpl.java:481-484 | One line item's entry: its name, then `*`, then text that parses back to its number of portions, then `;`. |
| OrderService.JoinEntries | sky-server/src/main/java/com/sky/service/impl/OrderServiceImpl.java:481-487 | The entries joined with nothing between them: empty exactly when there are no line items, and otherwise ending in `;`. |
| OrderService.OrderDishesStr | sky-server/src/main/java/com/sky/service/impl/OrderServiceImpl.java:476-488 | The summary of an order's line items is empty exactly when the order has none. When no name holds `*` or `;`, it parses back to those line items' names and portions, in order. |
| OrderService.DishesStrRoundTrip | sky-server/src/main/java/com/sky/service/impl/OrderServiceImpl.java:476-488 | When no dish name contains `*` or `;`, the summary `name*number;…` parses back to exactly the line items' (name, number) pairs, in order. |
| OrderService.JoinEntriesConcat | sky-server/src/main/java/com/sky/service/impl/OrderServiceImpl.java:481-487 | The summary of two item lists is the concatenation of their summaries. |
| OrderTask.TimeoutSwept | sky-server/src/main/java/com/sky/task/OrderTask.java:42-53 | Every order awaiting payment placed more than 15 minutes before now is cancelled, at now, with the timeout reason. Every other order is unchanged. |
| OrderTask.DeliverySwept | sky-server/src/main/java/com/sky/task/OrderTask.java:61-69 | Every order in delivery placed more than 60 minutes before now is completed. Every other order is unchanged. |
| OrderTask.ProcessTimeoutOrder | sky-server/src/main/java/com/sky/task/OrderTask.java:28-55 | The per-candidate loop leaves exactly the swept table and keeps order integrity. |
| OrderTask.ProcessDeliveryOrder | sky-server/src/main/java/com/sky/task/OrderTask.java:57-70 | The per-candidate loop leaves exactly the swept table and keeps order integrity. |
| OrderTask.TimeoutSweepIdempotent | sky-server/src/main/java/com/sky/task/OrderTask.java:42-53 | Running the payment sweep twice at the same instant equals running it once. |
| OrderTask.DeliverySweepIdempotent | sky-server/src/main/java/com/sky/task/OrderTask.java:61-69 | Running the delivery sweep twice at the same instant equals running it once. |
| OrderTask.TimeoutSweepClearsOverdue | sky-server/src/main/java/com/sky/task/OrderTask.java:42-53 | After the sweep no order awaiting payment is overdue. An order placed at or after the cutoff is untouched. |
| OrderTask.DeliverySweepClearsOverdue | sky-server/src/main/java/com/sky/task/OrderTask.java:61-69 | After the sweep no order in delivery is overdue. An order placed at or after the cutoff is untouched. |
| OrderTask.TimeoutSweepKeepsPayment | sky-server/src/main/java/com/sky/task/OrderTask.java:47-51 | A timed-out order keeps its pay status, so a consistent order stays consistent. |
| OrderTask.TimeoutSweepCounts | sky-server/src/main/java/com/sky/task/OrderTask.java:42-53 | The cancelled count grows by exactly the number of overdue orders, and the awaiting-payment count shrinks by it. |
| OrderTask.DeliverySweepCounts | sky-server/src/main/java/com/sky/task/OrderTask.java:61-69 | The completed count grows by exactly the number of overdue deliveries, and the in-delivery count shrinks by it. |
| OrderTask.SweepWithoutCandidates | sky-server/src/main/java/com/sky/task/OrderTask.java:43-53 | With no candidates, either sweep leaves the table as it is. |
| ShoppingCartService.LookupItem | sky-server/src/main/java/com/sky/service/impl/ShoppingCartServiceImpl.java:63-79 | With a dish id the dish is looked up, otherwise the set-meal. Name, image and price come from the row found. A missing row is a null dereference. |
| ShoppingCartService.Add | sky-server/src/main/java/com/sky/service/impl/ShoppingCartServiceImpl.java:39-87 | If the caller has a row for the item, its first such row gains one portion. Otherwise a one-portion row is inserted from the looked-up item, unless the lookup fails, which writes nothing. Cart integrity is kept. |
| ShoppingCartService.AddIncrementsOneRow | sky-server/src/main/java/com/sky/service/impl/ShoppingCartServiceImpl.java:52-58 | Re-adding an item raises only that row's portions by one. The cart keeps its size and every other row. |
| ShoppingCartService.ShowShoppingCart | sky-server/src/main/java/com/sky/service/impl/ShoppingCartServiceImpl.java:94-99 | It returns exactly the caller's rows, in table order. |
| ShoppingCartService.CleanShoppingCart | sky-server/src/main/java/com/sky/service/impl/ShoppingCartServiceImpl.java:104-109 | Deletes the caller's rows and keeps cart integrity. |
| ShoppingCartService.CleanRemovesExactlyCallersRows | sky-server/src/main/java/com/sky/service/impl/ShoppingCartServiceImpl.java:104-109 | Exactly the other users' rows remain, and the caller's cart is empty. |
| ShoppingCartService.TakeOnePortion | sky-server/src/main/java/com/sky/service/impl/ShoppingCartServiceImpl.java:131-141 | The first selected row loses a portion, or is deleted when it held one. Cart integrity is kept. |
| ShoppingCartService.SubShoppingCart | sky-server/src/main/java/com/sky/service/impl/ShoppingCartServiceImpl.java:115-143 | As written: the probe puts the caller's id in the row-key field. |
| ShoppingCartService.IntendedSubShoppingCart | sky-server/src/main/java/com/sky/service/impl/ShoppingCartServiceImpl.java:115-143 | As intended: the probe names the caller as owner. |
| ShoppingCartService.SubAsWrittenSelectsByKey | sky-server/src/main/java/com/sky/service/impl/ShoppingCartServiceImpl.java:119-122 | As written, only the row whose key equals the caller's id can be selected, whoever owns it. |
| ShoppingCartService.SubAsWrittenHitsAnotherCustomer | sky-server/src/main/java/com/sky/service/impl/ShoppingCartServiceImpl.java:119-139 | A concrete cart where customer 7's request deletes customer 9's row and leaves customer 7's own row alone. |
| ShoppingCartService.SubIntendedOnSameCart | sky-server/src/main/java/com/sky/service/impl/ShoppingCartServiceImpl.java:131-136 | On the same cart, the intended probe takes the portion from customer 7's own row. |
| ShoppingCartService.SubIntendedTouchesOnlyCaller | sky-server/src/main/java/com/sky/service/impl/ShoppingCartServiceImpl.java:131-141 | With the intended probe, no other customer's cart changes. |
| ShoppingCartService.DecrementKeepsOthers | sky-server/src/main/java/com/sky/service/impl/ShoppingCartServiceImpl.java:135-136 | Re-numbering one of the caller's rows by key leaves every other customer's rows alone. |
| ShoppingCartService.SubIntendedDecrements | sky-server/src/main/java/com/sky/service/impl/ShoppingCartServiceImpl.java:131-141 | With the intended probe, the selected row is the caller's. It is replaced by a copy with one portion less, or removed when it held one, so the cart shrinks by one row exactly then. |
| DishService.FlavorRows | sky-server/src/main/java/com/sky/service/impl/DishServiceImpl.java:66-71 | One flavor row per submitted flavor, in order, each tied to the dish. |
| DishService.TieFlavors | sky-server/src/main/java/com/sky/service/impl/DishServiceImpl.java:183-186 | The loop produces exactly the tied flavor rows. |
| DishService.SaveWithFlavor | sky-server/src/main/java/com/sky/service/impl/DishServiceImpl.java:53-77 | The dish is appended under the next key with the insert audit stamp. The submitted flavors follow under that key, or nothing when the list is null or empty. |
| DishService.SavedDishReadsBack | sky-server/src/main/java/com/sky/service/impl/DishServiceImpl.java:59-74 | The new dish's flavors read back as exactly the submitted ones. Its four audit fields are now and the caller. |
| DishService.DeleteCheck | sky-server/src/main/java/com/sky/service/impl/DishServiceImpl.java:107-114 | Passes iff every id names a dish that is not on sale. Fails only with a null dereference or `DishOnSale`. |
| DishService.DeleteBatch | sky-server/src/main/java/com/sky/service/impl/DishServiceImpl.java:101-136 | The verdict is the per-dish check, then the link check; any failure writes nothing. On success exactly the named dishes and their flavors are gone. |
| DishService.DeleteBatchPassIff | sky-server/src/main/java/com/sky/service/impl/DishServiceImpl.java:107-122 | A batch is deleted iff every id names a dish not on sale and no set-meal links any of them. |
| DishService.OnSaleBlocksBatch | sky-server/src/main/java/com/sky/service/impl/DishServiceImpl.java:107-113 | One dish on sale fails the whole batch with `DishOnSale`, before links are considered. |
| DishService.DeletedDishesAreGone | sky-server/src/main/java/com/sky/service/impl/DishServiceImpl.java:127-133 | After deletion no named dish or its flavors remain. Every other dish and flavor does. |
| DishService.UpdateWithFlavor | sky-server/src/main/java/com/sky/service/impl/DishServiceImpl.java:166-191 | The submitted fields and update stamp are written. The dish's flavors are replaced by the submitted ones. |
| DishService.EditReplacesFlavors | sky-server/src/main/java/com/sky/service/impl/DishServiceImpl.java:177-189 | After an edit the dish has exactly the submitted flavors. Every other dish keeps its own. |
| DishService.EditKeepsCreation | sky-server/src/main/java/com/sky/service/impl/DishServiceImpl.java:169-173 | An edit keeps the key and the creation stamp. It records now and the caller as the last update. |
| DishService.OffSale | sky-server/src/main/java/com/sky/service/impl/DishServiceImpl.java:232-239 | Exactly the listed set-meals are disabled with an update stamp. The others are unchanged. |
| DishService.StartOrStop | sky-server/src/main/java/com/sky/service/impl/DishServiceImpl.java:199-246 | The dish's status is written. Disabling also disables every set-meal linked to it, and enabling touches no set-meal. |
| DishService.OffSaleCascade | sky-server/src/main/java/com/sky/service/impl/DishServiceImpl.java:216-240 | After disabling, every set-meal containing the dish is off sale. Every set-meal not containing it is unchanged. |
| SetmealService.TiedLinks | sky-server/src/main/java/com/sky/service/impl/SetMealServiceImpl.java:66-69 | One link per submitted link, in order, each given the set-meal's key. |
| SetmealService.TieLinks | sky-server/src/main/java/com/sky/service/impl/SetMealServiceImpl.java:154-156 | The loop produces exactly the tied links. |
| SetmealService.SaveWithDish | sky-server/src/main/java/com/sky/service/impl/SetMealServiceImpl.java:52-73 | A null link list fails and writes nothing. Otherwise the set-meal is appended under the next key with its links tied to it. |
| SetmealService.SavedSetmealReadsBack | sky-server/src/main/java/com/sky/service/impl/SetMealServiceImpl.java:58-72 | The new set-meal's links read back as exactly the submitted ones. Every other set-meal keeps its links. |
| SetmealService.DeleteCheck | sky-server/src/main/java/com/sky/service/impl/SetMealServiceImpl.java:99-105 | Passes iff every id names a set-meal that is not on sale. Fails only with a null dereference or `SetmealOnSale`. |
| SetmealService.DeleteByIds | sky-server/src/main/java/com/sky/service/impl/SetMealServiceImpl.java:96-115 | A failed check writes nothing. Otherwise exactly the named set-meals and their links are deleted. |
| SetmealService.DeletedSetmealsAreGone | sky-server/src/main/java/com/sky/service/impl/SetMealServiceImpl.java:108-112 | After deletion no named set-meal or link remains. Every other one does. |
| SetmealService.OnSaleBlocksDeletion | sky-server/src/main/java/com/sky/service/impl/SetMealServiceImpl.java:99-104 | One set-meal on sale fails the whole batch with `SetmealOnSale`. |
| SetmealService.Update | sky-server/src/main/java/com/sky/service/impl/SetMealServiceImpl.java:144-168 | A null link list fails before any write. Otherwise the fields are written and the set-meal's links are replaced by the submitted ones. |
| SetmealService.EditReplacesLinks | sky-server/src/main/java/com/sky/service/impl/SetMealServiceImpl.java:151-165 | After an edit the set-meal's links are exactly the submitted ones with its key. Every other set-meal keeps its own. |
| SetmealService.EditWritesFields | sky-server/src/main/java/com/sky/service/impl/SetMealServiceImpl.java:147-159 | An edit writes every submitted field and keeps the key and audit fields. |
| SetmealService.EnableGuard | sky-server/src/main/java/com/sky/service/impl/SetMealServiceImpl.java:176-186 | Enabling fails with `SetmealEnableFailed` iff one of the set-meal's dishes is disabled. Any other status change passes. |
| SetmealService.StartOrStop | sky-server/src/main/java/com/sky/service/impl/SetMealServiceImpl.java:174-198 | The guard loop decides; a failure writes nothing. A pass writes the status. |
| SetmealService.EnableGuardIff | sky-server/src/main/java/com/sky/service/impl/SetMealServiceImpl.java:176-185 | Enabling is refused iff a link of the set-meal names a disabled dish. An enabled set-meal has no linked disabled dish. |
| DishCache.CacheKey | sky-server/src/main/java/com/sky/controller/user/DishController.java:40 | The key is `dish_` and then the category id's rendering, or `null` when none is given. The character after the prefix is `n` exactly in the no-category case. |
| DishCache.CacheKeyInjective | sky-server/src/main/java/com/sky/controller/user/DishController.java:40 | Two requests share a cache key iff they name the same category (or both none, `dish_null`). |
| DishCache.WithFlavors | sky-server/src/main/java/com/sky/controller/user/DishController.java:64 | Each listed dish comes with exactly its own flavors, in order. |
| DishCache.Cache.List | sky-server/src/main/java/com/sky/controller/user/DishController.java:37-70 | The returned list and the new cache are those of one cache-aside step on the old cache and the catalog. |
| DishCache.ListStep | sky-server/src/main/java/com/sky/controller/user/DishController.java:43-67 | After a request, the category's key holds exactly the list returned. A non-empty cached entry leaves the cache as it was. Whenever the cache changes, the answer is the catalog's enabled dishes of the category with their flavors. |
| DishCache.HitServesCached | sky-server/src/main/java/com/sky/controller/user/DishController.java:43-48 | A non-empty cached list is returned as it is, with no catalog read and no write. |
| DishCache.MissServesCatalog | sky-server/src/main/java/com/sky/controller/user/DishController.java:51-67 | On a miss or an empty entry, the answer is the enabled dishes of the category with their flavors. Every such dish is present. The answer is stored under the key. |
| DishCache.RepeatCallHits | sky-server/src/main/java/com/sky/controller/user/DishController.java:45-67 | A repeat after a non-empty answer returns the same list and changes nothing. |
| DishCache.WritesOnlyOwnKey | sky-server/src/main/java/com/sky/controller/user/DishController.java:67 | The cache afterwards has the old keys plus this one, and every other entry is unchanged. |
| DishCache.OtherCategoriesUnaffected | sky-server/src/main/java/com/sky/controller/user/DishController.java:40-67 | Listing one category does not change what another category is served. |
| DishCache.CachedListGoesStale | sky-server/src/main/java/com/sky/controller/user/DishController.java:43-48 | Once a non-empty list is cached, it is served whatever the catalog becomes. |
| EmployeeService.Login | sky-server/src/main/java/com/sky/service/impl/EmployeeServiceImpl.java:38-67 | A successful login returns a stored, unlocked account with that username whose stored password is the digest of the one given. `AccountNotFound` iff no account has the username. |
| EmployeeService.LoginComplete | sky-server/src/main/java/com/sky/service/impl/EmployeeServiceImpl.java:43-66 | With unique usernames, every account gets `PasswordError` for a wrong password, then `AccountLocked` if disabled, and otherwise logs in. |
| EmployeeService.Save | sky-server/src/main/java/com/sky/service/impl/EmployeeServiceImpl.java:74-104 | Appends one account under the next key: enabled, with the default password's digest and the insert stamp. |
| EmployeeService.SaveAuditAgreesWithFill | sky-server/src/main/java/com/sky/service/impl/EmployeeServiceImpl.java:89-100 | The audit fields written by hand are the ones the insert fill writes. |
| EmployeeService.SavedEmployeeCanLogin | sky-server/src/main/java/com/sky/service/impl/EmployeeServiceImpl.java:83-100 | A new account with an unused username logs in with `123456` and returns the stored row. |
| EmployeeService.GetById | sky-server/src/main/java/com/sky/service/impl/EmployeeServiceImpl.java:150-156 | A missing row is a null dereference. Otherwise the stored account is returned with its password replaced by `******`. |
| EmployeeService.StartOrStop | sky-server/src/main/java/com/sky/service/impl/EmployeeServiceImpl.java:132-143 | Writes the status patch with the update stamp. |
| EmployeeService.Update | sky-server/src/main/java/com/sky/service/impl/EmployeeServiceImpl.java:162-171 | Writes the submitted fields with the update stamp. |
| EmployeeService.StatusChangeOnlyStatus | sky-server/src/main/java/com/sky/service/impl/EmployeeServiceImpl.java:134-142 | Only status, updateTime and updateUser of that account change. Other accounts are untouched. |
| EmployeeService.LockedCannotLogin | sky-server/src/main/java/com/sky/service/impl/EmployeeServiceImpl.java:60-63 | After locking, the account cannot log in with any password. |
| EmployeeService.EditKeepsPassword | sky-server/src/main/java/com/sky/service/impl/EmployeeServiceImpl.java:165-170 | An edit keeps every account's key, password, status and creation time. |
| ReportService.DateList | sky-server/src/main/java/com/sky/service/impl/ReportServiceImpl.java:106-112 | The list is begin, begin+1, …, end, of length end−begin+1, exactly when begin ≤ end. Otherwise the walk runs past the last date and fails. |
| ReportService.GetUserStatistics | sky-server/src/main/java/com/sky/service/impl/ReportServiceImpl.java:103-150 | One new-user and one total-user count per date, in date order. New users are created strictly inside the day; the total counts users created before the day's end. |
| ReportService.NewUsersWithinTotal | sky-server/src/main/java/com/sky/service/impl/ReportServiceImpl.java:122-141 | A day's new-user count never exceeds its total-user count. |
| ReportService.TotalUsersGrows | sky-server/src/main/java/com/sky/service/impl/ReportServiceImpl.java:129-132 | The total-user count never decreases from one day to a later one. |
| ReportService.GetOrdersStatistics | sky-server/src/main/java/com/sky/service/impl/ReportServiceImpl.java:159-225 | One order count and one completed-order count per date, in date order. The totals are the sums of the lists, and the valid total is at most the total. |
| ReportService.ValidWithinDay | sky-server/src/main/java/com/sky/service/impl/ReportServiceImpl.java:185-190 | A day's completed orders never outnumber its orders. |
| ReportService.ValidWithinTotal | sky-server/src/main/java/com/sky/service/impl/ReportServiceImpl.java:169-198 | Over the range, the sum of completed counts is at most the sum of order counts. |
| ReportService.SplitJoin | sky-server/src/main/java/com/sky/service/impl/ReportServiceImpl.java:242-243 | Splitting a comma join of comma-free strings gives them back. |
| ReportService.GetTop10Statistics | sky-server/src/main/java/com/sky/service/impl/ReportServiceImpl.java:234-249 | An empty ranking gives two empty columns. Any other ranking gives a non-empty number column. |
| ReportService.Top10ColumnsCorrespond | sky-server/src/main/java/com/sky/service/impl/ReportServiceImpl.java:240-243 | For a non-empty ranking with comma-free names, both columns split into as many entries as rows. The i-th name and the i-th number come from the i-th row. |

## Left out

- Payment (`payment`) and the refund calls are left out: they are calls to an external payment service. The notification map built in `paySuccess` is never sent, so it is left out too.
- Paged and detail queries are left out: order `pageQuery`, `selectOrderDetailById`, `conditionSearch`, dish, set-meal and employee `pageQuery`, dish `getByIdWithFlavor` and set-meal `getById` only read and copy rows.
- Turnover statistics and the completion rate are left out: they are floating point. Their date list is the same walk as `ReportService.DateList`.
- The spreadsheet export is left out: it is file and network I/O.
- The report VOs hold the date and count lists as sequences. Their comma-joined text, and the ISO rendering of dates, is not modelled; the best-seller columns are joined.
- `getTurnoverStatistics`, `getUserStatistics` and `getOrdersStatistics` would exhaust memory long before passing the last date when begin > end. The model reports reaching the last date instead.
- The report queries are not part of this model: the user count, the order count by time and status, and the best-seller ranking. The user counts follow the bounds written in the comments at lines 115 and 119, which are strict. No comment gives the bounds of the order count (lines 186 and 190); it is assumed to use the same strict bounds. The ranking is a parameter. Note also that `getTop10Statistics` passes the dates, not the computed day bounds (lines 237-240).
- The shopping-cart, order and address-book mappers, the set-meal mapper and the mapper XML files are not part of this model. Each statement is modelled from its name and use:
  - query-by-example (`list`) matches every field given;
  - `deleteShoppingCart` deletes every row of the example's user and ignores its other fields. This reading comes from the statement's name and from `cleanShoppingCart`, whose example carries only the user (lines 104-109). `submitOrder` passes the first cart row itself (line 126), so under query-by-example it would clear only that row; `OrderService.SubmitClearsOnlyCallersCart` rests on the per-user reading;
  - an empty `insertBatch` inserts nothing;
  - `update` writes the fields given.
- The set-meal service's own insert and update calls get no audit fill, because the mapper's annotations cannot be seen. The dish cascade writes through `SetMealDishMapper.update`, which is annotated, so it is stamped.
- No implementation of `DishService.listWithFlavor` is shown: the `DishService` interface declares only `saveWithFlavor` (DishService.java:10-16) and `DishServiceImpl` has no such method. `DishCache.ListWithFlavor` lists enabled dishes of the category with their flavors, as its call site asks.
- A null first argument to the audit fill (AutoFillAspect.java:61) is not modelled: its null-pointer exception would be caught at line 95 and rethrown for INSERT, or caught and swallowed at line 109 for UPDATE. No call site passes one.
- Key uniqueness is an invariant of the order and cart tables only (`Store.OrderTablesValid`, `Store.CartTableValid`). For dishes, set-meals and address books it is assumed from the primary key and not kept as an invariant. So a by-key lookup on a table holding a duplicated key takes the first row, where the mapper would raise a too-many-results error.
- `DishMapper.getBySetMealId` is a join that repeats a dish linked twice. `Store.DishesOfSetmeal` lists each dish once, which the enable guard does not notice.
- DTO fields taken as present: a null field copied into a patch is not modelled. Only the flavor and link lists may be null.
- Caches, Redis serialization, concurrency and transaction isolation are left out. A transaction is modelled only as all-or-nothing.
- `LocalDateTime.now()` is called several times in one operation. The model uses one `now` per operation.
- Java `Integer`/`Long` overflow is not modelled: counts, totals and portion numbers are unbounded.
- An empty id list for dish `deleteBatch` produces SQL that cannot be seen. It is modelled as a check that passes and deletes nothing.
- No controller shown exposes `subShoppingCart`. It is modelled from the service alone.

## Findings

| source | as written | input that shows it | evidently intended | confidence | as-written member | corrected member |
|---|---|---|---|---|---|---|
| sky-server/src/main/java/com/sky/service/impl/ShoppingCartServiceImpl.java:119 | `subShoppingCart` puts the caller's user id into the cart row's key field, so the query selects the row whose key equals the caller's id, whoever owns it | customer 7 has row 3 (dish 5, two portions); customer 9 has row 7 (dish 5, one portion); customer 7 removes a portion of dish 5, and customer 9's row 7 is deleted while row 3 keeps two portions | select the caller's own rows for the item (`setUserId`), as `add` does at line 45 | high; not executed | ShoppingCartService.SubAsWrittenHitsAnotherCustomer | ShoppingCartService.IntendedSubShoppingCart |
