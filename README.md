# Restaurant ordering backend: a verified model of its core

This project models the server-side core of a restaurant-ordering backend, an Express and
Mongoose service. The model covers four parts:

- **Menu editing** (`MenuEditing`, `ProfileRoutes`, over `ProfileModel`). A restaurant profile
  holds a `menu` of categories. Each category holds a `dish` list and each dish holds a
  `changeList` of modifiers.
  - Every add and edit route validates its body (the delete routes take no body), then loads the
    caller's profile. It finds
    the parent element with `map(item => item.id).indexOf(id)` (-1 on a miss) and changes one
    nested list in place with `unshift`, field assignment or `splice(index, 1)`. Then it saves.
  - Stored profiles are values in a map keyed by the owning admin's id (`ProfileStore.docs`).
  - A loaded profile is a `Profile` object whose methods update its fields in place. Each method
    is proved equal to a specification function on the menu (`DishAdded`, `CategoryDeleted`, ...).
  - Reading a field of `list[-1]` throws, which is modelled as `None` and answered with 500, nothing
    saved. `splice(-1, 1)` removes the last element.
  - The profile upsert (`Upserted`) and the worker registration (`RegisterWorker`) are modelled
    too.
- **Order pricing and upsert** (`Orders`, over `OrderModel`). A loop adds up each item's
  `dishPrice` and all its `changePrice`s, leaving `tip` out. A missing price makes the sum `NaN`,
  which the upsert refuses with 500. Otherwise the sum is proved equal to `Total`, and `Total` is
  proved additive and equal to a front-to-back reference sum. The order is then upserted under the
  URL key; an existing order keeps its status and date.
- **Role gate** (`AccessGuard`). `auth(...permittedRoles)` is a function from the header, the
  verify outcome and the permitted roles to 401, 403, 500 or `next()`. It also records the
  `req.user` it leaves behind.
- **Account lifecycle** (`Accounts`, over `UserModel`). Register, change password, recover and
  reset are transitions of a user store. The store is a map from id to record, and it keeps the
  unique indexes on `email` and `confirmationCode`.
  - Hashing (`hash`, `matches`), email syntax (`isEmail`) and token signing (`code`) are
    parameters. So are the clock (`now`) and generated ids (`newId`).

Prices are Dafny `real`s, so sums are exact.

Four behaviours of the code, as written, are modelled and proved:
- the profile upsert replaces the `user` list with `[caller]`, which drops registered workers
  (`ProfileRoutes.UpsertDropsWorkers`);
- recovery looks the email up without lower-casing it, so an email typed with an upper-case letter
  is never found (`Accounts.UpperCaseEmailUnknown`);
- the change-delete route splices at the dish's index (see Findings);
- the upsert runs no schema validators, so it stores a `tableList` holding an empty table name
  with 200; every later `save()` of that profile is then refused, and each menu route answers 500
  (`ProfileRoutes.EmptyTableNameBlocksMenuRoutes`).

## Model

| member | source | states |
|---|---|---|
| `MenuEditing.Truthy` | routes/api/profile.js:367 | `if (changePrice)` is false for a missing price and for 0, true for any other number |
| `MenuEditing.DishAdded` | routes/api/profile.js:237-239 | adding a dish fails exactly when the category id is missing; otherwise the menu keeps its length |
| `MenuEditing.ChangeAdded` | routes/api/profile.js:265-269 | adding a change fails exactly when the category or the dish id is missing; otherwise the menu keeps its length |
| `MenuEditing.CategoryEdited` | routes/api/profile.js:296-299 | editing a category fails exactly when its id is missing; otherwise the menu keeps its length |
| `MenuEditing.DishEdited` | routes/api/profile.js:328-334 | editing a dish fails exactly when the category or the dish id is missing; otherwise the menu keeps its length |
| `MenuEditing.ChangeEdited` | routes/api/profile.js:360-369 | editing a change fails exactly when the category, dish or change id is missing; otherwise the menu keeps its length |
| `MenuEditing.CategoryDeleted` | routes/api/profile.js:389-391 | deleting a category removes exactly one from a non-empty menu, even on a missing id, and nothing from an empty one |
| `MenuEditing.DishDeleted` | routes/api/profile.js:411-415 | deleting a dish fails exactly when the category id is missing; otherwise the menu keeps its length |
| `MenuEditing.ChangeDeletedAsWritten` | routes/api/profile.js:435-441 | the change delete as written fails exactly when the category or the dish id is missing, whatever the change id; otherwise the menu keeps its length |
| `MenuEditing.ChangeDeleted` | routes/api/profile.js:438-441 | the corrected change delete fails in the same cases; otherwise the menu keeps its length |
| `MenuEditing.IndexOf` | routes/api/profile.js:238 | `indexOf` returns -1 exactly when the id is absent; otherwise it is the first position holding the id |
| `MenuEditing.SpliceAt` | routes/api/profile.js:391 | where `splice(start, 1)` cuts: at `start` when it is in range, at the last element for -1, nowhere past the end |
| `MenuEditing.SpliceOne` | routes/api/profile.js:391 | `splice(start, 1)` removes one element at `SpliceAt` and shifts the rest down; past the end it removes nothing |
| `MenuEditing.IndexOfDistinct` | routes/api/profile.js:238 | with distinct ids, `indexOf` locates every element at its own position |
| `MenuEditing.SpliceCuts` | routes/api/profile.js:391 | `splice` on an in-range index cuts that element; on -1 it cuts the last one; past the end it changes nothing |
| `MenuEditing.SpliceDropsOnlyId` | routes/api/profile.js:390-391 | removing position k from a list with distinct ids removes exactly that id; the others keep their order |
| `MenuEditing.AddDishAtHead` | routes/api/profile.js:237-239 | adding a dish throws iff the category is missing; otherwise the dish is at index 0, the old dishes follow in order, and nothing else changes |
| `MenuEditing.AddChangeAtHead` | routes/api/profile.js:265-269 | adding a change throws iff the category or the dish is missing; otherwise the change is at index 0 of that dish's list and nothing else changes |
| `MenuEditing.EditCategoryOnlyNames` | routes/api/profile.js:296-299 | editing a category throws iff it is missing; otherwise only its name and description change, and its dishes stay |
| `MenuEditing.EditDishOnlyFields` | routes/api/profile.js:328-334 | editing a dish replaces name, description and price only; `hide` and `changeList` stay; a missing category or dish throws |
| `MenuEditing.EditChangeKeepsPriceUnlessTruthy` | routes/api/profile.js:360-369 | editing a change throws iff the category, dish or change id is missing; otherwise it always renames the change, but the price changes only when the new price is truthy; omitting the price and sending 0 behave the same |
| `MenuEditing.DeleteCategoryRemovesOne` | routes/api/profile.js:389-391 | a present category is cut at its index; a missing id removes the LAST category of a non-empty menu |
| `MenuEditing.DeleteCategoryKeepsSiblings` | routes/api/profile.js:390-391 | with distinct ids, deleting a present category removes exactly its id; the other ids keep their order |
| `MenuEditing.DeleteDishRemovesOne` | routes/api/profile.js:411-415 | a missing category throws; otherwise one dish goes: the addressed one, or the last one when the dish id is missing |
| `MenuEditing.DeleteChangeAsWrittenUsesDishIndex` | routes/api/profile.js:435-441 | the change-delete route as written cuts the change list at the dish's position, and changes nothing when that position is past the end of the list |
| `MenuEditing.DeleteChangeAsWrittenRemovesWrongChange` | routes/api/profile.js:441 | on a concrete menu, asking to delete the second change removes the first one as written; the corrected route removes the second |
| `MenuEditing.DeleteChangeRemovesAddressedChange` | routes/api/profile.js:438-441 | the corrected delete cuts exactly the addressed change; with distinct ids that id is gone afterwards |
| `MenuEditing.AddCategoryKeepsMenuOk` | routes/api/profile.js:207-211 | prepending a valid category with a fresh id keeps the menu valid (required names, distinct ids at every level) |
| `MenuEditing.AddDishKeepsMenuOk` | routes/api/profile.js:237-241 | adding a valid dish with a fresh id keeps the menu valid |
| `MenuEditing.AddChangeKeepsMenuOk` | routes/api/profile.js:265-271 | adding a valid change with a fresh id keeps the menu valid |
| `MenuEditing.EditCategoryKeepsMenuOk` | routes/api/profile.js:296-301 | editing a category with validated names keeps the menu valid |
| `MenuEditing.EditDishKeepsMenuOk` | routes/api/profile.js:328-336 | editing a dish with validated name and description keeps the menu valid |
| `MenuEditing.EditChangeKeepsMenuOk` | routes/api/profile.js:360-371 | editing a change with a validated name keeps the menu valid, whatever price is sent |
| `MenuEditing.DeleteCategoryKeepsMenuOk` | routes/api/profile.js:389-393 | deleting a category, even on a miss, keeps the menu valid |
| `MenuEditing.DeleteDishKeepsMenuOk` | routes/api/profile.js:411-417 | deleting a dish keeps the menu valid |
| `MenuEditing.CutChangeKeepsMenuOk` | routes/api/profile.js:441 | cutting one change out of a dish, at any start, keeps the menu valid |
| `MenuEditing.DeleteChangeKeepsMenuOk` | routes/api/profile.js:435-443 | deleting a change keeps the menu valid, both as written and as corrected |
| `ProfileModel.NewChange` | models/Profile.js:50-57 | a new change keeps its id and name; its price defaults to 0 when the body gives none |
| `ProfileModel.NewDish` | models/Profile.js:32-47 | a new dish has the given fields, no changes, and is not hidden unless the body says so |
| `ProfileModel.NewCategory` | models/Profile.js:22-30 | a new category has the given names and no dishes |
| `ProfileModel.NewProfile` | models/Profile.js:3-19 | an inserted profile has `user == [owner]`, an empty menu, and `sellerPaymentID` "paymentID" unless one is given |
| `ProfileModel.Ids` | routes/api/profile.js:238 | `list.map(item => item.id)` keeps the length, and position i holds the id of element i |
| `ProfileModel.NewProfileOk` | models/Profile.js:3-69 | an inserted profile is valid exactly when both required names are given and none of the table names given is empty |
| `ProfileRoutes.Upserted` | routes/api/profile.js:54-67 | the upsert sets `user` to `[caller]` and the two names; `sellerPaymentID` and `tableList` take the body's value when given, else keep the existing one, else the schema default (`tableList` empty); the menu of an existing profile stays |
| `ProfileRoutes.UpsertDropsWorkers` | routes/api/profile.js:54-67 | re-sending the profile form to a profile whose `user` list is the owner and a worker leaves the owner alone; the menu stays |
| `ProfileRoutes.UpsertIdempotent` | routes/api/profile.js:63-67 | sending the same upsert twice leaves the same profile as sending it once |
| `ProfileRoutes.UpsertKeepsProfileOk` | routes/api/profile.js:37-67 | a body that passed the route's checks leaves a valid profile, inserted or updated, exactly when none of its table names is empty |
| `ProfileRoutes.EmptyTableNameBlocksMenuRoutes` | routes/api/profile.js:54-67 | an upsert with an empty table name stores a profile the schema refuses, after which every menu route on it answers 500 and changes nothing |
| `ProfileRoutes.Committed` | routes/api/profile.js:206-216 | a handler's outcome: 200 with only the caller's menu replaced, which needs a profile whose table names `save()` accepts, or 500 with the store unchanged; other profiles and keys never change |
| `ProfileRoutes.Profile.Load` | routes/api/profile.js:207 | the loaded object holds exactly the stored document |
| `ProfileRoutes.Profile.UnshiftCategory` | routes/api/profile.js:209 | the category is prepended to `menu`; no other field changes |
| `ProfileRoutes.Profile.PushUser` | routes/api/profile.js:106 | the worker id is appended to `user`; no other field changes |
| `ProfileRoutes.Profile.AddDish` | routes/api/profile.js:238-239 | throws exactly when `DishAdded` does; otherwise `menu` becomes `DishAdded`'s result and the other fields stay |
| `ProfileRoutes.Profile.AddChange` | routes/api/profile.js:266-269 | throws exactly when `ChangeAdded` does; otherwise `menu` becomes its result |
| `ProfileRoutes.Profile.EditCategory` | routes/api/profile.js:297-299 | throws exactly when `CategoryEdited` does; otherwise `menu` becomes its result |
| `ProfileRoutes.Profile.EditDish` | routes/api/profile.js:329-334 | the three field assignments leave `menu` equal to `DishEdited`'s result; a miss throws |
| `ProfileRoutes.Profile.EditChange` | routes/api/profile.js:361-369 | the rename and the truthiness-guarded price assignment leave `menu` equal to `ChangeEdited`'s result; a miss throws |
| `ProfileRoutes.Profile.DeleteCategory` | routes/api/profile.js:390-391 | never throws; `menu` becomes `CategoryDeleted`'s result |
| `ProfileRoutes.Profile.DeleteDish` | routes/api/profile.js:412-415 | throws exactly when the category is missing; otherwise `menu` becomes `DishDeleted`'s result |
| `ProfileRoutes.Profile.DeleteChange` | routes/api/profile.js:436-441 | as written: `menu` becomes `ChangeDeletedAsWritten`'s result; a missing category or dish throws |
| `ProfileRoutes.ProfileStore.UpsertProfile` | routes/api/profile.js:34-74 | an empty name gives 400 and changes nothing; otherwise 200 and the caller's entry becomes `Upserted`; a valid store stays valid exactly when the body gives no empty table name |
| `ProfileRoutes.ProfileStore.RegisterWorker` | routes/api/profile.js:79-112 | bad fields give 400; a failed sign-up passes its status on; a missing worker or profile, or a profile with an empty table name that `save()` refuses, gives no reply and no change; otherwise the worker id is appended to the caller's `user` list |
| `ProfileRoutes.ProfileStore.AddCategory` | routes/api/profile.js:195-219 | bad fields give 400; a missing profile gives 500; otherwise the new category is saved at the head of the menu; with a fresh id the store stays valid |
| `ProfileRoutes.ProfileStore.AddDish` | routes/api/profile.js:224-249 | bad fields or a non-numeric price give 400; a throw gives 500 and changes nothing; otherwise `DishAdded` is saved; validity is kept |
| `ProfileRoutes.ProfileStore.AddChange` | routes/api/profile.js:254-279 | an empty name gives 400; a throw gives 500 and changes nothing; otherwise `ChangeAdded` is saved; validity is kept |
| `ProfileRoutes.ProfileStore.EditCategory` | routes/api/profile.js:284-310 | 400 on bad fields; 500 with no change on a miss; otherwise `CategoryEdited` is saved; validity is kept |
| `ProfileRoutes.ProfileStore.EditDish` | routes/api/profile.js:315-344 | 400 on bad fields; 500 with no change on a miss; otherwise `DishEdited` is saved; validity is kept |
| `ProfileRoutes.ProfileStore.EditChange` | routes/api/profile.js:349-379 | 400 on an empty name; 500 with no change on a miss; otherwise `ChangeEdited` is saved; validity is kept |
| `ProfileRoutes.ProfileStore.DeleteCategory` | routes/api/profile.js:384-401 | 500 without a profile; otherwise `CategoryDeleted` is saved; validity is kept |
| `ProfileRoutes.ProfileStore.DeleteDish` | routes/api/profile.js:406-425 | 500 with no change when the profile or category is missing; otherwise `DishDeleted` is saved; validity is kept |
| `ProfileRoutes.ProfileStore.DeleteChange` | routes/api/profile.js:430-451 | 500 with no change when the profile, category or dish is missing; otherwise the as-written `ChangeDeletedAsWritten` is saved; validity is kept |
| `AccessGuard.Authorize` | middleware/auth.js:4-36 | no or empty token, or a verify error, gives 401; a payload without `user` gives 500; a role not permitted gives 403; a permitted one calls `next` exactly once; `req.user` is set on 403 and on `next` |
| `AccessGuard.MoreRolesStillAdmit` | middleware/auth.js:22-23 | permitting more roles never turns an admitted request away |
| `AccessGuard.NoRolesAdmitNobody` | middleware/auth.js:22 | `auth()` with no roles admits nobody, and answers every verified user with 403 |
| `AccessGuard.RejectionBeforeRoleCheck` | middleware/auth.js:11-19 | the 401 and 500 outcomes do not depend on the permitted roles |
| `AccessGuard.WorkerRefusedByAdminGate` | middleware/auth.js:22-27 | a valid worker token gets 403 from `auth('admin')`, and `req.user` is the worker |
| `AccessGuard.AccountGateAdmitsStoredRoles` | routes/api/users.js:80 | `auth('admin', 'worker', 'user')` admits a verified token iff its role is one the user schema can store; any other role gets 403 |
| `OrderModel.NewOrder` | models/Order.js:8-28 | an inserted order is open (`status` false) and dated now, with the given fields |
| `Orders.ChangesTotal` | routes/api/order.js:55-58 | modifiers priced at 0 or more give a non-negative modifier sum |
| `Orders.ItemPrice` | routes/api/order.js:52-58 | with no modifier priced below 0, an item costs at least its dish price |
| `Orders.Total` | routes/api/order.js:51-59 | items that each cost 0 or more give a non-negative total, at least any one item's price |
| `Orders.AddChanges` | routes/api/order.js:55-58 | the inner loop's sum equals `ChangesTotal`; it is `NaN` exactly when some modifier price is missing |
| `Orders.ComputePrice` | routes/api/order.js:51-59 | the loop throws exactly when some item has no `changeList`; otherwise the sum is `NaN` exactly when some price is missing, and equals `Total(items)` when none is |
| `Orders.ChangesTotalAppend` | routes/api/order.js:55-58 | the modifier sum is additive over list concatenation |
| `Orders.TotalAppend` | routes/api/order.js:52-59 | `Total(a + b) == Total(a) + Total(b)` |
| `Orders.SingleItemTotal` | routes/api/order.js:52-59 | one item costs its dish price plus its modifiers; with an empty `changeList`, just its dish price |
| `Orders.TotalIsDishesPlusChanges` | routes/api/order.js:51-59 | the total equals the sum of all dish prices plus the sum of all modifier prices (a front-to-back reference sum) |
| `Orders.Posted` | routes/api/order.js:61-75 | the upserted order carries the key, table, items as received, tip and total; an existing one keeps its status and date; a new one is open and dated now |
| `Orders.PostTwiceKeepsLatest` | routes/api/order.js:71-75 | posting twice under one key leaves one order with the second post's fields and the first post's date and status |
| `Orders.OrderStore.PostOrder` | routes/api/order.js:31-82 | a missing field gives 400 with no change; an item without `changeList` gives no reply and no change; a missing price makes the total `NaN`, whose cast fails: 500, no change; otherwise 200 and the key's order becomes `Posted` with total `Total(items)`, tip not included |
| `UserModel.ParseRole` | models/User.js:37-41 | a role string is accepted iff it is one of user, worker, admin |
| `UserModel.RoleOnSave` | models/User.js:37-41 | an absent role defaults to user; a given one must parse |
| `UserModel.Save` | models/User.js:8-25 | a save succeeds iff no other record has the same email or confirmation code; it then writes only that record |
| `UserModel.ParseRoleNameRoundTrip` | models/User.js:37-41 | every role's stored name parses back to that role |
| `UserModel.RoleNameOfParse` | models/User.js:37-41 | a parsed role's name is the string it came from |
| `UserModel.SaveKeepsUnique` | models/User.js:8-25 | a successful save keeps both unique indexes |
| `Accounts.ToLower` | routes/api/users.js:30 | lower-casing keeps the length and lower-cases each letter |
| `Accounts.ToLowerNoUpper` | routes/api/users.js:30 | a lower-cased email contains no upper-case letter |
| `Accounts.ToLowerOfNoUpper` | routes/api/users.js:30 | an email with no upper-case letter is unchanged by lower-casing |
| `Accounts.ToLowerIdempotent` | routes/api/users.js:30 | lower-casing twice equals lower-casing once |
| `Accounts.NewAccount` | routes/api/users.js:46-57 | a registered record is Pending, opens no reset, and holds the given name, email, digest, code, avatar, role and date |
| `Accounts.Recovered` | routes/api/users.js:154-158 | recovery installs a code that opens a reset exactly until an hour after now; nothing else of the account changes |
| `Accounts.PasswordReset` | routes/api/users.js:197-200 | a reset stores the new digest and leaves no code opening a reset at that time or later; nothing else changes |
| `Accounts.RecoveredResetWindow` | routes/api/users.js:158 | a recovered code opens a reset exactly while now is less than the issue time plus 3600000 ms |
| `Accounts.ResetCodeSpent` | routes/api/users.js:191-200 | after a reset, its code matches no user at that time or later |
| `Accounts.UpperCaseEmailUnknown` | routes/api/users.js:146-152 | stored emails are lower-case, so an email with an upper-case letter is never found by the recover lookup |
| `Accounts.UserStore.Register` | routes/api/users.js:16-75 | bad fields give 400; an existing lower-cased email gives 400; a bad role or a unique-index clash gives 500; otherwise the record is stored with the lower-cased email, the hashed password, Pending status and the role; the invariants are kept |
| `Accounts.UserStore.ChangePassword` | routes/api/users.js:80-131 | a short password gives 400; a missing user gives 500; a wrong current password gives 400 with no change; otherwise only the digest changes, and in a valid store that always succeeds |
| `Accounts.UserStore.Recover` | routes/api/users.js:136-172 | a bad or unknown email gives 400; otherwise the user with that email gets the new code and an expiry of now + 3600000 (500 on a code clash) |
| `Accounts.UserStore.Reset` | routes/api/users.js:177-212 | a short password gives 400; no matching unexpired code gives 500 with no change; otherwise the matching user gets the new digest and expiry now |

## Left out

- Floating-point addition: prices and totals are exact `real`s, so rounding in JavaScript's sum is
  not modelled.
- Prices sent as strings: in the profile routes `isNumeric` accepts them and `if (changePrice)` is
  then true even for `"0"`; in an order item a string `dishPrice` or `changePrice` turns the sum
  into string concatenation. The model takes a price as a number or as missing only.
- Extra body fields spread into the upsert (`...rest`) beyond `sellerPaymentID` and `tableList`,
  and extra fields of a menu element body, are not modelled.
- The profile lookup `findOne({ user: id })` matches by membership in the `user` list. The model
  keys a profile by its owning admin. The routes are admin-only, so the lookup then finds that
  admin's profile.
- Document validation on `save()` is modelled for the table names only. The other required paths
  (the names at every level) are checked by each route's own validators before they are written,
  so they pass in every store the modelled routes produce. Distinct ids are kept as part of the
  invariant `ProfileStore.Valid`; no validator checks them.
- `ProfileRoutes.ProfileStore.RegisterWorker`: the sign-up call to the registration route is an
  outcome parameter (`signup`, `worker`). It is not tied to `Accounts.UserStore.Register`, because
  the HTTP self-call crosses stores.
- Profile deletion (`Promise.all` over two removals) and the public GET reads: they are plain
  removals and lookups with no logic to verify.
- routes/api/auth.js and GET /me in order.js: they pass `auth` uncalled as middleware, so their
  handlers are never reached.
- The Order schema declares no `user` path. The model stores the key as the handler intends.
  Whether Mongoose's strict mode drops it depends on configuration that is not part of this model.
- express-validator's `notEmpty` on an array (an empty `items` list passes) and on numbers: a
  field is modelled as missing or present.
- `toLowerCase` is modelled on ASCII letters only; Unicode case mapping is not.
- bcrypt, `jwt.sign`/`jwt.verify`, gravatar, nodemailer and the clock are parameters or left out.
  The token sent back by the password change is not modelled.
- Concurrency and async interleaving between handlers (lost updates on read-modify-write) are
  not modelled.

## Findings

| source | as written | input that shows it | evidently intended | confidence | as-written member | corrected member |
|---|---|---|---|---|---|---|
| routes/api/profile.js:441 | the change list is spliced at `dishIndex`; the computed `changeIndex` is unused | a menu with category `c0` holding dish `d0` with changes `x0`, `x1`; DELETE `/menu/c0/d0/x1` removes `x0` and keeps `x1` | splice at `changeIndex`, removing the addressed change | not executed | `MenuEditing.DeleteChangeAsWrittenRemovesWrongChange` | `MenuEditing.DeleteChangeRemovesAddressedChange` |

The stored-profile route `ProfileStore.DeleteChange` follows the code as written. The corrected
delete is `MenuEditing.ChangeDeleted`, and `MenuEditing.DeleteChangeKeepsMenuOk` proves that both
versions keep the menu valid.
