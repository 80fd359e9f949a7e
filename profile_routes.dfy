/**
 * The profile route handlers. Each handler runs after the admin-only gate, so `caller` is the
 * verified admin's id. Stored profiles are values keyed by that id; a handler that edits the menu
 * loads one into a `Profile` object, changes its fields in place and saves it back.
 */
module ProfileRoutes {
  import opened Common
  import opened ProfileModel
  import opened MenuEditing

  // ---------------------------------------------------------------------------------------------
  // Request bodies and their validation (the `check(...)` chains in front of each handler)

  /** POST / : the restaurant names, plus the other profile fields a body may spread in. */
  datatype ProfileBody = ProfileBody(
    restaurantName: string,
    restaurantDesc: string,
    sellerPaymentID: Option<string>,
    tableList: Option<seq<string>>)

  datatype CategoryBody = CategoryBody(categoryName: string, categoryDesc: string)

  /** `dishPrice` is `None` when it is missing or not numeric; `hidden` is the body's `hide`. */
  datatype DishBody = DishBody(dishName: string, dishDesc: string, dishPrice: Option<real>, hidden: Option<bool>)

  /** `changePrice` is `None` when the body omits it. */
  datatype ChangeBody = ChangeBody(changeName: string, changePrice: Option<real>)

  predicate ProfileBodyOk(b: ProfileBody) {
    NotEmpty(b.restaurantName) && NotEmpty(b.restaurantDesc)
  }

  predicate CategoryBodyOk(b: CategoryBody) {
    NotEmpty(b.categoryName) && NotEmpty(b.categoryDesc)
  }

  predicate DishBodyOk(b: DishBody) {
    NotEmpty(b.dishName) && NotEmpty(b.dishDesc) && b.dishPrice.Some?
  }

  predicate ChangeBodyOk(b: ChangeBody) {
    NotEmpty(b.changeName)
  }

  // ---------------------------------------------------------------------------------------------
  // The upsert of POST / : `findOneAndUpdate({user: id}, {$set: fields}, {upsert: true})`

  function Find(docs: map<Id, ProfileDoc>, owner: Id): Option<ProfileDoc> {
    if owner in docs then Some(docs[owner]) else None
  }

  /**
   * The profile the upsert leaves: a new one with schema defaults when there is none, otherwise
   * the old one with the `$set` fields replaced. `user: id` is cast to the one-element list
   * `[id]`, so an existing worker list is replaced. The menu is never touched.
   */
  function Upserted(existing: Option<ProfileDoc>, caller: Id, body: ProfileBody): (p: ProfileDoc)
    ensures p.user == [caller]
    ensures p.restaurantName == body.restaurantName && p.restaurantDesc == body.restaurantDesc
    ensures existing.Some? ==> p.menu == existing.value.menu
    ensures existing.None? ==> p.menu == [] && (body.sellerPaymentID.None? ==> p.sellerPaymentID == DefaultPaymentId)
    ensures existing.Some? && body.sellerPaymentID.None? ==> p.sellerPaymentID == existing.value.sellerPaymentID
    ensures body.sellerPaymentID.Some? ==> p.sellerPaymentID == body.sellerPaymentID.value
    ensures body.tableList.Some? ==> p.tableList == body.tableList.value
    ensures existing.Some? && body.tableList.None? ==> p.tableList == existing.value.tableList
    ensures existing.None? && body.tableList.None? ==> p.tableList == []
  {
    match existing
    case None =>
      NewProfile(caller, body.restaurantName, body.restaurantDesc, body.sellerPaymentID, body.tableList)
    case Some(doc) =>
      doc.(user := [caller],
           restaurantName := body.restaurantName,
           restaurantDesc := body.restaurantDesc,
           sellerPaymentID := body.sellerPaymentID.GetOr(doc.sellerPaymentID),
           tableList := body.tableList.GetOr(doc.tableList))
  }

  /** Repeating the same upsert request yields the same profile. */
  lemma UpsertIdempotent(existing: Option<ProfileDoc>, caller: Id, body: ProfileBody)
    ensures Upserted(Some(Upserted(existing, caller, body)), caller, body) == Upserted(existing, caller, body)
  {
  }

  /**
   * Re-sending the profile form drops every registered worker: a profile whose `user` list holds
   * the owner and a worker is left with the owner alone, whatever else the body says.
   */
  lemma UpsertDropsWorkers(doc: ProfileDoc, caller: Id, worker: Id, body: ProfileBody)
    requires doc.user == [caller, worker]
    ensures Upserted(Some(doc), caller, body).user == [caller]
    ensures worker != caller ==> worker !in Upserted(Some(doc), caller, body).user
    ensures Upserted(Some(doc), caller, body).menu == doc.menu
  {
  }

  /** No table name the body gives is empty (a body without `tableList` gives none). */
  predicate BodyTablesOk(body: ProfileBody) {
    body.tableList.Some? ==> TablesOk(body.tableList.value)
  }

  /**
   * The upsert runs no schema validators: a body that passed the route's checks leaves a valid
   * profile, inserted or updated, exactly when none of the table names it gives is empty.
   */
  lemma UpsertKeepsProfileOk(existing: Option<ProfileDoc>, caller: Id, body: ProfileBody)
    requires ProfileBodyOk(body)
    requires existing.Some? ==> ProfileOk(existing.value)
    ensures ProfileOk(Upserted(existing, caller, body)) <==> BodyTablesOk(body)
  {
  }

  // ---------------------------------------------------------------------------------------------
  // What a menu handler commits once its body has passed validation

  /**
   * `edited` is the menu the handler computed, `None` when it threw. It is saved, with 200, only
   * when the caller has a profile, nothing threw and `save()` validates the document, which
   * refuses an empty table name; otherwise the answer is 500 and nothing changes.
   */
  predicate Committed(before: map<Id, ProfileDoc>, after: map<Id, ProfileDoc>, caller: Id,
                      status: Status, edited: Option<seq<Category>>): (b: bool)
    ensures b ==> status in {Ok200, ServerError500}
    ensures b ==> after.Keys == before.Keys
    ensures b ==> forall id :: id in before && id != caller ==> after[id] == before[id]
    ensures b && status == Ok200 ==> caller in before && edited.Some? && after[caller].menu == edited.value
    ensures b && status == Ok200 ==> after[caller].(menu := before[caller].menu) == before[caller]
    ensures b && status == Ok200 ==> TablesOk(before[caller].tableList)
    ensures b && status != Ok200 ==> after == before
  {
    if caller in before && edited.Some? && TablesOk(before[caller].tableList) then
      status == Ok200 && after == before[caller := before[caller].(menu := edited.value)]
    else
      status == ServerError500 && after == before
  }

  /**
   * An upsert whose body gives an empty table name is stored with 200, and from then on every
   * menu route of that profile answers 500 and changes nothing, whatever it computed.
   */
  lemma EmptyTableNameBlocksMenuRoutes(docs: map<Id, ProfileDoc>, caller: Id, body: ProfileBody,
                                       after: map<Id, ProfileDoc>, status: Status, edited: Option<seq<Category>>)
    requires body.tableList.Some? && "" in body.tableList.value
    requires Committed(docs[caller := Upserted(Find(docs, caller), caller, body)], after, caller, status, edited)
    ensures !ProfileOk(Upserted(Find(docs, caller), caller, body))
    ensures status == ServerError500 && after == docs[caller := Upserted(Find(docs, caller), caller, body)]
  {
    var tables := body.tableList.value;
    var i :| 0 <= i < |tables| && tables[i] == "";
    assert !TablesOk(Upserted(Find(docs, caller), caller, body).tableList);
  }

  /** The loaded profile document, whose fields a handler changes before `save()`. */
  class Profile {
    var user: seq<Id>
    var restaurantName: string
    var restaurantDesc: string
    var sellerPaymentID: string
    var menu: seq<Category>
    var tableList: seq<string>

    /** The document as it will be saved. */
    function Doc(): ProfileDoc
      reads this
    {
      ProfileDoc(user, restaurantName, restaurantDesc, sellerPaymentID, menu, tableList)
    }

    /** `Profile.findOne(...)` returning a stored document. */
    constructor Load(doc: ProfileDoc)
      ensures Doc() == doc
    {
      user := doc.user;
      restaurantName := doc.restaurantName;
      restaurantDesc := doc.restaurantDesc;
      sellerPaymentID := doc.sellerPaymentID;
      menu := doc.menu;
      tableList := doc.tableList;
    }

    /** `profile.menu.unshift(category)` */
    method UnshiftCategory(c: Category)
      modifies this
      ensures Doc() == old(Doc()).(menu := [c] + old(menu))
    {
      menu := [c] + menu;
    }

    /** `profile.user.push(workerId)` */
    method PushUser(id: Id)
      modifies this
      ensures Doc() == old(Doc()).(user := old(user) + [id])
    {
      user := user + [id];
    }

    /** Locate the category, then `dish.unshift(d)` on it. */
    method AddDish(categoryId: Id, d: Dish) returns (thrown: bool)
      modifies this
      ensures thrown == DishAdded(old(menu), categoryId, d).None?
      ensures !thrown ==> Doc() == old(Doc()).(menu := DishAdded(old(menu), categoryId, d).value)
    {
      var categoryIndex := IndexOf(Ids(menu, CategoryId), categoryId);
      if categoryIndex < 0 {
        return true;
      }
      menu := menu[categoryIndex := menu[categoryIndex].(dish := [d] + menu[categoryIndex].dish)];
      return false;
    }

    /** Locate the category and the dish, then `changeList.unshift(c)` on it. */
    method AddChange(categoryId: Id, dishId: Id, c: Change) returns (thrown: bool)
      modifies this
      ensures thrown == ChangeAdded(old(menu), categoryId, dishId, c).None?
      ensures !thrown ==> Doc() == old(Doc()).(menu := ChangeAdded(old(menu), categoryId, dishId, c).value)
    {
      var categoryIndex := IndexOf(Ids(menu, CategoryId), categoryId);
      if categoryIndex < 0 {
        return true;
      }
      var dishes := menu[categoryIndex].dish;
      var dishIndex := IndexOf(Ids(dishes, DishId), dishId);
      if dishIndex < 0 {
        return true;
      }
      var changes := [c] + dishes[dishIndex].changeList;
      menu := menu[categoryIndex := menu[categoryIndex].(dish := dishes[dishIndex := dishes[dishIndex].(changeList := changes)])];
      return false;
    }

    /** Locate the category, then assign `categoryName` and `categoryDesc`. */
    method EditCategory(categoryId: Id, name: string, desc: string) returns (thrown: bool)
      modifies this
      ensures thrown == CategoryEdited(old(menu), categoryId, name, desc).None?
      ensures !thrown ==> Doc() == old(Doc()).(menu := CategoryEdited(old(menu), categoryId, name, desc).value)
    {
      var categoryIndex := IndexOf(Ids(menu, CategoryId), categoryId);
      if categoryIndex < 0 {
        return true;
      }
      menu := menu[categoryIndex := menu[categoryIndex].(categoryName := name)];
      menu := menu[categoryIndex := menu[categoryIndex].(categoryDesc := desc)];
      return false;
    }

    /** Locate the category and the dish, then assign `dishName`, `dishDesc` and `dishPrice`. */
    method EditDish(categoryId: Id, dishId: Id, name: string, desc: string, price: real) returns (thrown: bool)
      modifies this
      ensures thrown == DishEdited(old(menu), categoryId, dishId, name, desc, price).None?
      ensures !thrown ==> Doc() == old(Doc()).(menu := DishEdited(old(menu), categoryId, dishId, name, desc, price).value)
    {
      var categoryIndex := IndexOf(Ids(menu, CategoryId), categoryId);
      if categoryIndex < 0 {
        return true;
      }
      var dishes := menu[categoryIndex].dish;
      var dishIndex := IndexOf(Ids(dishes, DishId), dishId);
      if dishIndex < 0 {
        return true;
      }
      ghost var found := dishes;
      dishes := dishes[dishIndex := dishes[dishIndex].(dishName := name)];
      dishes := dishes[dishIndex := dishes[dishIndex].(dishDesc := desc)];
      dishes := dishes[dishIndex := dishes[dishIndex].(dishPrice := price)];
      assert dishes == found[dishIndex := found[dishIndex].(dishName := name, dishDesc := desc, dishPrice := price)];
      menu := menu[categoryIndex := menu[categoryIndex].(dish := dishes)];
      return false;
    }

    /** Locate category, dish and change, assign `changeName`, and `changePrice` only if truthy. */
    method EditChange(categoryId: Id, dishId: Id, changeId: Id, name: string, price: Option<real>) returns (thrown: bool)
      modifies this
      ensures thrown == ChangeEdited(old(menu), categoryId, dishId, changeId, name, price).None?
      ensures !thrown ==> Doc() == old(Doc()).(menu := ChangeEdited(old(menu), categoryId, dishId, changeId, name, price).value)
    {
      var categoryIndex := IndexOf(Ids(menu, CategoryId), categoryId);
      if categoryIndex < 0 {
        return true;
      }
      var dishes := menu[categoryIndex].dish;
      var dishIndex := IndexOf(Ids(dishes, DishId), dishId);
      if dishIndex < 0 {
        return true;
      }
      var changes := dishes[dishIndex].changeList;
      var changeIndex := IndexOf(Ids(changes, ChangeId), changeId);
      if changeIndex < 0 {
        return true;
      }
      ghost var found := changes;
      changes := changes[changeIndex := changes[changeIndex].(changeName := name)];
      if Truthy(price) {
        changes := changes[changeIndex := changes[changeIndex].(changePrice := price.value)];
      }
      assert changes == found[changeIndex := if Truthy(price)
                                             then found[changeIndex].(changeName := name, changePrice := price.value)
                                             else found[changeIndex].(changeName := name)];
      menu := menu[categoryIndex := menu[categoryIndex].(dish := dishes[dishIndex := dishes[dishIndex].(changeList := changes)])];
      return false;
    }

    /** Locate the category, then `menu.splice(categoryIndex, 1)`: never throws. */
    method DeleteCategory(categoryId: Id)
      modifies this
      ensures Doc() == old(Doc()).(menu := CategoryDeleted(old(menu), categoryId))
    {
      var categoryIndex := IndexOf(Ids(menu, CategoryId), categoryId);
      menu := SpliceOne(menu, categoryIndex);
    }

    /** Locate the category and the dish, then `dish.splice(dishIndex, 1)`. */
    method DeleteDish(categoryId: Id, dishId: Id) returns (thrown: bool)
      modifies this
      ensures thrown == DishDeleted(old(menu), categoryId, dishId).None?
      ensures !thrown ==> Doc() == old(Doc()).(menu := DishDeleted(old(menu), categoryId, dishId).value)
    {
      var categoryIndex := IndexOf(Ids(menu, CategoryId), categoryId);
      if categoryIndex < 0 {
        return true;
      }
      var dishes := menu[categoryIndex].dish;
      var dishIndex := IndexOf(Ids(dishes, DishId), dishId);
      menu := menu[categoryIndex := menu[categoryIndex].(dish := SpliceOne(dishes, dishIndex))];
      return false;
    }

    /**
     * Locate category, dish and change, then `changeList.splice(dishIndex, 1)`, as the handler
     * is written: the computed change index goes unused.
     */
    method DeleteChange(categoryId: Id, dishId: Id, changeId: Id) returns (thrown: bool)
      modifies this
      ensures thrown == ChangeDeletedAsWritten(old(menu), categoryId, dishId, changeId).None?
      ensures !thrown ==> Doc() == old(Doc()).(menu := ChangeDeletedAsWritten(old(menu), categoryId, dishId, changeId).value)
    {
      var categoryIndex := IndexOf(Ids(menu, CategoryId), categoryId);
      if categoryIndex < 0 {
        return true;
      }
      var dishes := menu[categoryIndex].dish;
      var dishIndex := IndexOf(Ids(dishes, DishId), dishId);
      if dishIndex < 0 {
        return true;
      }
      var changes := dishes[dishIndex].changeList;
      var changeIndex := IndexOf(Ids(changes, ChangeId), changeId);
      changes := SpliceOne(changes, dishIndex);
      menu := menu[categoryIndex := menu[categoryIndex].(dish := dishes[dishIndex := dishes[dishIndex].(changeList := changes)])];
      return false;
    }
  }

  /** The stored profiles, keyed by the owning admin's id. */
  class ProfileStore {
    var docs: map<Id, ProfileDoc>

    /** Every stored profile satisfies the schema. */
    ghost predicate Valid()
      reads this
    {
      forall owner :: owner in docs ==> ProfileOk(docs[owner])
    }

    constructor ()
      ensures docs == map[] && Valid()
    {
      docs := map[];
    }

    /** POST / : create or update the caller's profile. */
    method UpsertProfile(caller: Id, body: ProfileBody) returns (status: Status)
      modifies this
      ensures !ProfileBodyOk(body) ==> status == BadRequest400 && docs == old(docs)
      ensures ProfileBodyOk(body) ==>
                status == Ok200 && docs == old(docs)[caller := Upserted(Find(old(docs), caller), caller, body)]
      ensures old(Valid()) ==> (Valid() <==> !ProfileBodyOk(body) || BodyTablesOk(body))
    {
      if !ProfileBodyOk(body) {
        return BadRequest400;
      }
      ghost var before := docs;
      docs := docs[caller := Upserted(Find(docs, caller), caller, body)];
      if old(Valid()) {
        UpsertKeepsProfileOk(Find(before, caller), caller, body);
        assert Valid() <==> ProfileOk(docs[caller]);
      }
      return Ok200;
    }

    /**
     * POST /register : the worker account is created by calling the registration route, whose
     * answer is `signup`; `worker` is what the lookup by the (not lower-cased) email then finds.
     * A failed sign-up is passed on. A missing worker or profile, or a `save()` that the schema
     * refuses (an empty table name), makes the error handler itself throw, since the error has
     * no `response`: no reply is sent (`None`). Otherwise the worker's id is appended to `user`.
     */
    method RegisterWorker(caller: Id, name: string, email: string, password: string,
                          isEmail: string -> bool, signup: Status, worker: Option<Id>)
      returns (reply: Option<Status>)
      modifies this
      ensures !(NotEmpty(name) && isEmail(email) && LongEnough(password)) ==>
                reply == Some(BadRequest400) && docs == old(docs)
      ensures NotEmpty(name) && isEmail(email) && LongEnough(password) && signup != Ok200 ==>
                reply == Some(signup) && docs == old(docs)
      ensures NotEmpty(name) && isEmail(email) && LongEnough(password) && signup == Ok200 ==>
                if worker.Some? && caller in old(docs) && TablesOk(old(docs)[caller].tableList) then
                  reply == Some(Ok200) &&
                  docs == old(docs)[caller := old(docs)[caller].(user := old(docs)[caller].user + [worker.value])]
                else
                  reply == None && docs == old(docs)
      ensures old(Valid()) ==> Valid()
    {
      if !(NotEmpty(name) && isEmail(email) && LongEnough(password)) {
        return Some(BadRequest400);
      }
      if signup != Ok200 {
        return Some(signup);
      }
      if worker.None? || caller !in docs {
        return None;
      }
      var profile := new Profile.Load(docs[caller]);
      profile.PushUser(worker.value);
      if !TablesOk(profile.tableList) {
        return None;
      }
      docs := docs[caller := profile.Doc()];
      return Some(Ok200);
    }

    /** POST /menu/category */
    method AddCategory(caller: Id, newId: Id, body: CategoryBody) returns (status: Status)
      modifies this
      ensures !CategoryBodyOk(body) ==> status == BadRequest400 && docs == old(docs)
      ensures CategoryBodyOk(body) ==>
                Committed(old(docs), docs, caller, status,
                          if caller in old(docs)
                          then Some([NewCategory(newId, body.categoryName, body.categoryDesc)] + old(docs)[caller].menu)
                          else None)
      ensures old(Valid()) && (caller in old(docs) ==> FreshCategoryId(old(docs)[caller].menu, newId)) ==> Valid()
    {
      if !CategoryBodyOk(body) {
        return BadRequest400;
      }
      if caller !in docs {
        return ServerError500;
      }
      ghost var before := docs[caller];
      var c := NewCategory(newId, body.categoryName, body.categoryDesc);
      var profile := new Profile.Load(docs[caller]);
      profile.UnshiftCategory(c);
      if !TablesOk(profile.tableList) {
        return ServerError500;
      }
      docs := docs[caller := profile.Doc()];
      if old(Valid()) && FreshCategoryId(before.menu, newId) {
        AddCategoryKeepsMenuOk(before.menu, c);
      }
      return Ok200;
    }

    /** POST /menu/:category_id/dish */
    method AddDish(caller: Id, categoryId: Id, newId: Id, body: DishBody) returns (status: Status)
      modifies this
      ensures !DishBodyOk(body) ==> status == BadRequest400 && docs == old(docs)
      ensures DishBodyOk(body) ==>
                Committed(old(docs), docs, caller, status,
                          if caller in old(docs)
                          then DishAdded(old(docs)[caller].menu, categoryId,
                                         NewDish(newId, body.dishName, body.dishDesc, body.dishPrice.value, body.hidden))
                          else None)
      ensures old(Valid()) && (caller in old(docs) ==> FreshDishId(old(docs)[caller].menu, newId)) ==> Valid()
    {
      if !DishBodyOk(body) {
        return BadRequest400;
      }
      if caller !in docs {
        return ServerError500;
      }
      ghost var before := docs[caller];
      var d := NewDish(newId, body.dishName, body.dishDesc, body.dishPrice.value, body.hidden);
      var profile := new Profile.Load(docs[caller]);
      var thrown := profile.AddDish(categoryId, d);
      if thrown {
        return ServerError500;
      }
      if !TablesOk(profile.tableList) {
        return ServerError500;
      }
      docs := docs[caller := profile.Doc()];
      if old(Valid()) && FreshDishId(before.menu, newId) {
        AddDishKeepsMenuOk(before.menu, categoryId, d);
      }
      return Ok200;
    }

    /** POST /menu/:category_id/:dish_id/change */
    method AddChange(caller: Id, categoryId: Id, dishId: Id, newId: Id, body: ChangeBody) returns (status: Status)
      modifies this
      ensures !ChangeBodyOk(body) ==> status == BadRequest400 && docs == old(docs)
      ensures ChangeBodyOk(body) ==>
                Committed(old(docs), docs, caller, status,
                          if caller in old(docs)
                          then ChangeAdded(old(docs)[caller].menu, categoryId, dishId,
                                           NewChange(newId, body.changeName, body.changePrice))
                          else None)
      ensures old(Valid()) && (caller in old(docs) ==> FreshChangeId(old(docs)[caller].menu, newId)) ==> Valid()
    {
      if !ChangeBodyOk(body) {
        return BadRequest400;
      }
      if caller !in docs {
        return ServerError500;
      }
      ghost var before := docs[caller];
      var c := NewChange(newId, body.changeName, body.changePrice);
      var profile := new Profile.Load(docs[caller]);
      var thrown := profile.AddChange(categoryId, dishId, c);
      if thrown {
        return ServerError500;
      }
      if !TablesOk(profile.tableList) {
        return ServerError500;
      }
      docs := docs[caller := profile.Doc()];
      if old(Valid()) && FreshChangeId(before.menu, newId) {
        AddChangeKeepsMenuOk(before.menu, categoryId, dishId, c);
      }
      return Ok200;
    }

    /** PUT /menu/:category_id */
    method EditCategory(caller: Id, categoryId: Id, body: CategoryBody) returns (status: Status)
      modifies this
      ensures !CategoryBodyOk(body) ==> status == BadRequest400 && docs == old(docs)
      ensures CategoryBodyOk(body) ==>
                Committed(old(docs), docs, caller, status,
                          if caller in old(docs)
                          then CategoryEdited(old(docs)[caller].menu, categoryId, body.categoryName, body.categoryDesc)
                          else None)
      ensures old(Valid()) ==> Valid()
    {
      if !CategoryBodyOk(body) {
        return BadRequest400;
      }
      if caller !in docs {
        return ServerError500;
      }
      ghost var before := docs[caller];
      var profile := new Profile.Load(docs[caller]);
      var thrown := profile.EditCategory(categoryId, body.categoryName, body.categoryDesc);
      if thrown {
        return ServerError500;
      }
      if !TablesOk(profile.tableList) {
        return ServerError500;
      }
      docs := docs[caller := profile.Doc()];
      if old(Valid()) {
        EditCategoryKeepsMenuOk(before.menu, categoryId, body.categoryName, body.categoryDesc);
      }
      return Ok200;
    }

    /** PUT /menu/:category_id/:dish_id */
    method EditDish(caller: Id, categoryId: Id, dishId: Id, body: DishBody) returns (status: Status)
      modifies this
      ensures !DishBodyOk(body) ==> status == BadRequest400 && docs == old(docs)
      ensures DishBodyOk(body) ==>
                Committed(old(docs), docs, caller, status,
                          if caller in old(docs)
                          then DishEdited(old(docs)[caller].menu, categoryId, dishId,
                                          body.dishName, body.dishDesc, body.dishPrice.value)
                          else None)
      ensures old(Valid()) ==> Valid()
    {
      if !DishBodyOk(body) {
        return BadRequest400;
      }
      if caller !in docs {
        return ServerError500;
      }
      ghost var before := docs[caller];
      var profile := new Profile.Load(docs[caller]);
      var thrown := profile.EditDish(categoryId, dishId, body.dishName, body.dishDesc, body.dishPrice.value);
      if thrown {
        return ServerError500;
      }
      if !TablesOk(profile.tableList) {
        return ServerError500;
      }
      docs := docs[caller := profile.Doc()];
      if old(Valid()) {
        EditDishKeepsMenuOk(before.menu, categoryId, dishId, body.dishName, body.dishDesc, body.dishPrice.value);
      }
      return Ok200;
    }

    /** PUT /menu/:category_id/:dish_id/:change_id */
    method EditChange(caller: Id, categoryId: Id, dishId: Id, changeId: Id, body: ChangeBody) returns (status: Status)
      modifies this
      ensures !ChangeBodyOk(body) ==> status == BadRequest400 && docs == old(docs)
      ensures ChangeBodyOk(body) ==>
                Committed(old(docs), docs, caller, status,
                          if caller in old(docs)
                          then ChangeEdited(old(docs)[caller].menu, categoryId, dishId, changeId,
                                            body.changeName, body.changePrice)
                          else None)
      ensures old(Valid()) ==> Valid()
    {
      if !ChangeBodyOk(body) {
        return BadRequest400;
      }
      if caller !in docs {
        return ServerError500;
      }
      ghost var before := docs[caller];
      var profile := new Profile.Load(docs[caller]);
      var thrown := profile.EditChange(categoryId, dishId, changeId, body.changeName, body.changePrice);
      if thrown {
        return ServerError500;
      }
      if !TablesOk(profile.tableList) {
        return ServerError500;
      }
      docs := docs[caller := profile.Doc()];
      if old(Valid()) {
        EditChangeKeepsMenuOk(before.menu, categoryId, dishId, changeId, body.changeName, body.changePrice);
      }
      return Ok200;
    }

    /** DELETE /menu/:category_id (no body to validate) */
    method DeleteCategory(caller: Id, categoryId: Id) returns (status: Status)
      modifies this
      ensures Committed(old(docs), docs, caller, status,
                        if caller in old(docs) then Some(CategoryDeleted(old(docs)[caller].menu, categoryId)) else None)
      ensures old(Valid()) ==> Valid()
    {
      if caller !in docs {
        return ServerError500;
      }
      ghost var before := docs[caller];
      var profile := new Profile.Load(docs[caller]);
      profile.DeleteCategory(categoryId);
      if !TablesOk(profile.tableList) {
        return ServerError500;
      }
      docs := docs[caller := profile.Doc()];
      if old(Valid()) {
        DeleteCategoryKeepsMenuOk(before.menu, categoryId);
      }
      return Ok200;
    }

    /** DELETE /menu/:category_id/:dish_id */
    method DeleteDish(caller: Id, categoryId: Id, dishId: Id) returns (status: Status)
      modifies this
      ensures Committed(old(docs), docs, caller, status,
                        if caller in old(docs) then DishDeleted(old(docs)[caller].menu, categoryId, dishId) else None)
      ensures old(Valid()) ==> Valid()
    {
      if caller !in docs {
        return ServerError500;
      }
      ghost var before := docs[caller];
      var profile := new Profile.Load(docs[caller]);
      var thrown := profile.DeleteDish(categoryId, dishId);
      if thrown {
        return ServerError500;
      }
      if !TablesOk(profile.tableList) {
        return ServerError500;
      }
      docs := docs[caller := profile.Doc()];
      if old(Valid()) {
        DeleteDishKeepsMenuOk(before.menu, categoryId, dishId);
      }
      return Ok200;
    }

    /** DELETE /menu/:category_id/:dish_id/:change_id, as written (splicing at the dish's index). */
    method DeleteChange(caller: Id, categoryId: Id, dishId: Id, changeId: Id) returns (status: Status)
      modifies this
      ensures Committed(old(docs), docs, caller, status,
                        if caller in old(docs)
                        then ChangeDeletedAsWritten(old(docs)[caller].menu, categoryId, dishId, changeId)
                        else None)
      ensures old(Valid()) ==> Valid()
    {
      if caller !in docs {
        return ServerError500;
      }
      ghost var before := docs[caller];
      var profile := new Profile.Load(docs[caller]);
      var thrown := profile.DeleteChange(categoryId, dishId, changeId);
      if thrown {
        return ServerError500;
      }
      if !TablesOk(profile.tableList) {
        return ServerError500;
      }
      docs := docs[caller := profile.Doc()];
      if old(Valid()) {
        DeleteChangeKeepsMenuOk(before.menu, categoryId, dishId, changeId);
      }
      return Ok200;
    }
  }
}
