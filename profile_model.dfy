/**
 * The profile schema: a restaurant's profile holding its menu as three nested ordered lists,
 * menu (categories) -> dish -> changeList (modifiers), with required fields and defaults.
 */
module ProfileModel {
  import opened Common

  /** A modifier of a dish; `changePrice` defaults to 0 when none is given. */
  datatype Change = Change(id: Id, changeName: string, changePrice: real)

  /** A dish; `hidden` (the schema's `hide`) defaults to false. */
  datatype Dish = Dish(
    id: Id,
    dishName: string,
    dishDesc: string,
    dishPrice: real,
    hidden: bool,  // the schema's `hide` (a reserved word in Dafny)
    changeList: seq<Change>)

  datatype Category = Category(id: Id, categoryName: string, categoryDesc: string, dish: seq<Dish>)

  /** A stored profile. `user` lists the owning admin's id and the ids of registered workers. */
  datatype ProfileDoc = ProfileDoc(
    user: seq<Id>,
    restaurantName: string,
    restaurantDesc: string,
    sellerPaymentID: string,
    menu: seq<Category>,
    tableList: seq<string>)

  const DefaultPaymentId: string := "paymentID"
  const DefaultChangePrice: real := 0.0
  const DefaultHide: bool := false

  /** A change cast from a request body: the price defaults to 0 when the body has none. */
  function NewChange(id: Id, changeName: string, changePrice: Option<real>): (c: Change)
    ensures c.id == id && c.changeName == changeName
    ensures changePrice.None? ==> c.changePrice == 0.0
    ensures changePrice.Some? ==> c.changePrice == changePrice.value
  {
    Change(id, changeName, changePrice.GetOr(DefaultChangePrice))
  }

  /** A dish cast from a request body: no modifiers yet, and not hidden unless the body says so. */
  function NewDish(id: Id, dishName: string, dishDesc: string, dishPrice: real, hidden: Option<bool>): (d: Dish)
    ensures d.id == id && d.dishName == dishName && d.dishDesc == dishDesc && d.dishPrice == dishPrice
    ensures d.changeList == []
    ensures hidden.None? ==> !d.hidden
  {
    Dish(id, dishName, dishDesc, dishPrice, hidden.GetOr(DefaultHide), [])
  }

  /** A category cast from a request body: it starts with no dishes. */
  function NewCategory(id: Id, categoryName: string, categoryDesc: string): (c: Category)
    ensures c.id == id && c.categoryName == categoryName && c.categoryDesc == categoryDesc
    ensures c.dish == []
  {
    Category(id, categoryName, categoryDesc, [])
  }

  /** A profile inserted by an upsert: defaults for every field the request does not set. */
  function NewProfile(owner: Id, restaurantName: string, restaurantDesc: string,
                      sellerPaymentID: Option<string>, tableList: Option<seq<string>>): (p: ProfileDoc)
    ensures p.user == [owner] && p.menu == []
    ensures p.restaurantName == restaurantName && p.restaurantDesc == restaurantDesc
    ensures sellerPaymentID.None? ==> p.sellerPaymentID == "paymentID"
    ensures sellerPaymentID.Some? ==> p.sellerPaymentID == sellerPaymentID.value
    ensures tableList.None? ==> p.tableList == []
    ensures tableList.Some? ==> p.tableList == tableList.value
  {
    ProfileDoc([owner], restaurantName, restaurantDesc, sellerPaymentID.GetOr(DefaultPaymentId),
               [], tableList.GetOr([]))
  }

  // Schema validity: the required string fields are non-empty (Mongoose's `required` refuses "")
  // and, at every level, ids are distinct within the enclosing list (every nested element gets its
  // own generated id, and the routes address elements by it).

  /** `list.map(item => item.id)`. */
  function Ids<T>(s: seq<T>, key: T -> Id): (ids: seq<Id>)
    ensures |ids| == |s|
    ensures forall i :: 0 <= i < |s| ==> ids[i] == key(s[i])
  {
    seq(|s|, i requires 0 <= i < |s| => key(s[i]))
  }

  function CategoryId(c: Category): Id { c.id }
  function DishId(d: Dish): Id { d.id }
  function ChangeId(c: Change): Id { c.id }

  predicate Distinct(ids: seq<Id>) {
    forall i, j :: 0 <= i < j < |ids| ==> ids[i] != ids[j]
  }

  predicate ChangeOk(c: Change) {
    NotEmpty(c.changeName)
  }

  predicate DishOk(d: Dish) {
    && NotEmpty(d.dishName) && NotEmpty(d.dishDesc)
    && (forall i :: 0 <= i < |d.changeList| ==> ChangeOk(d.changeList[i]))
    && Distinct(Ids(d.changeList, ChangeId))
  }

  predicate CategoryOk(c: Category) {
    && NotEmpty(c.categoryName) && NotEmpty(c.categoryDesc)
    && (forall i :: 0 <= i < |c.dish| ==> DishOk(c.dish[i]))
    && Distinct(Ids(c.dish, DishId))
  }

  predicate MenuOk(menu: seq<Category>) {
    && (forall i :: 0 <= i < |menu| ==> CategoryOk(menu[i]))
    && Distinct(Ids(menu, CategoryId))
  }

  /** Every `tableList` entry is a required string, so none may be empty. */
  predicate TablesOk(tables: seq<string>) {
    forall i :: 0 <= i < |tables| ==> NotEmpty(tables[i])
  }

  predicate ProfileOk(p: ProfileDoc) {
    NotEmpty(p.restaurantName) && NotEmpty(p.restaurantDesc) && MenuOk(p.menu) && TablesOk(p.tableList)
  }

  /**
   * A new profile is valid exactly when both required names are given and no table name it is
   * given is empty: its menu starts empty.
   */
  lemma NewProfileOk(owner: Id, name: string, desc: string, pay: Option<string>, tables: Option<seq<string>>)
    ensures ProfileOk(NewProfile(owner, name, desc, pay, tables)) <==>
              NotEmpty(name) && NotEmpty(desc) && (tables.Some? ==> TablesOk(tables.value))
  {
  }
}
