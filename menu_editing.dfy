/**
 * The menu editing routes. Every add, edit and delete handler is the same read-modify-write:
 * validate the body, load the caller's profile, locate the parent element with
 * `list.map(item => item.id).indexOf(id)` (which yields -1 on a miss), change one nested list in
 * place (`unshift`, field assignment or `splice`), and save.
 *
 * Stored profiles are values in a map keyed by the owning admin's id (`ProfileStore.docs`); the
 * document a handler loads is a `Profile` object whose fields it updates before writing it back.
 */
module MenuEditing {
  import opened Common
  import opened ProfileModel

  // ---------------------------------------------------------------------------------------------
  // The two list primitives the handlers use

  /** `ids.indexOf(x)`: the first position of `x`, or -1 when `x` does not occur. */
  function IndexOf(ids: seq<Id>, x: Id): (r: int)
    ensures -1 <= r < |ids|
    ensures r == -1 <==> x !in ids
    ensures 0 <= r ==> ids[r] == x && x !in ids[..r]
  {
    if |ids| == 0 then -1
    else if ids[0] == x then 0
    else
      var k := IndexOf(ids[1..], x);
      if k == -1 then -1
      else
        assert ids[..k + 1] == [ids[0]] + ids[1..][..k];
        k + 1
  }

  /**
   * The position `list.splice(start, 1)` removes at, on a list of length `len`: a negative start
   * counts from the end, and a start at or past the end removes nothing (reported as `len`).
   */
  function SpliceAt(len: nat, start: int): (k: nat)
    ensures k <= len
    ensures 0 <= start < len ==> k == start
    ensures start == -1 && len > 0 ==> k == len - 1
    ensures start >= len ==> k == len
  {
    if start < 0 then (if len + start < 0 then 0 else len + start)
    else if start < len then start
    else len
  }

  /** `list.splice(start, 1)`: exactly one element goes, at `SpliceAt`, unless that is past the end. */
  function SpliceOne<T>(s: seq<T>, start: int): (r: seq<T>)
    ensures |r| == if SpliceAt(|s|, start) < |s| then |s| - 1 else |s|
    ensures forall i :: 0 <= i < |r| ==> r[i] == if i < SpliceAt(|s|, start) then s[i] else s[i + 1]
  {
    var k := SpliceAt(|s|, start);
    if k < |s| then s[..k] + s[k + 1..] else s
  }

  /** The value whose truthiness `if (req.body.changePrice)` tests: absent and 0 are both falsy. */
  predicate Truthy(price: Option<real>): (b: bool)
    ensures price.None? || price == Some(0.0) ==> !b
    ensures price.Some? && price.value != 0.0 ==> b
  {
    price.Some? && price.value != 0.0
  }

  // ---------------------------------------------------------------------------------------------
  // What each handler does to a loaded menu. `None` means the handler threw before saving: a
  // lookup yielded -1 and the code then read a field of `list[-1]`, which is undefined.

  /** The menu with the dish list of category `ci` replaced. */
  function WithDishes(menu: seq<Category>, ci: nat, dishes: seq<Dish>): seq<Category>
    requires ci < |menu|
  {
    menu[ci := menu[ci].(dish := dishes)]
  }

  /** The menu with the change list of dish `di` of category `ci` replaced. */
  function WithChanges(menu: seq<Category>, ci: nat, di: nat, changes: seq<Change>): seq<Category>
    requires ci < |menu| && di < |menu[ci].dish|
  {
    WithDishes(menu, ci, menu[ci].dish[di := menu[ci].dish[di].(changeList := changes)])
  }

  function CategoryIndex(menu: seq<Category>, categoryId: Id): int {
    IndexOf(Ids(menu, CategoryId), categoryId)
  }

  function DishIndex(c: Category, dishId: Id): int {
    IndexOf(Ids(c.dish, DishId), dishId)
  }

  function ChangeIndex(d: Dish, changeId: Id): int {
    IndexOf(Ids(d.changeList, ChangeId), changeId)
  }

  // Whether each lookup of a route finds its element; when one does not, the route throws.

  predicate CategoryFound(menu: seq<Category>, categoryId: Id) {
    categoryId in Ids(menu, CategoryId)
  }

  predicate DishFound(menu: seq<Category>, categoryId: Id, dishId: Id) {
    CategoryFound(menu, categoryId) && dishId in Ids(menu[CategoryIndex(menu, categoryId)].dish, DishId)
  }

  predicate ChangeFound(menu: seq<Category>, categoryId: Id, dishId: Id, changeId: Id) {
    && DishFound(menu, categoryId, dishId)
    && var c := menu[CategoryIndex(menu, categoryId)];
       changeId in Ids(c.dish[DishIndex(c, dishId)].changeList, ChangeId)
  }

  /** POST /menu/:category_id/dish: throws exactly when the category is missing. */
  function DishAdded(menu: seq<Category>, categoryId: Id, d: Dish): (r: Option<seq<Category>>)
    ensures r.None? <==> !CategoryFound(menu, categoryId)
    ensures r.Some? ==> |r.value| == |menu|
  {
    var ci := CategoryIndex(menu, categoryId);
    if ci < 0 then None
    else Some(WithDishes(menu, ci, [d] + menu[ci].dish))
  }

  /** POST /menu/:category_id/:dish_id/change: throws exactly when the category or the dish is missing. */
  function ChangeAdded(menu: seq<Category>, categoryId: Id, dishId: Id, c: Change): (r: Option<seq<Category>>)
    ensures r.None? <==> !DishFound(menu, categoryId, dishId)
    ensures r.Some? ==> |r.value| == |menu|
  {
    var ci := CategoryIndex(menu, categoryId);
    if ci < 0 then None
    else
      var di := DishIndex(menu[ci], dishId);
      if di < 0 then None
      else Some(WithChanges(menu, ci, di, [c] + menu[ci].dish[di].changeList))
  }

  /** PUT /menu/:category_id: throws exactly when the category is missing. */
  function CategoryEdited(menu: seq<Category>, categoryId: Id, name: string, desc: string): (r: Option<seq<Category>>)
    ensures r.None? <==> !CategoryFound(menu, categoryId)
    ensures r.Some? ==> |r.value| == |menu|
  {
    var ci := CategoryIndex(menu, categoryId);
    if ci < 0 then None
    else Some(menu[ci := menu[ci].(categoryName := name, categoryDesc := desc)])
  }

  /** PUT /menu/:category_id/:dish_id: throws exactly when the category or the dish is missing. */
  function DishEdited(menu: seq<Category>, categoryId: Id, dishId: Id,
                      name: string, desc: string, price: real): (r: Option<seq<Category>>)
    ensures r.None? <==> !DishFound(menu, categoryId, dishId)
    ensures r.Some? ==> |r.value| == |menu|
  {
    var ci := CategoryIndex(menu, categoryId);
    if ci < 0 then None
    else
      var di := DishIndex(menu[ci], dishId);
      if di < 0 then None
      else
        var dishes := menu[ci].dish;
        Some(WithDishes(menu, ci, dishes[di := dishes[di].(dishName := name, dishDesc := desc, dishPrice := price)]))
  }

  /**
   * PUT /menu/:category_id/:dish_id/:change_id: the price changes only when the new one is truthy.
   * Throws exactly when the category, the dish or the change is missing.
   */
  function ChangeEdited(menu: seq<Category>, categoryId: Id, dishId: Id, changeId: Id,
                        name: string, price: Option<real>): (r: Option<seq<Category>>)
    ensures r.None? <==> !ChangeFound(menu, categoryId, dishId, changeId)
    ensures r.Some? ==> |r.value| == |menu|
  {
    var ci := CategoryIndex(menu, categoryId);
    if ci < 0 then None
    else
      var di := DishIndex(menu[ci], dishId);
      if di < 0 then None
      else
        var changes := menu[ci].dish[di].changeList;
        var xi := ChangeIndex(menu[ci].dish[di], changeId);
        if xi < 0 then None
        else
          var renamed := changes[xi].(changeName := name);
          var edited := if Truthy(price) then renamed.(changePrice := price.value) else renamed;
          Some(WithChanges(menu, ci, di, changes[xi := edited]))
  }

  /**
   * DELETE /menu/:category_id: never throws; a miss splices at -1. Either way one category of a
   * non-empty menu goes.
   */
  function CategoryDeleted(menu: seq<Category>, categoryId: Id): (r: seq<Category>)
    ensures |r| == if |menu| == 0 then 0 else |menu| - 1
  {
    SpliceOne(menu, CategoryIndex(menu, categoryId))
  }

  /** DELETE /menu/:category_id/:dish_id: a missing category throws, a missing dish splices at -1. */
  function DishDeleted(menu: seq<Category>, categoryId: Id, dishId: Id): (r: Option<seq<Category>>)
    ensures r.None? <==> !CategoryFound(menu, categoryId)
    ensures r.Some? ==> |r.value| == |menu|
  {
    var ci := CategoryIndex(menu, categoryId);
    if ci < 0 then None
    else Some(WithDishes(menu, ci, SpliceOne(menu[ci].dish, DishIndex(menu[ci], dishId))))
  }

  /**
   * DELETE /menu/:category_id/:dish_id/:change_id AS WRITTEN: the change index is computed but the
   * change list is spliced at the DISH's index. A missing category or dish throws.
   */
  function ChangeDeletedAsWritten(menu: seq<Category>, categoryId: Id, dishId: Id, changeId: Id): (r: Option<seq<Category>>)
    ensures r.None? <==> !DishFound(menu, categoryId, dishId)
    ensures r.Some? ==> |r.value| == |menu|
  {
    var ci := CategoryIndex(menu, categoryId);
    if ci < 0 then None
    else
      var di := DishIndex(menu[ci], dishId);
      if di < 0 then None
      else Some(WithChanges(menu, ci, di, SpliceOne(menu[ci].dish[di].changeList, di)))
  }

  /**
   * The same handler splicing at the change's own index, as the computed `changeIndex` intends. A
   * missing change is not an error: `splice(-1, 1)` then removes the dish's last change.
   */
  function ChangeDeleted(menu: seq<Category>, categoryId: Id, dishId: Id, changeId: Id): (r: Option<seq<Category>>)
    ensures r.None? <==> !DishFound(menu, categoryId, dishId)
    ensures r.Some? ==> |r.value| == |menu|
  {
    var ci := CategoryIndex(menu, categoryId);
    if ci < 0 then None
    else
      var di := DishIndex(menu[ci], dishId);
      if di < 0 then None
      else
        var xi := ChangeIndex(menu[ci].dish[di], changeId);
        Some(WithChanges(menu, ci, di, SpliceOne(menu[ci].dish[di].changeList, xi)))
  }

  // ---------------------------------------------------------------------------------------------
  // Locating, adding, editing and deleting: what each edit does to the menu

  /** With distinct ids, `indexOf` finds every element by its own id, at its own position. */
  lemma {:induction false} IndexOfDistinct(ids: seq<Id>, k: nat)
    requires Distinct(ids) && k < |ids|
    ensures IndexOf(ids, ids[k]) == k
  {
    assert forall i :: 0 <= i < |ids| && i != k ==> ids[i] != ids[k];
  }

  /** Where `splice(start, 1)` cuts, for the three kinds of start the handlers produce. */
  lemma SpliceCuts<T>(s: seq<T>, start: int)
    ensures 0 <= start < |s| ==> SpliceOne(s, start) == s[..start] + s[start + 1..]
    ensures start == -1 && |s| > 0 ==> SpliceOne(s, start) == s[..|s| - 1]
    ensures start >= |s| ==> SpliceOne(s, start) == s
  {
  }

  /**
   * Cutting position `k` out of a list with distinct ids removes exactly that element's id: the
   * other ids stay, in their order.
   */
  lemma {:induction false} SpliceDropsOnlyId<T>(s: seq<T>, key: T -> Id, k: nat)
    requires Distinct(Ids(s, key)) && k < |s|
    ensures Ids(SpliceOne(s, k), key) == Ids(s, key)[..k] + Ids(s, key)[k + 1..]
    ensures key(s[k]) !in Ids(SpliceOne(s, k), key)
  {
    var ids, after := Ids(s, key), Ids(SpliceOne(s, k), key);
    assert after == ids[..k] + ids[k + 1..];
    forall j | 0 <= j < |after|
      ensures after[j] != key(s[k])
    {
      if j < k {
        assert after[j] == ids[j];
      } else {
        assert after[j] == ids[j + 1];
      }
    }
  }

  /**
   * Adding a dish puts it at index 0 of the located category's dish list, keeps the old dishes in
   * order behind it, and changes nothing else; a missing category throws.
   */
  lemma AddDishAtHead(menu: seq<Category>, categoryId: Id, d: Dish)
    ensures DishAdded(menu, categoryId, d).None? <==> categoryId !in Ids(menu, CategoryId)
    ensures DishAdded(menu, categoryId, d).Some? ==>
              var m, ci := DishAdded(menu, categoryId, d).value, CategoryIndex(menu, categoryId);
              && |m| == |menu| && 0 <= ci < |m|
              && m[ci].id == categoryId
              && m[ci].dish[0] == d && m[ci].dish[1..] == menu[ci].dish
              && m[ci].categoryName == menu[ci].categoryName && m[ci].categoryDesc == menu[ci].categoryDesc
              && (forall j :: 0 <= j < |menu| && j != ci ==> m[j] == menu[j])
  {
  }

  /**
   * Adding a change puts it at index 0 of the located dish's change list, keeps the old changes in
   * order behind it, and changes nothing else; a missing category or dish throws.
   */
  lemma AddChangeAtHead(menu: seq<Category>, categoryId: Id, dishId: Id, c: Change)
    ensures ChangeAdded(menu, categoryId, dishId, c).None? <==>
              || categoryId !in Ids(menu, CategoryId)
              || dishId !in Ids(menu[CategoryIndex(menu, categoryId)].dish, DishId)
    ensures ChangeAdded(menu, categoryId, dishId, c).Some? ==>
              var m, ci := ChangeAdded(menu, categoryId, dishId, c).value, CategoryIndex(menu, categoryId);
              var di := DishIndex(menu[ci], dishId);
              && |m| == |menu| && 0 <= ci < |m| && |m[ci].dish| == |menu[ci].dish| && 0 <= di < |m[ci].dish|
              && m[ci].dish[di].id == dishId
              && m[ci].dish[di].changeList == [c] + menu[ci].dish[di].changeList
              && m[ci].dish[di] == menu[ci].dish[di].(changeList := m[ci].dish[di].changeList)
              && m[ci] == menu[ci].(dish := m[ci].dish)
              && (forall j :: 0 <= j < |menu[ci].dish| && j != di ==> m[ci].dish[j] == menu[ci].dish[j])
              && (forall j :: 0 <= j < |menu| && j != ci ==> m[j] == menu[j])
  {
  }

  /** Editing a category replaces its name and description only: its dishes stay as they were. */
  lemma EditCategoryOnlyNames(menu: seq<Category>, categoryId: Id, name: string, desc: string)
    ensures CategoryEdited(menu, categoryId, name, desc).None? <==> categoryId !in Ids(menu, CategoryId)
    ensures CategoryEdited(menu, categoryId, name, desc).Some? ==>
              var m, ci := CategoryEdited(menu, categoryId, name, desc).value, CategoryIndex(menu, categoryId);
              && |m| == |menu| && 0 <= ci < |m|
              && m[ci] == Category(menu[ci].id, name, desc, menu[ci].dish)
              && (forall j :: 0 <= j < |menu| && j != ci ==> m[j] == menu[j])
  {
  }

  /** Editing a dish replaces name, description and price only: `hide` and its changes stay. */
  lemma EditDishOnlyFields(menu: seq<Category>, categoryId: Id, dishId: Id, name: string, desc: string, price: real)
    ensures DishEdited(menu, categoryId, dishId, name, desc, price).Some? ==>
              var m, ci := DishEdited(menu, categoryId, dishId, name, desc, price).value, CategoryIndex(menu, categoryId);
              var di := DishIndex(menu[ci], dishId);
              && 0 <= ci < |menu| && 0 <= di < |menu[ci].dish|
              && m == WithDishes(menu, ci, menu[ci].dish[di := m[ci].dish[di]])
              && var prior := menu[ci].dish[di];
                 m[ci].dish[di] == Dish(prior.id, name, desc, price, prior.hidden, prior.changeList)
    ensures DishEdited(menu, categoryId, dishId, name, desc, price).None? <==>
              || categoryId !in Ids(menu, CategoryId)
              || dishId !in Ids(menu[CategoryIndex(menu, categoryId)].dish, DishId)
  {
  }

  /**
   * Editing a change always renames it, but replaces the price only when the new price is truthy:
   * an omitted price or 0 keeps the old one.
   */
  lemma EditChangeKeepsPriceUnlessTruthy(menu: seq<Category>, categoryId: Id, dishId: Id, changeId: Id,
                                         name: string, price: Option<real>)
    ensures ChangeEdited(menu, categoryId, dishId, changeId, name, price).Some? ==>
              var m, ci := ChangeEdited(menu, categoryId, dishId, changeId, name, price).value, CategoryIndex(menu, categoryId);
              var di := DishIndex(menu[ci], dishId);
              var xi := ChangeIndex(menu[ci].dish[di], changeId);
              var changes := menu[ci].dish[di].changeList;
              && 0 <= xi < |changes|
              && m == WithChanges(menu, ci, di, changes[xi := m[ci].dish[di].changeList[xi]])
              && m[ci].dish[di].changeList[xi].id == changeId
              && m[ci].dish[di].changeList[xi].changeName == name
              && m[ci].dish[di].changeList[xi].changePrice == (if Truthy(price) then price.value else changes[xi].changePrice)
    ensures price.None? || price == Some(0.0) ==>
              ChangeEdited(menu, categoryId, dishId, changeId, name, price) ==
              ChangeEdited(menu, categoryId, dishId, changeId, name, None)
    ensures ChangeEdited(menu, categoryId, dishId, changeId, name, price).None? <==>
              || categoryId !in Ids(menu, CategoryId)
              || dishId !in Ids(menu[CategoryIndex(menu, categoryId)].dish, DishId)
              || var c := menu[CategoryIndex(menu, categoryId)];
                 changeId !in Ids(c.dish[DishIndex(c, dishId)].changeList, ChangeId)
  {
  }

  /**
   * Deleting a category removes exactly the element at the located index; with a miss, `indexOf`
   * gives -1 and `splice(-1, 1)` removes the LAST category of a non-empty menu.
   */
  lemma DeleteCategoryRemovesOne(menu: seq<Category>, categoryId: Id)
    ensures categoryId in Ids(menu, CategoryId) ==>
              var ci := CategoryIndex(menu, categoryId);
              0 <= ci < |menu| && CategoryDeleted(menu, categoryId) == menu[..ci] + menu[ci + 1..]
    ensures categoryId !in Ids(menu, CategoryId) && |menu| > 0 ==>
              CategoryDeleted(menu, categoryId) == menu[..|menu| - 1]
    ensures categoryId !in Ids(menu, CategoryId) && |menu| == 0 ==> CategoryDeleted(menu, categoryId) == []
  {
    var ids, ci := Ids(menu, CategoryId), CategoryIndex(menu, categoryId);
    assert |ids| == |menu|;
    assert ci == -1 <==> categoryId !in ids;
    SpliceCuts(menu, ci);
  }

  /**
   * With distinct ids, deleting a present category removes exactly that id: every other category
   * keeps its id and its place in the order.
   */
  lemma DeleteCategoryKeepsSiblings(menu: seq<Category>, categoryId: Id)
    requires Distinct(Ids(menu, CategoryId)) && categoryId in Ids(menu, CategoryId)
    ensures var ids, ci := Ids(menu, CategoryId), CategoryIndex(menu, categoryId);
            0 <= ci < |ids| && Ids(CategoryDeleted(menu, categoryId), CategoryId) == ids[..ci] + ids[ci + 1..]
    ensures categoryId !in Ids(CategoryDeleted(menu, categoryId), CategoryId)
  {
    SpliceDropsOnlyId(menu, CategoryId, CategoryIndex(menu, categoryId));
  }

  /**
   * Deleting a dish: a missing category throws; otherwise exactly one dish of the located category
   * goes (the last one when the dish id is missing) and nothing else changes.
   */
  lemma DeleteDishRemovesOne(menu: seq<Category>, categoryId: Id, dishId: Id)
    ensures DishDeleted(menu, categoryId, dishId).None? <==> categoryId !in Ids(menu, CategoryId)
    ensures DishDeleted(menu, categoryId, dishId).Some? ==>
              var ci := CategoryIndex(menu, categoryId);
              var dishes := menu[ci].dish;
              var di := DishIndex(menu[ci], dishId);
              && DishDeleted(menu, categoryId, dishId).value == WithDishes(menu, ci, SpliceOne(dishes, di))
              && (dishId in Ids(dishes, DishId) ==> SpliceOne(dishes, di) == dishes[..di] + dishes[di + 1..])
              && (dishId !in Ids(dishes, DishId) && |dishes| > 0 ==> SpliceOne(dishes, di) == dishes[..|dishes| - 1])
  {
    var ci := CategoryIndex(menu, categoryId);
    if ci >= 0 {
      SpliceCuts(menu[ci].dish, DishIndex(menu[ci], dishId));
    }
  }

  /**
   * The change-delete handler AS WRITTEN splices the change list at the dish's index: it removes the
   * change whose POSITION equals the dish's position, whatever change id was sent, and removes
   * nothing when the dish's index is past the end of the change list.
   */
  lemma DeleteChangeAsWrittenUsesDishIndex(menu: seq<Category>, categoryId: Id, dishId: Id, changeId: Id)
    ensures ChangeDeletedAsWritten(menu, categoryId, dishId, changeId).Some? ==>
              var ci := CategoryIndex(menu, categoryId);
              var di := DishIndex(menu[ci], dishId);
              var changes := menu[ci].dish[di].changeList;
              && ChangeDeletedAsWritten(menu, categoryId, dishId, changeId).value ==
                   WithChanges(menu, ci, di, SpliceOne(changes, di))
              && (di < |changes| ==> SpliceOne(changes, di) == changes[..di] + changes[di + 1..])
              && (di >= |changes| ==> ChangeDeletedAsWritten(menu, categoryId, dishId, changeId).value == menu)
  {
    var ci := CategoryIndex(menu, categoryId);
    if ci >= 0 {
      var di := DishIndex(menu[ci], dishId);
      if di >= 0 {
        var changes := menu[ci].dish[di].changeList;
        SpliceCuts(changes, di);
        if di >= |changes| {
          assert menu[ci].dish[di].(changeList := changes) == menu[ci].dish[di];
          assert menu[ci].dish[di := menu[ci].dish[di]] == menu[ci].dish;
          assert menu[ci].(dish := menu[ci].dish) == menu[ci];
        }
      }
    }
  }

  /**
   * A concrete menu on which the handler as written deletes the wrong change: asked to delete the
   * second change `x1` of the first dish, it removes the first change `x0` (position 0 = the dish's
   * position) and keeps `x1`; the corrected handler removes `x1`.
   */
  lemma DeleteChangeAsWrittenRemovesWrongChange()
    ensures var dish := Dish("d0", "Latte", "Milk coffee", 3.5, false,
                             [Change("x0", "Extra shot", 0.75), Change("x1", "Oat milk", 0.5)]);
            var menu := [Category("c0", "Drinks", "Hot drinks", [dish])];
            && ChangeDeletedAsWritten(menu, "c0", "d0", "x1") == Some(WithChanges(menu, 0, 0, [Change("x1", "Oat milk", 0.5)]))
            && ChangeDeleted(menu, "c0", "d0", "x1") == Some(WithChanges(menu, 0, 0, [Change("x0", "Extra shot", 0.75)]))
  {
    var dish := Dish("d0", "Latte", "Milk coffee", 3.5, false,
                     [Change("x0", "Extra shot", 0.75), Change("x1", "Oat milk", 0.5)]);
    var menu := [Category("c0", "Drinks", "Hot drinks", [dish])];
    assert CategoryIndex(menu, "c0") == 0 by {
      assert Ids(menu, CategoryId) == ["c0"];
    }
    assert DishIndex(menu[0], "d0") == 0 by {
      assert Ids(menu[0].dish, DishId) == ["d0"];
    }
    assert ChangeIndex(dish, "x1") == 1 by {
      assert Ids(dish.changeList, ChangeId) == ["x0", "x1"];
    }
    assert SpliceOne(dish.changeList, 0) == [Change("x1", "Oat milk", 0.5)] by {
      SpliceCuts(dish.changeList, 0);
    }
    assert SpliceOne(dish.changeList, 1) == [Change("x0", "Extra shot", 0.75)] by {
      SpliceCuts(dish.changeList, 1);
    }
  }

  /**
   * The corrected change delete removes exactly the addressed change of the located dish (with
   * distinct change ids, that id is gone afterwards and the others keep their order).
   */
  lemma DeleteChangeRemovesAddressedChange(menu: seq<Category>, categoryId: Id, dishId: Id, changeId: Id)
    requires ChangeDeleted(menu, categoryId, dishId, changeId).Some?
    requires var ci := CategoryIndex(menu, categoryId);
             changeId in Ids(menu[ci].dish[DishIndex(menu[ci], dishId)].changeList, ChangeId)
    ensures var ci := CategoryIndex(menu, categoryId);
            var di := DishIndex(menu[ci], dishId);
            var changes := menu[ci].dish[di].changeList;
            var xi := ChangeIndex(menu[ci].dish[di], changeId);
            && 0 <= xi < |changes| && changes[xi].id == changeId
            && ChangeDeleted(menu, categoryId, dishId, changeId).value ==
                 WithChanges(menu, ci, di, changes[..xi] + changes[xi + 1..])
            && (Distinct(Ids(changes, ChangeId)) ==>
                  changeId !in Ids(changes[..xi] + changes[xi + 1..], ChangeId))
  {
    var ci := CategoryIndex(menu, categoryId);
    var di := DishIndex(menu[ci], dishId);
    var changes := menu[ci].dish[di].changeList;
    var xi := ChangeIndex(menu[ci].dish[di], changeId);
    SpliceCuts(changes, xi);
    if Distinct(Ids(changes, ChangeId)) {
      SpliceDropsOnlyId(changes, ChangeId, xi);
    }
  }

  // ---------------------------------------------------------------------------------------------
  // The schema's validity (required names, distinct ids per list) survives every edit, given a
  // validated body and, for an added element, a freshly generated id.

  /** A generated id that no category of the menu has. */
  predicate FreshCategoryId(menu: seq<Category>, id: Id) {
    id !in Ids(menu, CategoryId)
  }

  /** A generated id that no dish of the menu has. */
  predicate FreshDishId(menu: seq<Category>, id: Id) {
    forall i :: 0 <= i < |menu| ==> id !in Ids(menu[i].dish, DishId)
  }

  /** A generated id that no change of the menu has. */
  predicate FreshChangeId(menu: seq<Category>, id: Id) {
    forall i, j :: 0 <= i < |menu| && 0 <= j < |menu[i].dish| ==> id !in Ids(menu[i].dish[j].changeList, ChangeId)
  }

  lemma IdsOfPrepend<T>(x: T, s: seq<T>, key: T -> Id)
    ensures Ids([x] + s, key) == [key(x)] + Ids(s, key)
  {
  }

  lemma IdsOfUpdate<T>(s: seq<T>, k: nat, y: T, key: T -> Id)
    requires k < |s| && key(y) == key(s[k])
    ensures Ids(s[k := y], key) == Ids(s, key)
  {
  }

  lemma {:induction false} PrependKeepsDistinct(x: Id, ids: seq<Id>)
    requires Distinct(ids) && x !in ids
    ensures Distinct([x] + ids)
  {
    var r := [x] + ids;
    forall i, j | 0 <= i < j < |r|
      ensures r[i] != r[j]
    {
      assert r[j] == ids[j - 1];
      if i > 0 {
        assert r[i] == ids[i - 1];
      }
    }
  }

  lemma {:induction false} SpliceKeepsDistinct<T>(s: seq<T>, key: T -> Id, start: int)
    requires Distinct(Ids(s, key))
    ensures Distinct(Ids(SpliceOne(s, start), key))
  {
    var k, r, ids := SpliceAt(|s|, start), Ids(SpliceOne(s, start), key), Ids(s, key);
    forall i, j | 0 <= i < j < |r|
      ensures r[i] != r[j]
    {
      var i', j' := if i < k then i else i + 1, if j < k then j else j + 1;
      assert r[i] == ids[i'] && r[j] == ids[j'];
    }
  }

  lemma ReplaceDishKeepsCategoryOk(c: Category, di: nat, d: Dish)
    requires CategoryOk(c) && di < |c.dish| && DishOk(d) && d.id == c.dish[di].id
    ensures CategoryOk(c.(dish := c.dish[di := d]))
  {
    IdsOfUpdate(c.dish, di, d, DishId);
  }

  lemma ReplaceCategoryKeepsMenuOk(menu: seq<Category>, ci: nat, c: Category)
    requires MenuOk(menu) && ci < |menu| && CategoryOk(c) && c.id == menu[ci].id
    ensures MenuOk(menu[ci := c])
  {
    IdsOfUpdate(menu, ci, c, CategoryId);
  }

  /** Adding a valid category under a fresh id keeps the menu valid. */
  lemma AddCategoryKeepsMenuOk(menu: seq<Category>, c: Category)
    requires MenuOk(menu) && CategoryOk(c) && FreshCategoryId(menu, c.id)
    ensures MenuOk([c] + menu)
  {
    IdsOfPrepend(c, menu, CategoryId);
    PrependKeepsDistinct(c.id, Ids(menu, CategoryId));
  }

  /** Adding a valid dish under a fresh id keeps the menu valid. */
  lemma AddDishKeepsMenuOk(menu: seq<Category>, categoryId: Id, d: Dish)
    requires MenuOk(menu) && DishOk(d) && FreshDishId(menu, d.id)
    ensures DishAdded(menu, categoryId, d).Some? ==> MenuOk(DishAdded(menu, categoryId, d).value)
  {
    var ci := CategoryIndex(menu, categoryId);
    if ci >= 0 {
      var c := menu[ci];
      IdsOfPrepend(d, c.dish, DishId);
      PrependKeepsDistinct(d.id, Ids(c.dish, DishId));
      ReplaceCategoryKeepsMenuOk(menu, ci, c.(dish := [d] + c.dish));
    }
  }

  /** Adding a valid change under a fresh id keeps the menu valid. */
  lemma AddChangeKeepsMenuOk(menu: seq<Category>, categoryId: Id, dishId: Id, x: Change)
    requires MenuOk(menu) && ChangeOk(x) && FreshChangeId(menu, x.id)
    ensures ChangeAdded(menu, categoryId, dishId, x).Some? ==> MenuOk(ChangeAdded(menu, categoryId, dishId, x).value)
  {
    var ci := CategoryIndex(menu, categoryId);
    if ci >= 0 {
      var di := DishIndex(menu[ci], dishId);
      if di >= 0 {
        var d := menu[ci].dish[di];
        IdsOfPrepend(x, d.changeList, ChangeId);
        PrependKeepsDistinct(x.id, Ids(d.changeList, ChangeId));
        var d' := d.(changeList := [x] + d.changeList);
        ReplaceDishKeepsCategoryOk(menu[ci], di, d');
        ReplaceCategoryKeepsMenuOk(menu, ci, menu[ci].(dish := menu[ci].dish[di := d']));
      }
    }
  }

  /** Editing a category with validated names keeps the menu valid: no id changes. */
  lemma EditCategoryKeepsMenuOk(menu: seq<Category>, categoryId: Id, name: string, desc: string)
    requires MenuOk(menu) && NotEmpty(name) && NotEmpty(desc)
    ensures CategoryEdited(menu, categoryId, name, desc).Some? ==>
              MenuOk(CategoryEdited(menu, categoryId, name, desc).value)
  {
    var ci := CategoryIndex(menu, categoryId);
    if ci >= 0 {
      ReplaceCategoryKeepsMenuOk(menu, ci, menu[ci].(categoryName := name, categoryDesc := desc));
    }
  }

  /** Editing a dish with validated name and description keeps the menu valid. */
  lemma EditDishKeepsMenuOk(menu: seq<Category>, categoryId: Id, dishId: Id, name: string, desc: string, price: real)
    requires MenuOk(menu) && NotEmpty(name) && NotEmpty(desc)
    ensures DishEdited(menu, categoryId, dishId, name, desc, price).Some? ==>
              MenuOk(DishEdited(menu, categoryId, dishId, name, desc, price).value)
  {
    var ci := CategoryIndex(menu, categoryId);
    if ci >= 0 {
      var c := menu[ci];
      var di := DishIndex(c, dishId);
      if di >= 0 {
        var d := c.dish[di].(dishName := name, dishDesc := desc, dishPrice := price);
        ReplaceDishKeepsCategoryOk(c, di, d);
        ReplaceCategoryKeepsMenuOk(menu, ci, c.(dish := c.dish[di := d]));
      }
    }
  }

  /** Editing a change with a validated name keeps the menu valid, whatever the price. */
  lemma EditChangeKeepsMenuOk(menu: seq<Category>, categoryId: Id, dishId: Id, changeId: Id,
                              name: string, price: Option<real>)
    requires MenuOk(menu) && NotEmpty(name)
    ensures ChangeEdited(menu, categoryId, dishId, changeId, name, price).Some? ==>
              MenuOk(ChangeEdited(menu, categoryId, dishId, changeId, name, price).value)
  {
    var ci := CategoryIndex(menu, categoryId);
    if ci >= 0 {
      var c := menu[ci];
      var di := DishIndex(c, dishId);
      if di >= 0 {
        var d := c.dish[di];
        var xi := ChangeIndex(d, changeId);
        if xi >= 0 {
          var renamed := d.changeList[xi].(changeName := name);
          var x := if Truthy(price) then renamed.(changePrice := price.value) else renamed;
          IdsOfUpdate(d.changeList, xi, x, ChangeId);
          var d' := d.(changeList := d.changeList[xi := x]);
          ReplaceDishKeepsCategoryOk(c, di, d');
          ReplaceCategoryKeepsMenuOk(menu, ci, c.(dish := c.dish[di := d']));
        }
      }
    }
  }

  /** Deleting a category keeps the menu valid. */
  lemma DeleteCategoryKeepsMenuOk(menu: seq<Category>, categoryId: Id)
    requires MenuOk(menu)
    ensures MenuOk(CategoryDeleted(menu, categoryId))
  {
    SpliceKeepsDistinct(menu, CategoryId, CategoryIndex(menu, categoryId));
  }

  /** Deleting a dish keeps the menu valid. */
  lemma DeleteDishKeepsMenuOk(menu: seq<Category>, categoryId: Id, dishId: Id)
    requires MenuOk(menu)
    ensures DishDeleted(menu, categoryId, dishId).Some? ==> MenuOk(DishDeleted(menu, categoryId, dishId).value)
  {
    var ci := CategoryIndex(menu, categoryId);
    if ci >= 0 {
      var c := menu[ci];
      SpliceKeepsDistinct(c.dish, DishId, DishIndex(c, dishId));
      ReplaceCategoryKeepsMenuOk(menu, ci, c.(dish := SpliceOne(c.dish, DishIndex(c, dishId))));
    }
  }

  /** Cutting one change out of a dish of a valid menu, at any start, keeps the menu valid. */
  lemma CutChangeKeepsMenuOk(menu: seq<Category>, ci: nat, di: nat, start: int)
    requires MenuOk(menu) && ci < |menu| && di < |menu[ci].dish|
    ensures MenuOk(WithChanges(menu, ci, di, SpliceOne(menu[ci].dish[di].changeList, start)))
  {
    var c := menu[ci];
    var d := c.dish[di];
    var d' := d.(changeList := SpliceOne(d.changeList, start));
    SpliceKeepsDistinct(d.changeList, ChangeId, start);
    ReplaceDishKeepsCategoryOk(c, di, d');
    ReplaceCategoryKeepsMenuOk(menu, ci, c.(dish := c.dish[di := d']));
  }

  /** Deleting a change keeps the menu valid, with the handler as written and as corrected. */
  lemma DeleteChangeKeepsMenuOk(menu: seq<Category>, categoryId: Id, dishId: Id, changeId: Id)
    requires MenuOk(menu)
    ensures ChangeDeleted(menu, categoryId, dishId, changeId).Some? ==>
              MenuOk(ChangeDeleted(menu, categoryId, dishId, changeId).value)
    ensures ChangeDeletedAsWritten(menu, categoryId, dishId, changeId).Some? ==>
              MenuOk(ChangeDeletedAsWritten(menu, categoryId, dishId, changeId).value)
  {
    var ci := CategoryIndex(menu, categoryId);
    if ci >= 0 {
      var di := DishIndex(menu[ci], dishId);
      if di >= 0 {
        CutChangeKeepsMenuOk(menu, ci, di, ChangeIndex(menu[ci].dish[di], changeId));
        CutChangeKeepsMenuOk(menu, ci, di, di);
      }
    }
  }
}
