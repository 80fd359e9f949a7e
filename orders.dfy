/**
 * The order route: POST /:user_id validates the body, adds up the price of the submitted items
 * in a loop, and upserts the order stored under the URL key.
 */
module Orders {
  import opened Common
  import opened OrderModel

  // ---------------------------------------------------------------------------------------------
  // The price of a list of items

  /** The modifiers an item lists; an item without a `changeList` has none to add. */
  function Listed(item: OrderItem): seq<OrderChange> {
    item.changeList.GetOr([])
  }

  /** Every item carries a `changeList`, so the price loop can walk all of them. */
  predicate AllListed(items: seq<OrderItem>) {
    forall i :: 0 <= i < |items| ==> items[i].changeList.Some?
  }

  /**
   * Every price the loop adds is present. Adding a missing (`undefined`) price makes the sum
   * `NaN`, and it stays `NaN` whatever is added after it.
   */
  predicate AllPriced(items: seq<OrderItem>) {
    forall i :: 0 <= i < |items| ==> Priced(items[i])
  }

  predicate Priced(item: OrderItem) {
    item.dishPrice.Some? && ChangesPriced(Listed(item))
  }

  predicate ChangesPriced(changes: seq<OrderChange>) {
    forall k :: 0 <= k < |changes| ==> changes[k].changePrice.Some?
  }

  /** A price as a number to add; a missing one counts 0 here, and `AllPriced` says when none is. */
  function Amount(price: Option<real>): real {
    price.GetOr(0.0)
  }

  /**
   * The sum of the modifier prices, taken in list order. Modifiers priced at 0 or more never
   * make it negative.
   */
  function ChangesTotal(changes: seq<OrderChange>): (r: real)
    ensures (forall k :: 0 <= k < |changes| ==> Amount(changes[k].changePrice) >= 0.0) ==> r >= 0.0
  {
    if |changes| == 0 then 0.0
    else ChangesTotal(changes[..|changes| - 1]) + Amount(changes[|changes| - 1].changePrice)
  }

  /**
   * What one item adds to the total: its dish price and all of its modifier prices, so never
   * less than the dish price when no modifier is priced below 0.
   */
  function ItemPrice(item: OrderItem): (r: real)
    ensures (forall k :: 0 <= k < |Listed(item)| ==> Amount(Listed(item)[k].changePrice) >= 0.0) ==>
              r >= Amount(item.dishPrice)
  {
    Amount(item.dishPrice) + ChangesTotal(Listed(item))
  }

  /**
   * The order total: the item prices added up in list order. Items that each cost 0 or more
   * give a total of 0 or more, and never less than any one item's price.
   */
  function Total(items: seq<OrderItem>): (r: real)
    ensures (forall k :: 0 <= k < |items| ==> ItemPrice(items[k]) >= 0.0) ==>
              && r >= 0.0
              && (forall k :: 0 <= k < |items| ==> r >= ItemPrice(items[k]))
  {
    if |items| == 0 then 0.0
    else Total(items[..|items| - 1]) + ItemPrice(items[|items| - 1])
  }

  /**
   * The inner loop over one item's modifiers: their sum, and whether a missing price made it
   * `NaN`.
   */
  method AddChanges(changes: seq<OrderChange>) returns (sum: real, nan: bool)
    ensures nan <==> !ChangesPriced(changes)
    ensures sum == ChangesTotal(changes)
  {
    sum, nan := 0.0, false;
    for j := 0 to |changes|
      invariant sum == ChangesTotal(changes[..j])
      invariant nan <==> !ChangesPriced(changes[..j])
    {
      assert changes[..j + 1][..j] == changes[..j];
      sum, nan := sum + Amount(changes[j].changePrice), nan || changes[j].changePrice.None?;
    }
    assert changes[..|changes|] == changes;
  }

  /**
   * The accumulation loop of the handler. It runs outside the handler's try/catch: reaching an
   * item without a `changeList` throws (`thrown`), after that item's dish price was added.
   * Otherwise the sum is `NaN` (`nan`) exactly when some price is missing, and is `Total(items)`
   * when none is.
   */
  method ComputePrice(items: seq<OrderItem>) returns (price: real, nan: bool, thrown: bool)
    ensures thrown <==> !AllListed(items)
    ensures !thrown ==> (nan <==> !AllPriced(items))
    ensures !thrown && !nan ==> price == Total(items)
  {
    price, nan := 0.0, false;
    for i := 0 to |items|
      invariant price == Total(items[..i])
      invariant AllListed(items[..i])
      invariant nan <==> !AllPriced(items[..i])
    {
      assert items[..i + 1][..i] == items[..i];
      price, nan := price + Amount(items[i].dishPrice), nan || items[i].dishPrice.None?;
      if items[i].changeList.None? {
        return price, nan, true;
      }
      var sum, missing := AddChanges(items[i].changeList.value);
      price, nan := price + sum, nan || missing;
    }
    assert items[..|items|] == items;
    return price, nan, false;
  }

  lemma {:induction false} ChangesTotalAppend(a: seq<OrderChange>, b: seq<OrderChange>)
    ensures ChangesTotal(a + b) == ChangesTotal(a) + ChangesTotal(b)
    decreases |b|
  {
    if |b| == 0 {
      assert a + b == a;
    } else {
      var last := |b| - 1;
      assert (a + b)[..|a + b| - 1] == a + b[..last];
      ChangesTotalAppend(a, b[..last]);
    }
  }

  /** The total is additive: pricing two lists separately and adding gives the joint price. */
  lemma {:induction false} TotalAppend(a: seq<OrderItem>, b: seq<OrderItem>)
    ensures Total(a + b) == Total(a) + Total(b)
    decreases |b|
  {
    if |b| == 0 {
      assert a + b == a;
    } else {
      var last := |b| - 1;
      assert (a + b)[..|a + b| - 1] == a + b[..last];
      TotalAppend(a, b[..last]);
    }
  }

  /** An item alone costs its dish price plus its modifiers; with no modifiers, just the dish price. */
  lemma SingleItemTotal(item: OrderItem)
    ensures Total([item]) == Amount(item.dishPrice) + ChangesTotal(Listed(item))
    ensures Listed(item) == [] ==> Total([item]) == Amount(item.dishPrice)
  {
    assert [item][..0] == [];
  }

  // A reference definition of the same total, summed from the front: all dish prices, plus all
  // modifier prices of all items.

  function DishPricesSum(items: seq<OrderItem>): real {
    if |items| == 0 then 0.0 else Amount(items[0].dishPrice) + DishPricesSum(items[1..])
  }

  function AllChanges(items: seq<OrderItem>): seq<OrderChange> {
    if |items| == 0 then [] else Listed(items[0]) + AllChanges(items[1..])
  }

  /** The loop's total is the sum of all dish prices plus the sum of all modifier prices. */
  lemma {:induction false} TotalIsDishesPlusChanges(items: seq<OrderItem>)
    ensures Total(items) == DishPricesSum(items) + ChangesTotal(AllChanges(items))
  {
    if |items| != 0 {
      TotalIsDishesPlusChanges(items[1..]);
      assert items == [items[0]] + items[1..];
      TotalAppend([items[0]], items[1..]);
      SingleItemTotal(items[0]);
      ChangesTotalAppend(Listed(items[0]), AllChanges(items[1..]));
    }
  }

  // ---------------------------------------------------------------------------------------------
  // The request and the upsert

  /** The body fields the handler reads; `None` is a missing (empty) field. */
  datatype OrderBody = OrderBody(tableNumber: Option<int>, items: Option<seq<OrderItem>>, tip: Option<real>)

  /** The three `notEmpty()` checks. */
  predicate OrderBodyOk(b: OrderBody) {
    b.tableNumber.Some? && b.items.Some? && b.tip.Some?
  }

  function Find(orders: map<Id, Order>, key: Id): Option<Order> {
    if key in orders then Some(orders[key]) else None
  }

  /**
   * The order the upsert leaves under `key`: the `$set` fields replace those of an existing order,
   * which keeps its `status` and `date`; otherwise a new order gets the schema defaults.
   */
  function Posted(existing: Option<Order>, key: Id, tableNumber: int, items: seq<OrderItem>,
                  tip: real, totalPrice: real, now: int): (o: Order)
    ensures o.user == key && o.tableNumber == tableNumber && o.items == items
    ensures o.tip == tip && o.totalPrice == totalPrice
    ensures existing.Some? ==> o.status == existing.value.status && o.date == existing.value.date
    ensures existing.None? ==> !o.status && o.date == now
  {
    match existing
    case None => NewOrder(key, tableNumber, items, tip, totalPrice, now)
    case Some(prior) => prior.(user := key, tableNumber := tableNumber, items := items, totalPrice := totalPrice, tip := tip)
  }

  /** Posting twice under one key leaves one order with the latest fields and the first date and status. */
  lemma PostTwiceKeepsLatest(existing: Option<Order>, key: Id,
                             t1: int, items1: seq<OrderItem>, tip1: real, p1: real, now1: int,
                             t2: int, items2: seq<OrderItem>, tip2: real, p2: real, now2: int)
    ensures Posted(Some(Posted(existing, key, t1, items1, tip1, p1, now1)), key, t2, items2, tip2, p2, now2)
            == Posted(existing, key, t2, items2, tip2, p2, now1)
  {
  }

  /** The stored orders, one per URL key. */
  class OrderStore {
    var orders: map<Id, Order>

    constructor ()
      ensures orders == map[]
    {
      orders := map[];
    }

    /**
     * POST /:user_id. `reply` is `None` when the price loop throws: the exception escapes the
     * handler, no reply is sent and nothing is stored. A `NaN` total fails the cast of
     * `totalPrice` to a Number inside the upsert: 500, nothing stored. `order` is the document
     * sent back.
     */
    method PostOrder(key: Id, body: OrderBody, now: int) returns (reply: Option<Status>, order: Option<Order>)
      modifies this
      ensures !OrderBodyOk(body) ==> reply == Some(BadRequest400) && order.None? && orders == old(orders)
      ensures OrderBodyOk(body) && !AllListed(body.items.value) ==>
                reply.None? && order.None? && orders == old(orders)
      ensures OrderBodyOk(body) && AllListed(body.items.value) && !AllPriced(body.items.value) ==>
                reply == Some(ServerError500) && order.None? && orders == old(orders)
      ensures OrderBodyOk(body) && AllListed(body.items.value) && AllPriced(body.items.value) ==>
                && reply == Some(Ok200)
                && order == Some(Posted(Find(old(orders), key), key, body.tableNumber.value, body.items.value,
                                        body.tip.value, Total(body.items.value), now))
                && orders == old(orders)[key := order.value]
    {
      if !OrderBodyOk(body) {
        return Some(BadRequest400), None;
      }
      var items := body.items.value;
      var price, nan, thrown := ComputePrice(items);
      if thrown {
        return None, None;
      }
      if nan {
        return Some(ServerError500), None;
      }
      var o := Posted(Find(orders, key), key, body.tableNumber.value, items, body.tip.value, price, now);
      orders := orders[key := o];
      return Some(Ok200), Some(o);
    }
  }
}
