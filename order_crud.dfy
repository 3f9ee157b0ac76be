/**
 * The order table of the order service (order_service/crud.py). Orders are
 * kept by primary key; each new key is fresh, taken from an auto-increment
 * counter. Update and delete act only on a row that has both the requested id
 * and the caller as owner; for any other request they return None and change
 * nothing.
 */
module OrderCrud {
  import opened Common

  /** The create and update request body (schemas.OrderCreate): no owner, no id, no status. */
  datatype OrderCreate = OrderCreate(product: string, quantity: int)

  datatype Order = Order(id: int, userId: int, product: string, quantity: int, status: string)

  const Pending := "pending"

  /** The ownership filter shared by get, update and delete: `id == order_id AND user_id == caller`. */
  predicate Owns(orders: map<int, Order>, orderId: int, userId: int) {
    orderId in orders && orders[orderId].userId == userId
  }

  /** Ids strictly increase along `s`, so no order is listed twice. */
  ghost predicate IdsIncreasing(s: seq<Order>) {
    forall i, j :: 0 <= i < j < |s| ==> s[i].id < s[j].id
  }

  class OrderTable {
    var orders: map<int, Order>
    var nextId: int

    /** Every row is stored under its own id, below the next id to be handed out. */
    ghost predicate Valid()
      reads this
    {
      && nextId >= 1
      && forall id :: id in orders ==> 1 <= id < nextId && orders[id].id == id
    }

    constructor ()
      ensures Valid() && orders == map[] && nextId == 1
    {
      orders := map[];
      nextId := 1;
    }

    /**
     * `create_order`: a new row under a fresh id, owned by `userId`, with the
     * body's product and quantity and status "pending". Earlier rows stay as
     * they were.
     */
    method CreateOrder(input: OrderCreate, userId: int) returns (o: Order)
      requires Valid()
      modifies this
      ensures Valid()
      ensures o == Order(old(nextId), userId, input.product, input.quantity, Pending)
      ensures o.id !in old(orders) && orders == old(orders)[o.id := o]
      ensures |orders| == |old(orders)| + 1
      ensures nextId == old(nextId) + 1
    {
      o := Order(nextId, userId, input.product, input.quantity, Pending);
      orders := orders[nextId := o];
      nextId := nextId + 1;
    }

    /** `get_order`: the row with this id whoever owns it, or None. */
    function GetOrder(orderId: int): (r: Option<Order>)
      reads this
      requires Valid()
      ensures r.Some? <==> orderId in orders
      ensures r.Some? ==> r.value.id == orderId && r.value == orders[orderId]
    {
      if orderId in orders then Some(orders[orderId]) else None
    }

    /**
     * `get_orders_by_user`: exactly the rows owned by `userId`, each once, in
     * key order (the query has no ORDER BY; key order is the model's choice).
     */
    method GetOrdersByUser(userId: int) returns (r: seq<Order>)
      requires Valid()
      ensures forall o :: o in r ==> o.id in orders && orders[o.id] == o && o.userId == userId
      ensures forall id :: id in orders && orders[id].userId == userId ==> orders[id] in r
      ensures IdsIncreasing(r)
    {
      r := [];
      var i := 1;
      while i < nextId
        invariant 1 <= i <= nextId
        invariant forall o :: o in r ==> o.id in orders && orders[o.id] == o && o.userId == userId && o.id < i
        invariant forall id :: id in orders && id < i && orders[id].userId == userId ==> orders[id] in r
        invariant IdsIncreasing(r)
      {
        if i in orders && orders[i].userId == userId {
          r := r + [orders[i]];
        }
        i := i + 1;
      }
    }

    /**
     * `update_order`: when `userId` owns order `orderId`, overwrite both its
     * product and quantity (not a partial update), keep its id, owner and
     * status, and return it; otherwise None. No other row changes.
     */
    method UpdateOrder(orderId: int, userId: int, data: OrderCreate) returns (r: Option<Order>)
      requires Valid()
      modifies this
      ensures Valid() && nextId == old(nextId)
      ensures !Owns(old(orders), orderId, userId) ==> r == None && orders == old(orders)
      ensures Owns(old(orders), orderId, userId) ==>
        && r.Some?
        && r.value == Order(orderId, userId, data.product, data.quantity, old(orders)[orderId].status)
        && orders == old(orders)[orderId := r.value]
      ensures orders.Keys == old(orders).Keys
      ensures forall id :: id in old(orders) && id != orderId ==> orders[id] == old(orders)[id]
    {
      if !(orderId in orders && orders[orderId].userId == userId) {
        return None;
      }
      var updated := orders[orderId].(product := data.product, quantity := data.quantity);
      orders := orders[orderId := updated];
      return Some(updated);
    }

    /**
     * `delete_order`: when `userId` owns order `orderId`, remove exactly that
     * row and return it; otherwise None and nothing changes.
     */
    method DeleteOrder(orderId: int, userId: int) returns (r: Option<Order>)
      requires Valid()
      modifies this
      ensures Valid() && nextId == old(nextId)
      ensures !Owns(old(orders), orderId, userId) ==> r == None && orders == old(orders)
      ensures Owns(old(orders), orderId, userId) ==>
        && r == Some(old(orders)[orderId])
        && orders == old(orders) - {orderId}
        && |orders| == |old(orders)| - 1
      ensures forall id :: id in old(orders) && id != orderId ==> id in orders && orders[id] == old(orders)[id]
    {
      if !(orderId in orders && orders[orderId].userId == userId) {
        return None;
      }
      var removed := orders[orderId];
      orders := orders - {orderId};
      return Some(removed);
    }
  }
}
