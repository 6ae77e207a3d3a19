/** The linked FIFO queue of one price level, updated in place. */
module OrderQueues {
  import opened PriceTime
  import opened Levels

  function Without<T>(s: seq<T>, k: nat): seq<T>
    requires k < |s|
  {
    s[..k] + s[k + 1..]
  }

  lemma {:induction false} TotalConcat(a: seq<Order>, b: seq<Order>)
    ensures Total(a + b) == Total(a) + Total(b)
  {
    if a == [] {
      assert a + b == b;
    } else {
      assert (a + b)[1..] == a[1..] + b;
      TotalConcat(a[1..], b);
    }
  }

  lemma TotalWithout(q: seq<Order>, k: nat)
    requires k < |q|
    ensures Total(Without(q, k)) == Total(q) - q[k].quantity
  {
    assert q == q[..k] + ([q[k]] + q[k + 1..]);
    TotalConcat(q[..k], [q[k]] + q[k + 1..]);
    TotalConcat(q[..k], q[k + 1..]);
  }

  function Taken(orders: seq<Order>, q: int): seq<Order>
    requires orders != []
  {
    if orders[0].quantity == q then orders[1..]
    else [orders[0].(quantity := orders[0].quantity - q)] + orders[1..]
  }

  class OrderNode {
    const id: string
    const userId: string
    const side: Side
    const price: int
    var quantity: int
    var prev: OrderNode?
    var next: OrderNode?

    constructor (o: Order)
      ensures Value() == o && prev == null && next == null
    {
      id, userId, side, price := o.id, o.userId, o.side, o.price;
      quantity, prev, next := o.quantity, null, null;
    }

    ghost function Value(): Order
      reads this`quantity
    {
      Order(id, userId, side, price, quantity)
    }
  }

  class OrderQueue {
    var head: OrderNode?
    var tail: OrderNode?
    var volume: int
    ghost var nodes: seq<OrderNode>
    ghost var orders: seq<Order>

    constructor ()
      ensures Valid() && nodes == [] && orders == []
    {
      head, tail, volume, nodes, orders := null, null, 0, [], [];
    }

    ghost predicate Linked()
      reads `head, `tail, `nodes, nodes`prev, nodes`next
    {
      && (forall i, j | 0 <= i < j < |nodes| :: nodes[i] != nodes[j])
      && (forall i {:trigger nodes[i].next} | 0 <= i < |nodes| - 1 :: nodes[i].next == nodes[i + 1])
      && (forall i {:trigger nodes[i].prev} | 1 <= i < |nodes| :: nodes[i].prev == nodes[i - 1])
      && if nodes == [] then head == null && tail == null
         else && head == nodes[0] && nodes[0].prev == null
              && tail == nodes[|nodes| - 1] && nodes[|nodes| - 1].next == null
    }

    /** The orders are what the nodes hold. */
    ghost predicate Read()
      reads `nodes, `orders, nodes`quantity
    {
      |orders| == |nodes| && forall i | 0 <= i < |nodes| :: orders[i] == nodes[i].Value()
    }

    ghost predicate Valid()
      reads this, nodes
    {
      Linked() && Read() && volume == Total(orders)
    }

    /** The ends and the two views agree on emptiness. */
    lemma Views()
      requires Valid()
      ensures |orders| == |nodes| && (head == null <==> nodes == [])
      ensures nodes != [] ==> head == nodes[0] && orders[0] == head.Value()
    {}

    method Push(order: OrderNode)
      requires Valid() && order !in nodes && order.prev == null && order.next == null
      modifies this, order`prev, order`next, nodes`next
      ensures Valid() && nodes == old(nodes) + [order] && orders == old(orders) + [order.Value()]
    {
      Append(order);
      volume := volume + order.quantity;
      TotalConcat(orders, [order.Value()]);
      orders := orders + [order.Value()];
    }

    /** The pointer part of Push. */
    method Append(order: OrderNode)
      requires Linked() && order !in nodes && order.prev == null && order.next == null
      modifies `head, `tail, `nodes, order`prev, order`next, nodes`next
      ensures Linked() && nodes == old(nodes) + [order]
    {
      if head == null {
        head := order;
        tail := order;
      } else {
        order.prev := tail;
        if tail != null { tail.next := order; }
        tail := order;
      }
      nodes := nodes + [order];
    }

    method Shift() returns (node: OrderNode?)
      requires Valid()
      modifies this, nodes`prev, nodes`next
      ensures Valid() && node == old(head)
      ensures if node == null then nodes == old(nodes) && orders == old(orders)
              else nodes == old(nodes)[1..] && orders == old(orders)[1..]
    {
      if head == null { return null; }
      node := head;
      head := node.next;
      if head != null { head.prev := null; } else { tail := null; }
      node.next := null;
      nodes := nodes[1..];
      orders := orders[1..];
      volume := volume - node.quantity;
    }

    method Remove(order: OrderNode, ghost k: nat)
      requires Valid() && k < |nodes| && nodes[k] == order
      modifies this, nodes`prev, nodes`next
      ensures Valid() && order.prev == null && order.next == null && order !in nodes
      ensures nodes == Without(old(nodes), k) && orders == Without(old(orders), k)
    {
      hide OrderQueue.Linked, Total;
      Unlink(order, k);
      TotalWithout(orders, k);
      orders := Without(orders, k);
      volume := volume - order.quantity;
    }

    /** The pointer part of Remove. */
    method Unlink(order: OrderNode, ghost k: nat)
      requires Linked() && k < |nodes| && nodes[k] == order
      modifies `head, `tail, `nodes, nodes`prev, nodes`next
      ensures Linked() && order.prev == null && order.next == null && order !in nodes
      ensures nodes == Without(old(nodes), k)
    {
      if order.prev != null { order.prev.next := order.next; } else { head := order.next; }
      if order.next != null { order.next.prev := order.prev; } else { tail := order.prev; }
      order.prev := null;
      order.next := null;
      nodes := Without(nodes, k);
    }

    /** Takes q from the oldest order, which leaves once it is used up. */
    method Take(q: int) returns (done: bool)
      requires Valid() && head != null
      modifies this, nodes
      ensures Valid()
      ensures done == (old(head.quantity) == q)
      ensures nodes == if done then old(nodes)[1..] else old(nodes)
      ensures orders == Taken(old(orders), q)
    {
      Reduce(q);
      done := head.quantity == 0;
      if done {
        var _ := Shift();
      }
    }

    method Reduce(q: int)
      requires Valid() && head != null
      modifies `volume, `orders, head`quantity
      ensures Valid() && orders == [old(orders)[0].(quantity := old(orders)[0].quantity - q)] + old(orders)[1..]
      ensures head.quantity == old(head.quantity) - q
    {
      head.quantity := head.quantity - q;
      volume := volume - q;
      orders := [head.Value()] + orders[1..];
    }
  }
}
