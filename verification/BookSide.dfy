/** The heap representation of one symbol's book and the matcher that updates it in place. */
module BookSides {
  import opened PriceTime
  import opened BookLaws
  import opened Levels
  import opened OrderQueues

  /** Prices are sorted and name the levels; orders fit their level and have something left. */
  ghost predicate Tidy(side: Side, prices: seq<int>, book: LevelMap) {
    && Ordered(side, prices) && (forall p :: p in book <==> p in prices) && (forall p | p in prices :: p > 0)
    && forall p, i | p in book && 0 <= i < |book[p]| ::
         book[p][i].side == side && book[p][i].price == p && book[p][i].quantity > 0
  }

  ghost predicate Inhabited(book: LevelMap) {
    forall p | p in book :: book[p] != []
  }

  ghost predicate Sound(side: Side, prices: seq<int>, book: LevelMap) {
    Tidy(side, prices, book) && Inhabited(book)
  }

  ghost predicate CanRest(side: Side, o: Order) {
    o.side == side && o.quantity > 0 && o.price > 0
  }

  lemma JoinSound(side: Side, prices: seq<int>, book: LevelMap, o: Order)
    requires Sound(side, prices, book) && CanRest(side, o) && o.price in book
    ensures var book' := book[o.price := book[o.price] + [o]];
      Sound(side, prices, book') && Flatten(prices, book') == Insert(Flatten(prices, book), o)
  {
    InsertIntoLevel(side, prices, book, o);
  }

  lemma OpenSound(side: Side, prices: seq<int>, book: LevelMap, o: Order)
    requires Sound(side, prices, book) && CanRest(side, o) && o.price !in book
    ensures var book', prices' := book[o.price := []][o.price := [] + [o]], SortPrices(side, prices + [o.price]);
      Sound(side, prices', book') && Flatten(prices', book') == Insert(Flatten(prices, book), o)
  {
    assert [] + [o] == [o] && book[o.price := []][o.price := [o]] == book[o.price := [o]];
    InsertNewLevel(side, prices, book, o);
    PushAndSort(side, prices, o.price);
    InsertPriceKeeps(side, prices, o.price);
  }

  /** The order at k of level p is the only one with its id. */
  ghost predicate OnlyAt(book: LevelMap, p: int, k: nat, id: string) {
    && p in book && k < |book[p]| && book[p][k].id == id
    && (forall x | x in book && x != p :: LacksId(book[x], id))
    && (forall i | 0 <= i < |book[p]| && i != k :: book[p][i].id != id)
  }

  lemma {:induction false} RemoveIsWithout(q: seq<Order>, k: nat, id: string)
    requires k < |q| && q[k].id == id && forall i | 0 <= i < |q| && i != k :: q[i].id != id
    ensures Remove(q, id) == Without(q, k)
  {
    if k == 0 {
      assert LacksId(q[1..], id);
      RemoveAbsent(q[1..], id);
    } else {
      RemoveIsWithout(q[1..], k - 1, id);
      assert Without(q, k) == [q[0]] + Without(q[1..], k - 1);
    }
  }

  lemma CutTidy(side: Side, prices: seq<int>, book: LevelMap, p: int, k: nat, id: string)
    requires Sound(side, prices, book) && OnlyAt(book, p, k, id)
    ensures var book' := book[p := Without(book[p], k)];
      && Tidy(side, prices, book') && (forall x | x in book' && x != p :: book'[x] != [])
      && Flatten(prices, book') == Remove(Flatten(prices, book), id)
  {
    assert forall i, j | 0 <= i < j < |prices| :: prices[i] != prices[j] by {
      assert forall i, j | 0 <= i < j < |prices| :: Better(side, prices[i], prices[j]);
    }
    RemoveFromLevel(prices, book, p, id);
    RemoveIsWithout(book[p], k, id);
  }

  lemma CloseSound(side: Side, prices: seq<int>, book: LevelMap, p: int)
    requires Tidy(side, prices, book) && (forall x | x in book && x != p :: book[x] != [])
    requires p in book && book[p] == []
    ensures Sound(side, WithoutPrice(prices, p), book - {p})
    ensures Flatten(WithoutPrice(prices, p), book - {p}) == Flatten(prices, book)
    ensures Ordered(side, prices)
  {
    WithoutPriceOrdered(side, prices, p);
    WithoutPriceMembers(prices, p);
    DropEmptyLevel(prices, book, p);
  }

  /** In a sorted price array, splicing position i is filtering its price. */
  lemma {:induction false} SpliceIsFilter(side: Side, prices: seq<int>, i: nat)
    requires Ordered(side, prices) && i < |prices|
    ensures WithoutPrice(prices, prices[i]) == prices[..i] + prices[i + 1..]
  {
    if i == 0 {
      WithoutAbsent(prices[1..], prices[0]);
    } else {
      assert Better(side, prices[0], prices[i]);
      SpliceIsFilter(side, prices[1..], i - 1);
    }
  }

  lemma {:induction false} WithoutAbsent(prices: seq<int>, p: int)
    requires forall i | 0 <= i < |prices| :: prices[i] != p
    ensures WithoutPrice(prices, p) == prices
  {
    if prices != [] {
      WithoutAbsent(prices[1..], p);
    }
  }

  lemma {:induction false} DepthAt(prices: seq<int>, book: LevelMap)
    ensures |Depth(prices, book)| == |prices|
    ensures forall i | 0 <= i < |prices| :: Depth(prices, book)[i] == Level(prices[i], Total(At(book, prices[i])))
  {
    if prices != [] {
      DepthAt(prices[1..], book);
    }
  }

  lemma SoundDepth(side: Side, prices: seq<int>, book: LevelMap)
    requires Sound(side, prices, book)
    ensures Depth(prices, book) == Group(Flatten(prices, book)) && |Depth(prices, book)| == |prices|
  {
    DepthIsGroup(side, prices, book);
    DepthAt(prices, book);
  }

  lemma SoundPrice(side: Side, prices: seq<int>, book: LevelMap, i: nat)
    requires Sound(side, prices, book) && i < |prices|
    ensures prices[i] in book && |Depth(prices, book)| == |prices|
    ensures Depth(prices, book)[i] == Level(prices[i], Total(book[prices[i]]))
  {
    DepthAt(prices, book);
  }

  // ----- the queues on the heap ----------------------------------------------------------

  type Queues = map<int, OrderQueue>

  /** The queues hold exactly the members, each at its price, and read as the book. */
  ghost predicate Backing(levels: Queues, book: LevelMap, members: set<OrderNode>)
    reads levels.Values, members
  {
    && book.Keys == levels.Keys
    && (forall p, i | p in levels && 0 <= i < |levels[p].nodes| ::
          levels[p].nodes[i] in members && levels[p].nodes[i].price == p)
    && (forall n | n in members :: n.price in levels && n in levels[n.price].nodes)
    && (forall p | p in levels :: levels[p].Valid() && levels[p].orders == book[p])
  }

  /** The queue of p is nobody else's. */
  ghost predicate Apart(levels: Queues, p: int) {
    p in levels && forall x | x in levels && x != p :: levels[x] != levels[p]
  }

  /** Inhabited queues are distinct, because nodes carry their price. */
  lemma QueuesAreApart(levels: Queues, side: Side, prices: seq<int>, book: LevelMap, members: set<OrderNode>, p: int)
    requires Backing(levels, book, members) && Sound(side, prices, book) && p in levels
    ensures Apart(levels, p)
  {
    forall x | x in levels && x != p ensures levels[x] != levels[p] {
      assert levels[x].nodes[0].price == x;
    }
  }

  lemma BackingFrame(levels: Queues, book: LevelMap, members: set<OrderNode>)
    requires Backing(levels, book, members)
    ensures book.Keys == levels.Keys
    ensures forall p, i | p in levels && 0 <= i < |levels[p].nodes| :: levels[p].nodes[i] in members
  {}

  lemma BackingViews(levels: Queues, book: LevelMap, members: set<OrderNode>, p: int)
    requires Backing(levels, book, members) && p in levels
    ensures p in book && levels[p].Valid() && levels[p].orders == book[p] && |levels[p].nodes| == |book[p]|
    ensures levels[p].head == null <==> book[p] == []
  {}

  lemma BackingVolume(levels: Queues, book: LevelMap, members: set<OrderNode>, p: int)
    requires Backing(levels, book, members) && p in book
    ensures p in levels && levels[p].volume == Total(book[p])
  {}

  method PushAmong(levels: Queues, ghost book: LevelMap, ghost members: set<OrderNode>, node: OrderNode)
    requires Backing(levels, book, members) && Apart(levels, node.price) && node.price in book && node !in members
    requires node.prev == null && node.next == null
    modifies levels[node.price], levels[node.price].nodes`next, node`prev, node`next
    ensures Backing(levels, book[node.price := book[node.price] + [node.Value()]], members + {node})
  {
    hide OrderQueue.Valid;
    levels[node.price].Push(node);
  }

  lemma OnlyHolder(levels: Queues, book: LevelMap, members: set<OrderNode>, node: OrderNode) returns (k: nat)
    requires Backing(levels, book, members) && node in members
    requires forall n | n in members && n != node :: n.id != node.id
    ensures node.price in levels && OnlyAt(book, node.price, k, node.id)
    ensures k < |levels[node.price].nodes| && levels[node.price].nodes[k] == node
  {
    var p := node.price;
    k :| 0 <= k < |levels[p].nodes| && levels[p].nodes[k] == node;
    forall x, i | x in book && 0 <= i < |book[x]| && !(x == p && i == k) ensures book[x][i].id != node.id {
      assert levels[x].Valid() && book[x][i] == levels[x].nodes[i].Value();
      assert levels[x].nodes[i] in members;
    }
  }

  method RemoveAmong(levels: Queues, ghost book: LevelMap, ghost members: set<OrderNode>, node: OrderNode, ghost k: nat)
    requires Backing(levels, book, members) && Apart(levels, node.price) && node in members
    requires node.price in book && k < |book[node.price]|
    requires k < |levels[node.price].nodes| && levels[node.price].nodes[k] == node
    modifies levels[node.price], levels[node.price].nodes`prev, levels[node.price].nodes`next
    ensures Backing(levels, book[node.price := Without(book[node.price], k)], members - {node})
  {
    hide OrderQueue.Valid;
    levels[node.price].Remove(node, k);
  }

  /** The orders of a side are its members, read. */
  lemma OrdersAreMembers(levels: Queues, side: Side, prices: seq<int>, book: LevelMap, members: set<OrderNode>)
    requires Backing(levels, book, members) && Sound(side, prices, book)
    ensures forall o | o in Flatten(prices, book) :: exists n :: n in members && n.id == o.id
    ensures forall n | n in members :: n.side == side && n.Value() in Flatten(prices, book)
  {
    forall o | o in Flatten(prices, book) ensures exists n :: n in members && n.id == o.id {
      var p, i := InFlatten(prices, book, o);
      assert levels[p].Valid() && o == levels[p].nodes[i].Value();
    }
    forall n | n in members ensures n.side == side && n.Value() in Flatten(prices, book) {
      var p := n.price;
      var i :| 0 <= i < |levels[p].nodes| && levels[p].nodes[i] == n;
      assert levels[p].Valid() && book[p][i] == n.Value();
      FlattenHolds(prices, book, p, i);
    }
  }

  lemma {:induction false} InFlatten(prices: seq<int>, book: LevelMap, o: Order) returns (p: int, i: nat)
    requires o in Flatten(prices, book)
    ensures p in book && i < |book[p]| && book[p][i] == o
  {
    if o in At(book, prices[0]) {
      p := prices[0];
      i :| 0 <= i < |book[p]| && book[p][i] == o;
    } else {
      p, i := InFlatten(prices[1..], book, o);
    }
  }

  lemma {:induction false} FlattenHolds(prices: seq<int>, book: LevelMap, p: int, i: nat)
    requires p in prices && p in book && i < |book[p]|
    ensures book[p][i] in Flatten(prices, book)
  {
    if prices[0] != p {
      FlattenHolds(prices[1..], book, p, i);
    } else {
      assert book[p][i] in At(book, p);
    }
  }

  /** A price-to-queue map and its sorted price array, which always travel together. */
  class BookSide {
    const side: Side
    var levels: map<int, OrderQueue>
    var prices: seq<int>
    ghost var book: LevelMap
    ghost var members: set<OrderNode>

    constructor (side: Side)
      ensures Valid() && fresh(Footprint()) && this.side == side && Orders() == [] && members == {}
    {
      this.side, levels, prices := side, map[], [];
      book, members := map[], {};
    }

    ghost function Footprint(): set<object>
      reads this
    {
      {this} + levels.Values + members
    }

    ghost predicate Valid()
      reads Footprint()
    {
      Backing(levels, book, members) && Sound(side, prices, book)
    }

    /** The side in matching order. */
    ghost function Orders(): seq<Order>
      reads this
    {
      Flatten(prices, book)
    }

    lemma OrdersAreItsMembers()
      requires Valid()
      ensures forall o | o in Orders() :: exists n :: n in members && n.id == o.id
      ensures forall n | n in members :: n.side == side && n.Value() in Orders()
    {
      OrdersAreMembers(levels, side, prices, book, members);
    }

    /** Joins the queue of the node's price, opening a level if there is none. */
    method InsertResting(node: OrderNode)
      requires Valid() && CanRest(side, node.Value())
      requires node !in members && node.prev == null && node.next == null
      modifies Footprint(), node`prev, node`next
      ensures Valid() && members == old(members) + {node} && fresh(Footprint() - old(Footprint()) - {node})
      ensures Orders() == Insert(old(Orders()), node.Value())
    {
      hide OrderQueue.Valid, Backing, Sound, CanRest;
      ghost var o := node.Value();
      BackingFrame(levels, book, members);
      if node.price in levels {
        JoinSound(side, prices, book, o);
        QueuesAreApart(levels, side, prices, book, members, node.price);
      } else {
        OpenSound(side, prices, book, o);
        OpenLevel(node.price);
        BackingFrame(levels, book, members);
      }
      PushAmong(levels, book, members, node);
      members, book := members + {node}, book[node.price := book[node.price] + [o]];
    }

    method OpenLevel(p: int)
      requires Valid() && p !in levels
      modifies `levels, `prices, `book
      ensures prices == SortPrices(side, old(prices) + [p]) && book == old(book)[p := []] && p in levels
      ensures Backing(levels, book, members) && Apart(levels, p) && fresh(levels.Values - old(levels.Values))
    {
      hide OrderQueue.Valid, Sound;
      var queue := new OrderQueue();
      levels := levels[p := queue];
      prices := SortPrices(side, prices + [p]);
      book := book[p := []];
    }

    /** Unlinks a resting node; a level that becomes empty is closed. */
    method RemoveResting(node: OrderNode)
      requires Valid() && node in members
      requires forall n | n in members && n != node :: n.id != node.id
      modifies Footprint()
      ensures Valid() && members == old(members) - {node} && Footprint() <= old(Footprint())
      ensures Orders() == Remove(old(Orders()), node.id)
    {
      hide OrderQueue.Valid, Backing, Sound, Tidy;
      var p := node.price;
      ghost var k := OnlyHolder(levels, book, members, node);
      QueuesAreApart(levels, side, prices, book, members, p);
      CutTidy(side, prices, book, p, k, node.id);
      BackingFrame(levels, book, members);
      RemoveAmong(levels, book, members, node, k);
      members, book := members - {node}, book[p := Without(book[p], k)];
      CloseIfEmpty(p);
    }

    /** Closes a level whose queue has no head, filtering its price out. */
    method CloseIfEmpty(p: int)
      requires Backing(levels, book, members) && Tidy(side, prices, book) && p in levels
      requires forall x | x in book && x != p :: book[x] != []
      modifies `levels, `prices, `book
      ensures Valid() && Orders() == old(Orders()) && Footprint() <= old(Footprint())
    {
      hide OrderQueue.Valid, Tidy;
      levels[p].Views();
      if levels[p].head == null {
        CloseSound(side, prices, book, p);
        levels := levels - {p};
        prices := WithoutPrice(prices, p);
        book := book - {p};
      }
    }

    /** Closes the empty level at position i, splicing its price out. */
    method Splice(i: nat)
      requires Backing(levels, book, members) && Tidy(side, prices, book) && i < |prices| && prices[i] in book
      requires book[prices[i]] == [] && forall x | x in book && x != prices[i] :: book[x] != []
      modifies `levels, `prices, `book
      ensures Valid() && Orders() == old(Orders()) && Footprint() <= old(Footprint())
      ensures prices == old(prices)[..i] + old(prices)[i + 1..]
    {
      hide OrderQueue.Valid, Tidy;
      CloseSound(side, prices, book, prices[i]);
      SpliceIsFilter(side, prices, i);
      BackingViews(levels, book, members, prices[i]);
      levels := levels - {prices[i]};
      book := book - {prices[i]};
      prices := prices[..i] + prices[i + 1..];
    }

    /** The best levels, with the volume each queue keeps. */
    method Published() returns (depth: seq<Level>)
      requires Valid()
      ensures depth == Best(Group(Orders()))
    {
      hide OrderQueue.Valid, Sound, Tidy;
      SoundDepth(side, prices, book);
      var n := Min(PUBLISHED_LEVELS, |prices|);
      depth := [];
      for i := 0 to n
        invariant depth == Depth(prices, book)[..i]
      {
        SoundPrice(side, prices, book, i);
        BackingVolume(levels, book, members, prices[i]);
        depth := depth + [Level(prices[i], levels[prices[i]].volume)];
      }
    }
  }
}
