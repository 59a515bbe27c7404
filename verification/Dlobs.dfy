/** The mutable order book: the loops of the source, proved against the book functions. */
module Dlobs {
  import opened Collections
  import opened Orders
  import opened Nodes
  import opened OrderLists
  import opened Books
  import opened Queries

  // ----- loop steps of a promotion -----

  function Only(h: Heap, keys: set<Sig>): Heap {
    map s | s in h && s in keys :: h[s]
  }

  lemma ReadyStep(h: Heap, done: set<Sig>, s: Sig, slot: nat)
    requires s in h
    ensures var resting := IsRestingLimitOrder(h[s].node.order, slot);
            && Ready(Only(h, done + {s}), slot)
              == (if resting then Ready(Only(h, done), slot)[s := h[s]] else Ready(Only(h, done), slot))
            && Kept(Only(h, done + {s}), slot)
              == (if resting then Kept(Only(h, done), slot) else Kept(Only(h, done), slot)[s := h[s]])
  {}

  lemma AbsorbedStep(l: ListState, h: Heap, s: Sig, d: DirectionalNode, side: Side)
    requires d.node.Key() == s
    ensures Absorbed(l, h[s := d], side) == Absorbed(l, h, side).Inserted(d.node, side)
  {
    NodesOfStep(h, s, d);
    TurnedStep(h, s, d, l.Dir(side));
    UnionStep(l.sigs, NodesOf(h), s, d.node);
    UnionStep(l.Heap(side), Turned(h, l.Dir(side)), s, DirectionalNode(d.node, l.Dir(side)));
  }

  lemma UnionStep<K, V>(m: map<K, V>, n: map<K, V>, k: K, v: V)
    ensures m + n[k := v] == (m + n)[k := v]
  {}

  lemma NodesOfStep(h: Heap, s: Sig, d: DirectionalNode)
    ensures NodesOf(h[s := d]) == NodesOf(h)[s := d.node]
  {}

  lemma TurnedStep(h: Heap, s: Sig, d: DirectionalNode, dir: SortDirection)
    ensures Turned(h[s := d], dir) == Turned(h, dir)[s := DirectionalNode(d.node, dir)]
  {}

  lemma AbsorbedNothing(l: ListState, side: Side)
    ensures Absorbed(l, map[], side) == l
  {
    assert NodesOf(map[]) == map[] && Turned(map[], l.Dir(side)) == map[];
    assert l.sigs + map[] == l.sigs && l.Heap(side) + map[] == l.Heap(side);
  }

  /** `l` and `acc` after promoting the keys `done` of `h`. */
  ghost predicate SidePromoted(l0: ListState, acc0: Heap, h: Heap, done: set<Sig>, slot: nat, side: Side, l: ListState,
                               acc: Heap) {
    && l == Absorbed(l0, Ready(Only(h, done), slot), side)
    && acc == acc0 + Kept(Only(h, done), slot)
  }

  lemma SidePromotedNothing(l0: ListState, acc0: Heap, h: Heap, slot: nat, side: Side)
    ensures SidePromoted(l0, acc0, h, {}, slot, side, l0, acc0)
  {
    AbsorbedNothing(l0, side);
    assert Ready(Only(h, {}), slot) == map[] && Kept(Only(h, {}), slot) == map[];
  }

  lemma SidePromotedStep(l0: ListState, acc0: Heap, h: Heap, done: set<Sig>, s: Sig, slot: nat, side: Side,
                         l: ListState, acc: Heap)
    requires SidePromoted(l0, acc0, h, done, slot, side, l, acc) && s in h && h[s].node.Key() == s
    ensures if IsRestingLimitOrder(h[s].node.order, slot)
            then SidePromoted(l0, acc0, h, done + {s}, slot, side, l.Inserted(h[s].node, side), acc)
            else SidePromoted(l0, acc0, h, done + {s}, slot, side, l, acc[s := h[s]])
  {
    ReadyStep(h, done, s, slot);
    if IsRestingLimitOrder(h[s].node.order, slot) {
      AbsorbedStep(l0, Ready(Only(h, done), slot), s, h[s], side);
    } else {
      UnionStep(acc0, Kept(Only(h, done), slot), s, h[s]);
    }
  }

  /** Promotes one taking heap: resting nodes into `resting`, the others into the accumulator. */
  method PromoteSide(h: Heap, side: Side, slot: nat, resting: Orderlist, acc: Heap) returns (acc': Heap)
    requires forall s :: s in h ==> h[s].node.Key() == s
    modifies resting
    ensures resting.State() == Absorbed(old(resting.State()), Ready(h, slot), side)
    ensures acc' == acc + Kept(h, slot)
  {
    acc' := acc;
    var todo := h.Keys;
    ghost var l0, done := resting.State(), {};
    SidePromotedNothing(l0, acc, h, slot, side);
    while todo != {}
      invariant todo <= h.Keys && done == h.Keys - todo
      invariant SidePromoted(l0, acc, h, done, slot, side, resting.State(), acc')
    {
      var s :| s in todo;
      SidePromotedStep(l0, acc, h, done, s, slot, side, resting.State(), acc');
      if IsRestingLimitOrder(h[s].node.order, slot) {
        resting.Insert(h[s].node, side);
      } else {
        acc' := acc'[s := h[s]];
      }
      todo, done := todo - {s}, done + {s};
    }
    assert Only(h, h.Keys) == h;
  }

  /** Promotes one market against the shared accumulators. */
  method PromoteMarket(m: MarketLists, slot: nat, bids: Heap, asks: Heap)
    returns (m': MarketLists, bids': Heap, asks': Heap)
    requires m.WellFormed()
    ensures bids' == bids + Kept(m.taking.bids, slot) && asks' == asks + Kept(m.taking.asks, slot)
    ensures m' == PromotedMarket(m, slot, bids', asks')
  {
    assert m.List(TakingLimit).WellKeyed();
    var resting := new Orderlist(m.resting);
    bids' := PromoteSide(m.taking.bids, Bid, slot, resting, bids);
    asks' := PromoteSide(m.taking.asks, Ask, slot, resting, asks);
    m' := m.(resting := resting.State(), taking := m.taking.(bids := bids', asks := asks'));
  }

  lemma {:induction false} KeptUpToPrefix(ms: Markets, visit: seq<nat>, i: nat, n: nat, slot: nat, side: Side)
    requires n <= |visit| && i in ms && forall k :: k in visit ==> k in ms
    ensures forall k :: k in visit + [i] ==> k in ms
    ensures KeptUpTo(ms, visit + [i], n, slot, side) == KeptUpTo(ms, visit, n, slot, side)
  {
    if n == 0 {
    } else {
      KeptUpToPrefix(ms, visit, i, n - 1, slot, side);
    }
  }

  lemma PromotedAtPrefix(ms: Markets, visit: seq<nat>, i: nat, slot: nat)
    requires i in ms && forall k :: k in visit ==> k in ms
    ensures forall k :: k in visit + [i] ==> k in ms
    ensures forall j :: 0 <= j < |visit| ==> PromotedAt(ms, visit + [i], j, slot) == PromotedAt(ms, visit, j, slot)
    ensures PromotedAt(ms, visit + [i], |visit|, slot)
         == PromotedMarket(ms[i], slot, KeptUpTo(ms, visit, |visit|, slot, Bid) + Kept(ms[i].taking.bids, slot),
                           KeptUpTo(ms, visit, |visit|, slot, Ask) + Kept(ms[i].taking.asks, slot))
  {
    forall j | 0 <= j < |visit| ensures PromotedAt(ms, visit + [i], j, slot) == PromotedAt(ms, visit, j, slot) {
      KeptUpToPrefix(ms, visit, i, j + 1, slot, Bid);
      KeptUpToPrefix(ms, visit, i, j + 1, slot, Ask);
    }
    KeptUpToPrefix(ms, visit, i, |visit|, slot, Bid);
    KeptUpToPrefix(ms, visit, i, |visit|, slot, Ask);
  }

  /** The markets after the ones in `visit` were promoted. */
  ghost predicate Promoting(src: Markets, cur: Markets, slot: nat, visit: seq<nat>, bids: Heap, asks: Heap) {
    && (forall k :: k in visit ==> k in src)
    && cur.Keys == src.Keys
    && bids == KeptUpTo(src, visit, |visit|, slot, Bid)
    && asks == KeptUpTo(src, visit, |visit|, slot, Ask)
    && forall j :: 0 <= j < |visit| ==> cur[visit[j]] == PromotedAt(src, visit, j, slot)
  }

  lemma PromotingStep(src: Markets, cur: Markets, slot: nat, visit: seq<nat>, i: nat, bids: Heap, asks: Heap)
    requires Promoting(src, cur, slot, visit, bids, asks) && i in src && i !in visit
    ensures var bids', asks' := bids + Kept(src[i].taking.bids, slot), asks + Kept(src[i].taking.asks, slot);
            Promoting(src, cur[i := PromotedMarket(src[i], slot, bids', asks')], slot, visit + [i], bids', asks')
  {
    hide PromotedAt, PromotedMarket, Kept;
    var bids', asks' := bids + Kept(src[i].taking.bids, slot), asks + Kept(src[i].taking.asks, slot);
    var cur' := cur[i := PromotedMarket(src[i], slot, bids', asks')];
    PromotedAtPrefix(src, visit, i, slot);
    KeptUpToPrefix(src, visit, i, |visit|, slot, Bid);
    KeptUpToPrefix(src, visit, i, |visit|, slot, Ask);
    assert cur'.Keys == src.Keys;
    forall j | 0 <= j < |visit| + 1 ensures cur'[(visit + [i])[j]] == PromotedAt(src, visit + [i], j, slot) {
      if j < |visit| {
        assert (visit + [i])[j] == visit[j] && visit[j] in visit;
      }
    }
  }

  lemma NotVisited(visit: seq<nat>, seen: set<nat>, i: nat)
    requires Visits(visit, seen) && i !in seen
    ensures i !in visit
  {
    assert i in visit ==> i in Elems(visit);
  }

  lemma PromotingStarts(src: Markets, slot: nat)
    ensures Promoting(src, src, slot, [], map[], map[])
  {}

  lemma PromotingDone(src: Markets, cur: Markets, slot: nat, visit: seq<nat>, bids: Heap, asks: Heap)
    requires Promoting(src, cur, slot, visit, bids, asks) && Visits(visit, src.Keys)
    ensures IsKindPromotion(src, cur, slot, visit)
  {
    assert forall j :: 0 <= j < |visit| ==> visit[j] in visit;
  }

  // ----- sorting -----

  /** `n` placed before the first node it does not follow. */
  function InsertSorted(r: seq<Node>, n: Node, key: Order -> int, descending: bool): seq<Node> {
    if r == [] || Before(key(n.order), key(r[0].order), descending) then [n] + r
    else [r[0]] + InsertSorted(r[1..], n, key, descending)
  }

  lemma {:induction false} InsertSortedContents(r: seq<Node>, n: Node, key: Order -> int, descending: bool)
    ensures multiset(InsertSorted(r, n, key, descending)) == multiset(r) + multiset{n}
  {
    if !(r == [] || Before(key(n.order), key(r[0].order), descending)) {
      InsertSortedContents(r[1..], n, key, descending);
      assert r == [r[0]] + r[1..];
    }
  }

  lemma InsertedFrom(r: seq<Node>, n: Node, key: Order -> int, descending: bool, i: nat)
    requires i < |InsertSorted(r, n, key, descending)|
    ensures InsertSorted(r, n, key, descending)[i] == n || InsertSorted(r, n, key, descending)[i] in r
  {
    InsertSortedContents(r, n, key, descending);
    assert InsertSorted(r, n, key, descending)[i] in multiset(InsertSorted(r, n, key, descending));
  }

  lemma {:induction false} InsertSortedOrdered(r: seq<Node>, n: Node, key: Order -> int, descending: bool)
    requires Ordered(r, key, descending)
    ensures Ordered(InsertSorted(r, n, key, descending), key, descending)
  {
    if !(r == [] || Before(key(n.order), key(r[0].order), descending)) {
      var rest := InsertSorted(r[1..], n, key, descending);
      InsertSortedOrdered(r[1..], n, key, descending);
      forall i | 0 <= i < |rest| ensures Before(key(r[0].order), key(rest[i].order), descending) {
        InsertedFrom(r[1..], n, key, descending, i);
        if rest[i] != n {
          var j :| 0 <= j < |r[1..]| && r[1..][j] == rest[i];
          assert r[j + 1] == rest[i];
        }
      }
    }
  }

  /** A sorted permutation; ties may come out in any order. */
  method SortBy(nodes: seq<Node>, key: Order -> int, descending: bool) returns (r: seq<Node>)
    ensures multiset(r) == multiset(nodes) && Ordered(r, key, descending)
  {
    r := [];
    for i := 0 to |nodes|
      invariant multiset(r) == multiset(nodes[..i]) && Ordered(r, key, descending)
    {
      InsertSortedContents(r, nodes[i], key, descending);
      InsertSortedOrdered(r, nodes[i], key, descending);
      r := InsertSorted(r, nodes[i], key, descending);
      assert nodes[..i + 1] == nodes[..i] + [nodes[i]];
    }
    assert nodes[..|nodes|] == nodes;
  }

  function SlotOf(): Order -> int {
    (o: Order) => o.slot
  }

  /** The order book object. */
  class Dlob {
    var perp: Markets
    var spot: Markets
    var maxSlot: nat

    function State(): Book
      reads this
    {
      Book(perp, spot, maxSlot)
    }

    constructor ()
      ensures State() == EmptyBook()
    {
      perp, spot, maxSlot := map[], map[], 0;
    }

    method Clear()
      modifies this
      ensures State() == EmptyBook()
    {
      perp, spot, maxSlot := map[], map[], 0;
    }

    method Put(id: MarketId, m: MarketLists)
      modifies this
      ensures State() == old(State()).Put(id, m)
    {
      match id.kind {
        case Perp => perp := perp[id.index := m];
        case Spot => spot := spot[id.index := m];
      }
    }

    method InsertOrder(o: Order, user: Pubkey, slot: nat)
      modifies this
      ensures State() == old(State()).Inserted(o, user, slot)
    {
      hide TypeAt, SideOf, ListState.Inserted;
      var t := TypeAt(o, slot);
      if !State().Has(o.Id()) {
        Put(o.Id(), EmptyMarket());
      }
      var m := State().At(o.Id());
      var list := new Orderlist(m.List(t));
      list.Insert(Node(t, o, user), SideOf(o));
      Put(o.Id(), m.With(t, list.State()));
    }

    /** Writes an order back into the list it is classified to at `slot`. */
    method UpdateOrder(o: Order, user: Pubkey, slot: nat)
      requires State().Has(o.Id())
      modifies this
      ensures State() == old(State()).Updated(o, user, slot)
    {
      var t := TypeAt(o, slot);
      var m := State().At(o.Id());
      var list := new Orderlist(m.List(t));
      list.Update(o, user, SideOf(o));
      Put(o.Id(), m.With(t, list.State()));
    }

    method BuildFromUsermap(users: Users, slot: nat) returns (ghost visit: seq<Pubkey>)
      modifies this
      ensures Visits(visit, users.Keys) && (forall u :: u in visit ==> u in users)
      ensures State() == Built(users, visit, slot)
    {
      Clear();
      visit := [];
      var todo := users.Keys;
      while todo != {}
        invariant todo <= users.Keys && Visits(visit, users.Keys - todo)
        invariant forall u :: u in visit ==> u in users
        invariant State() == Built(users, visit, slot)
      {
        var u :| u in todo;
        var orders := users[u];
        ghost var before := State();
        for i := 0 to |orders|
          invariant State() == WithOrders(before, orders[..i], u, slot)
        {
          assert orders[..i + 1][..i] == orders[..i];
          if orders[i].status != Init {
            InsertOrder(orders[i], u, slot);
          }
        }
        assert orders[..|orders|] == orders;
        VisitsExtend(visit, users.Keys - todo, u);
        assert (visit + [u])[..|visit|] == visit;
        assert users.Keys - (todo - {u}) == users.Keys - todo + {u};
        visit := visit + [u];
        todo := todo - {u};
      }
    }

    /** The lists of every market: perp markets first, each market's lists in search order. */
    method GetOrderLists() returns (lists: seq<ListState>, ghost pv: seq<nat>, ghost sv: seq<nat>)
      ensures Visits(pv, perp.Keys) && Visits(sv, spot.Keys)
      ensures (forall i :: i in pv ==> i in perp) && (forall i :: i in sv ==> i in spot)
      ensures lists == ListsOf(perp, pv) + ListsOf(spot, sv)
    {
      var perpLists, spotLists;
      perpLists, pv := KindLists(perp);
      spotLists, sv := KindLists(spot);
      lists := perpLists + spotLists;
    }

    static method KindLists(ms: Markets) returns (lists: seq<ListState>, ghost visit: seq<nat>)
      ensures Visits(visit, ms.Keys) && (forall i :: i in visit ==> i in ms)
      ensures lists == ListsOf(ms, visit)
    {
      lists, visit := [], [];
      var todo := ms.Keys;
      while todo != {}
        invariant todo <= ms.Keys && Visits(visit, ms.Keys - todo)
        invariant forall i :: i in visit ==> i in ms
        invariant lists == ListsOf(ms, visit)
      {
        var i :| i in todo;
        lists := lists + SearchOrder(ms[i]);
        VisitsExtend(visit, ms.Keys - todo, i);
        assert (visit + [i])[..|visit|] == visit;
        assert ms.Keys - (todo - {i}) == ms.Keys - todo + {i};
        visit := visit + [i];
        todo := todo - {i};
      }
    }

    method GetOrder(orderId: nat, user: Pubkey) returns (r: Option<Order>)
      ensures IsLookup(State(), Sig(orderId, user), r)
    {
      var s := Sig(orderId, user);
      var lists, pv, sv := GetOrderLists();
      for i := 0 to |lists|
        invariant FirstHit(lists, s) == FirstHit(lists[i..], s)
      {
        if s in lists[i].sigs {
          return Some(lists[i].sigs[s].order);
        }
        assert lists[i..][1..] == lists[i + 1..];
      }
      r := None;
    }

    static method KindSize(ms: Markets) returns (size: nat)
      ensures IsKindSize(ms, size)
    {
      size := 0;
      ghost var visit: seq<nat> := [];
      var todo := ms.Keys;
      while todo != {}
        invariant todo <= ms.Keys && Visits(visit, ms.Keys - todo)
        invariant forall i :: i in visit ==> i in ms
        invariant size == SizeOver(ms, visit)
      {
        var i :| i in todo;
        size := size + ms[i].Size();
        VisitsExtend(visit, ms.Keys - todo, i);
        assert (visit + [i])[..|visit|] == visit;
        assert ms.Keys - (todo - {i}) == ms.Keys - todo + {i};
        visit := visit + [i];
        todo := todo - {i};
      }
    }

    method Size() returns (perpSize: nat, spotSize: nat)
      ensures IsKindSize(perp, perpSize) && IsKindSize(spot, spotSize)
    {
      perpSize := KindSize(perp);
      spotSize := KindSize(spot);
    }

    method UpdateRestingLimitOrdersForKind(slot: nat, kind: MarketType) returns (ghost visit: seq<nat>)
      requires State().WellFormed()
      modifies this
      ensures IsKindPromotion(old(State()).Of(kind), State().Of(kind), slot, visit)
      ensures kind == Perp ==> spot == old(spot)
      ensures kind == Spot ==> perp == old(perp)
      ensures maxSlot == old(maxSlot)
    {
      hide Promoting, PromotedMarket, Kept, MarketLists.WellFormed;
      PromotingStarts(State().Of(kind), slot);
      var takingBids, takingAsks: Heap := map[], map[];
      var src := State().Of(kind);
      visit := [];
      var todo := src.Keys;
      while todo != {}
        invariant todo <= src.Keys && Visits(visit, src.Keys - todo)
        invariant Promoting(src, State().Of(kind), slot, visit, takingBids, takingAsks)
        invariant kind == Perp ==> spot == old(spot)
        invariant kind == Spot ==> perp == old(perp)
        invariant maxSlot == old(maxSlot)
      {
        var i :| i in todo;
        VisitsExtend(visit, src.Keys - todo, i);
        NotVisited(visit, src.Keys - todo, i);
        PromotingStep(src, State().Of(kind), slot, visit, i, takingBids, takingAsks);
        var m;
        m, takingBids, takingAsks := PromoteMarket(src[i], slot, takingBids, takingAsks);
        Put(MarketId(kind, i), m);
        assert src.Keys - (todo - {i}) == src.Keys - todo + {i};
        visit := visit + [i];
        todo := todo - {i};
      }
      PromotingDone(src, State().Of(kind), slot, visit, takingBids, takingAsks);
    }

    method UpdateRestingLimitOrders(slot: nat) returns (ghost pv: seq<nat>, ghost sv: seq<nat>)
      requires State().WellFormed()
      modifies this
      ensures IsPromotion(old(State()), State(), slot, pv, sv)
      ensures State().WellFormed()
    {
      pv, sv := [], [];
      if slot <= maxSlot {
        return;
      }
      ghost var before := State();
      maxSlot := slot;
      pv := UpdateRestingLimitOrdersForKind(slot, Perp);
      KindPromotionKeepsForm(before.perp, perp, slot, pv);
      sv := UpdateRestingLimitOrdersForKind(slot, Spot);
      PromotionKeepsForm(before, State(), slot, pv, sv);
    }

    method GetBestOrders(id: MarketId, side: Side, t: NodeType) returns (r: seq<Node>)
      requires State().WellFormed()
      ensures IsDrain(State().Read(id).List(t), side, r)
      ensures ReadInOrder(r, t, side)
    {
      if !State().Has(id) {
        r := [];
        assert EmptyMarket().List(t) == EmptyList(t);
        return;
      }
      assert State().At(id).WellFormed();
      var l := State().At(id).List(t);
      assert l.Dir(side) == DirOf(t, side);
      var list := new Orderlist(l);
      r := list.Drain(side);
      DrainedInOrder(l, t, side, r);
    }

    /** Ask quotes ascending, bid quotes descending in price; a quote without a price makes the source panic. */
    method GetRestingLimitOrders(slot: nat, id: MarketId, side: Side, oraclePrice: int)
      returns (r: seq<Node>, ghost pv: seq<nat>, ghost sv: seq<nat>)
      requires State().WellFormed()
      modifies this
      ensures IsPromotion(old(State()), State(), slot, pv, sv) && State().WellFormed()
      ensures IsJointDrain(State().Read(id), RestingLimit, FloatingLimit, side, r)
      ensures (forall n :: n in r ==> Priced(n.order, oraclePrice, slot)) ==>
                Ordered(r, PriceAt(oraclePrice, slot), side == Bid) && SortedByPrice(r, side, oraclePrice, slot)
    {
      pv, sv := UpdateRestingLimitOrders(slot);
      var resting := GetBestOrders(id, side, RestingLimit);
      var floating := GetBestOrders(id, side, FloatingLimit);
      r := SortBy(resting + floating, PriceAt(oraclePrice, slot), side == Bid);
      if forall n :: n in r ==> Priced(n.order, oraclePrice, slot) {
        OrderedByPrice(r, side, oraclePrice, slot);
      }
    }

    /** Taking and market orders, newest slot first. */
    method GetTakingOrders(slot: nat, id: MarketId, side: Side)
      returns (r: seq<Node>, ghost pv: seq<nat>, ghost sv: seq<nat>)
      requires State().WellFormed()
      modifies this
      ensures IsPromotion(old(State()), State(), slot, pv, sv) && State().WellFormed()
      ensures IsJointDrain(State().Read(id), TakingLimit, NodeType.Market, side, r)
      ensures Ordered(r, SlotOf(), true)
      ensures forall i, j :: 0 <= i < j < |r| ==> r[i].order.slot >= r[j].order.slot
    {
      pv, sv := UpdateRestingLimitOrders(slot);
      var taking := GetBestOrders(id, side, TakingLimit);
      var market := GetBestOrders(id, side, NodeType.Market);
      r := SortBy(taking + market, SlotOf(), true);
    }

    static method ScanTriggers(l: ListState, side: Side, oraclePrice: int) returns (r: seq<Node>)
      requires l.WellKeyed() && l.Dir(side) == DirOf(NodeType.Trigger, side)
      requires forall s :: s in l.Heap(side) ==> l.Heap(side)[s].node.nodeType == NodeType.Trigger
      ensures IsTriggerScan(l, side, oraclePrice, r)
    {
      r := [];
      var list := new Orderlist(l);
      ghost var h0, dir := l.Heap(side), l.Dir(side);
      while list.State().Heap(side) != map[]
        invariant fresh(list)
        invariant list.State().WellKeyed()
        invariant Draining(h0, h0.Keys, dir, list.State().Heap(side), r)
        invariant forall s :: s in h0 && s !in list.State().Heap(side) ==> Triggers(h0[s].node.order, side, oraclePrice)
        decreases list.State().Heap(side).Keys
      {
        ghost var h := list.State().Heap(side);
        var node := list.Pop(side);
        if Triggers(node.order, side, oraclePrice) {
          DrainingPop(h0, h0.Keys, dir, h, r, node.Key());
          r := r + [node];
        } else {
          ScanStops(h, dir, node.Key(), side, oraclePrice);
          ScanFound(h0, h, dir, r, side, oraclePrice);
          return;
        }
      }
      ScanFound(h0, map[], dir, r, side, oraclePrice);
    }

    /** `None` when the exchange is not active or the market does not exist. */
    method FindNodesToTrigger(id: MarketId, oraclePrice: nat, active: bool) returns (r: Option<seq<Node>>)
      requires State().WellFormed()
      ensures r.Some? <==> active && State().Has(id)
      ensures r.Some? ==>
                exists above, below :: r.value == above + below
                                       && IsTriggerScan(State().At(id).trigger, Bid, oraclePrice, above)
                                       && IsTriggerScan(State().At(id).trigger, Ask, oraclePrice, below)
      ensures r.Some? ==>
                forall n :: n in r.value <==>
                  || (n in NodesOf(State().At(id).trigger.bids).Values && n.order.triggerPrice < oraclePrice)
                  || (n in NodesOf(State().At(id).trigger.asks).Values && n.order.triggerPrice > oraclePrice)
    {
      if !active || !State().Has(id) {
        return None;
      }
      var m := State().At(id);
      assert m.WellFormed() && m.List(NodeType.Trigger) == m.trigger && m.trigger.WellKeyed();
      assert m.trigger.bidDir == DirOf(NodeType.Trigger, Bid) && m.trigger.askDir == DirOf(NodeType.Trigger, Ask);
      var above := ScanTriggers(m.trigger, Bid, oraclePrice);
      var below := ScanTriggers(m.trigger, Ask, oraclePrice);
      ScanIsFilter(m.trigger, Bid, oraclePrice, above);
      ScanIsFilter(m.trigger, Ask, oraclePrice, below);
      r := Some(above + below);
    }
  }

  /** A scan returns the nodes of its heap whose trigger price is beyond the oracle price, and no other. */
  lemma ScanIsFilter(l: ListState, side: Side, oraclePrice: int, r: seq<Node>)
    requires IsTriggerScan(l, side, oraclePrice, r)
    ensures forall n :: n in r <==>
              && n in NodesOf(l.Heap(side)).Values
              && if side == Bid then n.order.triggerPrice < oraclePrice else n.order.triggerPrice > oraclePrice
  {
    var h := l.Heap(side);
    forall n | n in r
      ensures n in NodesOf(h).Values
      ensures if side == Bid then n.order.triggerPrice < oraclePrice else n.order.triggerPrice > oraclePrice
    {
      var i :| 0 <= i < |r| && r[i] == n;
      assert r[i].Key() in SigsOf(r);
      assert NodesOf(h)[r[i].Key()] == n;
    }
    forall n | && n in NodesOf(h).Values
               && if side == Bid then n.order.triggerPrice < oraclePrice else n.order.triggerPrice > oraclePrice
      ensures n in r
    {
      var s :| s in h && NodesOf(h)[s] == n;
      assert s in Triggering(h, side, oraclePrice);
      assert s in SigsOf(r);
    }
  }

  lemma ScanFound(h0: Heap, h: Heap, dir: SortDirection, r: seq<Node>, side: Side, oraclePrice: int)
    requires Draining(h0, h0.Keys, dir, h, r)
    requires forall s :: s in h0 && s !in h ==> Triggers(h0[s].node.order, side, oraclePrice)
    requires Triggering(h, side, oraclePrice) == {}
    ensures Enumerates(r, h0, Triggering(h0, side, oraclePrice)) && BestFirst(r, dir)
  {
    forall s ensures s in Triggering(h0, side, oraclePrice) <==> s in (h0.Keys - h.Keys) * h0.Keys {
      if s in h {
        assert s !in Triggering(h, side, oraclePrice);
      }
    }
  }
}
