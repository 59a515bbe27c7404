/** Building a book from user accounts: canonical contents and sizes. */
module Builds {
  import opened Collections
  import opened Orders
  import opened Nodes
  import opened OrderLists
  import opened Books
  import opened Tables
  import opened Runs

  // ----- the canonical book of a table -----

  function CanonicalHeap(T: Table, id: MarketId, t: NodeType, side: Side): Heap {
    map s | s in T && T[s].In(id, t) && T[s].side == side :: DirectionalNode(T[s].node, DirOf(t, side))
  }

  function CanonicalList(T: Table, id: MarketId, t: NodeType): ListState {
    ListState(CanonicalHeap(T, id, t, Bid), CanonicalHeap(T, id, t, Ask),
              map s | s in T && T[s].In(id, t) :: T[s].node, DirOf(t, Bid), DirOf(t, Ask))
  }

  function CanonicalMarket(T: Table, id: MarketId): MarketLists {
    MarketLists(CanonicalList(T, id, RestingLimit), CanonicalList(T, id, FloatingLimit),
                CanonicalList(T, id, TakingLimit), CanonicalList(T, id, NodeType.Market),
                CanonicalList(T, id, NodeType.Trigger))
  }

  function Indexes(T: Table, kind: MarketType): set<nat> {
    set s | s in T && T[s].id.kind == kind :: T[s].id.index
  }

  function CanonicalMarkets(T: Table, kind: MarketType): Markets {
    map i | i in Indexes(T, kind) :: CanonicalMarket(T, MarketId(kind, i))
  }

  function Canonical(T: Table): Book {
    Book(CanonicalMarkets(T, Perp), CanonicalMarkets(T, Spot), 0)
  }

  lemma CanonicalHeapInserted(T: Table, s: Sig, p: Placed, id: MarketId, t: NodeType, side: Side)
    requires s !in T
    ensures CanonicalHeap(T[s := p], id, t, side) ==
            if p.In(id, t) && p.side == side
            then CanonicalHeap(T, id, t, side)[s := DirectionalNode(p.node, DirOf(t, side))]
            else CanonicalHeap(T, id, t, side)
  {}

  lemma CanonicalListInserted(T: Table, s: Sig, p: Placed, id: MarketId, t: NodeType)
    requires s !in T && p.node.Key() == s
    ensures p.In(id, t) ==> CanonicalList(T[s := p], id, t) == CanonicalList(T, id, t).Inserted(p.node, p.side)
    ensures !p.In(id, t) ==> CanonicalList(T[s := p], id, t) == CanonicalList(T, id, t)
  {
    CanonicalHeapInserted(T, s, p, id, t, Bid);
    CanonicalHeapInserted(T, s, p, id, t, Ask);
    var l, l' := CanonicalList(T, id, t), CanonicalList(T[s := p], id, t);
    assert l'.sigs == if p.In(id, t) then l.sigs[s := p.node] else l.sigs;
  }

  lemma CanonicalMarketInserted(T: Table, s: Sig, p: Placed, id: MarketId)
    requires s !in T && p.node.Key() == s
    ensures p.id != id ==> CanonicalMarket(T[s := p], id) == CanonicalMarket(T, id)
    ensures var m := CanonicalMarket(T, id);
            p.id == id ==> CanonicalMarket(T[s := p], id) == m.With(p.list, m.List(p.list).Inserted(p.node, p.side))
  {
    CanonicalListInserted(T, s, p, id, RestingLimit);
    CanonicalListInserted(T, s, p, id, FloatingLimit);
    CanonicalListInserted(T, s, p, id, TakingLimit);
    CanonicalListInserted(T, s, p, id, NodeType.Market);
    CanonicalListInserted(T, s, p, id, NodeType.Trigger);
  }

  lemma CanonicalEmptyList(T: Table, id: MarketId, t: NodeType)
    requires forall s :: s in T ==> T[s].id != id
    ensures CanonicalList(T, id, t) == EmptyList(t)
  {}

  lemma CanonicalRead(T: Table, id: MarketId)
    ensures Canonical(T).Read(id) == CanonicalMarket(T, id)
  {
    if id.index in Indexes(T, id.kind) {
      assert MarketId(id.kind, id.index) == id;
    } else {
      assert forall s :: s in T && T[s].id == id ==> T[s].id.index in Indexes(T, id.kind);
      CanonicalEmptyList(T, id, RestingLimit);
      CanonicalEmptyList(T, id, FloatingLimit);
      CanonicalEmptyList(T, id, TakingLimit);
      CanonicalEmptyList(T, id, NodeType.Market);
      CanonicalEmptyList(T, id, NodeType.Trigger);
    }
  }

  lemma CanonicalMarketsElsewhere(T: Table, s: Sig, p: Placed, kind: MarketType, i: nat)
    requires s !in T && p.node.Key() == s && i in Indexes(T, kind) && MarketId(kind, i) != p.id
    ensures i in Indexes(T[s := p], kind)
    ensures CanonicalMarkets(T[s := p], kind)[i] == CanonicalMarkets(T, kind)[i]
  {
    IndexesInserted(T, s, p, kind);
    CanonicalMarketInserted(T, s, p, MarketId(kind, i));
  }

  lemma CanonicalMarketsInserted(T: Table, s: Sig, p: Placed)
    requires s !in T && p.node.Key() == s
    ensures CanonicalMarkets(T[s := p], p.id.kind)
         == CanonicalMarkets(T, p.id.kind)[p.id.index := CanonicalMarket(T[s := p], p.id)]
  {
    var kind := p.id.kind;
    IndexesInserted(T, s, p, kind);
    var ms, ms' := CanonicalMarkets(T, kind), CanonicalMarkets(T[s := p], kind);
    forall i | i in Indexes(T, kind) && i != p.id.index ensures ms'[i] == ms[i] {
      CanonicalMarketsElsewhere(T, s, p, kind, i);
    }
    OneMarketChanged(ms, ms', p.id.index);
    assert MarketId(kind, p.id.index) == p.id;
  }

  lemma CanonicalMarketsOtherKind(T: Table, s: Sig, p: Placed, kind: MarketType)
    requires s !in T && p.node.Key() == s && p.id.kind != kind
    ensures CanonicalMarkets(T[s := p], kind) == CanonicalMarkets(T, kind)
  {
    hide CanonicalMarket;
    IndexesInserted(T, s, p, kind);
    var ms, ms' := CanonicalMarkets(T, kind), CanonicalMarkets(T[s := p], kind);
    forall i | i in Indexes(T, kind) ensures ms'[i] == ms[i] {
      CanonicalMarketsElsewhere(T, s, p, kind, i);
    }
  }

  lemma OneMarketChanged(ms: Markets, ms': Markets, i: nat)
    requires ms'.Keys == ms.Keys + {i} && forall j :: j in ms && j != i ==> ms'[j] == ms[j]
    ensures ms' == ms[i := ms'[i]]
  {}

  lemma IndexesInserted(T: Table, s: Sig, p: Placed, kind: MarketType)
    requires s !in T
    ensures Indexes(T[s := p], kind) == Indexes(T, kind) + if p.id.kind == kind then {p.id.index} else {}
  {
    var T' := T[s := p];
    assert T'[s] == p;
    assert forall u :: u in T ==> T'[u] == T[u];
  }

  lemma InsertCanonical(T: Table, o: Order, user: Pubkey, slot: nat)
    requires Sig(o.orderId, user) !in T
    ensures Canonical(T).Inserted(o, user, slot) == Canonical(TableInserted(T, o, user, slot))
  {
    var s := Sig(o.orderId, user);
    var p := TableInserted(T, o, user, slot)[s];
    CanonicalRead(T, p.id);
    CanonicalMarketInserted(T, s, p, p.id);
    CanonicalMarketsInserted(T, s, p);
    CanonicalMarketsOtherKind(T, s, p, if p.id.kind == Perp then Spot else Perp);
  }

  // ----- the table of a user map -----

  predicate DistinctIds(orders: seq<Order>) {
    forall i, j :: 0 <= i < j < |orders| && orders[i].status != Init && orders[j].status != Init ==>
      orders[i].orderId != orders[j].orderId
  }

  function PlacedAs(o: Order, user: Pubkey, slot: nat): Placed {
    Placed(Node(TypeAt(o, slot), o, user), TypeAt(o, slot), SideOf(o), o.Id())
  }

  function OrdersTable(orders: seq<Order>, user: Pubkey, slot: nat): Table {
    if orders == [] then map[]
    else
      var T := OrdersTable(orders[..|orders| - 1], user, slot);
      var o := orders[|orders| - 1];
      if o.status == Init then T else T[Sig(o.orderId, user) := PlacedAs(o, user, slot)]
  }

  /** One entry per order slot in use, under that order's signature. */
  lemma {:induction false} OrdersTableExact(orders: seq<Order>, user: Pubkey, slot: nat)
    requires DistinctIds(orders)
    ensures var T := OrdersTable(orders, user, slot);
            && (forall i :: 0 <= i < |orders| && orders[i].status != Init ==>
                  Sig(orders[i].orderId, user) in T
                    && T[Sig(orders[i].orderId, user)] == PlacedAs(orders[i], user, slot))
            && (forall s :: s in T ==>
                  && s.user == user
                  && exists i :: 0 <= i < |orders| && orders[i].status != Init && orders[i].orderId == s.orderId)
  {
    if orders == [] {
    } else {
      OrdersTableExact(orders[..|orders| - 1], user, slot);
    }
  }

  /** The table of a user map; it mentions no visiting order and no earlier state. */
  function UserTable(users: Users, slot: nat): Table {
    var sigs := set u, s | u in users && s in OrdersTable(users[u], u, slot) :: s;
    map s | s in sigs && s.user in users && s in OrdersTable(users[s.user], s.user, slot) ::
      OrdersTable(users[s.user], s.user, slot)[s]
  }

  function TableBuilt(users: Users, visit: seq<Pubkey>, slot: nat): Table
    requires forall u :: u in visit ==> u in users
  {
    if visit == [] then map[]
    else
      var u := visit[|visit| - 1];
      TableBuilt(users, visit[..|visit| - 1], slot) + OrdersTable(users[u], u, slot)
  }

  lemma {:induction false} TableBuiltAt(users: Users, visit: seq<Pubkey>, slot: nat, s: Sig)
    requires forall u :: u in visit ==> u in users && DistinctIds(users[u])
    ensures var T := TableBuilt(users, visit, slot);
            && (s in T <==> s.user in visit && s in OrdersTable(users[s.user], s.user, slot))
            && (s in T ==> T[s] == OrdersTable(users[s.user], s.user, slot)[s])
  {
    if visit == [] {
    } else {
      var u := visit[|visit| - 1];
      TableBuiltAt(users, visit[..|visit| - 1], slot, s);
      OrdersTableExact(users[u], u, slot);
      assert visit == visit[..|visit| - 1] + [u];
    }
  }

  lemma TableBuiltIsUserTable(users: Users, visit: seq<Pubkey>, slot: nat)
    requires Visits(visit, users.Keys) && forall u :: u in users ==> DistinctIds(users[u])
    ensures (forall u :: u in visit ==> u in users) && TableBuilt(users, visit, slot) == UserTable(users, slot)
  {
    assert forall u :: u in visit <==> u in Elems(visit);
    forall s ensures s in TableBuilt(users, visit, slot) <==> s in UserTable(users, slot) {
      TableBuiltAt(users, visit, slot, s);
    }
    forall s | s in UserTable(users, slot)
      ensures TableBuilt(users, visit, slot)[s] == UserTable(users, slot)[s]
    {
      TableBuiltAt(users, visit, slot, s);
    }
  }

  lemma FreshInUser(orders: seq<Order>, user: Pubkey, slot: nat)
    requires DistinctIds(orders) && orders != [] && orders[|orders| - 1].status != Init
    ensures Sig(orders[|orders| - 1].orderId, user) !in OrdersTable(orders[..|orders| - 1], user, slot)
  {
    OrdersTableExact(orders[..|orders| - 1], user, slot);
  }

  lemma UnionInsert(T: Table, T': Table, s: Sig, p: Placed)
    ensures T + T'[s := p] == (T + T')[s := p]
  {}

  lemma {:induction false} WithOrdersCanonical(T: Table, orders: seq<Order>, user: Pubkey, slot: nat)
    requires DistinctIds(orders) && forall s :: s in T ==> s.user != user
    ensures WithOrders(Canonical(T), orders, user, slot) == Canonical(T + OrdersTable(orders, user, slot))
  {
    if orders == [] {
      assert T + OrdersTable(orders, user, slot) == T;
    } else {
      var n := |orders| - 1;
      var T' := OrdersTable(orders[..n], user, slot);
      WithOrdersCanonical(T, orders[..n], user, slot);
      if orders[n].status != Init {
        FreshInUser(orders, user, slot);
        InsertCanonical(T + T', orders[n], user, slot);
        UnionInsert(T, T', Sig(orders[n].orderId, user), PlacedAs(orders[n], user, slot));
      }
    }
  }

  lemma {:induction false} BuiltCanonical(users: Users, visit: seq<Pubkey>, slot: nat)
    requires Distinct(visit) && forall u :: u in visit ==> u in users && DistinctIds(users[u])
    ensures Built(users, visit, slot) == Canonical(TableBuilt(users, visit, slot))
  {
    if visit == [] {
      assert CanonicalMarkets(map[], Perp) == map[] && CanonicalMarkets(map[], Spot) == map[];
    } else {
      var n := |visit| - 1;
      BuiltCanonical(users, visit[..n], slot);
      var T := TableBuilt(users, visit[..n], slot);
      forall s | s in T ensures s.user != visit[n] {
        TableBuiltAt(users, visit[..n], slot, s);
      }
      WithOrdersCanonical(T, users[visit[n]], visit[n], slot);
    }
  }

  /** Building gives the same book for every order in which the user map is iterated. */
  lemma BuildIsCanonical(users: Users, visit: seq<Pubkey>, slot: nat)
    requires Visits(visit, users.Keys) && forall u :: u in users ==> DistinctIds(users[u])
    ensures (forall u :: u in visit ==> u in users) && Built(users, visit, slot) == Canonical(UserTable(users, slot))
  {
    TableBuiltIsUserTable(users, visit, slot);
    BuiltCanonical(users, visit, slot);
  }

  lemma InvLater(b: Book, a: Abstract, now: nat)
    requires Inv(b, a) && a.now <= now
    ensures Inv(b, a.(now := now))
  {
    forall s | s in a.table && a.table[s].list != TakingLimit
      ensures a.table[s].list == TypeAt(a.table[s].node.order, now)
    {
      TypeIsMonotone(a.table[s].node.order, a.now, now);
    }
  }

  lemma {:induction false} WithOrdersInv(b: Book, a: Abstract, orders: seq<Order>, user: Pubkey)
    requires Inv(b, a) && DistinctIds(orders) && forall s :: s in a.table ==> s.user != user
    ensures Inv(WithOrders(b, orders, user, a.now), a.(table := a.table + OrdersTable(orders, user, a.now)))
  {
    hide Inv;
    if orders == [] {
      assert a.table + map[] == a.table;
    } else {
      var n := |orders| - 1;
      var T' := OrdersTable(orders[..n], user, a.now);
      WithOrdersInv(b, a, orders[..n], user);
      if orders[n].status != Init {
        FreshInUser(orders, user, a.now);
        InvTime(b, a);
        UnionInsert(a.table, T', Sig(orders[n].orderId, user), PlacedAs(orders[n], user, a.now));
        InsertInv(WithOrders(b, orders[..n], user, a.now), a.(table := a.table + T'),
                  WithOrders(b, orders, user, a.now), orders[n], user, a.now);
      }
    }
  }

  /** A freshly built book satisfies the run invariant. */
  lemma {:induction false} BuiltInv(users: Users, visit: seq<Pubkey>, slot: nat)
    requires Distinct(visit) && forall u :: u in visit ==> u in users && DistinctIds(users[u])
    ensures Inv(Built(users, visit, slot), Abstract(TableBuilt(users, visit, slot), 0, slot))
  {
    if visit == [] {
      EmptyRepresents();
      InvLater(EmptyBook(), Start(), slot);
    } else {
      var n := |visit| - 1;
      var T := TableBuilt(users, visit[..n], slot);
      BuiltInv(users, visit[..n], slot);
      forall s | s in T ensures s.user != visit[n] {
        TableBuiltAt(users, visit[..n], slot, s);
      }
      WithOrdersInv(Built(users, visit[..n], slot), Abstract(T, 0, slot), users[visit[n]], visit[n]);
    }
  }

  // ----- sizes -----

  function Members(T: Table, id: MarketId, t: NodeType, side: Side): set<Sig> {
    set s | s in T && T[s].In(id, t) && T[s].side == side
  }

  function OfMarket(T: Table, id: MarketId): set<Sig> {
    set s | s in T && T[s].id == id
  }

  function OfKind(T: Table, kind: MarketType, seen: set<nat>): set<Sig> {
    set s | s in T && T[s].id.kind == kind && T[s].id.index in seen
  }

  lemma HeapKeys(m: MarketLists, T: Table, id: MarketId, t: NodeType, side: Side)
    requires MarketRep(m, T, id) && Clean(m)
    ensures m.List(t).Heap(side).Keys == Members(T, id, t, side)
  {
    hide SameTerms;
    var l := m.List(t);
    assert ListRep(l, T, id, t);
    forall s | s in l.Heap(side) ensures s in Members(T, id, t, side) {
      assert HeapEntryOk(l.Heap(side)[s].node, T[s], id, t, side);
      if t == TakingLimit {
        CleanIndexed(m, side, s);
      }
    }
  }

  function OfList(T: Table, id: MarketId, t: NodeType): set<Sig> {
    set s | s in T && T[s].In(id, t)
  }

  lemma ListSize(m: MarketLists, T: Table, id: MarketId, t: NodeType)
    requires MarketRep(m, T, id) && Clean(m)
    ensures m.List(t).Size() == |OfList(T, id, t)|
  {
    HeapKeys(m, T, id, t, Bid);
    HeapKeys(m, T, id, t, Ask);
    var l := m.List(t);
    assert l.Heap(Bid) == l.bids && l.Heap(Ask) == l.asks;
    assert |l.bids.Keys| == |l.bids| && |l.asks.Keys| == |l.asks|;
    SidesOfList(T, id, t);
  }

  lemma SidesOfList(T: Table, id: MarketId, t: NodeType)
    ensures |OfList(T, id, t)| == |Members(T, id, t, Bid)| + |Members(T, id, t, Ask)|
  {
    assert OfList(T, id, t) == Members(T, id, t, Bid) + Members(T, id, t, Ask);
    assert Members(T, id, t, Bid) !! Members(T, id, t, Ask);
  }

  lemma MarketSize(m: MarketLists, T: Table, id: MarketId)
    requires MarketRep(m, T, id) && Clean(m)
    ensures m.Size() == |OfMarket(T, id)|
  {
    hide MarketRep, Clean, OfList, OfMarket, ListState.Size;
    ListSize(m, T, id, RestingLimit);
    ListSize(m, T, id, FloatingLimit);
    ListSize(m, T, id, TakingLimit);
    ListSize(m, T, id, NodeType.Market);
    ListSize(m, T, id, NodeType.Trigger);
    ListsOfMarket(T, id);
  }

  lemma ListsOfMarket(T: Table, id: MarketId)
    ensures |OfMarket(T, id)|
            == |OfList(T, id, RestingLimit)| + |OfList(T, id, FloatingLimit)| + |OfList(T, id, TakingLimit)|
                                 + |OfList(T, id, NodeType.Market)| + |OfList(T, id, NodeType.Trigger)|
  {
    var a, b, c := OfList(T, id, RestingLimit), OfList(T, id, FloatingLimit), OfList(T, id, TakingLimit);
    var d, e := OfList(T, id, NodeType.Market), OfList(T, id, NodeType.Trigger);
    FiveParts(OfMarket(T, id), a, b, c, d, e);
  }

  lemma FiveParts<A>(all: set<A>, a: set<A>, b: set<A>, c: set<A>, d: set<A>, e: set<A>)
    requires forall x :: x in all <==> x in a || x in b || x in c || x in d || x in e
    requires a !! b && a !! c && a !! d && a !! e && b !! c && b !! d && b !! e && c !! d && c !! e && d !! e
    ensures |all| == |a| + |b| + |c| + |d| + |e|
  {
    var ab := a + b;
    var abc := ab + c;
    var abcd := abc + d;
    assert |ab| == |a| + |b|;
    assert |abc| == |ab| + |c|;
    assert |abcd| == |abc| + |d|;
    assert all == abcd + e;
  }

  lemma OfKindStep(T: Table, kind: MarketType, seen: set<nat>, i: nat)
    requires i !in seen
    ensures |OfKind(T, kind, seen + {i})| == |OfKind(T, kind, seen)| + |OfMarket(T, MarketId(kind, i))|
  {
    var x, y := OfKind(T, kind, seen), OfMarket(T, MarketId(kind, i));
    assert OfKind(T, kind, seen + {i}) == x + y;
    assert x !! y;
  }

  lemma VisitedLast(visit: seq<nat>)
    requires Distinct(visit) && visit != []
    ensures var n := |visit| - 1;
            Elems(visit) == Elems(visit[..n]) + {visit[n]} && visit[n] !in Elems(visit[..n]) && Distinct(visit[..n])
  {
    var n := |visit| - 1;
    assert visit == visit[..n] + [visit[n]];
  }

  lemma {:induction false} KindSize(ms: Markets, T: Table, kind: MarketType, visit: seq<nat>)
    requires KindRep(ms, T, kind) && NoForeign(ms) && Distinct(visit) && forall i :: i in visit ==> i in ms
    ensures SizeOver(ms, visit) == |OfKind(T, kind, Elems(visit))|
  {
    hide MarketRep, Clean, MarketLists.Size, OfMarket, Distinct;
    if visit == [] {
      assert OfKind(T, kind, Elems(visit)) == {};
    } else {
      var n := |visit| - 1;
      VisitedLast(visit);
      KindSize(ms, T, kind, visit[..n]);
      assert visit[n] in visit;
      MarketSize(ms[visit[n]], T, MarketId(kind, visit[n]));
      OfKindStep(T, kind, Elems(visit[..n]), visit[n]);
    }
  }

  /** The orders of perp markets, or of spot markets. */
  function KindEntries(T: Table, kind: MarketType): set<Sig> {
    set s | s in T && T[s].node.order.marketType == kind
  }

  /** In an unmixed book the two sizes count every order once: one the perp orders, the other the spot orders. */
  lemma SizesCountOrders(b: Book, T: Table, perpSize: nat, spotSize: nat)
    requires Represents(b, T) && Unmixed(b) && IsKindSize(b.perp, perpSize) && IsKindSize(b.spot, spotSize)
    ensures perpSize == |KindEntries(T, Perp)| && spotSize == |KindEntries(T, Spot)| && perpSize + spotSize == |T|
  {
    hide MarketRep, Book.WellFormed, KindEntries;
    var pv: seq<nat> :|
      Visits(pv, b.perp.Keys) && (forall i :: i in pv ==> i in b.perp) && perpSize == SizeOver(b.perp, pv);
    var sv: seq<nat> :|
      Visits(sv, b.spot.Keys) && (forall i :: i in sv ==> i in b.spot) && spotSize == SizeOver(b.spot, sv);
    KindSize(b.perp, T, Perp, pv);
    KindSize(b.spot, T, Spot, sv);
    assert Elems(pv) == b.perp.Keys && Elems(sv) == b.spot.Keys;
    KindsCover(b, T);
  }

  lemma KindsCover(b: Book, T: Table)
    requires Entries(b, T)
    ensures OfKind(T, Perp, b.perp.Keys) == KindEntries(T, Perp)
    ensures OfKind(T, Spot, b.spot.Keys) == KindEntries(T, Spot)
    ensures |KindEntries(T, Perp)| + |KindEntries(T, Spot)| == |T|
  {
    KindCovers(b, T, Perp);
    KindCovers(b, T, Spot);
    KindsSplit(T);
  }

  lemma KindCovers(b: Book, T: Table, kind: MarketType)
    requires Entries(b, T)
    ensures OfKind(T, kind, b.Of(kind).Keys) == KindEntries(T, kind)
  {
    hide OfKind, KindEntries;
    forall s ensures s in OfKind(T, kind, b.Of(kind).Keys) <==> s in KindEntries(T, kind) {
      InKind(b, T, kind, s);
    }
  }

  lemma InKind(b: Book, T: Table, kind: MarketType, s: Sig)
    requires Entries(b, T)
    ensures s in OfKind(T, kind, b.Of(kind).Keys) <==> s in KindEntries(T, kind)
  {
    hide SideOf;
    if s in T {
      assert EntryOk(s, T[s]) && b.Has(T[s].id);
    }
  }

  lemma KindsSplit(T: Table)
    ensures |KindEntries(T, Perp)| + |KindEntries(T, Spot)| == |T|
  {
    var x, y := KindEntries(T, Perp), KindEntries(T, Spot);
    assert x + y == T.Keys && x !! y;
    assert |T.Keys| == |T|;
  }

  /** The order slots in use: account and position. */
  function UsedSlots(users: Users): set<(Pubkey, nat)> {
    set u, i | u in users && 0 <= i < |users[u]| && users[u][i].status != Init :: (u, i)
  }

  function SigAt(users: Users, p: (Pubkey, nat)): Sig
    requires p.0 in users && p.1 < |users[p.0]|
  {
    Sig(users[p.0][p.1].orderId, p.0)
  }

  /** Every used order slot has its entry, and nothing else has. */
  lemma UserTableExact(users: Users, slot: nat)
    requires forall u :: u in users ==> DistinctIds(users[u])
    ensures forall p :: p in UsedSlots(users) ==>
              && SigAt(users, p) in UserTable(users, slot)
              && UserTable(users, slot)[SigAt(users, p)] == PlacedAs(users[p.0][p.1], p.0, slot)
              && PlacedWell(PlacedAs(users[p.0][p.1], p.0, slot), users[p.0][p.1], p.0, slot)
    ensures forall s :: s in UserTable(users, slot) ==> exists p :: p in UsedSlots(users) && SigAt(users, p) == s
  {
    forall p | p in UsedSlots(users)
      ensures SigAt(users, p) in UserTable(users, slot)
      ensures UserTable(users, slot)[SigAt(users, p)] == PlacedAs(users[p.0][p.1], p.0, slot)
      ensures PlacedWell(PlacedAs(users[p.0][p.1], p.0, slot), users[p.0][p.1], p.0, slot)
    {
      ClassificationIsExact(users[p.0][p.1], slot);
      OrdersTableExact(users[p.0], p.0, slot);
    }
    forall s | s in UserTable(users, slot) ensures exists p :: p in UsedSlots(users) && SigAt(users, p) == s {
      OrdersTableExact(users[s.user], s.user, slot);
      var i :| 0 <= i < |users[s.user]| && users[s.user][i].status != Init && users[s.user][i].orderId == s.orderId;
      assert (s.user, i) in UsedSlots(users) && SigAt(users, (s.user, i)) == s;
    }
  }

  lemma {:induction false} ImageSize(users: Users, ps: set<(Pubkey, nat)>, keys: set<Sig>)
    requires forall u :: u in users ==> DistinctIds(users[u])
    requires ps <= UsedSlots(users)
    requires forall p :: p in ps ==> SigAt(users, p) in keys
    requires forall s :: s in keys ==> exists p :: p in ps && SigAt(users, p) == s
    ensures |keys| == |ps|
  {
    if ps == {} {
      assert keys == {};
    } else {
      var p :| p in ps;
      var s := SigAt(users, p);
      forall q | q in ps - {p} ensures SigAt(users, q) in keys - {s} {
        assert q.0 == p.0 ==> q.1 != p.1;
      }
      forall t | t in keys - {s} ensures exists q :: q in ps - {p} && SigAt(users, q) == t {
        var q :| q in ps && SigAt(users, q) == t;
        assert q in ps - {p};
      }
      ImageSize(users, ps - {p}, keys - {s});
    }
  }

  /** Those whose order is of a perp market, or of a spot market. */
  function UsedOf(users: Users, kind: MarketType): set<(Pubkey, nat)> {
    set p | p in UsedSlots(users) && users[p.0][p.1].marketType == kind
  }

  /** After a build the sizes are the numbers of perp and of spot orders that are in use. */
  lemma BuiltSizes(users: Users, visit: seq<Pubkey>, slot: nat, perpSize: nat, spotSize: nat)
    requires Visits(visit, users.Keys) && (forall u :: u in users ==> DistinctIds(users[u]))
    requires forall u :: u in visit ==> u in users
    requires IsKindSize(Built(users, visit, slot).perp, perpSize)
             && IsKindSize(Built(users, visit, slot).spot, spotSize)
    ensures perpSize == |UsedOf(users, Perp)| && spotSize == |UsedOf(users, Spot)|
    ensures perpSize + spotSize == |UsedSlots(users)|
  {
    hide UserTable, IsKindSize, Represents, UsedSlots, TableBuilt, Built, KindEntries;
    var T := UserTable(users, slot);
    BuiltInv(users, visit, slot);
    TableBuiltIsUserTable(users, visit, slot);
    SizesCountOrders(Built(users, visit, slot), T, perpSize, spotSize);
    UserTableExact(users, slot);
    ImageSize(users, UsedSlots(users), T.Keys);
    assert |T.Keys| == |T|;
    KindImage(users, slot, Perp);
    KindImage(users, slot, Spot);
  }

  lemma KindImage(users: Users, slot: nat, kind: MarketType)
    requires forall u :: u in users ==> DistinctIds(users[u])
    ensures |KindEntries(UserTable(users, slot), kind)| == |UsedOf(users, kind)|
  {
    hide UserTable, DistinctIds, UsedSlots, TypeAt, SideOf, ListedIn, OnSide;
    var T := UserTable(users, slot);
    UserTableExact(users, slot);
    UsedSlotsInRange(users);
    ImageSize(users, UsedOf(users, kind), KindEntries(T, kind));
  }

  lemma UsedSlotsInRange(users: Users)
    ensures forall p :: p in UsedSlots(users) ==> p.0 in users && p.1 < |users[p.0]|
  {}
}
