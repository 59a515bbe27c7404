/**
  * The abstract order book: one entry per order, saying which list holds it.
  * `Represents` ties the heaps and indexes of a book to such a table, and every
  * operation on the book is matched by a simple operation on the table.
  */
module Tables {
  import opened Collections
  import opened Orders
  import opened Nodes
  import opened OrderLists
  import opened Books

  datatype Placed = Placed(node: Node, list: NodeType, side: Side, id: MarketId) {
    predicate In(m: MarketId, t: NodeType) {
      id == m && list == t
    }
  }

  type Table = map<Sig, Placed>

  /** A promoted node keeps the type it was created with. */
  predicate EntryOk(s: Sig, p: Placed) {
    && p.node.Key() == s
    && p.id == p.node.order.Id()
    && p.side == SideOf(p.node.order)
    && (p.node.nodeType == p.list || (p.list == RestingLimit && p.node.nodeType == TakingLimit))
  }

  /** Two copies of a node that differ at most in the filled amount. */
  predicate SameTerms(a: Node, b: Node) {
    a.WithFilled(0) == b.WithFilled(0)
  }

  /**
    * A heap holds the entries of its list and side. A taking heap may also hold copies of
    * other markets' waiting nodes, possibly out of date in their filled amount.
    */
  ghost predicate HeapRep(h: Heap, T: Table, id: MarketId, t: NodeType, side: Side) {
    && (forall s :: s in h ==> s in T && HeapEntryOk(h[s].node, T[s], id, t, side))
    && (forall s :: s in T && T[s].In(id, t) && T[s].side == side ==> s in h && h[s].node == T[s].node)
  }

  predicate HeapEntryOk(n: Node, p: Placed, id: MarketId, t: NodeType, side: Side) {
    p.list == t && p.side == side && (p.id == id || t == TakingLimit) && SameTerms(n, p.node)
  }

  /** An index holds the entries of its list; a taking index may also hold stale promoted nodes. */
  ghost predicate IndexRep(sigs: map<Sig, Node>, T: Table, id: MarketId, t: NodeType) {
    && (forall s :: s in sigs ==> s in T && T[s].id == id
                                  && (T[s].list == t || (t == TakingLimit && T[s].list == RestingLimit)))
    && (forall s :: s in T && T[s].In(id, t) ==> s in sigs && sigs[s] == T[s].node)
  }

  ghost predicate ListRep(l: ListState, T: Table, id: MarketId, t: NodeType) {
    && IndexRep(l.sigs, T, id, t)
    && HeapRep(l.bids, T, id, t, Bid)
    && HeapRep(l.asks, T, id, t, Ask)
  }

  ghost predicate MarketRep(m: MarketLists, T: Table, id: MarketId) {
    forall t :: ListRep(m.List(t), T, id, t)
  }

  ghost predicate KindRep(ms: Markets, T: Table, kind: MarketType) {
    forall i :: i in ms ==> MarketRep(ms[i], T, MarketId(kind, i))
  }

  ghost predicate Represents(b: Book, T: Table) {
    && b.WellFormed()
    && Entries(b, T)
    && ListsRep(b, T)
  }

  ghost predicate Entries(b: Book, T: Table) {
    forall s :: s in T ==> EntryOk(s, T[s]) && b.Has(T[s].id)
  }

  ghost predicate ListsRep(b: Book, T: Table) {
    KindRep(b.perp, T, Perp) && KindRep(b.spot, T, Spot)
  }

  lemma EmptyRepresents()
    ensures Represents(EmptyBook(), map[])
  {}

  // ----- insertion -----

  function TableInserted(T: Table, o: Order, user: Pubkey, slot: nat): Table {
    T[Sig(o.orderId, user) := Placed(Node(TypeAt(o, slot), o, user), TypeAt(o, slot), SideOf(o), o.Id())]
  }

  lemma HeapRepElsewhere(h: Heap, T: Table, s: Sig, p: Placed, id: MarketId, t: NodeType, side: Side)
    requires HeapRep(h, T, id, t, side) && s !in T && !(p.In(id, t) && p.side == side)
    ensures HeapRep(h, T[s := p], id, t, side)
  {}

  lemma ListRepElsewhere(l: ListState, T: Table, s: Sig, p: Placed, id: MarketId, t: NodeType)
    requires ListRep(l, T, id, t) && s !in T && !p.In(id, t)
    ensures ListRep(l, T[s := p], id, t)
  {
    HeapRepElsewhere(l.bids, T, s, p, id, t, Bid);
    HeapRepElsewhere(l.asks, T, s, p, id, t, Ask);
  }

  lemma HeapRepInserted(h: Heap, T: Table, s: Sig, p: Placed, d: DirectionalNode, id: MarketId, t: NodeType, side: Side)
    requires HeapRep(h, T, id, t, side) && s !in T && p.In(id, t) && p.side == side && d.node == p.node
    ensures HeapRep(h[s := d], T[s := p], id, t, side)
  {}

  lemma IndexRepInserted(sigs: map<Sig, Node>, T: Table, s: Sig, p: Placed, id: MarketId, t: NodeType)
    requires IndexRep(sigs, T, id, t) && s !in T && p.In(id, t)
    ensures IndexRep(sigs[s := p.node], T[s := p], id, t)
  {}

  lemma ListRepInserted(l: ListState, T: Table, s: Sig, p: Placed, id: MarketId, t: NodeType)
    requires ListRep(l, T, id, t) && s !in T && p.In(id, t) && p.node.Key() == s
    ensures ListRep(l.Inserted(p.node, p.side), T[s := p], id, t)
  {
    hide HeapRep;
    IndexRepInserted(l.sigs, T, s, p, id, t);
    var d := DirectionalNode(p.node, l.Dir(p.side));
    HeapRepInserted(l.Heap(p.side), T, s, p, d, id, t, p.side);
    if p.side == Bid {
      HeapRepElsewhere(l.asks, T, s, p, id, t, Ask);
    } else {
      HeapRepElsewhere(l.bids, T, s, p, id, t, Bid);
    }
  }

  lemma MarketRepEmpty(T: Table, id: MarketId)
    requires forall s :: s in T ==> T[s].id != id
    ensures MarketRep(EmptyMarket(), T, id)
  {
    forall t ensures ListRep(EmptyMarket().List(t), T, id, t) {
      assert EmptyMarket().List(t) == EmptyList(t);
    }
  }

  lemma MarketRepElsewhere(m: MarketLists, T: Table, s: Sig, p: Placed, id: MarketId)
    requires MarketRep(m, T, id) && s !in T && p.id != id
    ensures MarketRep(m, T[s := p], id)
  {
    forall t ensures ListRep(m.List(t), T[s := p], id, t) {
      ListRepElsewhere(m.List(t), T, s, p, id, t);
    }
  }

  lemma MarketRepInserted(m: MarketLists, T: Table, s: Sig, p: Placed, id: MarketId)
    requires MarketRep(m, T, id) && s !in T && p.id == id && p.node.Key() == s
    ensures MarketRep(m.With(p.list, m.List(p.list).Inserted(p.node, p.side)), T[s := p], id)
  {
    var m' := m.With(p.list, m.List(p.list).Inserted(p.node, p.side));
    forall t ensures ListRep(m'.List(t), T[s := p], id, t) {
      assert ListRep(m.List(t), T, id, t);
      if t == p.list {
        ListRepInserted(m.List(t), T, s, p, id, t);
      } else {
        ListRepElsewhere(m.List(t), T, s, p, id, t);
        assert m'.List(t) == m.List(t);
      }
    }
  }

  lemma KindRepInserted(ms: Markets, T: Table, s: Sig, p: Placed, m: MarketLists)
    requires KindRep(ms, T, p.id.kind) && s !in T && MarketRep(m, T[s := p], p.id)
    ensures KindRep(ms[p.id.index := m], T[s := p], p.id.kind)
  {
    var ms' := ms[p.id.index := m];
    forall i | i in ms' ensures MarketRep(ms'[i], T[s := p], MarketId(p.id.kind, i)) {
      if i != p.id.index {
        MarketRepElsewhere(ms[i], T, s, p, MarketId(p.id.kind, i));
      }
    }
  }

  lemma KindRepElsewhere(ms: Markets, T: Table, s: Sig, p: Placed, kind: MarketType)
    requires KindRep(ms, T, kind) && s !in T && p.id.kind != kind
    ensures KindRep(ms, T[s := p], kind)
  {
    forall i | i in ms ensures MarketRep(ms[i], T[s := p], MarketId(kind, i)) {
      MarketRepElsewhere(ms[i], T, s, p, MarketId(kind, i));
    }
  }

  lemma ReadRep(b: Book, T: Table, id: MarketId)
    requires Entries(b, T) && ListsRep(b, T)
    ensures MarketRep(b.Read(id), T, id)
  {
    if b.Has(id) {
      assert MarketId(id.kind, id.index) == id;
    } else {
      MarketRepEmpty(T, id);
    }
  }

  /** One market is replaced; the other kind is untouched. */
  lemma PutInserted(b: Book, T: Table, s: Sig, p: Placed, m: MarketLists)
    requires ListsRep(b, T) && s !in T && MarketRep(m, T[s := p], p.id)
    ensures ListsRep(b.Put(p.id, m), T[s := p])
  {
    KindRepInserted(b.Of(p.id.kind), T, s, p, m);
    if p.id.kind == Perp {
      KindRepElsewhere(b.spot, T, s, p, Spot);
    } else {
      KindRepElsewhere(b.perp, T, s, p, Perp);
    }
  }

  lemma PutEntries(b: Book, T: Table, s: Sig, p: Placed, m: MarketLists)
    requires Entries(b, T) && EntryOk(s, p)
    ensures Entries(b.Put(p.id, m), T[s := p])
  {}

  /** An entry for an order as it came in, in the list, side and market that the order's own fields name. */
  predicate PlacedWell(p: Placed, o: Order, user: Pubkey, slot: nat) {
    && p.node == Node(p.list, o, user)
    && ListedIn(o, slot, p.list) && OnSide(o, p.side)
    && p.id.kind == o.marketType && p.id.index == o.marketIndex
  }

  /** Inserting an order under a fresh signature adds one entry, where the order belongs. */
  lemma InsertRepresents(b: Book, T: Table, o: Order, user: Pubkey, slot: nat)
    requires Represents(b, T) && Sig(o.orderId, user) !in T
    ensures Represents(b.Inserted(o, user, slot), TableInserted(T, o, user, slot))
    ensures var p := TableInserted(T, o, user, slot)[Sig(o.orderId, user)];
            TableInserted(T, o, user, slot) == T[Sig(o.orderId, user) := p] && PlacedWell(p, o, user, slot)
  {
    ClassificationIsExact(o, slot);
    var s := Sig(o.orderId, user);
    var p := TableInserted(T, o, user, slot)[s];
    var m := b.Read(p.id);
    var m' := m.With(p.list, m.List(p.list).Inserted(p.node, p.side));
    InsertedKeepsForm(b, o, user, slot);
    ReadRep(b, T, p.id);
    MarketRepInserted(m, T, s, p, p.id);
    PutInserted(b, T, s, p, m');
    PutEntries(b, T, s, p, m');
    assert b.Inserted(o, user, slot) == b.Put(p.id, m');
  }

  // ----- fills -----

  function TableFilled(T: Table, s: Sig, filled: nat): Table
    requires s in T
  {
    T[s := T[s].(node := T[s].node.WithFilled(filled))]
  }

  lemma HeapRepFilledElsewhere(h: Heap, T: Table, s: Sig, filled: nat, id: MarketId, t: NodeType, side: Side)
    requires HeapRep(h, T, id, t, side) && s in T && !(T[s].In(id, t) && T[s].side == side)
    ensures HeapRep(h, TableFilled(T, s, filled), id, t, side)
  {}

  lemma ListRepFilledElsewhere(l: ListState, T: Table, s: Sig, filled: nat, id: MarketId, t: NodeType)
    requires ListRep(l, T, id, t) && s in T && !T[s].In(id, t)
    ensures ListRep(l, TableFilled(T, s, filled), id, t)
  {
    HeapRepFilledElsewhere(l.bids, T, s, filled, id, t, Bid);
    HeapRepFilledElsewhere(l.asks, T, s, filled, id, t, Ask);
  }

  lemma HeapRepFilled(h: Heap, T: Table, s: Sig, filled: nat, d: DirectionalNode, id: MarketId, t: NodeType, side: Side)
    requires HeapRep(h, T, id, t, side) && s in T && T[s].In(id, t) && T[s].side == side
    requires d.node == T[s].node.WithFilled(filled)
    ensures HeapRep(h[s := d], TableFilled(T, s, filled), id, t, side)
  {}

  lemma ListRepFilled(l: ListState, T: Table, s: Sig, filled: nat, id: MarketId, t: NodeType)
    requires ListRep(l, T, id, t) && s in T && T[s].In(id, t) && T[s].node.Key() == s
    ensures ListRep(l.Updated(T[s].node.order.(filled := filled), s.user, T[s].side), TableFilled(T, s, filled), id, t)
  {
    var side := T[s].side;
    assert HeapRep(l.Heap(side), T, id, t, side);
    var d := l.Heap(side)[s].(node := T[s].node.WithFilled(filled));
    HeapRepFilled(l.Heap(side), T, s, filled, d, id, t, side);
    if side == Bid {
      HeapRepFilledElsewhere(l.asks, T, s, filled, id, t, Ask);
    } else {
      HeapRepFilledElsewhere(l.bids, T, s, filled, id, t, Bid);
    }
  }

  lemma MarketRepFilled(m: MarketLists, T: Table, s: Sig, filled: nat, id: MarketId)
    requires MarketRep(m, T, id) && s in T && T[s].id == id && T[s].node.Key() == s
    ensures MarketRep(m.With(T[s].list,
                             m.List(T[s].list).Updated(T[s].node.order.(filled := filled), s.user, T[s].side)),
                      TableFilled(T, s, filled), id)
  {
    hide ListRep, ListState.Updated, TableFilled;
    var p := T[s];
    var m' := m.With(p.list, m.List(p.list).Updated(p.node.order.(filled := filled), s.user, p.side));
    forall t ensures ListRep(m'.List(t), TableFilled(T, s, filled), id, t) {
      assert ListRep(m.List(t), T, id, t);
      if t == p.list {
        ListRepFilled(m.List(t), T, s, filled, id, t);
      } else {
        ListRepFilledElsewhere(m.List(t), T, s, filled, id, t);
        assert m'.List(t) == m.List(t);
      }
    }
  }

  lemma MarketRepFilledElsewhere(m: MarketLists, T: Table, s: Sig, filled: nat, id: MarketId)
    requires MarketRep(m, T, id) && s in T && T[s].id != id
    ensures MarketRep(m, TableFilled(T, s, filled), id)
  {
    forall t ensures ListRep(m.List(t), TableFilled(T, s, filled), id, t) {
      ListRepFilledElsewhere(m.List(t), T, s, filled, id, t);
    }
  }

  lemma KindRepFilled(ms: Markets, T: Table, s: Sig, filled: nat, m: MarketLists)
    requires s in T && KindRep(ms, T, T[s].id.kind) && MarketRep(m, TableFilled(T, s, filled), T[s].id)
    ensures KindRep(ms[T[s].id.index := m], TableFilled(T, s, filled), T[s].id.kind)
  {
    var id := T[s].id;
    var ms' := ms[id.index := m];
    forall i | i in ms' ensures MarketRep(ms'[i], TableFilled(T, s, filled), MarketId(id.kind, i)) {
      if i != id.index {
        MarketRepFilledElsewhere(ms[i], T, s, filled, MarketId(id.kind, i));
      }
    }
  }

  lemma KindRepFilledElsewhere(ms: Markets, T: Table, s: Sig, filled: nat, kind: MarketType)
    requires KindRep(ms, T, kind) && s in T && T[s].id.kind != kind
    ensures KindRep(ms, TableFilled(T, s, filled), kind)
  {
    forall i | i in ms ensures MarketRep(ms[i], TableFilled(T, s, filled), MarketId(kind, i)) {
      MarketRepFilledElsewhere(ms[i], T, s, filled, MarketId(kind, i));
    }
  }

  lemma PutFilled(b: Book, T: Table, s: Sig, filled: nat, m: MarketLists)
    requires ListsRep(b, T) && s in T && MarketRep(m, TableFilled(T, s, filled), T[s].id)
    ensures ListsRep(b.Put(T[s].id, m), TableFilled(T, s, filled))
  {
    KindRepFilled(b.Of(T[s].id.kind), T, s, filled, m);
    if T[s].id.kind == Perp {
      KindRepFilledElsewhere(b.spot, T, s, filled, Spot);
    } else {
      KindRepFilledElsewhere(b.perp, T, s, filled, Perp);
    }
  }

  /** Writing a fill back finds the order if the book is settled for it at `slot`. */
  lemma FillRepresents(b: Book, T: Table, s: Sig, filled: nat, slot: nat)
    requires Represents(b, T) && s in T && T[s].list == TypeAt(T[s].node.order, slot)
    ensures b.Has(T[s].id) && T[s].node.order.(filled := filled).Id() == T[s].id
    ensures Represents(b.Updated(T[s].node.order.(filled := filled), s.user, slot), TableFilled(T, s, filled))
  {
    var o := T[s].node.order.(filled := filled);
    FillKeepsType(T[s].node.order, filled, slot);
    var p := T[s];
    assert EntryOk(s, p);
    var m := b.At(p.id);
    var m' := m.With(p.list, m.List(p.list).Updated(o, s.user, p.side));
    UpdatedKeepsForm(b, o, s.user, slot);
    ReadRep(b, T, p.id);
    MarketRepFilled(m, T, s, filled, p.id);
    PutFilled(b, T, s, filled, m');
    PutEntries(b, T, s, p.(node := p.node.WithFilled(filled)), m');
    assert b.Updated(o, s.user, slot) == b.Put(p.id, m');
  }

  // ----- promotion -----

  predicate Promotable(p: Placed, slot: nat) {
    p.list == TakingLimit && IsRestingLimitOrder(p.node.order, slot)
  }

  function PromotableSigs(T: Table, slot: nat): set<Sig> {
    set s | s in T && Promotable(T[s], slot)
  }

  function Moved(T: Table, moved: set<Sig>): Table {
    map s | s in T :: if s in moved then T[s].(list := RestingLimit) else T[s]
  }

  function TablePromoted(T: Table, slot: nat): Table {
    Moved(T, PromotableSigs(T, slot))
  }

  /** No taking heap holds a node that its own index does not know. */
  predicate Clean(m: MarketLists) {
    m.taking.bids.Keys <= m.taking.sigs.Keys && m.taking.asks.Keys <= m.taking.sigs.Keys
  }

  ghost predicate NoForeign(ms: Markets) {
    forall i :: i in ms ==> Clean(ms[i])
  }

  /** No taking heap holds a copy of another market's node that is ready for promotion. */
  predicate NoReadyForeign(ms: Markets, slot: nat) {
    forall i :: i in ms ==> NoReadyCopy(ms[i].taking, slot)
  }

  predicate NoReadyCopy(l: ListState, slot: nat) {
    && (forall s :: s in l.bids && s !in l.sigs ==> !IsRestingLimitOrder(l.bids[s].node.order, slot))
    && (forall s :: s in l.asks && s !in l.sigs ==> !IsRestingLimitOrder(l.asks[s].node.order, slot))
  }

  lemma NoForeignNoReady(ms: Markets, slot: nat)
    requires NoForeign(ms)
    ensures NoReadyForeign(ms, slot)
  {
    forall i | i in ms ensures NoReadyCopy(ms[i].taking, slot) {
      assert Clean(ms[i]);
      assert forall s :: s in ms[i].taking.bids ==> s in ms[i].taking.bids.Keys;
      assert forall s :: s in ms[i].taking.asks ==> s in ms[i].taking.asks.Keys;
      assert forall s :: s in ms[i].taking.sigs.Keys ==> s in ms[i].taking.sigs;
    }
  }

  lemma SameTermsSameTime(a: Node, b: Node, slot: nat)
    requires SameTerms(a, b)
    ensures IsRestingLimitOrder(a.order, slot) <==> IsRestingLimitOrder(b.order, slot)
  {
    assert IsRestingLimitOrder(a.WithFilled(0).order, slot) == IsRestingLimitOrder(a.order, slot);
    assert IsRestingLimitOrder(b.WithFilled(0).order, slot) == IsRestingLimitOrder(b.order, slot);
  }

  /** The accumulator: only waiting nodes, and all those of market `id` in their current form. */
  ghost predicate KeptRep(h: Heap, T: Table, id: MarketId, slot: nat, side: Side) {
    WaitingOnly(h, T, slot, side) && WaitingOf(h, T, id, slot, side)
  }

  ghost predicate WaitingOnly(h: Heap, T: Table, slot: nat, side: Side) {
    forall s :: s in h ==> s in T && s !in PromotableSigs(T, slot) && T[s].list == TakingLimit && T[s].side == side
                           && SameTerms(h[s].node, T[s].node)
  }

  ghost predicate WaitingOf(h: Heap, T: Table, id: MarketId, slot: nat, side: Side) {
    forall s :: s in T && T[s].In(id, TakingLimit) && T[s].side == side && s !in PromotableSigs(T, slot) ==>
      s in h && h[s].node == T[s].node
  }

  lemma KeptOfMarket(h: Heap, T: Table, id: MarketId, slot: nat, side: Side)
    requires HeapRep(h, T, id, TakingLimit, side)
    ensures KeptRep(Kept(h, slot), T, id, slot, side)
  {
    forall s | s in h ensures s in T && (s in PromotableSigs(T, slot) <==> IsRestingLimitOrder(h[s].node.order, slot)) {
      assert HeapEntryOk(h[s].node, T[s], id, TakingLimit, side);
      SameTermsSameTime(h[s].node, T[s].node, slot);
    }
  }

  lemma KeptUnion(h: Heap, h': Heap, T: Table, id: MarketId, slot: nat, side: Side)
    requires WaitingOnly(h, T, slot, side) && KeptRep(h', T, id, slot, side)
    ensures KeptRep(h + h', T, id, slot, side)
  {
    hide PromotableSigs, SameTerms;
  }

  lemma NothingWaits(T: Table, slot: nat, side: Side)
    ensures WaitingOnly(map[], T, slot, side)
  {}

  lemma {:induction false} KeptUpToRep(ms: Markets, T: Table, kind: MarketType, visit: seq<nat>, n: nat, slot: nat,
                                       side: Side)
    requires n <= |visit| && forall i :: i in visit ==> i in ms
    requires KindRep(ms, T, kind)
    ensures WaitingOnly(KeptUpTo(ms, visit, n, slot, side), T, slot, side)
    ensures n > 0 ==> KeptRep(KeptUpTo(ms, visit, n, slot, side), T, MarketId(kind, visit[n - 1]), slot, side)
  {
    hide HeapRep, IndexRep, Kept, WaitingOnly, WaitingOf;
    NothingWaits(T, slot, side);
    if n == 0 {
    } else {
      var i := visit[n - 1];
      KeptUpToRep(ms, T, kind, visit, n - 1, slot, side);
      assert i in visit;
      assert MarketRep(ms[i], T, MarketId(kind, i));
      assert ListRep(ms[i].List(TakingLimit), T, MarketId(kind, i), TakingLimit);
      KeptOfMarket(ms[i].taking.Heap(side), T, MarketId(kind, i), slot, side);
      KeptUnion(KeptUpTo(ms, visit, n - 1, slot, side), Kept(ms[i].taking.Heap(side), slot), T, MarketId(kind, i), slot,
                side);
    }
  }

  /** The taking list of a promoted market: its own waiting orders, and copies of other markets' ones. */
  lemma PromotedTakingRep(h: Heap, T: Table, id: MarketId, slot: nat, side: Side)
    requires KeptRep(h, T, id, slot, side)
    ensures HeapRep(h, TablePromoted(T, slot), id, TakingLimit, side)
  {
    var moved := PromotableSigs(T, slot);
  }

  lemma StaleIndexRep(sigs: map<Sig, Node>, T: Table, id: MarketId, slot: nat)
    requires IndexRep(sigs, T, id, TakingLimit)
    ensures IndexRep(sigs, TablePromoted(T, slot), id, TakingLimit)
  {
    var moved := PromotableSigs(T, slot);
  }

  /** `h` holds the entries of market `id` and `side` that a promotion moves. */
  ghost predicate MovedRep(h: Heap, T: Table, moved: set<Sig>, id: MarketId, side: Side) {
    && (forall s :: s in h <==> s in T && s in moved && T[s].id == id && T[s].side == side)
    && (forall s :: s in h ==> h[s].node == T[s].node)
  }

  lemma ReadyRep(h: Heap, T: Table, id: MarketId, slot: nat, side: Side)
    requires HeapRep(h, T, id, TakingLimit, side)
    requires forall s :: s in h && s in T && T[s].id != id ==> !IsRestingLimitOrder(h[s].node.order, slot)
    ensures MovedRep(Ready(h, slot), T, PromotableSigs(T, slot), id, side)
  {
    assert forall s :: s in h ==> s in T && HeapEntryOk(h[s].node, T[s], id, TakingLimit, side);
  }

  lemma AbsorbedHeapRep(h: Heap, ready: Heap, dir: SortDirection, T: Table, moved: set<Sig>, id: MarketId, side: Side)
    requires HeapRep(h, T, id, RestingLimit, side) && MovedRep(ready, T, moved, id, side)
    ensures HeapRep(h + Turned(ready, dir), Moved(T, moved), id, RestingLimit, side)
  {}

  lemma AbsorbedIndexRep(sigs: map<Sig, Node>, bids: Heap, asks: Heap, T: Table, moved: set<Sig>, id: MarketId)
    requires IndexRep(sigs, T, id, RestingLimit)
    requires MovedRep(bids, T, moved, id, Bid) && MovedRep(asks, T, moved, id, Ask)
    ensures IndexRep(sigs + NodesOf(bids) + NodesOf(asks),
                     Moved(T, moved), id, RestingLimit)
  {}

  lemma AbsorbedFields(l: ListState, bids: Heap, asks: Heap)
    ensures var l' := Absorbed(Absorbed(l, bids, Bid), asks, Ask);
            && l'.bids == l.bids + Turned(bids, l.bidDir)
            && l'.asks == l.asks + Turned(asks, l.askDir)
            && l'.sigs == l.sigs + NodesOf(bids) + NodesOf(asks)
  {}

  lemma PromotedRestingRep(rest: ListState, bids: Heap, asks: Heap, T: Table, moved: set<Sig>, id: MarketId)
    requires ListRep(rest, T, id, RestingLimit)
    requires MovedRep(bids, T, moved, id, Bid) && MovedRep(asks, T, moved, id, Ask)
    ensures ListRep(Absorbed(Absorbed(rest, bids, Bid), asks, Ask), Moved(T, moved), id, RestingLimit)
  {
    AbsorbedFields(rest, bids, asks);
    AbsorbedHeapRep(rest.bids, bids, rest.bidDir, T, moved, id, Bid);
    AbsorbedHeapRep(rest.asks, asks, rest.askDir, T, moved, id, Ask);
    AbsorbedIndexRep(rest.sigs, bids, asks, T, moved, id);
  }

  lemma PromotedHeapRep(h: Heap, T: Table, moved: set<Sig>, id: MarketId, t: NodeType, side: Side)
    requires HeapRep(h, T, id, t, side) && t != TakingLimit && t != RestingLimit
    requires forall s :: s in T && s in moved ==> T[s].list == TakingLimit
    ensures HeapRep(h, Moved(T, moved), id, t, side)
  {}

  lemma PromotedIndexRep(sigs: map<Sig, Node>, T: Table, moved: set<Sig>, id: MarketId, t: NodeType)
    requires IndexRep(sigs, T, id, t) && t != TakingLimit && t != RestingLimit
    requires forall s :: s in T && s in moved ==> T[s].list == TakingLimit
    ensures IndexRep(sigs, Moved(T, moved), id, t)
  {}

  lemma PromotedOtherRep(l: ListState, T: Table, id: MarketId, t: NodeType, slot: nat)
    requires ListRep(l, T, id, t) && t != TakingLimit && t != RestingLimit
    ensures ListRep(l, TablePromoted(T, slot), id, t)
  {
    hide HeapRep, IndexRep, Moved;
    var moved := PromotableSigs(T, slot);
    assert forall s :: s in T && s in moved ==> T[s].list == TakingLimit;
    PromotedIndexRep(l.sigs, T, moved, id, t);
    PromotedHeapRep(l.bids, T, moved, id, t, Bid);
    PromotedHeapRep(l.asks, T, moved, id, t, Ask);
  }

  lemma ForeignNotIndexed(l: ListState, T: Table, id: MarketId, s: Sig)
    requires IndexRep(l.sigs, T, id, TakingLimit) && s in T && T[s].list == TakingLimit
    ensures s in l.sigs <==> T[s].id == id
  {}

  lemma PromotedMarketRep(m: MarketLists, T: Table, id: MarketId, slot: nat, bids: Heap, asks: Heap)
    requires MarketRep(m, T, id) && NoReadyCopy(m.taking, slot)
    requires KeptRep(bids, T, id, slot, Bid) && KeptRep(asks, T, id, slot, Ask)
    ensures MarketRep(PromotedMarket(m, slot, bids, asks), TablePromoted(T, slot), id)
  {
    var m' := PromotedMarket(m, slot, bids, asks);
    forall t ensures ListRep(m'.List(t), TablePromoted(T, slot), id, t) {
      assert ListRep(m.List(t), T, id, t);
      if t == TakingLimit {
        PromotedTakingRep(bids, T, id, slot, Bid);
        PromotedTakingRep(asks, T, id, slot, Ask);
        StaleIndexRep(m.taking.sigs, T, id, slot);
      } else if t == RestingLimit {
        ReadyOfMarket(m, T, id, slot);
        PromotedRestingRep(m.resting, Ready(m.taking.bids, slot), Ready(m.taking.asks, slot), T,
                           PromotableSigs(T, slot), id);
      } else {
        assert m'.List(t) == m.List(t);
        PromotedOtherRep(m.List(t), T, id, t, slot);
      }
    }
  }

  lemma ReadyOfMarket(m: MarketLists, T: Table, id: MarketId, slot: nat)
    requires MarketRep(m, T, id) && NoReadyCopy(m.taking, slot)
    ensures MovedRep(Ready(m.taking.bids, slot), T, PromotableSigs(T, slot), id, Bid)
    ensures MovedRep(Ready(m.taking.asks, slot), T, PromotableSigs(T, slot), id, Ask)
  {
    var l := m.List(TakingLimit);
    assert ListRep(l, T, id, TakingLimit) && l == m.taking;
    forall s | s in l.bids && s in T && T[s].id != id ensures !IsRestingLimitOrder(l.bids[s].node.order, slot) {
      ForeignNotIndexed(l, T, id, s);
    }
    forall s | s in l.asks && s in T && T[s].id != id ensures !IsRestingLimitOrder(l.asks[s].node.order, slot) {
      ForeignNotIndexed(l, T, id, s);
    }
    ReadyRep(l.bids, T, id, slot, Bid);
    ReadyRep(l.asks, T, id, slot, Ask);
  }

  lemma PromotedAtRep(ms: Markets, T: Table, kind: MarketType, visit: seq<nat>, j: nat, slot: nat)
    requires j < |visit| && forall i :: i in visit ==> i in ms
    requires KindRep(ms, T, kind) && NoReadyForeign(ms, slot)
    ensures MarketRep(PromotedAt(ms, visit, j, slot), TablePromoted(T, slot), MarketId(kind, visit[j]))
  {
    KeptUpToRep(ms, T, kind, visit, j + 1, slot, Bid);
    KeptUpToRep(ms, T, kind, visit, j + 1, slot, Ask);
    assert visit[j] in visit;
    PromotedMarketRep(ms[visit[j]], T, MarketId(kind, visit[j]), slot,
                      KeptUpTo(ms, visit, j + 1, slot, Bid), KeptUpTo(ms, visit, j + 1, slot, Ask));
  }

  lemma KindPromotionRep(ms: Markets, ms': Markets, T: Table, kind: MarketType, slot: nat, visit: seq<nat>)
    requires IsKindPromotion(ms, ms', slot, visit)
    requires KindRep(ms, T, kind) && NoReadyForeign(ms, slot)
    ensures KindRep(ms', TablePromoted(T, slot), kind)
  {
    forall i | i in ms' ensures MarketRep(ms'[i], TablePromoted(T, slot), MarketId(kind, i)) {
      var j := VisitPosition(ms, ms', slot, visit, i);
      PromotedAtRep(ms, T, kind, visit, j, slot);
    }
  }

  /** A foreign copy that is ready ends up in the resting list of the wrong market. */
  lemma ReadyForeignLeaks(ms: Markets, ms': Markets, T: Table, kind: MarketType, slot: nat, visit: seq<nat>)
    requires IsKindPromotion(ms, ms', slot, visit) && KindRep(ms, T, kind)
    requires !NoReadyForeign(ms, slot)
    ensures !KindRep(ms', TablePromoted(T, slot), kind)
  {
    hide HeapRep, TablePromoted;
    var i :| i in ms && !NoReadyCopy(ms[i].taking, slot);
    var id := MarketId(kind, i);
    assert MarketRep(ms[i], T, id);
    var s := ReadyCopyLeaks(ms[i], T, id, slot);
    var j := VisitPosition(ms, ms', slot, visit, i);
    assert s in ms'[i].resting.sigs;
    PromotedId(T, slot, s);
    assert ms'[i].resting == ms'[i].List(RestingLimit);
    assert !IndexRep(ms'[i].List(RestingLimit).sigs, TablePromoted(T, slot), id, RestingLimit);
    assert !ListRep(ms'[i].List(RestingLimit), TablePromoted(T, slot), id, RestingLimit);
    assert !MarketRep(ms'[i], TablePromoted(T, slot), id);
  }

  lemma PromotedId(T: Table, slot: nat, s: Sig)
    requires s in T
    ensures s in TablePromoted(T, slot) && TablePromoted(T, slot)[s].id == T[s].id
  {}

  lemma ReadyCopyLeaks(m: MarketLists, T: Table, id: MarketId, slot: nat) returns (s: Sig)
    requires MarketRep(m, T, id) && !NoReadyCopy(m.taking, slot)
    ensures s in T && T[s].id != id
    ensures forall bids, asks :: s in PromotedMarket(m, slot, bids, asks).resting.sigs
  {
    var l := m.List(TakingLimit);
    assert ListRep(l, T, id, TakingLimit) && l == m.taking;
    s :| s !in l.sigs && ((s in l.bids && IsRestingLimitOrder(l.bids[s].node.order, slot))
                          || (s in l.asks && IsRestingLimitOrder(l.asks[s].node.order, slot)));
    ForeignNotIndexed(l, T, id, s);
    assert s in Ready(l.bids, slot) || s in Ready(l.asks, slot);
  }

  /**
    * A promotion pass, whatever its visiting order, moves exactly the entries whose auction
    * is over, if and only if no market holds a ready copy of another market's node.
    */
  lemma PromotionIsExact(b: Book, b': Book, T: Table, slot: nat, pv: seq<nat>, sv: seq<nat>)
    requires Represents(b, T) && slot > b.maxSlot && IsPromotion(b, b', slot, pv, sv)
    ensures Represents(b', TablePromoted(T, slot)) <==> NoReadyForeign(b.perp, slot) && NoReadyForeign(b.spot, slot)
  {
    PromotionKeepsForm(b, b', slot, pv, sv);
    PromotedEntries(b, b', T, slot);
    if NoReadyForeign(b.perp, slot) {
      KindPromotionRep(b.perp, b'.perp, T, Perp, slot, pv);
    } else {
      ReadyForeignLeaks(b.perp, b'.perp, T, Perp, slot, pv);
    }
    if NoReadyForeign(b.spot, slot) {
      KindPromotionRep(b.spot, b'.spot, T, Spot, slot, sv);
    } else {
      ReadyForeignLeaks(b.spot, b'.spot, T, Spot, slot, sv);
    }
  }

  lemma PromotedEntries(b: Book, b': Book, T: Table, slot: nat)
    requires Entries(b, T) && b'.perp.Keys == b.perp.Keys && b'.spot.Keys == b.spot.Keys
    ensures Entries(b', TablePromoted(T, slot))
  {
    var T' := TablePromoted(T, slot);
    forall s | s in T' ensures EntryOk(s, T'[s]) && b'.Has(T'[s].id) {
      assert EntryOk(s, T[s]) && b.Has(T[s].id);
      assert T[s].id.index in b'.Of(T[s].id.kind).Keys;
    }
  }
}
