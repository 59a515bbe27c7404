/** The contents of the order book and what each operation makes of them. */
module Books {
  import opened Collections
  import opened Orders
  import opened Nodes
  import opened OrderLists

  datatype MarketLists = MarketLists(
    resting: ListState,
    floating: ListState,
    taking: ListState,
    market: ListState,
    trigger: ListState)
  {
    function List(t: NodeType): ListState {
      match t
      case RestingLimit => resting
      case FloatingLimit => floating
      case TakingLimit => taking
      case Market => market
      case Trigger => trigger
    }

    function With(t: NodeType, l: ListState): MarketLists {
      match t
      case RestingLimit => this.(resting := l)
      case FloatingLimit => this.(floating := l)
      case TakingLimit => this.(taking := l)
      case Market => this.(market := l)
      case Trigger => this.(trigger := l)
    }

    function Size(): nat {
      resting.Size() + floating.Size() + taking.Size() + market.Size() + trigger.Size()
    }

    predicate WellFormed() {
      && (forall t :: List(t).WellKeyed() && List(t).bidDir == DirOf(t, Bid) && List(t).askDir == DirOf(t, Ask))
      && (forall s :: s in trigger.bids ==> trigger.bids[s].node.nodeType == NodeType.Trigger)
      && (forall s :: s in trigger.asks ==> trigger.asks[s].node.nodeType == NodeType.Trigger)
    }
  }

  /** The sort directions a market is created with. */
  function DirOf(t: NodeType, side: Side): SortDirection {
    match t
    case RestingLimit => if side == Bid then Descending else Ascending
    case FloatingLimit => if side == Bid then Descending else Ascending
    case TakingLimit => Ascending
    case Market => Ascending
    case Trigger => if side == Bid then Ascending else Descending
  }

  function EmptyList(t: NodeType): ListState {
    ListState(map[], map[], map[], DirOf(t, Bid), DirOf(t, Ask))
  }

  function EmptyMarket(): MarketLists {
    MarketLists(EmptyList(RestingLimit), EmptyList(FloatingLimit), EmptyList(TakingLimit),
                EmptyList(NodeType.Market), EmptyList(NodeType.Trigger))
  }

  type Markets = map<nat, MarketLists>

  datatype Book = Book(perp: Markets, spot: Markets, maxSlot: nat) {
    function Of(kind: MarketType): Markets {
      if kind == Perp then perp else spot
    }

    predicate Has(id: MarketId) {
      id.index in Of(id.kind)
    }

    function At(id: MarketId): MarketLists
      requires Has(id)
    {
      Of(id.kind)[id.index]
    }

    /** A market that was never created reads as an empty one. */
    function Read(id: MarketId): MarketLists {
      if Has(id) then At(id) else EmptyMarket()
    }

    function Put(id: MarketId, m: MarketLists): Book {
      match id.kind
      case Perp => this.(perp := perp[id.index := m])
      case Spot => this.(spot := spot[id.index := m])
    }

    ghost predicate WellFormed() {
      && (forall i :: i in perp ==> perp[i].WellFormed())
      && (forall i :: i in spot ==> spot[i].WellFormed())
    }

    // ----- operations -----

    function Inserted(o: Order, user: Pubkey, slot: nat): Book {
      var t := TypeAt(o, slot);
      var m := Read(o.Id());
      Put(o.Id(), m.With(t, m.List(t).Inserted(Node(t, o, user), SideOf(o))))
    }

    function Updated(o: Order, user: Pubkey, slot: nat): Book
      requires Has(o.Id())
    {
      var t := TypeAt(o, slot);
      var m := At(o.Id());
      Put(o.Id(), m.With(t, m.List(t).Updated(o, user, SideOf(o))))
    }
  }

  function EmptyBook(): Book {
    Book(map[], map[], 0)
  }

  // ----- promotion -----

  /** The nodes of a taking heap whose auction is over. */
  function Ready(h: Heap, slot: nat): Heap {
    map s | s in h && IsRestingLimitOrder(h[s].node.order, slot) :: h[s]
  }

  function Kept(h: Heap, slot: nat): Heap {
    map s | s in h && !IsRestingLimitOrder(h[s].node.order, slot) :: h[s]
  }

  function NodesOf(h: Heap): map<Sig, Node> {
    map s | s in h :: h[s].node
  }

  function Turned(h: Heap, dir: SortDirection): Heap {
    map s | s in h :: DirectionalNode(h[s].node, dir)
  }

  /** A list after inserting every node of `h` on `side`. */
  function Absorbed(l: ListState, h: Heap, side: Side): ListState {
    l.(sigs := l.sigs + NodesOf(h)).WithHeap(side, l.Heap(side) + Turned(h, l.Dir(side)))
  }

  /** Promotion of one market; `bids` and `asks` are the shared accumulators. */
  function PromotedMarket(m: MarketLists, slot: nat, bids: Heap, asks: Heap): MarketLists {
    m.(resting := Absorbed(Absorbed(m.resting, Ready(m.taking.bids, slot), Bid), Ready(m.taking.asks, slot), Ask),
       taking := m.taking.(bids := bids, asks := asks))
  }

  /** The accumulator of `side` after the first `n` visited markets. */
  function KeptUpTo(ms: Markets, visit: seq<nat>, n: nat, slot: nat, side: Side): Heap
    requires n <= |visit| && forall i :: i in visit ==> i in ms
  {
    if n == 0 then map[]
    else KeptUpTo(ms, visit, n - 1, slot, side) + Kept(ms[visit[n - 1]].taking.Heap(side), slot)
  }

  /** `ms'` is `ms` promoted at `slot` with the markets visited in the order `visit`. */
  ghost predicate IsKindPromotion(ms: Markets, ms': Markets, slot: nat, visit: seq<nat>) {
    && Visits(visit, ms.Keys)
    && ms'.Keys == ms.Keys
    && forall j :: 0 <= j < |visit| ==>
         && visit[j] in ms
         && ms'[visit[j]] == PromotedAt(ms, visit, j, slot)
  }

  function PromotedAt(ms: Markets, visit: seq<nat>, j: nat, slot: nat): MarketLists
    requires j < |visit| && forall i :: i in visit ==> i in ms
  {
    PromotedMarket(ms[visit[j]], slot, KeptUpTo(ms, visit, j + 1, slot, Bid), KeptUpTo(ms, visit, j + 1, slot, Ask))
  }

  /** One call of the promotion pass: nothing unless the slot is new. */
  ghost predicate IsPromotion(b: Book, b': Book, slot: nat, perpVisit: seq<nat>, spotVisit: seq<nat>) {
    if slot <= b.maxSlot then
      b' == b
    else
      && b'.maxSlot == slot
      && IsKindPromotion(b.perp, b'.perp, slot, perpVisit)
      && IsKindPromotion(b.spot, b'.spot, slot, spotVisit)
  }

  // ----- lookups -----

  /** The lists of a market in the order a lookup searches them. */
  function SearchOrder(m: MarketLists): seq<ListState> {
    [m.resting, m.floating, m.taking, m.market, m.trigger]
  }

  function ListsOf(ms: Markets, visit: seq<nat>): seq<ListState>
    requires forall i :: i in visit ==> i in ms
  {
    if visit == [] then [] else ListsOf(ms, visit[..|visit| - 1]) + SearchOrder(ms[visit[|visit| - 1]])
  }

  function FirstHit(lists: seq<ListState>, s: Sig): Option<Order> {
    if lists == [] then None
    else if s in lists[0].sigs then Some(lists[0].sigs[s].order)
    else FirstHit(lists[1..], s)
  }

  /** A lookup, for some order of visiting the markets. */
  ghost predicate IsLookup(b: Book, s: Sig, r: Option<Order>) {
    exists pv: seq<nat>, sv: seq<nat> ::
      && Visits(pv, b.perp.Keys) && Visits(sv, b.spot.Keys)
      && (forall i :: i in pv ==> i in b.perp) && (forall i :: i in sv ==> i in b.spot)
      && r == FirstHit(ListsOf(b.perp, pv) + ListsOf(b.spot, sv), s)
  }

  function SizeOver(ms: Markets, visit: seq<nat>): nat
    requires forall i :: i in visit ==> i in ms
  {
    if visit == [] then 0 else SizeOver(ms, visit[..|visit| - 1]) + ms[visit[|visit| - 1]].Size()
  }

  /** The size of the markets of one kind, for some order of visiting them. */
  ghost predicate IsKindSize(ms: Markets, size: nat) {
    exists visit: seq<nat> ::
      Visits(visit, ms.Keys) && (forall i :: i in visit ==> i in ms) && size == SizeOver(ms, visit)
  }

  // ----- building -----

  type Users = map<Pubkey, seq<Order>>

  function WithOrders(b: Book, orders: seq<Order>, user: Pubkey, slot: nat): Book {
    if orders == [] then b
    else
      var b' := WithOrders(b, orders[..|orders| - 1], user, slot);
      var o := orders[|orders| - 1];
      if o.status == Init then b' else b'.Inserted(o, user, slot)
  }

  function Built(users: Users, visit: seq<Pubkey>, slot: nat): Book
    requires forall u :: u in visit ==> u in users
  {
    if visit == [] then EmptyBook()
    else
      var u := visit[|visit| - 1];
      WithOrders(Built(users, visit[..|visit| - 1], slot), users[u], u, slot)
  }

  // ----- every operation keeps heaps keyed and uniform -----

  lemma WithKeepsForm(m: MarketLists, t: NodeType, l: ListState)
    requires m.WellFormed() && l.WellKeyed() && l.bidDir == DirOf(t, Bid) && l.askDir == DirOf(t, Ask)
    requires t == NodeType.Trigger ==> forall side, s :: s in l.Heap(side) ==> l.Heap(side)[s].node.nodeType == t
    ensures m.With(t, l).WellFormed()
  {
    var m' := m.With(t, l);
    forall u
      ensures m'.List(u).WellKeyed() && m'.List(u).bidDir == DirOf(u, Bid) && m'.List(u).askDir == DirOf(u, Ask)
    {
      if u != t {
        assert m'.List(u) == m.List(u);
      }
    }
    if t == NodeType.Trigger {
      assert m'.trigger.bids == l.Heap(Bid) && m'.trigger.asks == l.Heap(Ask);
    } else {
      assert m'.trigger == m.trigger;
    }
  }

  lemma InsertedMarketKeepsForm(m: MarketLists, node: Node, side: Side)
    requires m.WellFormed()
    ensures m.With(node.nodeType, m.List(node.nodeType).Inserted(node, side)).WellFormed()
  {
    var t := node.nodeType;
    var l := m.List(t);
    assert l.WellKeyed() && l.bidDir == DirOf(t, Bid) && l.askDir == DirOf(t, Ask);
    InsertedKeepsKeys(l, node, side);
    WithKeepsForm(m, t, l.Inserted(node, side));
  }

  lemma EmptyMarketForm()
    ensures EmptyMarket().WellFormed()
  {
    assert forall t :: EmptyMarket().List(t) == EmptyList(t);
  }

  lemma InsertedKeepsForm(b: Book, o: Order, user: Pubkey, slot: nat)
    requires b.WellFormed()
    ensures b.Inserted(o, user, slot).WellFormed()
  {
    hide TypeAt, SideOf, ListState.Inserted, MarketLists.WellFormed;
    EmptyMarketForm();
    InsertedMarketKeepsForm(b.Read(o.Id()), Node(TypeAt(o, slot), o, user), SideOf(o));
  }

  lemma UpdatedMarketKeepsForm(m: MarketLists, t: NodeType, o: Order, user: Pubkey, side: Side)
    requires m.WellFormed()
    ensures m.With(t, m.List(t).Updated(o, user, side)).WellFormed()
  {
    var l := m.List(t);
    assert l.WellKeyed() && l.bidDir == DirOf(t, Bid) && l.askDir == DirOf(t, Ask);
    UpdatedKeepsKeys(l, o, user, side);
    WithKeepsForm(m, t, l.Updated(o, user, side));
  }

  lemma UpdatedKeepsForm(b: Book, o: Order, user: Pubkey, slot: nat)
    requires b.WellFormed() && b.Has(o.Id())
    ensures b.Updated(o, user, slot).WellFormed()
  {
    hide TypeAt, SideOf, ListState.Updated, MarketLists.WellFormed;
    UpdatedMarketKeepsForm(b.At(o.Id()), TypeAt(o, slot), o, user, SideOf(o));
  }

  lemma TakingUniform(m: MarketLists, slot: nat, side: Side)
    requires m.WellFormed()
    ensures Uniform(Kept(m.taking.Heap(side), slot), Ascending)
  {
    var l := m.List(TakingLimit);
    assert l.WellKeyed() && l.bidDir == l.askDir == Ascending;
  }

  lemma {:induction false} KeptUpToUniform(ms: Markets, visit: seq<nat>, n: nat, slot: nat, side: Side)
    requires n <= |visit| && forall i :: i in visit ==> i in ms
    requires forall i :: i in ms ==> ms[i].WellFormed()
    ensures Uniform(KeptUpTo(ms, visit, n, slot, side), Ascending)
  {
    if n == 0 {
    } else {
      KeptUpToUniform(ms, visit, n - 1, slot, side);
      TakingUniform(ms[visit[n - 1]], slot, side);
    }
  }

  lemma AbsorbedKeepsKeys(l: ListState, h: Heap, side: Side)
    requires l.WellKeyed() && forall s :: s in h ==> h[s].node.Key() == s
    ensures var l' := Absorbed(l, h, side); l'.WellKeyed() && l'.bidDir == l.bidDir && l'.askDir == l.askDir
  {}

  lemma ReadyKeys(h: Heap, dir: SortDirection, slot: nat)
    requires Uniform(h, dir)
    ensures forall s :: s in Ready(h, slot) ==> Ready(h, slot)[s].node.Key() == s
  {}

  lemma PromotedMarketKeepsForm(m: MarketLists, slot: nat, bids: Heap, asks: Heap)
    requires m.WellFormed() && Uniform(bids, Ascending) && Uniform(asks, Ascending)
    ensures PromotedMarket(m, slot, bids, asks).WellFormed()
  {
    var taking, resting := m.List(TakingLimit), m.List(RestingLimit);
    assert taking.WellKeyed() && taking.bidDir == taking.askDir == Ascending;
    assert resting.WellKeyed() && resting.bidDir == DirOf(RestingLimit, Bid)
      && resting.askDir == DirOf(RestingLimit, Ask);
    ReadyKeys(taking.bids, Ascending, slot);
    ReadyKeys(taking.asks, Ascending, slot);
    AbsorbedKeepsKeys(resting, Ready(taking.bids, slot), Bid);
    var l := Absorbed(resting, Ready(taking.bids, slot), Bid);
    AbsorbedKeepsKeys(l, Ready(taking.asks, slot), Ask);
    WithKeepsForm(m, RestingLimit, Absorbed(l, Ready(taking.asks, slot), Ask));
    WithKeepsForm(m.With(RestingLimit, Absorbed(l, Ready(taking.asks, slot), Ask)), TakingLimit,
                  taking.(bids := bids, asks := asks));
  }

  lemma PromotedAtKeepsForm(ms: Markets, visit: seq<nat>, j: nat, slot: nat)
    requires j < |visit| && forall i :: i in visit ==> i in ms
    requires forall i :: i in ms ==> ms[i].WellFormed()
    ensures PromotedAt(ms, visit, j, slot).WellFormed()
  {
    KeptUpToUniform(ms, visit, j + 1, slot, Bid);
    KeptUpToUniform(ms, visit, j + 1, slot, Ask);
    PromotedMarketKeepsForm(ms[visit[j]], slot,
                            KeptUpTo(ms, visit, j + 1, slot, Bid), KeptUpTo(ms, visit, j + 1, slot, Ask));
  }

  /** The position at which a market is visited. */
  lemma VisitPosition(ms: Markets, ms': Markets, slot: nat, visit: seq<nat>, i: nat) returns (j: nat)
    requires IsKindPromotion(ms, ms', slot, visit) && i in ms
    ensures j < |visit| && visit[j] == i
    ensures forall k :: k in visit ==> k in ms
    ensures ms'[i] == PromotedAt(ms, visit, j, slot)
  {
    assert i in Elems(visit);
    j :| 0 <= j < |visit| && visit[j] == i;
    assert forall k :: k in visit ==> k in Elems(visit);
  }

  lemma KindPromotionKeepsForm(ms: Markets, ms': Markets, slot: nat, visit: seq<nat>)
    requires IsKindPromotion(ms, ms', slot, visit)
    requires forall i :: i in ms ==> ms[i].WellFormed()
    ensures forall i :: i in ms' ==> ms'[i].WellFormed()
  {
    forall i | i in ms' ensures ms'[i].WellFormed() {
      var j := VisitPosition(ms, ms', slot, visit, i);
      PromotedAtKeepsForm(ms, visit, j, slot);
    }
  }

  lemma PromotionKeepsForm(b: Book, b': Book, slot: nat, pv: seq<nat>, sv: seq<nat>)
    requires b.WellFormed() && IsPromotion(b, b', slot, pv, sv)
    ensures b'.WellFormed()
  {
    if slot > b.maxSlot {
      KindPromotionKeepsForm(b.perp, b'.perp, slot, pv);
      KindPromotionKeepsForm(b.spot, b'.spot, slot, sv);
    }
  }
}
