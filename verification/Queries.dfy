/** What the reads of a book mean in terms of the table it represents. */
module Queries {
  import opened Collections
  import opened Orders
  import opened Nodes
  import opened OrderLists
  import opened Books
  import opened Tables
  import opened Runs
  import opened Builds

  /** `r` lists the current nodes of exactly the entries `keys`, each once. */
  ghost predicate Lists(r: seq<Node>, T: Table, keys: set<Sig>) {
    && DistinctSigs(r)
    && SigsOf(r) == keys
    && forall i :: 0 <= i < |r| ==> r[i].Key() in T && T[r[i].Key()].node == r[i]
  }

  /** Draining a list reads exactly the entries placed there, foreign and stale copies excluded. */
  lemma DrainLists(b: Book, T: Table, id: MarketId, t: NodeType, side: Side, r: seq<Node>)
    requires Represents(b, T) && IsDrain(b.Read(id).List(t), side, r)
    ensures Lists(r, T, Members(T, id, t, side))
  {
    hide Represents, BestFirst;
    var l := b.Read(id).List(t);
    forall s
      ensures s in l.Heap(side).Keys * l.sigs.Keys <==> s in Members(T, id, t, side)
      ensures s in Members(T, id, t, side) ==> l.Heap(side)[s].node == T[s].node
    {
      ReadableIffPlaced(b, T, s, id, t, side);
    }
    forall i | 0 <= i < |r| ensures r[i].Key() in T && T[r[i].Key()].node == r[i] {
      assert r[i].Key() in SigsOf(r);
    }
  }

  /** The entries of a market and side that belong in list `t` at `slot`, as their own fields say. */
  function Classified(T: Table, slot: nat, id: MarketId, t: NodeType, side: Side): set<Sig> {
    set s | s in T
      && T[s].node.order.marketType == id.kind && T[s].node.order.marketIndex == id.index
      && OnSide(T[s].node.order, side) && ListedIn(T[s].node.order, slot, t)
  }

  lemma MembersAreClassified(T: Table, slot: nat, id: MarketId, t: NodeType, side: Side)
    requires Settled(T, slot) && forall s :: s in T ==> EntryOk(s, T[s])
    ensures Members(T, id, t, side) == Classified(T, slot, id, t, side)
  {
    hide TypeAt, SideOf, ListedIn, OnSide;
    forall s | s in T
      ensures T[s].id == T[s].node.order.Id() && T[s].side == SideOf(T[s].node.order)
      ensures s in Members(T, id, t, side) <==> s in Classified(T, slot, id, t, side)
    {
      assert EntryOk(s, T[s]);
      ClassificationIsExact(T[s].node.order, slot);
    }
  }

  // ----- two lists read together and sorted -----

  predicate Before(x: int, y: int, descending: bool) {
    if descending then x >= y else x <= y
  }

  ghost predicate Ordered(r: seq<Node>, key: Order -> int, descending: bool) {
    forall i, j :: 0 <= i < j < |r| ==>
      if descending then key(r[i].order) >= key(r[j].order) else key(r[i].order) <= key(r[j].order)
  }

  /** The two drains of `a` and `b`, in some order. */
  ghost predicate IsJointDrain(m: MarketLists, t: NodeType, u: NodeType, side: Side, r: seq<Node>) {
    exists x, y :: IsDrain(m.List(t), side, x) && IsDrain(m.List(u), side, y) && multiset(r) == multiset(x + y)
  }

  lemma {:induction false} CountOne(x: seq<Node>, n: Node)
    requires DistinctSigs(x)
    ensures multiset(x)[n] <= 1
  {
    if x == [] {
    } else {
      var k := |x| - 1;
      assert x == x[..k] + [x[k]];
      CountOne(x[..k], n);
      if n == x[k] {
        assert n !in x[..k];
      }
    }
  }

  lemma CountTwo(x: seq<Node>, i: nat, j: nat)
    requires i < j < |x| && x[i] == x[j]
    ensures multiset(x)[x[i]] >= 2
  {
    assert x == x[..j] + x[j..];
    assert x[i] in multiset(x[..j]) && x[j] in multiset(x[j..]) by {
      assert x[..j][i] == x[i] && x[j..][0] == x[j];
    }
  }

  /** Sorting keeps an enumeration an enumeration. */
  lemma PermutedLists(x: seq<Node>, y: seq<Node>, T: Table, keys: set<Sig>)
    requires Lists(x, T, keys) && multiset(x) == multiset(y)
    ensures Lists(y, T, keys)
  {
    assert forall n :: n in x <==> n in multiset(x);
    assert forall n :: n in y <==> n in multiset(y);
    forall i | 0 <= i < |y| ensures y[i].Key() in T && T[y[i].Key()].node == y[i] && y[i].Key() in keys {
      assert y[i] in x;
      var k :| 0 <= k < |x| && x[k] == y[i];
      assert x[k].Key() in SigsOf(x);
    }
    forall s | s in keys ensures s in SigsOf(y) {
      var k :| 0 <= k < |x| && x[k].Key() == s;
      assert x[k] in y;
      var i :| 0 <= i < |y| && y[i] == x[k];
      assert y[i].Key() in SigsOf(y);
    }
    forall i, j | 0 <= i < j < |y| ensures y[i].Key() != y[j].Key() {
      if y[i] == y[j] {
        CountTwo(y, i, j);
        CountOne(x, y[i]);
      }
    }
  }

  lemma AppendedLists(x: seq<Node>, y: seq<Node>, T: Table, k: set<Sig>, l: set<Sig>)
    requires Lists(x, T, k) && Lists(y, T, l) && k !! l
    ensures Lists(x + y, T, k + l)
  {
    var z := x + y;
    forall i | 0 <= i < |z| ensures z[i].Key() in k + l {
      assert i < |x| ==> x[i].Key() in SigsOf(x);
      assert i >= |x| ==> y[i - |x|].Key() in SigsOf(y);
    }
    forall s | s in k + l ensures s in SigsOf(z) {
      if s in k {
        var i :| 0 <= i < |x| && x[i].Key() == s;
        assert z[i].Key() == s;
      } else {
        var i :| 0 <= i < |y| && y[i].Key() == s;
        assert z[|x| + i].Key() == s;
      }
    }
    forall i, j | 0 <= i < j < |z| ensures z[i].Key() != z[j].Key() {
      if i < |x| <= j {
        assert x[i].Key() in SigsOf(x) && y[j - |x|].Key() in SigsOf(y);
      }
    }
  }

  lemma JointDrainLists(b: Book, T: Table, id: MarketId, t: NodeType, u: NodeType, side: Side, r: seq<Node>)
    requires Represents(b, T) && t != u && IsJointDrain(b.Read(id), t, u, side, r)
    ensures Lists(r, T, Members(T, id, t, side) + Members(T, id, u, side))
  {
    var m := b.Read(id);
    var x, y :| IsDrain(m.List(t), side, x) && IsDrain(m.List(u), side, y) && multiset(r) == multiset(x + y);
    DrainLists(b, T, id, t, side, x);
    DrainLists(b, T, id, u, side, y);
    AppendedLists(x, y, T, Members(T, id, t, side), Members(T, id, u, side));
    PermutedLists(x + y, r, T, Members(T, id, t, side) + Members(T, id, u, side));
  }

  // ----- orders of reading -----

  /**
    * The order in which one list is read, among nodes that were created for it: resting and floating bids
    * highest first and asks lowest first, by price or offset; takers oldest first; waiting orders that trigger
    * above lowest trigger price first, those that trigger below highest first.
    */
  ghost predicate ReadInOrder(r: seq<Node>, t: NodeType, side: Side) {
    forall i, j :: 0 <= i < j < |r| && r[i].nodeType == t && r[j].nodeType == t ==>
      match t
      case RestingLimit =>
        if side == Bid then r[i].order.price >= r[j].order.price else r[i].order.price <= r[j].order.price
      case FloatingLimit =>
        if side == Bid then r[i].order.oraclePriceOffset >= r[j].order.oraclePriceOffset
        else r[i].order.oraclePriceOffset <= r[j].order.oraclePriceOffset
      case TakingLimit => r[i].order.slot <= r[j].order.slot
      case Market => r[i].order.slot <= r[j].order.slot
      case Trigger =>
        if side == Bid then r[i].order.triggerPrice <= r[j].order.triggerPrice
        else r[i].order.triggerPrice >= r[j].order.triggerPrice
  }

  lemma DrainedInOrder(l: ListState, t: NodeType, side: Side, r: seq<Node>)
    requires IsDrain(l, side, r) && l.Dir(side) == DirOf(t, side)
    ensures ReadInOrder(r, t, side)
  {
    forall i, j | 0 <= i < j < |r|
      ensures if DirOf(t, side) == Ascending then r[i].SortValue() <= r[j].SortValue()
              else r[i].SortValue() >= r[j].SortValue()
    {
      BestFirstMeaning(r, l.Dir(side), i, j);
    }
  }

  /** Bids fall and asks rise in the price they quote; every one has a price. */
  ghost predicate SortedByPrice(r: seq<Node>, side: Side, oraclePrice: int, slot: nat) {
    && (forall n :: n in r ==> LimitPrice(n.order, oraclePrice, slot).Some?)
    && forall i, j :: 0 <= i < j < |r| ==>
         && r[i] in r && r[j] in r
         && var p := LimitPrice(r[i].order, oraclePrice, slot).value;
            var q := LimitPrice(r[j].order, oraclePrice, slot).value;
            if side == Bid then p >= q else p <= q
  }

  lemma OrderedByPrice(r: seq<Node>, side: Side, oraclePrice: int, slot: nat)
    requires Ordered(r, PriceAt(oraclePrice, slot), side == Bid)
    requires forall n :: n in r ==> Priced(n.order, oraclePrice, slot)
    ensures SortedByPrice(r, side, oraclePrice, slot)
  {
    hide LimitPrice;
  }

  // ----- quotes -----

  /** The entries that quote a price on `side`. */
  function Quoted(T: Table, id: MarketId, side: Side): set<Sig> {
    Members(T, id, RestingLimit, side) + Members(T, id, FloatingLimit, side)
  }

  /** A complete price-sorted quote list: asks ascending, bids descending. */
  ghost predicate IsQuoteList(r: seq<Node>, T: Table, id: MarketId, side: Side, price: Order -> int) {
    Lists(r, T, Quoted(T, id, side)) && Ordered(r, price, side == Bid)
  }

  /** The price an order quotes once its auction is over. */
  function QuotedPrice(n: Node, t: NodeType, oraclePrice: int): int {
    if t == FloatingLimit then oraclePrice + n.order.oraclePriceOffset else n.order.price
  }

  /**
    * A quote list of a settled table is sorted by what its orders themselves say, for all quotes whose
    * auction is over: resting ones by their own price, floating ones by the oracle price plus their offset.
    */
  lemma QuotesByOwnPrice(r: seq<Node>, T: Table, id: MarketId, side: Side, oraclePrice: int, slot: nat, i: nat, j: nat)
    requires IsQuoteList(r, T, id, side, PriceAt(oraclePrice, slot)) && Settled(T, slot) && i < j < |r|
    requires IsAuctionComplete(r[i].order, slot) && Priced(r[i].order, oraclePrice, slot)
    requires IsAuctionComplete(r[j].order, slot) && Priced(r[j].order, oraclePrice, slot)
    ensures r[i].Key() in T && r[j].Key() in T
    ensures var p := QuotedPrice(r[i], T[r[i].Key()].list, oraclePrice);
            var q := QuotedPrice(r[j], T[r[j].Key()].list, oraclePrice);
            if side == Bid then p >= q else p <= q
  {
    QuotePrice(r, T, id, side, oraclePrice, slot, i);
    QuotePrice(r, T, id, side, oraclePrice, slot, j);
  }

  lemma QuotePrice(r: seq<Node>, T: Table, id: MarketId, side: Side, oraclePrice: int, slot: nat, i: nat)
    requires IsQuoteList(r, T, id, side, PriceAt(oraclePrice, slot)) && Settled(T, slot) && i < |r|
    requires IsAuctionComplete(r[i].order, slot) && Priced(r[i].order, oraclePrice, slot)
    ensures r[i].Key() in T
    ensures PriceAt(oraclePrice, slot)(r[i].order) == QuotedPrice(r[i], T[r[i].Key()].list, oraclePrice)
  {
    hide LimitPrice, TypeAt, IsAuctionComplete;
    assert r[i].Key() in SigsOf(r);
    QuoteOutsideAuction(r[i].order, oraclePrice, slot);
  }

  // ----- reads right after a promotion -----

  lemma SettledRead(b: Book, T: Table, slot: nat, id: MarketId, t: NodeType, side: Side, r: seq<Node>)
    requires Represents(b, T) && Settled(T, slot) && IsDrain(b.Read(id).List(t), side, r)
    ensures Lists(r, T, Classified(T, slot, id, t, side))
  {
    DrainLists(b, T, id, t, side, r);
    MembersAreClassified(T, slot, id, t, side);
  }

  /**
    * In every run, for any number of markets and any visiting order: after a promotion at `slot`,
    * reading one list returns exactly the market's own orders that classification at `slot` puts there.
    */
  lemma RunReads(first: Abstract, books: seq<Book>, ops: seq<Op>, slot: nat, id: MarketId, t: NodeType, side: Side,
                 r: seq<Node>)
    requires IsRun(first, books, ops) && EndsPromoted(first, ops, slot)
    requires |books| == |ops| + 1 && IsDrain(books[|ops|].Read(id).List(t), side, r)
    ensures Lists(r, After(first, ops).table, Classified(After(first, ops).table, slot, id, t, side))
  {
    hide IsRun, IsDrain, Represents, Settled, After;
    RunInv(first, books, ops);
    RunSettled(first, books, ops, slot);
    SettledRead(books[|ops|], After(first, ops).table, slot, id, t, side, r);
  }

  lemma SettledJointRead(b: Book, T: Table, slot: nat, id: MarketId, t: NodeType, u: NodeType, side: Side, r: seq<Node>)
    requires Represents(b, T) && Settled(T, slot) && t != u && IsJointDrain(b.Read(id), t, u, side, r)
    ensures Lists(r, T, Classified(T, slot, id, t, side) + Classified(T, slot, id, u, side))
  {
    JointDrainLists(b, T, id, t, u, side, r);
    MembersAreClassified(T, slot, id, t, side);
    MembersAreClassified(T, slot, id, u, side);
  }

  /**
    * The joint reads after a promotion at `slot`: quotes (resting and floating) and takers (taking
    * and market) each contain every order so classified exactly once.
    */
  lemma RunJointReads(first: Abstract, books: seq<Book>, ops: seq<Op>, slot: nat, id: MarketId, t: NodeType,
                      u: NodeType, side: Side, r: seq<Node>)
    requires IsRun(first, books, ops) && EndsPromoted(first, ops, slot)
    requires t != u && |books| == |ops| + 1 && IsJointDrain(books[|ops|].Read(id), t, u, side, r)
    ensures var T := After(first, ops).table;
            Lists(r, T, Classified(T, slot, id, t, side) + Classified(T, slot, id, u, side))
  {
    hide IsRun, IsJointDrain, Represents, Settled, After;
    RunInv(first, books, ops);
    RunSettled(first, books, ops, slot);
    SettledJointRead(books[|ops|], After(first, ops).table, slot, id, t, u, side, r);
  }

  // ----- triggers -----

  /** An order whose trigger condition is met by the oracle price. */
  predicate Triggers(o: Order, side: Side, oraclePrice: int) {
    if side == Bid then o.triggerPrice < oraclePrice else o.triggerPrice > oraclePrice
  }

  function Triggering(h: Heap, side: Side, oraclePrice: int): set<Sig> {
    set s | s in h && Triggers(h[s].node.order, side, oraclePrice)
  }

  ghost predicate IsTriggerScan(l: ListState, side: Side, oraclePrice: int, r: seq<Node>) {
    Enumerates(r, l.Heap(side), Triggering(l.Heap(side), side, oraclePrice)) && BestFirst(r, l.Dir(side))
  }

  /** Once the best remaining trigger does not qualify, none of the rest does. */
  lemma ScanStops(h: Heap, dir: SortDirection, s: Sig, side: Side, oraclePrice: int)
    requires IsBest(h, s) && !Triggers(h[s].node.order, side, oraclePrice)
    requires dir == DirOf(NodeType.Trigger, side)
    requires forall t :: t in h ==> h[t].node.nodeType == NodeType.Trigger && h[t].dir == dir
    ensures Triggering(h, side, oraclePrice) == {}
  {
    forall t | t in h ensures !Triggers(h[t].node.order, side, oraclePrice) {
      assert Cmp(h[s], h[t]) >= 0;
    }
  }

  /** The untriggered orders of a market whose own condition the oracle price meets. */
  function Triggerable(T: Table, id: MarketId, oraclePrice: int): set<Sig> {
    set s | s in T
            && T[s].node.order.marketType == id.kind && T[s].node.order.marketIndex == id.index
            && Waits(T[s].node.order)
            && if T[s].node.order.triggerCondition == TriggerCondition.Above
               then T[s].node.order.triggerPrice < oraclePrice
               else T[s].node.order.triggerPrice > oraclePrice
  }

  lemma TriggerSides(T: Table, id: MarketId, oraclePrice: int)
    ensures TriggerEntries(T, id, Bid, oraclePrice) + TriggerEntries(T, id, Ask, oraclePrice)
            == Triggerable(T, id, oraclePrice)
    ensures TriggerEntries(T, id, Bid, oraclePrice) !! TriggerEntries(T, id, Ask, oraclePrice)
  {}

  /** The scan finds exactly the untriggered orders whose own condition the oracle price meets. */
  lemma ScanIsExact(b: Book, a: Abstract, id: MarketId, oraclePrice: int, above: seq<Node>, below: seq<Node>)
    requires Inv(b, a)
    requires IsTriggerScan(b.Read(id).trigger, Bid, oraclePrice, above)
    requires IsTriggerScan(b.Read(id).trigger, Ask, oraclePrice, below)
    ensures Lists(above + below, a.table, Triggerable(a.table, id, oraclePrice))
  {
    hide Inv, IsTriggerScan, Lists, TriggerEntries, Triggerable;
    SideScanIsExact(b, a, id, Bid, oraclePrice, above);
    SideScanIsExact(b, a, id, Ask, oraclePrice, below);
    TriggerSides(a.table, id, oraclePrice);
    AppendedLists(above, below, a.table, TriggerEntries(a.table, id, Bid, oraclePrice),
                  TriggerEntries(a.table, id, Ask, oraclePrice));
  }

  function TriggerEntries(T: Table, id: MarketId, side: Side, oraclePrice: int): set<Sig> {
    set s | s in T && T[s].node.order.Id() == id && IsInactiveTrigger(T[s].node.order)
            && SideOf(T[s].node.order) == side && Triggers(T[s].node.order, side, oraclePrice)
  }

  lemma TriggeringIsPlaced(h: Heap, T: Table, id: MarketId, side: Side, oraclePrice: int)
    requires HeapRep(h, T, id, NodeType.Trigger, side)
    ensures forall s :: s in h ==> s in T && h[s].node == T[s].node
    ensures Triggering(h, side, oraclePrice)
         == set s | s in Members(T, id, NodeType.Trigger, side) && Triggers(T[s].node.order, side, oraclePrice)
  {
    forall s | s in h ensures s in Members(T, id, NodeType.Trigger, side) && h[s].node == T[s].node {
      assert HeapEntryOk(h[s].node, T[s], id, NodeType.Trigger, side);
    }
  }

  lemma PlacedIsInactive(T: Table, maxSlot: nat, now: nat, id: MarketId, side: Side, oraclePrice: int)
    requires TimeOk(T, maxSlot, now) && forall s :: s in T ==> EntryOk(s, T[s])
    ensures TriggerEntries(T, id, side, oraclePrice)
         == set s | s in Members(T, id, NodeType.Trigger, side) && Triggers(T[s].node.order, side, oraclePrice)
  {
    forall s | s in T
      ensures s in Members(T, id, NodeType.Trigger, side) <==>
              T[s].node.order.Id() == id && IsInactiveTrigger(T[s].node.order) && SideOf(T[s].node.order) == side
    {
      assert EntryOk(s, T[s]);
      assert T[s].list == NodeType.Trigger <==> IsInactiveTrigger(T[s].node.order);
    }
  }

  lemma SideScanIsExact(b: Book, a: Abstract, id: MarketId, side: Side, oraclePrice: int, r: seq<Node>)
    requires Inv(b, a) && IsTriggerScan(b.Read(id).trigger, side, oraclePrice, r)
    ensures Lists(r, a.table, TriggerEntries(a.table, id, side, oraclePrice))
  {
    hide Book.WellFormed, Triggering, TriggerEntries, Unmixed;
    var l := b.Read(id).List(NodeType.Trigger);
    ReadRep(b, a.table, id);
    assert ListRep(l, a.table, id, NodeType.Trigger);
    TriggeringIsPlaced(l.Heap(side), a.table, id, side, oraclePrice);
    PlacedIsInactive(a.table, a.maxSlot, a.now, id, side, oraclePrice);
  }
}
