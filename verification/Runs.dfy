/**
  * Whole runs of the book: inserts, promotions and fills in any order and at any slots, as
  * long as no promotion finds a copy of another market's node ready in a taking heap
  * (`NoReadyForeign`) and no order is inserted so late that a promotion which should have
  * moved it is already over (`OnTime`).
  */
module Runs {
  import opened Collections
  import opened Orders
  import opened Nodes
  import opened OrderLists
  import opened Books
  import opened Tables

  // ----- time -----

  /**
    * Every entry is where classification puts it, up to promotions still to come: `maxSlot` is the
    * last promotion and `now` the latest slot of any insert or promotion.
    */
  ghost predicate TimeOk(T: Table, maxSlot: nat, now: nat) {
    && maxSlot <= now
    && forall s :: s in T ==>
         T[s].list == TypeAt(T[s].node.order, if T[s].list == TakingLimit then maxSlot else now)
  }

  /** Every entry is where classification at `slot` puts it. */
  ghost predicate Settled(T: Table, slot: nat) {
    forall s :: s in T ==> T[s].list == TypeAt(T[s].node.order, slot)
  }

  function Max(a: nat, b: nat): nat {
    if a >= b then a else b
  }

  /** An insert at `slot` into a book promoted at `maxSlot`: classification still says the same at the later slot. */
  predicate OnTime(o: Order, slot: nat, maxSlot: nat) {
    maxSlot <= slot || TypeAt(o, slot) == TypeAt(o, maxSlot)
  }

  /** An insert keeps every entry in its place exactly if it is on time; its slot may lie before other inserts. */
  lemma InsertTimeIff(T: Table, maxSlot: nat, now: nat, o: Order, user: Pubkey, slot: nat)
    requires TimeOk(T, maxSlot, now) && Sig(o.orderId, user) !in T
    ensures TimeOk(TableInserted(T, o, user, slot), maxSlot, Max(now, slot)) <==> OnTime(o, slot, maxSlot)
  {
    var T', s0, now' := TableInserted(T, o, user, slot), Sig(o.orderId, user), Max(now, slot);
    assert T'[s0].node.order == o && T'[s0].list == TypeAt(o, slot);
    TypeIsMonotone(o, slot, now');
    if maxSlot <= slot {
      TypeIsMonotone(o, maxSlot, slot);
    } else {
      TypeIsMonotone(o, slot, maxSlot);
    }
    forall s | s in T
      ensures T'[s] == T[s] && (T[s].list != TakingLimit ==> TypeAt(T[s].node.order, now') == T[s].list)
    {
      TypeIsMonotone(T[s].node.order, now, now');
    }
  }

  lemma MovedEntry(p: Placed, maxSlot: nat, now: nat, slot: nat)
    requires maxSlot <= now && p.list == TypeAt(p.node.order, if p.list == TakingLimit then maxSlot else now)
    ensures var t := if Promotable(p, slot) then RestingLimit else p.list;
            t == TypeAt(p.node.order, if t == TakingLimit then Max(maxSlot, slot) else Max(now, slot))
    ensures slot <= maxSlot ==> !Promotable(p, slot)
  {
    var o := p.node.order;
    TypeIsMonotone(o, now, Max(now, slot));
    TypeIsMonotone(o, slot, Max(now, slot));
    TypeIsMonotone(o, slot, Max(maxSlot, slot));
    TypeIsMonotone(o, maxSlot, Max(maxSlot, slot));
  }

  /** Promotion keeps every entry in its place, at whatever slot it happens. */
  lemma PromotionKeepsTime(T: Table, maxSlot: nat, now: nat, slot: nat)
    requires TimeOk(T, maxSlot, now)
    ensures TimeOk(TablePromoted(T, slot), Max(maxSlot, slot), Max(now, slot))
    ensures slot <= maxSlot ==> TablePromoted(T, slot) == T
  {
    var T' := TablePromoted(T, slot);
    forall s | s in T
      ensures T'[s].list
           == TypeAt(T'[s].node.order, if T'[s].list == TakingLimit then Max(maxSlot, slot) else Max(now, slot))
      ensures slot <= maxSlot ==> T'[s] == T[s]
    {
      MovedEntry(T[s], maxSlot, now, slot);
    }
  }

  /** Promotion at the current slot settles the whole table. */
  lemma PromotionSettles(T: Table, maxSlot: nat, now: nat, slot: nat)
    requires TimeOk(T, maxSlot, now) && now <= slot
    ensures Settled(TablePromoted(T, slot), slot)
  {
    PromotionKeepsTime(T, maxSlot, now, slot);
  }

  lemma FillKeepsTime(T: Table, maxSlot: nat, now: nat, s: Sig, filled: nat)
    requires TimeOk(T, maxSlot, now) && s in T
    ensures TimeOk(TableFilled(T, s, filled), maxSlot, now)
  {
    FillKeepsType(T[s].node.order, filled, maxSlot);
    FillKeepsType(T[s].node.order, filled, now);
  }

  // ----- steps -----

  datatype Op =
    | Insert(order: Order, user: Pubkey, slot: nat)
    | Promote(slot: nat, perpVisit: seq<nat>, spotVisit: seq<nat>)
    | Fill(order: Order, user: Pubkey, slot: nat)

  ghost predicate Next(b: Book, op: Op, b': Book) {
    match op
    case Insert(o, user, slot) => b' == b.Inserted(o, user, slot)
    case Promote(slot, pv, sv) => IsPromotion(b, b', slot, pv, sv)
    case Fill(o, user, slot) => b.Has(o.Id()) && b' == b.Updated(o, user, slot)
  }

  /** What the operations mean: a table, the last promotion and the latest slot of an insert or promotion. */
  datatype Abstract = Abstract(table: Table, maxSlot: nat, now: nat)

  function Start(): Abstract {
    Abstract(map[], 0, 0)
  }

  function Step(a: Abstract, op: Op): Abstract {
    match op
    case Insert(o, user, slot) => Abstract(TableInserted(a.table, o, user, slot), a.maxSlot, Max(a.now, slot))
    case Promote(slot, _, _) => Abstract(TablePromoted(a.table, slot), Max(a.maxSlot, slot), Max(a.now, slot))
    case Fill(o, user, _) =>
      var s := Sig(o.orderId, user);
      if s in a.table then a.(table := TableFilled(a.table, s, o.filled)) else a
  }

  predicate OneMarketPerKind(b: Book) {
    |b.perp| <= 1 && |b.spot| <= 1
  }

  /** The regime: the caller's obligations on one operation. */
  predicate Allowed(a: Abstract, b: Book, op: Op) {
    match op
    case Insert(o, user, slot) =>
      Sig(o.orderId, user) !in a.table && OnTime(o, slot, a.maxSlot)
    case Promote(slot, _, _) =>
      slot > b.maxSlot ==> NoReadyForeign(b.perp, slot) && NoReadyForeign(b.spot, slot)
    case Fill(o, user, slot) =>
      var s := Sig(o.orderId, user);
      && s in a.table
      && o == a.table[s].node.order.(filled := o.filled)
      && a.table[s].list == TypeAt(o, slot)
  }

  ghost predicate Inv(b: Book, a: Abstract) {
    && Represents(b, a.table)
    && b.maxSlot == a.maxSlot
    && TimeOk(a.table, a.maxSlot, a.now)
    && (b.maxSlot == 0 || OneMarketPerKind(b) ==> Unmixed(b))
  }

  ghost predicate Unmixed(b: Book) {
    NoForeign(b.perp) && NoForeign(b.spot)
  }

  lemma InsertUnmixed(b: Book, o: Order, user: Pubkey, slot: nat)
    requires Unmixed(b)
    ensures Unmixed(b.Inserted(o, user, slot))
  {
    var t, m := TypeAt(o, slot), b.Read(o.Id());
    assert Clean(m);
    assert Clean(m.With(t, m.List(t).Inserted(Node(t, o, user), SideOf(o))));
  }

  lemma FillUnmixed(b: Book, o: Order, user: Pubkey, slot: nat)
    requires Unmixed(b) && b.Has(o.Id())
    ensures Unmixed(b.Updated(o, user, slot))
  {
    var t, m := TypeAt(o, slot), b.At(o.Id());
    assert Clean(m);
    UpdatedKeys(m.List(t), o, user, SideOf(o));
    assert Clean(m.With(t, m.List(t).Updated(o, user, SideOf(o))));
  }

  lemma UpdatedKeys(l: ListState, o: Order, user: Pubkey, side: Side)
    ensures var l' := l.Updated(o, user, side);
            l'.bids.Keys == l.bids.Keys && l'.asks.Keys == l.asks.Keys && l'.sigs.Keys == l.sigs.Keys
  {}

  lemma FirstPromotedClean(ms: Markets, visit: seq<nat>, slot: nat)
    requires visit != [] && (forall i :: i in visit ==> i in ms) && NoForeign(ms)
    ensures Clean(PromotedAt(ms, visit, 0, slot))
  {
    assert visit[0] in visit && Clean(ms[visit[0]]);
    assert KeptUpTo(ms, visit, 0, slot, Bid) == KeptUpTo(ms, visit, 0, slot, Ask) == map[];
  }

  /** With one market the shared accumulators cannot mix anything. */
  lemma PromoteUnmixed(ms: Markets, ms': Markets, slot: nat, visit: seq<nat>)
    requires IsKindPromotion(ms, ms', slot, visit) && NoForeign(ms)
    requires |ms| <= 1
    ensures NoForeign(ms')
  {
    hide PromotedAt, Clean;
    forall i | i in ms' ensures Clean(ms'[i]) {
      var j := VisitPosition(ms, ms', slot, visit, i);
      OneVisit(ms, visit, j);
      FirstPromotedClean(ms, visit, slot);
    }
  }

  lemma PromoteBookUnmixed(b: Book, b': Book, slot: nat, pv: seq<nat>, sv: seq<nat>)
    requires slot > b.maxSlot && IsPromotion(b, b', slot, pv, sv) && OneMarketPerKind(b')
    ensures OneMarketPerKind(b) && (Unmixed(b) ==> Unmixed(b'))
  {
    assert |b.perp.Keys| == |b'.perp.Keys| && |b.spot.Keys| == |b'.spot.Keys|;
    if Unmixed(b) {
      PromoteUnmixed(b.perp, b'.perp, slot, pv);
      PromoteUnmixed(b.spot, b'.spot, slot, sv);
    }
  }

  lemma OneVisit(ms: Markets, visit: seq<nat>, j: nat)
    requires Visits(visit, ms.Keys) && |ms| <= 1 && j < |visit|
    ensures j == 0
  {
    assert {visit[0], visit[j]} <= Elems(visit);
    SubsetSize({visit[0], visit[j]}, ms.Keys);
  }

  lemma SubsetSize<A>(x: set<A>, y: set<A>)
    requires x <= y
    ensures |x| <= |y|
  {
    assert |y - x| + |x| == |y|;
  }

  // ----- every step keeps the invariant -----

  lemma InsertInv(b: Book, a: Abstract, b': Book, o: Order, user: Pubkey, slot: nat)
    requires Inv(b, a) && Allowed(a, b, Insert(o, user, slot)) && b' == b.Inserted(o, user, slot)
    ensures Inv(b', Step(a, Insert(o, user, slot)))
  {
    InsertRepresents(b, a.table, o, user, slot);
    InsertTimeIff(a.table, a.maxSlot, a.now, o, user, slot);
    InsertedMarkets(b, o, user, slot);
    if Unmixed(b) {
      InsertUnmixed(b, o, user, slot);
    }
  }

  lemma InsertedMarkets(b: Book, o: Order, user: Pubkey, slot: nat)
    ensures OneMarketPerKind(b.Inserted(o, user, slot)) ==> OneMarketPerKind(b)
    ensures b.Inserted(o, user, slot).maxSlot == b.maxSlot
  {
    var b' := b.Inserted(o, user, slot);
    assert b.perp.Keys <= b'.perp.Keys && b.spot.Keys <= b'.spot.Keys;
    SubsetSize(b.perp.Keys, b'.perp.Keys);
    SubsetSize(b.spot.Keys, b'.spot.Keys);
  }

  lemma PromoteInv(b: Book, a: Abstract, b': Book, slot: nat, pv: seq<nat>, sv: seq<nat>)
    requires Inv(b, a) && Allowed(a, b, Promote(slot, pv, sv)) && IsPromotion(b, b', slot, pv, sv)
    ensures Inv(b', Step(a, Promote(slot, pv, sv)))
  {
    PromotionKeepsTime(a.table, a.maxSlot, a.now, slot);
    if slot > b.maxSlot {
      PromotionIsExact(b, b', a.table, slot, pv, sv);
      if OneMarketPerKind(b') {
        PromoteBookUnmixed(b, b', slot, pv, sv);
      }
    }
  }

  lemma FillInv(b: Book, a: Abstract, b': Book, o: Order, user: Pubkey, slot: nat)
    requires Inv(b, a) && Allowed(a, b, Fill(o, user, slot))
    requires b.Has(o.Id()) && b' == b.Updated(o, user, slot)
    ensures Inv(b', Step(a, Fill(o, user, slot)))
  {
    var s := Sig(o.orderId, user);
    FillKeepsType(a.table[s].node.order, o.filled, slot);
    FillRepresents(b, a.table, s, o.filled, slot);
    FillKeepsTime(a.table, a.maxSlot, a.now, s, o.filled);
    UpdatedMarkets(b, o, user, slot);
    if Unmixed(b) {
      FillUnmixed(b, o, user, slot);
    }
  }

  lemma UpdatedMarkets(b: Book, o: Order, user: Pubkey, slot: nat)
    requires b.Has(o.Id())
    ensures OneMarketPerKind(b.Updated(o, user, slot)) <==> OneMarketPerKind(b)
    ensures b.Updated(o, user, slot).maxSlot == b.maxSlot
  {
    var b' := b.Updated(o, user, slot);
    assert b'.perp.Keys == b.perp.Keys && b'.spot.Keys == b.spot.Keys;
    assert |b'.perp.Keys| == |b.perp.Keys| && |b'.spot.Keys| == |b.spot.Keys|;
  }

  lemma StepInv(b: Book, a: Abstract, op: Op, b': Book)
    requires Inv(b, a) && Allowed(a, b, op) && Next(b, op, b')
    ensures Inv(b', Step(a, op))
  {
    match op
    case Insert(o, user, slot) => InsertInv(b, a, b', o, user, slot);
    case Promote(slot, pv, sv) => PromoteInv(b, a, b', slot, pv, sv);
    case Fill(o, user, slot) => FillInv(b, a, b', o, user, slot);
  }

  /**
    * Two regimes that allow a promotion: the book has not been promoted since it was built,
    * or it has at most one market of each kind.
    */
  lemma RegimesAllow(b: Book, a: Abstract, slot: nat, pv: seq<nat>, sv: seq<nat>)
    requires Inv(b, a)
    requires b.maxSlot == 0 || OneMarketPerKind(b) || slot <= b.maxSlot
    ensures Allowed(a, b, Promote(slot, pv, sv))
  {
    if slot > b.maxSlot {
      NoForeignNoReady(b.perp, slot);
      NoForeignNoReady(b.spot, slot);
    }
  }

  // ----- runs -----

  function After(first: Abstract, ops: seq<Op>): Abstract {
    if ops == [] then first else Step(After(first, ops[..|ops| - 1]), ops[|ops| - 1])
  }

  /**
    * A run through `books`, one operation per step, inside the regime. It starts from any book that
    * `first` describes, such as the empty one (`EmptyStart`) or a freshly built one.
    */
  ghost predicate IsRun(first: Abstract, books: seq<Book>, ops: seq<Op>) {
    && |books| == |ops| + 1
    && Inv(books[0], first)
    && forall i :: 0 <= i < |ops| ==>
         Next(books[i], ops[i], books[i + 1]) && Allowed(After(first, ops[..i]), books[i], ops[i])
  }

  lemma EmptyStart()
    ensures Inv(EmptyBook(), Start())
  {
    EmptyRepresents();
  }

  lemma RunLength(first: Abstract, books: seq<Book>, ops: seq<Op>)
    requires IsRun(first, books, ops)
    ensures |books| == |ops| + 1
  {}

  lemma RunPrefix(first: Abstract, books: seq<Book>, ops: seq<Op>)
    requires IsRun(first, books, ops) && ops != []
    ensures |books| == |ops| + 1 && IsRun(first, books[..|ops|], ops[..|ops| - 1])
    ensures Next(books[|ops| - 1], ops[|ops| - 1], books[|ops|])
    ensures Allowed(After(first, ops[..|ops| - 1]), books[|ops| - 1], ops[|ops| - 1])
  {
    hide Inv, Next, Allowed;
    var n := |ops| - 1;
    assert forall i :: 0 <= i < n ==> ops[..n][..i] == ops[..i];
  }

  /** Every reachable book is represented by the table its operations describe. */
  lemma {:induction false} RunInv(first: Abstract, books: seq<Book>, ops: seq<Op>)
    requires IsRun(first, books, ops)
    ensures Inv(books[|ops|], After(first, ops))
  {
    hide Inv, Next, Allowed, Step;
    if ops == [] {
    } else {
      var n := |ops| - 1;
      RunPrefix(first, books, ops);
      RunInv(first, books[..n + 1], ops[..n]);
      StepInv(books[n], After(first, ops[..n]), ops[n], books[n + 1]);
    }
  }

  /** The run ends with a promotion at `slot`, and no insert or promotion was at a later one. */
  predicate EndsPromoted(first: Abstract, ops: seq<Op>, slot: nat) {
    && ops != [] && ops[|ops| - 1].Promote? && ops[|ops| - 1].slot == slot
    && first.now <= slot
    && forall i :: 0 <= i < |ops| && !ops[i].Fill? ==> ops[i].slot <= slot
  }

  /** `now` is the latest slot of any insert or promotion. */
  lemma {:induction false} NowIsLatest(first: Abstract, ops: seq<Op>, slot: nat)
    ensures After(first, ops).now <= slot <==>
            first.now <= slot && forall i :: 0 <= i < |ops| && !ops[i].Fill? ==> ops[i].slot <= slot
  {
    if ops == [] {
    } else {
      var n := |ops| - 1;
      NowIsLatest(first, ops[..n], slot);
      assert forall i :: 0 <= i < n ==> ops[..n][i] == ops[i];
    }
  }

  /** Then every entry is where classification at `slot` puts it. */
  lemma RunSettled(first: Abstract, books: seq<Book>, ops: seq<Op>, slot: nat)
    requires IsRun(first, books, ops) && EndsPromoted(first, ops, slot)
    ensures Settled(After(first, ops).table, slot)
  {
    hide IsRun, Inv;
    var n := |ops| - 1;
    RunLength(first, books, ops);
    RunPrefix(first, books, ops);
    RunInv(first, books[..n + 1], ops[..n]);
    NowIsLatest(first, ops[..n], slot);
    InvTime(books[..n + 1][n], After(first, ops[..n]));
    PromotionSettles(After(first, ops[..n]).table, After(first, ops[..n]).maxSlot, After(first, ops[..n]).now, slot);
  }

  lemma InvTime(b: Book, a: Abstract)
    requires Inv(b, a)
    ensures TimeOk(a.table, a.maxSlot, a.now) && a.maxSlot <= a.now && b.maxSlot == a.maxSlot && Represents(b, a.table)
  {}

  /**
    * Routing: after a promotion at `S`, no earlier than any insert, an order can be read from a heap
    * exactly if that heap is the one classification at `S` names; every other copy is unreadable.
    */
  lemma RunRoutes(first: Abstract, books: seq<Book>, ops: seq<Op>, S: nat, s: Sig, id: MarketId, t: NodeType,
                  side: Side)
    requires IsRun(first, books, ops) && EndsPromoted(first, ops, S)
    ensures |books| == |ops| + 1
    ensures var b, T := books[|ops|], After(first, ops).table;
            var l := b.Read(id).List(t);
            && (s in l.Heap(side) && s in l.sigs <==>
                  && s in T
                  && T[s].node.order.marketType == id.kind && T[s].node.order.marketIndex == id.index
                  && ListedIn(T[s].node.order, S, t) && OnSide(T[s].node.order, side))
            && (OneMarketPerKind(b) && s in l.Heap(side) ==> s in l.sigs)
  {
    hide IsRun, After, Represents, TypeAt, SideOf, ListedIn, OnSide;
    var n := |ops| - 1;
    RunLength(first, books, ops);
    RunInv(first, books, ops);
    RunSettled(first, books, ops, S);
    var b, T := books[n + 1], After(first, ops).table;
    ReadableIffPlaced(b, T, s, id, t, side);
    if s in T {
      ClassificationIsExact(T[s].node.order, S);
    }
    if OneMarketPerKind(b) && s in b.Read(id).List(t).Heap(side) {
      UnmixedIndexed(b, T, s, id, t, side);
    }
  }

  lemma ReadableIffPlaced(b: Book, T: Table, s: Sig, id: MarketId, t: NodeType, side: Side)
    requires Represents(b, T)
    ensures s in T ==> T[s].id == T[s].node.order.Id() && T[s].side == SideOf(T[s].node.order)
    ensures var l := b.Read(id).List(t);
            && (s in l.Heap(side) && s in l.sigs <==> s in T && T[s].In(id, t) && T[s].side == side)
            && (s in l.Heap(side) && s in l.sigs ==> l.Heap(side)[s].node == T[s].node)
  {
    hide SameTerms, Book.WellFormed;
    ReadRep(b, T, id);
    var l := b.Read(id).List(t);
    assert ListRep(l, T, id, t);
    assert s in T ==> EntryOk(s, T[s]);
  }

  lemma UnmixedIndexed(b: Book, T: Table, s: Sig, id: MarketId, t: NodeType, side: Side)
    requires Represents(b, T) && Unmixed(b) && s in b.Read(id).List(t).Heap(side)
    ensures s in b.Read(id).List(t).sigs
  {
    hide Clean, Book.WellFormed;
    ReadRep(b, T, id);
    assert ListRep(b.Read(id).List(t), T, id, t);
    if t == TakingLimit {
      CleanIndexed(b.Read(id), side, s);
    }
  }

  lemma CleanIndexed(m: MarketLists, side: Side, s: Sig)
    requires Clean(m) && s in m.taking.Heap(side)
    ensures s in m.taking.sigs
  {
    assert s in m.taking.Heap(side).Keys;
    assert s in m.taking.sigs.Keys;
  }

  // ----- looking up an order -----

  /** The latest order written under each signature, if `first` were written before. */
  function Latest(first: map<Sig, Order>, ops: seq<Op>): map<Sig, Order> {
    if ops == [] then first else Written(Latest(first, ops[..|ops| - 1]), ops[|ops| - 1])
  }

  function OrdersIn(T: Table): map<Sig, Order> {
    map s | s in T :: T[s].node.order
  }

  function Written(m: map<Sig, Order>, op: Op): map<Sig, Order> {
    match op
    case Insert(o, user, _) => m[Sig(o.orderId, user) := o]
    case Promote(_, _, _) => m
    case Fill(o, user, _) => m[Sig(o.orderId, user) := o]
  }

  lemma LatestStep(a: Abstract, b: Book, op: Op)
    requires Allowed(a, b, op)
    ensures OrdersIn(Step(a, op).table) == Written(OrdersIn(a.table), op)
  {
    if op.Promote? {
      var T' := TablePromoted(a.table, op.slot);
      assert forall s :: s in T' ==> T'[s].node == a.table[s].node;
    }
  }

  lemma {:induction false} LatestIsTable(first: Abstract, books: seq<Book>, ops: seq<Op>)
    requires IsRun(first, books, ops)
    ensures OrdersIn(After(first, ops).table) == Latest(OrdersIn(first.table), ops)
  {
    hide Inv, Next, Allowed, Step;
    if ops == [] {
    } else {
      var n := |ops| - 1;
      RunPrefix(first, books, ops);
      LatestIsTable(first, books[..n + 1], ops[..n]);
      LatestStep(After(first, ops[..n]), books[n], ops[n]);
    }
  }

  lemma {:induction false} FirstHitAppend(x: seq<ListState>, y: seq<ListState>, s: Sig)
    ensures FirstHit(x + y, s) == if FirstHit(x, s).Some? then FirstHit(x, s) else FirstHit(y, s)
  {
    if x == [] {
      assert x + y == y;
    } else {
      assert (x + y)[1..] == x[1..] + y;
      FirstHitAppend(x[1..], y, s);
    }
  }

  /** Resting lists are searched before the taking list that may still index a promoted order. */
  lemma MarketHit(m: MarketLists, T: Table, id: MarketId, s: Sig)
    requires MarketRep(m, T, id)
    ensures FirstHit(SearchOrder(m), s) == if s in T && T[s].id == id then Some(T[s].node.order) else None
  {
    hide HeapRep, FirstHit;
    FiveHits(m.resting, m.floating, m.taking, m.market, m.trigger, s);
    assert m.List(RestingLimit) == m.resting && m.List(FloatingLimit) == m.floating && m.List(TakingLimit) == m.taking;
    assert m.List(NodeType.Market) == m.market && m.List(NodeType.Trigger) == m.trigger;
    assert IndexRep(m.resting.sigs, T, id, RestingLimit);
    assert IndexRep(m.floating.sigs, T, id, FloatingLimit);
    assert IndexRep(m.taking.sigs, T, id, TakingLimit);
    assert IndexRep(m.market.sigs, T, id, NodeType.Market);
    assert IndexRep(m.trigger.sigs, T, id, NodeType.Trigger);
  }

  lemma FiveHits(a: ListState, b: ListState, c: ListState, d: ListState, e: ListState, s: Sig)
    ensures FirstHit([a, b, c, d, e], s) ==
            if s in a.sigs then Some(a.sigs[s].order)
            else if s in b.sigs then Some(b.sigs[s].order)
            else if s in c.sigs then Some(c.sigs[s].order)
            else if s in d.sigs then Some(d.sigs[s].order)
            else if s in e.sigs then Some(e.sigs[s].order)
            else None
  {
    var five, four, three, two, one := [a, b, c, d, e], [b, c, d, e], [c, d, e], [d, e], [e];
    assert five[1..] == four && four[1..] == three && three[1..] == two && two[1..] == one && one[1..] == [];
    assert FirstHit(one, s) == if s in e.sigs then Some(e.sigs[s].order) else FirstHit([], s);
    assert FirstHit(two, s) == if s in d.sigs then Some(d.sigs[s].order) else FirstHit(one, s);
    assert FirstHit(three, s) == if s in c.sigs then Some(c.sigs[s].order) else FirstHit(two, s);
    assert FirstHit(four, s) == if s in b.sigs then Some(b.sigs[s].order) else FirstHit(three, s);
    assert FirstHit(five, s) == if s in a.sigs then Some(a.sigs[s].order) else FirstHit(four, s);
  }

  lemma {:induction false} KindHit(ms: Markets, T: Table, kind: MarketType, visit: seq<nat>, s: Sig)
    requires KindRep(ms, T, kind) && forall i :: i in visit ==> i in ms
    ensures FirstHit(ListsOf(ms, visit), s)
         == if s in T && T[s].id.kind == kind && T[s].id.index in visit then Some(T[s].node.order) else None
  {
    if visit == [] {
    } else {
      var n := |visit| - 1;
      KindHit(ms, T, kind, visit[..n], s);
      assert visit[n] in visit;
      MarketHit(ms[visit[n]], T, MarketId(kind, visit[n]), s);
      FirstHitAppend(ListsOf(ms, visit[..n]), SearchOrder(ms[visit[n]]), s);
      assert visit == visit[..n] + [visit[n]];
    }
  }

  lemma LookupInOrder(b: Book, T: Table, s: Sig, pv: seq<nat>, sv: seq<nat>)
    requires Represents(b, T) && Visits(pv, b.perp.Keys) && Visits(sv, b.spot.Keys)
    requires (forall i :: i in pv ==> i in b.perp) && (forall i :: i in sv ==> i in b.spot)
    ensures FirstHit(ListsOf(b.perp, pv) + ListsOf(b.spot, sv), s) == if s in T then Some(T[s].node.order) else None
  {
    hide MarketRep, Book.WellFormed, FirstHit;
    assert forall i :: i in pv <==> i in Elems(pv);
    assert forall i :: i in sv <==> i in Elems(sv);
    KindHit(b.perp, T, Perp, pv, s);
    KindHit(b.spot, T, Spot, sv, s);
    FirstHitAppend(ListsOf(b.perp, pv), ListsOf(b.spot, sv), s);
    if s in T {
      assert b.Has(T[s].id) && T[s].id.index in b.Of(T[s].id.kind).Keys;
    }
  }

  /** Whatever order the markets are visited in, a lookup finds the order of the table. */
  lemma LookupInTable(b: Book, T: Table, s: Sig, r: Option<Order>)
    requires Represents(b, T) && IsLookup(b, s, r)
    ensures r == if s in T then Some(T[s].node.order) else None
  {
    hide Represents, FirstHit;
    var pv: seq<nat>, sv: seq<nat> :|
      && Visits(pv, b.perp.Keys) && Visits(sv, b.spot.Keys)
      && (forall i :: i in pv ==> i in b.perp) && (forall i :: i in sv ==> i in b.spot)
      && r == FirstHit(ListsOf(b.perp, pv) + ListsOf(b.spot, sv), s);
    LookupInOrder(b, T, s, pv, sv);
  }

  /** A lookup returns the latest order of that id and user. */
  lemma LookupIsLatest(first: Abstract, books: seq<Book>, ops: seq<Op>, s: Sig, r: Option<Order>)
    requires IsRun(first, books, ops) && |books| == |ops| + 1 && IsLookup(books[|ops|], s, r)
    ensures var latest := Latest(OrdersIn(first.table), ops); r == if s in latest then Some(latest[s]) else None
  {
    hide IsRun, Represents, IsLookup, After, Latest;
    RunInv(first, books, ops);
    LatestIsTable(first, books, ops);
    LookupInTable(books[|ops|], After(first, ops).table, s, r);
    assert s in OrdersIn(After(first, ops).table) <==> s in After(first, ops).table;
  }

  // ----- outside the regime -----

  /** A limit order of perp market 0 whose auction runs until slot 10. */
  const WAITING: Order :=
    Order(Open, Limit, Perp, 0, 1, Long, 0, 5, 10, 0, 0, TriggerCondition.Above, 0, 10, 0, 0, false)

  /** A resting order of perp market 1. */
  const ELSEWHERE: Order := WAITING.(marketIndex := 1, orderId := 2, postOnly := true)

  function PromotedPair(b: Book, slot: nat): Book
    requires b.perp.Keys == {0, 1}
  {
    Book(map[0 := PromotedAt(b.perp, [0, 1], 0, slot), 1 := PromotedAt(b.perp, [0, 1], 1, slot)], map[], slot)
  }

  lemma PairIsPromotion(b: Book, slot: nat)
    requires b.perp.Keys == {0, 1} && b.spot == map[] && slot > b.maxSlot
    ensures IsPromotion(b, PromotedPair(b, slot), slot, [0, 1], [])
  {
    hide PromotedAt;
    assert Elems([0, 1]) == {0, 1};
  }

  /**
    * Two markets promoted at two slots: the order of market 0 that was still waiting at slot 5
    * is quoted by market 1 after slot 20.
    */
  lemma SecondPromotionLeaks() returns (b: Book, b1: Book, b2: Book)
    ensures b == EmptyBook().Inserted(WAITING, "a", 0).Inserted(ELSEWHERE, "b", 0)
    ensures IsPromotion(b, b1, 5, [0, 1], []) && IsPromotion(b1, b2, 20, [0, 1], [])
    ensures var s, l := Sig(1, "a"), b2.Read(MarketId(Perp, 1)).List(RestingLimit);
            && WAITING.marketIndex == 0 && s in l.bids && s in l.sigs && l.bids[s].node.order == WAITING
            && forall r: seq<Node> :: IsDrain(l, Bid, r) ==> exists i :: 0 <= i < |r| && r[i].order == WAITING
  {
    hide Book.Inserted, PromotedPair, IsPromotion;
    b := EmptyBook().Inserted(WAITING, "a", 0).Inserted(ELSEWHERE, "b", 0);
    TwoMarkets(b);
    PairIsPromotion(b, 5);
    b1 := PromotedPair(b, 5);
    PairMarkets(b, 5);
    LeftBehind(b, Sig(1, "a"));
    PairIsPromotion(b1, 20);
    b2 := PromotedPair(b1, 20);
    Leaked(b1, Sig(1, "a"));
    LeakIsRead(b2, Sig(1, "a"));
  }

  lemma TwoMarkets(b: Book)
    requires b == EmptyBook().Inserted(WAITING, "a", 0).Inserted(ELSEWHERE, "b", 0)
    ensures b.perp.Keys == {0, 1} && b.spot == map[] && b.maxSlot == 0
    ensures var s := Sig(1, "a");
            && s in b.perp[0].taking.bids && b.perp[0].taking.bids[s].node.order == WAITING
            && s !in b.perp[1].taking.bids
  {
    var c := EmptyBook().Inserted(WAITING, "a", 0);
    assert c.perp.Keys == {0} && c.spot == map[];
    assert TypeAt(WAITING, 0) == TakingLimit && TypeAt(ELSEWHERE, 0) == RestingLimit;
    assert c.Read(ELSEWHERE.Id()) == EmptyMarket();
  }

  lemma PairMarkets(b: Book, slot: nat)
    requires b.perp.Keys == {0, 1}
    ensures var b' := PromotedPair(b, slot); b'.perp.Keys == {0, 1} && b'.spot == map[] && b'.maxSlot == slot
  {}

  lemma Leaked(b: Book, s: Sig)
    requires b.perp.Keys == {0, 1} && s in b.perp[1].taking.bids && b.perp[1].taking.bids[s].node.order == WAITING
    ensures var b' := PromotedPair(b, 20);
            && 1 in b'.perp && s in b'.perp[1].resting.sigs
            && s in b'.perp[1].resting.bids && b'.perp[1].resting.bids[s].node.order == WAITING
  {
    hide KeptUpTo;
    var m := b.perp[1];
    var h := Ready(m.taking.bids, 20);
    assert s in h && h[s] == m.taking.bids[s];
    var l := Absorbed(m.resting, h, Bid);
    assert s in l.sigs && s in l.bids && l.bids[s].node.order == WAITING;
    assert s in Absorbed(l, Ready(m.taking.asks, 20), Ask).sigs;
  }

  /** Every read of the bids of market 1 then returns that order. */
  lemma LeakIsRead(b: Book, s: Sig)
    requires 1 in b.perp && s in b.perp[1].resting.bids && s in b.perp[1].resting.sigs
    requires b.perp[1].resting.bids[s].node.order == WAITING
    ensures var l := b.Read(MarketId(Perp, 1)).List(RestingLimit);
            && s in l.bids && s in l.sigs && l.bids[s].node.order == WAITING
            && forall r: seq<Node> :: IsDrain(l, Bid, r) ==> exists i :: 0 <= i < |r| && r[i].order == WAITING
  {
    var l := b.Read(MarketId(Perp, 1)).List(RestingLimit);
    assert l == b.perp[1].resting && l.Heap(Bid) == l.bids;
    forall r: seq<Node> | IsDrain(l, Bid, r) ensures exists i :: 0 <= i < |r| && r[i].order == WAITING {
      assert s in SigsOf(r);
      var i :| 0 <= i < |r| && r[i].Key() == s;
      assert r[i].order == WAITING;
    }
  }

  lemma LeftBehind(b: Book, s: Sig)
    requires b.perp.Keys == {0, 1} && s in b.perp[0].taking.bids && b.perp[0].taking.bids[s].node.order == WAITING
    requires s !in b.perp[1].taking.bids
    ensures var h := PromotedPair(b, 5).perp[1].taking.bids; s in h && h[s].node.order == WAITING
  {
    var one := KeptUpTo(b.perp, [0, 1], 1, 5, Bid);
    assert KeptUpTo(b.perp, [0, 1], 0, 5, Bid) == map[];
    assert one == map[] + Kept(b.perp[0].taking.bids, 5);
    assert KeptUpTo(b.perp, [0, 1], 2, 5, Bid) == one + Kept(b.perp[1].taking.bids, 5);
  }
}
