/**
  * Who trades with whom in a pass, in terms of the orders themselves: users, prices, post-only flags, amounts
  * left and the fallback price.
  */
module Trades {
  import opened Arithmetic
  import opened Collections
  import opened Orders
  import opened Nodes
  import opened OrderLists
  import opened Books
  import opened Tables
  import opened Builds
  import opened Queries
  import opened Matching
  import opened Outers

  // ----- who may trade -----

  /** Both orders have a price, and the buyer's is not below the seller's. */
  predicate PricesMeet(buy: Order, sell: Order, oraclePrice: int, slot: nat) {
    var p, q := LimitPrice(buy, oraclePrice, slot), LimitPrice(sell, oraclePrice, slot);
    p.Some? && q.Some? && p.value >= q.value
  }

  /** A resting ask and bid of two users that meet in price and are not both post-only. */
  predicate MayTrade(ask: Node, bid: Node, oraclePrice: int, slot: nat) {
    && ask.user != bid.user
    && !(ask.order.postOnly && bid.order.postOnly)
    && PricesMeet(bid.order, ask.order, oraclePrice, slot)
  }

  /**
    * A taker and a maker of two users that meet in price. On a spot market with a fallback price, a maker must
    * not be worse than that: a bid not below it, an ask not above it.
    */
  predicate MayTake(taker: Node, maker: Node, kind: MarketType, makerSide: Side, fallback: Option<nat>,
                    oraclePrice: int, slot: nat) {
    && taker.user != maker.user
    && (match makerSide
        case Bid => PricesMeet(maker.order, taker.order, oraclePrice, slot)
        case Ask => PricesMeet(taker.order, maker.order, oraclePrice, slot))
    && (kind == Spot && fallback.Some? ==>
          var p := LimitPrice(maker.order, oraclePrice, slot);
          && p.Some?
          && match makerSide
             case Bid => p.value >= fallback.value
             case Ask => p.value <= fallback.value)
  }

  /** A price is asked for only between orders of two users. */
  predicate PricedApart(a: Node, n: Node, oraclePrice: int, slot: nat) {
    a.user == n.user || (Priced(a.order, oraclePrice, slot) && Priced(n.order, oraclePrice, slot))
  }

  lemma RestingIsMayTrade(ask: Node, bid: Node, oraclePrice: int, slot: nat)
    requires PricedApart(ask, bid, oraclePrice, slot)
    ensures RestingEligible(PriceAt(oraclePrice, slot))(ask, bid) <==> MayTrade(ask, bid, oraclePrice, slot)
  {
    hide LimitPrice;
  }

  lemma TakingIsMayTake(taker: Node, maker: Node, kind: MarketType, makerSide: Side, fallback: Option<nat>,
                        oraclePrice: int, slot: nat)
    requires PricedApart(taker, maker, oraclePrice, slot)
    ensures TakingEligible(kind, makerSide, PriceAt(oraclePrice, slot), fallback)(taker, maker) <==>
            MayTake(taker, maker, kind, makerSide, fallback, oraclePrice, slot)
  {
    hide LimitPrice;
  }

  // ----- what is reported -----

  /**
    * What a match of two resting orders is reported as: the node to fill is the post-only one; if there is none, the
    * one whose auction ended first, the ask if both ended at once. The other one is its maker.
    */
  predicate IsRestingFill(f: NodeToFill, ask: Node, bid: Node) {
    var bidIsFilled :=
      || bid.order.postOnly
      || (!ask.order.postOnly
          && bid.order.slot + bid.order.auctionDuration < ask.order.slot + ask.order.auctionDuration);
    if bidIsFilled then f.node == bid && f.makers == [ask] else f.node == ask && f.makers == [bid]
  }

  predicate IsTakingFill(f: NodeToFill, taker: Node, maker: Node) {
    f.node == taker && f.makers == [maker]
  }

  lemma DeterminedIsRestingFill(ask: Node, bid: Node)
    requires !(ask.order.postOnly && bid.order.postOnly)
    ensures var pair := DetermineMakerAndTaker(ask, bid);
            pair.Some? && IsRestingFill(NodeToFill(pair.value.1, [pair.value.0]), ask, bid)
  {}

  // ----- one round -----

  /** No order in front of the `i`-th that may trade has as much left as `a`. */
  predicate NoneBefore(a: Node, r: seq<Node>, may: (Node, Node) -> bool, i: nat)
    requires i <= |r|
  {
    forall j :: 0 <= j < i && may(a, r[j]) ==>
      r[j].order.baseAmount - r[j].order.filled < a.order.baseAmount - a.order.filled
  }

  /** `ns` are exactly the orders of `r` that may trade with `a` and are not behind one that fills it up. */
  ghost predicate IsRound(a: Node, r: seq<Node>, may: (Node, Node) -> bool, ns: seq<Node>) {
    && (forall n :: n in ns ==> n in r)
    && forall i :: 0 <= i < |r| ==> (r[i] in ns <==> may(a, r[i]) && NoneBefore(a, r, may, i))
  }

  lemma PickedIsRound(a: Node, r: seq<Node>, ok: Eligibility, may: (Node, Node) -> bool)
    requires DistinctSigs(r) && forall n :: n in r ==> (ok(a, n) <==> may(a, n))
    ensures IsRound(a, r, may, Picked(a, r, ok))
  {
    PickedFromList(a, r, ok);
    forall i | 0 <= i < |r| ensures r[i] in Picked(a, r, ok) <==> may(a, r[i]) && NoneBefore(a, r, may, i) {
      PickedExactly(a, r, ok, i);
      assert r[i] in r;
      forall j | 0 <= j < i ensures ok(a, r[j]) <==> may(a, r[j]) {
        assert r[j] in r;
      }
    }
  }

  function Trade(oraclePrice: int, slot: nat): (Node, Node) -> bool {
    (ask: Node, bid: Node) => MayTrade(ask, bid, oraclePrice, slot)
  }

  function Take(kind: MarketType, makerSide: Side, fallback: Option<nat>, oraclePrice: int, slot: nat)
    : (Node, Node) -> bool
  {
    (taker: Node, maker: Node) => MayTake(taker, maker, kind, makerSide, fallback, oraclePrice, slot)
  }

  // ----- whole passes -----

  /** `ms` are the matches of the rounds: of each outer order exactly those of its round. */
  ghost predicate AreMatches(ms: seq<Match>, rounds: seq<Round>, may: (Node, Node) -> bool) {
    && (forall m :: m in ms ==>
          exists k :: 0 <= k < |rounds| && rounds[k].outer == m.outer && m.inner in rounds[k].read)
    && forall k, i :: 0 <= k < |rounds| && 0 <= i < |rounds[k].read| ==>
         var a, r := rounds[k].outer, rounds[k].read;
         Match(a, r[i]) in ms <==> may(a, r[i]) && NoneBefore(a, r, may, i)
  }

  lemma {:induction false} MatchesExactly(rounds: seq<Round>, ok: Eligibility, m: Match)
    ensures m in Matches(rounds, ok) <==>
            exists k :: 0 <= k < |rounds| && rounds[k].outer == m.outer
                        && m.inner in Picked(rounds[k].outer, rounds[k].read, ok)
  {
    hide Picked;
    if rounds == [] {
    } else {
      var n := |rounds| - 1;
      var ns := Picked(rounds[n].outer, rounds[n].read, ok);
      MatchesExactly(rounds[..n], ok, m);
      InMatchesOf(rounds[n].outer, ns, m);
      assert forall k :: 0 <= k < n ==> rounds[..n][k] == rounds[k];
    }
  }

  lemma InMatchesOf(a: Node, ns: seq<Node>, m: Match)
    ensures m in MatchesOf(a, ns) <==> m.outer == a && m.inner in ns
  {
    var ms := MatchesOf(a, ns);
    if m in ms {
      var i :| 0 <= i < |ms| && ms[i] == m;
      assert m == Match(a, ns[i]);
    }
    if m.outer == a && m.inner in ns {
      var i :| 0 <= i < |ns| && ns[i] == m.inner;
      assert ms[i] == m;
    }
  }

  lemma PassMatches(T: Table, rounds: seq<Round>, ok: Eligibility, id: MarketId, side: Side, price: Order -> int,
                    may: (Node, Node) -> bool)
    requires IsPass(T, rounds, ok, id, side, price)
    requires forall k, n :: 0 <= k < |rounds| && n in rounds[k].read ==>
               (ok(rounds[k].outer, n) <==> may(rounds[k].outer, n))
    ensures AreMatches(Matches(rounds, ok), rounds, may)
  {
    hide Matches, Picked, Quoted, PassTable, NoneBefore;
    var ms := Matches(rounds, ok);
    forall k | 0 <= k < |rounds|
      ensures IsRound(rounds[k].outer, rounds[k].read, may, Picked(rounds[k].outer, rounds[k].read, ok))
    {
      PickedIsRound(rounds[k].outer, rounds[k].read, ok, may);
    }
    forall m | m in ms
      ensures exists k :: 0 <= k < |rounds| && rounds[k].outer == m.outer && m.inner in rounds[k].read
    {
      MatchesExactly(rounds, ok, m);
    }
    forall k, i | 0 <= k < |rounds| && 0 <= i < |rounds[k].read|
      ensures var a, r := rounds[k].outer, rounds[k].read;
              Match(a, r[i]) in ms <==> may(a, r[i]) && NoneBefore(a, r, may, i)
    {
      MatchesExactly(rounds, ok, Match(rounds[k].outer, rounds[k].read[i]));
    }
  }

  // ----- amounts -----

  /** A match takes all that one of the two orders has left, and no more than either has. */
  lemma AmountIsExact(a: Node, n: Node)
    ensures var x, y := a.order.baseAmount - a.order.filled, n.order.baseAmount - n.order.filled;
            Amount(a, n) <= x && Amount(a, n) <= y && (Amount(a, n) == x || Amount(a, n) == y)
  {}

  lemma {:induction false} CoveringIsLast(a: Node, r: seq<Node>, ok: Eligibility, n: Node)
    requires n in Picked(a, r, ok) && Covers(n, a)
    ensures Picked(a, r, ok)[|Picked(a, r, ok)| - 1] == n || Covers(Picked(a, r, ok)[|Picked(a, r, ok)| - 1], a)
  {
    if r == [] {
    } else if ok(a, r[0]) && Covers(r[0], a) {
    } else {
      if n in Picked(a, r[1..], ok) {
        CoveringIsLast(a, r[1..], ok, n);
      }
    }
  }

  lemma {:induction false} QuoteIsUsedUp(T: Table, a: Node, ns: seq<Node>, n: Node)
    requires FillsOk(T) && FillOk(a) && DistinctSigs(ns) && n in ns && !Covers(n, a) && a.Key() != n.Key()
    requires forall m :: m in ns ==> m.Key() in T && T[m.Key()].node == m
    ensures var T' := AllMatched(T, a, ns); n.Key() in T' && T'[n.Key()].node.order.filled == n.order.baseAmount
  {
    var k := |ns| - 1;
    PickedPrefix(ns, k);
    assert FillOk(ns[k]) by { assert FillOk(T[ns[k].Key()].node); }
    RoundConserves(T, a, ns[..k], n.Key());
    OneMatch(AllMatched(T, a, ns[..k]), a, ns[k], n.Key());
    if n != ns[k] {
      assert n in ns[..k] by { assert ns == ns[..k] + [ns[k]]; }
      QuoteIsUsedUp(T, a, ns[..k], n);
    }
  }

  /** After a pass, of the two orders of every match one is completely filled. */
  lemma {:induction false} OneIsFull(T: Table, rounds: seq<Round>, ok: Eligibility, id: MarketId, side: Side,
                                     price: Order -> int, m: Match)
    requires FillsOk(T) && IsPass(T, rounds, ok, id, side, price) && m in Matches(rounds, ok)
    ensures var T' := PassTable(T, rounds, ok);
            && m.inner.Key() in T' && m.outer.Key() in T'
            && (|| T'[m.inner.Key()].node.order.filled == T'[m.inner.Key()].node.order.baseAmount
                || T'[m.outer.Key()].node.order.filled == T'[m.outer.Key()].node.order.baseAmount)
  {
    hide IsPass, PassTable, Matches, Picked, AllMatched, FillsOk, SameShape, IsQuoteList, Quoted;
    MatchesExactly(rounds, ok, m);
    var k :| 0 <= k < |rounds| && rounds[k].outer == m.outer && m.inner in Picked(rounds[k].outer, rounds[k].read, ok);
    if Covers(m.inner, m.outer) {
      OuterIsFull(T, rounds, ok, id, side, price, k, m.inner);
    } else {
      InnerIsFull(T, rounds, ok, id, side, price, k, m.inner);
    }
  }

  lemma OuterIsFull(T: Table, rounds: seq<Round>, ok: Eligibility, id: MarketId, side: Side, price: Order -> int,
                    k: nat, n: Node)
    requires FillsOk(T) && IsPass(T, rounds, ok, id, side, price) && k < |rounds|
    requires n in Picked(rounds[k].outer, rounds[k].read, ok) && Covers(n, rounds[k].outer)
    ensures var T', s := PassTable(T, rounds, ok), rounds[k].outer.Key();
            && s in T' && T'[s].node.order.filled == T'[s].node.order.baseAmount
            && n.Key() in T'
  {
    hide IsPass, PassTable, Matches, Picked, FillsOk, SameShape;
    var a, r := rounds[k].outer, rounds[k].read;
    PassOuterFill(T, rounds, ok, id, side, price, k);
    CoveringIsLast(a, r, ok, n);
    MatchTerms(T, rounds, ok, id, side, price, k, n);
  }

  lemma MatchTerms(T: Table, rounds: seq<Round>, ok: Eligibility, id: MarketId, side: Side, price: Order -> int,
                  k: nat, n: Node)
    requires FillsOk(T) && IsPass(T, rounds, ok, id, side, price) && k < |rounds|
    requires n in Picked(rounds[k].outer, rounds[k].read, ok)
    ensures var T', U, a := PassTable(T, rounds, ok), PassTable(T, rounds[..k], ok), rounds[k].outer;
            && n.Key() in T' && n.Key() in U && a.Key() in U && a.Key() != n.Key()
            && U[n.Key()].node == n && U[a.Key()].node.order.baseAmount == a.order.baseAmount
            && T'[n.Key()].node.order.baseAmount == n.order.baseAmount
            && a.Key() in T' && T'[a.Key()].node.order.baseAmount == a.order.baseAmount
  {
    hide PassTable, Picked, IsQuoteList, FillsOk, Quoted;
    var U := PassTable(T, rounds[..k], ok);
    PassUpTo(T, rounds, ok, id, side, price, k);
    AfterShape(T, rounds, ok);
    AfterShape(T, rounds[..k], ok);
    ShapeKeepsQuoted(T, U, id, side);
    RoundPicks(U, rounds[k].outer, rounds[k].read, ok, id, side, price);
    assert OutersOk(T, rounds, id, side);
  }

  lemma {:induction false} InnerIsFull(T: Table, rounds: seq<Round>, ok: Eligibility, id: MarketId, side: Side,
                                       price: Order -> int, k: nat, n: Node)
    requires FillsOk(T) && IsPass(T, rounds, ok, id, side, price) && k < |rounds|
    requires n in Picked(rounds[k].outer, rounds[k].read, ok) && !Covers(n, rounds[k].outer)
    ensures var T' := PassTable(T, rounds, ok);
            && n.Key() in T' && T'[n.Key()].node.order.filled == T'[n.Key()].node.order.baseAmount
            && rounds[k].outer.Key() in T'
    decreases |rounds|
  {
    hide IsPass, PassTable, Matches, Picked, FillsOk, SameShape, AllMatched, IsQuoteList, Quoted;
    var last := |rounds| - 1;
    MatchTerms(T, rounds, ok, id, side, price, k, n);
    LastRound(T, rounds, ok, id, side, price);
    if k == last {
      var U, a, r := PassTable(T, rounds[..k], ok), rounds[k].outer, rounds[k].read;
      RoundPicks(U, a, r, ok, id, side, price);
      QuoteIsUsedUp(U, a, Picked(a, r, ok), n);
    } else {
      InnerIsFull(T, rounds[..last], ok, id, side, price, k, n);
      StaysFull(T, rounds, ok, id, side, price, n.Key());
    }
  }

  /** What is full before the last round is full after it. */
  lemma StaysFull(T: Table, rounds: seq<Round>, ok: Eligibility, id: MarketId, side: Side, price: Order -> int, s: Sig)
    requires FillsOk(T) && IsPass(T, rounds, ok, id, side, price) && rounds != []
    requires var U := PassTable(T, rounds[..|rounds| - 1], ok);
             s in U && U[s].node.order.filled == U[s].node.order.baseAmount
    ensures var T' := PassTable(T, rounds, ok); s in T' && T'[s].node.order.filled == T'[s].node.order.baseAmount
  {
    hide IsPass, PassTable, Picked;
    var U, T' := PassTable(T, rounds[..|rounds| - 1], ok), PassTable(T, rounds, ok);
    LastRound(T, rounds, ok, id, side, price);
    AfterShape(T, rounds, ok);
    PassKeepsFills(T, rounds, ok, id, side, price);
    PassKeepsFills(T, rounds[..|rounds| - 1], ok, id, side, price);
    LastFillGrows(T, rounds, ok, id, side, price, s);
    assert FillOk(T'[s].node);
  }

  lemma LastFillGrows(T: Table, rounds: seq<Round>, ok: Eligibility, id: MarketId, side: Side, price: Order -> int,
                      s: Sig)
    requires FillsOk(T) && IsPass(T, rounds, ok, id, side, price) && rounds != []
    requires s in PassTable(T, rounds[..|rounds| - 1], ok)
    ensures var U, T' := PassTable(T, rounds[..|rounds| - 1], ok), PassTable(T, rounds, ok);
            s in T' && T'[s].node.order.filled >= U[s].node.order.filled
  {
    hide PassTable, Picked, AllMatched, IsQuoteList, Quoted, FillsOk, SameShape, MatchedAgainst;
    var n := |rounds| - 1;
    var a, r, U := rounds[n].outer, rounds[n].read, PassTable(T, rounds[..n], ok);
    LastRound(T, rounds, ok, id, side, price);
    RoundPicks(U, a, r, ok, id, side, price);
    if a.Key() == s {
      LastOuter(T, rounds, ok, id, side, price);
      assert OutersOk(T, rounds, id, side);
      PassKeepsOthers(T, rounds[..n], ok, id, side, price, s);
      LastIsTotal(a, Picked(a, r, ok));
    } else {
      RoundConserves(U, a, Picked(a, r, ok), s);
    }
  }
}
