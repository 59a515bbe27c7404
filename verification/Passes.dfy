/** The two matching loops over the mutable book. */
module Passes {
  import opened Collections
  import opened Orders
  import opened Nodes
  import opened OrderLists
  import opened Books
  import opened Tables
  import opened Runs
  import opened Builds
  import opened Queries
  import opened Matching
  import opened Trades
  import opened WriteBacks
  import opened Sessions
  import opened Dlobs

  // ----- results -----

  function RestingFills(ms: seq<Match>): seq<NodeToFill> {
    seq(|ms|, i requires 0 <= i < |ms| =>
      match DetermineMakerAndTaker(ms[i].outer, ms[i].inner)
      case Some(p) => NodeToFill(p.1, [p.0])
      case None => NodeToFill(ms[i].outer, []))
  }

  function TakingFills(ms: seq<Match>): seq<NodeToFill> {
    seq(|ms|, i requires 0 <= i < |ms| => NodeToFill(ms[i].outer, [ms[i].inner]))
  }

  lemma FillsAppend(x: seq<Match>, y: seq<Match>)
    ensures RestingFills(x + y) == RestingFills(x) + RestingFills(y)
    ensures TakingFills(x + y) == TakingFills(x) + TakingFills(y)
  {}

  /** `fills` report the matches `ms` of resting asks, one each and in order. */
  ghost predicate RestingReport(fills: seq<NodeToFill>, ms: seq<Match>) {
    |fills| == |ms| && forall i :: 0 <= i < |ms| ==> IsRestingFill(fills[i], ms[i].outer, ms[i].inner)
  }

  /** The same for takers. */
  ghost predicate TakingReport(fills: seq<NodeToFill>, ms: seq<Match>) {
    |fills| == |ms| && forall i :: 0 <= i < |ms| ==> IsTakingFill(fills[i], ms[i].outer, ms[i].inner)
  }

  lemma RestingFillsReport(ms: seq<Match>)
    requires forall m :: m in ms ==> !(m.outer.order.postOnly && m.inner.order.postOnly)
    ensures RestingReport(RestingFills(ms), ms)
  {
    forall i | 0 <= i < |ms| ensures IsRestingFill(RestingFills(ms)[i], ms[i].outer, ms[i].inner) {
      assert ms[i] in ms;
      DeterminedIsRestingFill(ms[i].outer, ms[i].inner);
    }
  }

  lemma TakingFillsReport(ms: seq<Match>)
    ensures TakingReport(TakingFills(ms), ms)
  {}

  lemma RestingRound(ask: Node, bids: seq<Node>, oraclePrice: int, slot: nat)
    requires DistinctSigs(bids) && forall n :: n in bids ==> PricedApart(ask, n, oraclePrice, slot)
    ensures var ns := Picked(ask, bids, RestingEligible(PriceAt(oraclePrice, slot)));
            && IsRound(ask, bids, Trade(oraclePrice, slot), ns)
            && RestingReport(RestingFills(MatchesOf(ask, ns)), MatchesOf(ask, ns))
  {
    hide RestingEligible, Picked, RestingReport, PricedApart, PriceAt;
    var ok := RestingEligible(PriceAt(oraclePrice, slot));
    forall n | n in bids ensures ok(ask, n) <==> Trade(oraclePrice, slot)(ask, n) {
      RestingIsMayTrade(ask, n, oraclePrice, slot);
    }
    PickedFromList(ask, bids, ok);
    PickedIsRound(ask, bids, ok, Trade(oraclePrice, slot));
    forall m | m in MatchesOf(ask, Picked(ask, bids, ok))
      ensures !(m.outer.order.postOnly && m.inner.order.postOnly)
    {
      InMatchesOf(ask, Picked(ask, bids, ok), m);
      assert Trade(oraclePrice, slot)(ask, m.inner);
    }
    RestingFillsReport(MatchesOf(ask, Picked(ask, bids, ok)));
  }

  lemma TakingRound(taker: Node, makers: seq<Node>, kind: MarketType, makerSide: Side, fallback: Option<nat>,
                    oraclePrice: int, slot: nat)
    requires DistinctSigs(makers) && forall n :: n in makers ==> PricedApart(taker, n, oraclePrice, slot)
    ensures IsRound(taker, makers, Take(kind, makerSide, fallback, oraclePrice, slot),
                    Picked(taker, makers, TakingEligible(kind, makerSide, PriceAt(oraclePrice, slot), fallback)))
  {
    hide TakingEligible, Picked, PricedApart, PriceAt;
    var ok := TakingEligible(kind, makerSide, PriceAt(oraclePrice, slot), fallback);
    forall n | n in makers ensures ok(taker, n) <==> Take(kind, makerSide, fallback, oraclePrice, slot)(taker, n) {
      TakingIsMayTake(taker, n, kind, makerSide, fallback, oraclePrice, slot);
    }
    PickedIsRound(taker, makers, ok, Take(kind, makerSide, fallback, oraclePrice, slot));
  }

  lemma RestingPass(T: Table, rounds: seq<Round>, id: MarketId, oraclePrice: int, slot: nat)
    requires var price := PriceAt(oraclePrice, slot); IsPass(T, rounds, RestingEligible(price), id, Bid, price)
    requires forall k, n :: 0 <= k < |rounds| && n in rounds[k].read ==>
               PricedApart(rounds[k].outer, n, oraclePrice, slot)
    ensures var ms := Matches(rounds, RestingEligible(PriceAt(oraclePrice, slot)));
            AreMatches(ms, rounds, Trade(oraclePrice, slot)) && RestingReport(RestingFills(ms), ms)
  {
    hide RestingEligible, RestingReport, PricedApart, PriceAt, Matches, IsPass, AreMatches;
    var ok := RestingEligible(PriceAt(oraclePrice, slot));
    forall k, n | 0 <= k < |rounds| && n in rounds[k].read
      ensures ok(rounds[k].outer, n) <==> Trade(oraclePrice, slot)(rounds[k].outer, n)
    {
      RestingIsMayTrade(rounds[k].outer, n, oraclePrice, slot);
    }
    PassMatches(T, rounds, ok, id, Bid, PriceAt(oraclePrice, slot), Trade(oraclePrice, slot));
    forall m | m in Matches(rounds, ok) ensures !(m.outer.order.postOnly && m.inner.order.postOnly) {
      MatchesExactly(rounds, ok, m);
      var k :| 0 <= k < |rounds| && rounds[k].outer == m.outer
               && m.inner in Picked(rounds[k].outer, rounds[k].read, ok);
      PickedFromList(rounds[k].outer, rounds[k].read, ok);
      assert Trade(oraclePrice, slot)(rounds[k].outer, m.inner);
    }
    RestingFillsReport(Matches(rounds, ok));
  }

  lemma TakingPass(T: Table, rounds: seq<Round>, id: MarketId, makerSide: Side, fallback: Option<nat>,
                   oraclePrice: int, slot: nat)
    requires var price := PriceAt(oraclePrice, slot);
             IsPass(T, rounds, TakingEligible(id.kind, makerSide, price, fallback), id, makerSide, price)
    requires forall k, n :: 0 <= k < |rounds| && n in rounds[k].read ==>
               PricedApart(rounds[k].outer, n, oraclePrice, slot)
    ensures AreMatches(Matches(rounds, TakingEligible(id.kind, makerSide, PriceAt(oraclePrice, slot), fallback)),
                       rounds, Take(id.kind, makerSide, fallback, oraclePrice, slot))
  {
    hide TakingEligible, PricedApart, PriceAt, Matches, IsPass, AreMatches;
    var ok := TakingEligible(id.kind, makerSide, PriceAt(oraclePrice, slot), fallback);
    var may := Take(id.kind, makerSide, fallback, oraclePrice, slot);
    forall k, n | 0 <= k < |rounds| && n in rounds[k].read
      ensures ok(rounds[k].outer, n) <==> may(rounds[k].outer, n)
    {
      TakingIsMayTake(rounds[k].outer, n, id.kind, makerSide, fallback, oraclePrice, slot);
    }
    PassMatches(T, rounds, ok, id, makerSide, PriceAt(oraclePrice, slot), may);
  }

  // ----- prices -----

  ghost predicate QuotesPriced(T: Table, id: MarketId, side: Side, oraclePrice: int, slot: nat) {
    forall s :: s in Quoted(T, id, side) ==> s in T && Priced(T[s].node.order, oraclePrice, slot)
  }

  lemma ShapeKeepsPriced(T: Table, T': Table, id: MarketId, side: Side, oraclePrice: int, slot: nat)
    requires SameShape(T, T') && QuotesPriced(T, id, side, oraclePrice, slot)
    ensures QuotesPriced(T', id, side, oraclePrice, slot)
  {
    ShapeKeepsQuoted(T, T', id, side);
    forall s | s in Quoted(T', id, side) ensures s in T' && Priced(T'[s].node.order, oraclePrice, slot) {
      FillKeepsPrice(T[s].node.order, T'[s].node.order.filled, oraclePrice, slot);
    }
  }

  /** A read of the quotes asks for prices only to compare two of them. */
  ghost predicate Sortable(T: Table, id: MarketId, side: Side, oraclePrice: int, slot: nat) {
    QuotesPriced(T, id, side, oraclePrice, slot) || |Quoted(T, id, side)| <= 1
  }

  lemma ShapeKeepsSortable(T: Table, T': Table, id: MarketId, side: Side, oraclePrice: int, slot: nat)
    requires SameShape(T, T') && Sortable(T, id, side, oraclePrice, slot)
    ensures Sortable(T', id, side, oraclePrice, slot)
  {
    hide SameShape, Quoted;
    ShapeKeepsQuoted(T, T', id, side);
    if QuotesPriced(T, id, side, oraclePrice, slot) {
      ShapeKeepsPriced(T, T', id, side, oraclePrice, slot);
    }
  }

  lemma FewAreOrdered(r: seq<Node>, keys: set<Sig>, price: Order -> int, descending: bool)
    requires DistinctSigs(r) && SigsOf(r) == keys && |keys| <= 1
    ensures Ordered(r, price, descending)
  {
    if |r| >= 2 {
      assert {r[0].Key(), r[1].Key()} <= keys;
      SubsetSize({r[0].Key(), r[1].Key()}, keys);
    }
  }

  /** What a read of such quotes returns. */
  lemma ReadIsOrdered(b: Book, T: Table, id: MarketId, side: Side, oraclePrice: int, slot: nat, r: seq<Node>)
    requires Represents(b, T) && Sortable(T, id, side, oraclePrice, slot)
    requires IsJointDrain(b.Read(id), RestingLimit, FloatingLimit, side, r)
    requires (forall n :: n in r ==> Priced(n.order, oraclePrice, slot)) ==>
               Ordered(r, PriceAt(oraclePrice, slot), side == Bid)
    ensures IsBookRead(b, r, id, side, PriceAt(oraclePrice, slot))
    ensures IsQuoteList(r, T, id, side, PriceAt(oraclePrice, slot))
  {
    JointDrainLists(b, T, id, RestingLimit, FloatingLimit, side, r);
    if QuotesPriced(T, id, side, oraclePrice, slot) {
      forall n | n in r ensures Priced(n.order, oraclePrice, slot) {
        var i :| 0 <= i < |r| && r[i] == n;
        assert r[i].Key() in SigsOf(r);
      }
    } else {
      FewAreOrdered(r, Quoted(T, id, side), PriceAt(oraclePrice, slot), side == Bid);
    }
  }

  // ----- one match -----

  /** Both orders are written back, the quote first. */
  method WriteFills(dlob: Dlob, a: Node, n: Node, slot: nat, ghost T: Table)
    requires Running(dlob.State(), T, slot)
    requires n.Key() in T && T[n.Key()].node == n
    requires a.Key() in T && T[a.Key()].node.WithFilled(a.order.filled) == a
    requires a.Key() != n.Key() && FillOk(a)
    modifies dlob
    ensures dlob.State() == BookMatched(old(dlob.State()), a, n, slot)
    ensures Running(dlob.State(), Matched(T, a, n), slot)
  {
    hide Running, Book.Updated, Matched;
    BookMatchedRuns(dlob.State(), T, a, n, slot);
    var amount := Amount(a, n);
    dlob.UpdateOrder(n.order.(filled := n.order.filled + amount), n.user, slot);
    dlob.UpdateOrder(a.order.(filled := a.order.filled + amount), a.user, slot);
  }

  // ----- one round -----

  /** `ns` are the matches of `a` among the first `i` quotes. */
  ghost predicate InRound(a: Node, r: seq<Node>, ok: Eligibility, ns: seq<Node>, i: nat) {
    i <= |r| && Picked(a, r, ok) == ns + Picked(a, r[i..], ok)
  }

  lemma RoundSkip(a: Node, r: seq<Node>, ok: Eligibility, ns: seq<Node>, i: nat)
    requires InRound(a, r, ok, ns, i) && i < |r| && !ok(a, r[i])
    ensures InRound(a, r, ok, ns, i + 1)
  {
    assert r[i..][1..] == r[i + 1..];
  }

  lemma RoundTake(b: Book, a: Node, r: seq<Node>, ok: Eligibility, ns: seq<Node>, i: nat, slot: nat)
    requires InRound(a, r, ok, ns, i) && i < |r| && ok(a, r[i])
    ensures Covers(r[i], a) ==> Picked(a, r, ok) == ns + [r[i]]
    ensures !Covers(r[i], a) ==> InRound(a, r, ok, ns + [r[i]], i + 1)
    ensures ns + [r[i]] <= Picked(a, r, ok)
    ensures BookRound(b, a, ns + [r[i]], slot) == BookMatched(BookRound(b, a, ns, slot), a, r[i], slot)
    ensures MatchesOf(a, ns + [r[i]]) == MatchesOf(a, ns) + [Match(a, r[i])]
  {
    assert r[i..][0] == r[i] && r[i..][1..] == r[i + 1..];
    assert (ns + [r[i]])[..|ns|] == ns;
    if !Covers(r[i], a) {
      assert ns + ([r[i]] + Picked(a, r[i + 1..], ok)) == ns + [r[i]] + Picked(a, r[i + 1..], ok);
    }
  }

  /** Carries out the match of `a` with the `i`-th quote, in a round that began with book `b` and table `T`. */
  method TakeMatch(dlob: Dlob, a: Node, r: seq<Node>, i: nat, slot: nat, ghost ok: Eligibility, ghost ns: seq<Node>,
                   ghost b: Book, ghost T: Table)
    requires Running(b, T, slot) && dlob.State() == BookRound(b, a, ns, slot)
    requires RoundReady(T, a, r) && InRound(a, r, ok, ns, i) && i < |r| && ok(a, r[i])
    modifies dlob
    ensures dlob.State() == BookRound(b, a, ns + [r[i]], slot)
    ensures if Covers(r[i], a) then Picked(a, r, ok) == ns + [r[i]] else InRound(a, r, ok, ns + [r[i]], i + 1)
    ensures MatchesOf(a, ns + [r[i]]) == MatchesOf(a, ns) + [Match(a, r[i])]
  {
    hide Running, RoundReady, InRound, BookMatched, AllMatched, Matched, Picked;
    RoundTake(b, a, r, ok, ns, i, slot);
    ghost var taken := ns + [r[i]];
    ReadyPrefix(T, a, r, ok, |taken|);
    assert Picked(a, r, ok)[..|taken|] == taken;
    LastUnchanged(T, a, taken);
    assert taken[..|taken| - 1] == ns;
    RoundRuns(b, T, a, ns, slot);
    ReadyFillOk(T, a, r);
    WriteFills(dlob, a, r[i], slot, AllMatched(T, a, ns));
  }

  lemma ReadyFillOk(T: Table, a: Node, r: seq<Node>)
    requires RoundReady(T, a, r)
    ensures FillOk(a) && DistinctSigs(r)
  {}

  /** The loops' own stopping test. */
  lemma FilledIsCovered(a: Node, n: Node)
    ensures a.order.baseAmount == a.order.filled + Amount(a, n) <==> Covers(n, a)
  {}

  lemma RoundStarts(a: Node, r: seq<Node>, ok: Eligibility, b: Book, slot: nat)
    ensures InRound(a, r, ok, [], 0) && MatchesOf(a, []) == [] && BookRound(b, a, [], slot) == b
  {
    assert r[0..] == r;
  }

  lemma RoundEnds(a: Node, r: seq<Node>, ok: Eligibility, ns: seq<Node>, i: nat)
    requires InRound(a, r, ok, ns, i) && Picked(a, r[i..], ok) == []
    ensures Picked(a, r, ok) == ns
  {}

  lemma PickedNothing(a: Node, r: seq<Node>, ok: Eligibility)
    ensures Picked(a, r[|r|..], ok) == []
  {}

  method MatchRestingAsk(dlob: Dlob, ask: Node, bids: seq<Node>, slot: nat, oraclePrice: int, ghost T: Table)
    returns (fills: seq<NodeToFill>, ghost ns: seq<Node>)
    requires Running(dlob.State(), T, slot) && RoundReady(T, ask, bids)
    requires Ordered(bids, PriceAt(oraclePrice, slot), true)
    modifies dlob
    ensures ns == Picked(ask, bids, RestingEligible(PriceAt(oraclePrice, slot)))
    ensures fills == RestingFills(MatchesOf(ask, ns))
    ensures dlob.State() == BookRound(old(dlob.State()), ask, ns, slot)
    ensures Running(dlob.State(), AllMatched(T, ask, ns), slot)
    ensures (forall n :: n in bids ==> PricedApart(ask, n, oraclePrice, slot)) ==>
              IsRound(ask, bids, Trade(oraclePrice, slot), ns) && RestingReport(fills, MatchesOf(ask, ns))
  {
    hide Running, RoundReady, InRound, Picked, AllMatched, BookRound, RestingReport, PricedApart, IsRound;
    ReadyFillOk(T, ask, bids);
    if forall n :: n in bids ==> PricedApart(ask, n, oraclePrice, slot) {
      RestingRound(ask, bids, oraclePrice, slot);
    }
    fills, ns := [], [];
    var price := PriceAt(oraclePrice, slot);
    ghost var ok := RestingEligible(price);
    ghost var b := dlob.State();
    RoundStarts(ask, bids, ok, b, slot);
    PickedRuns(b, T, ask, bids, ok, slot);
    for i := 0 to |bids|
      invariant InRound(ask, bids, ok, ns, i)
      invariant fills == RestingFills(MatchesOf(ask, ns))
      invariant dlob.State() == BookRound(b, ask, ns, slot)
    {
      var bid := bids[i];
      if price(bid.order) < price(ask.order) {
        CheaperTailIsIneligible(ask, bids[i..], price);
        RoundEnds(ask, bids, ok, ns, i);
        return;
      }
      var pair := DetermineMakerAndTaker(ask, bid);
      if bid.user == ask.user || pair.None? {
        RoundSkip(ask, bids, ok, ns, i);
      } else {
        TakeMatch(dlob, ask, bids, i, slot, ok, ns, b, T);
        FillsAppend(MatchesOf(ask, ns), [Match(ask, bid)]);
        FilledIsCovered(ask, bid);
        fills := fills + [NodeToFill(pair.value.1, [pair.value.0])];
        ns := ns + [bid];
        if ask.order.baseAmount == ask.order.filled + Amount(ask, bid) {
          return;
        }
      }
    }
    PickedNothing(ask, bids, ok);
    RoundEnds(ask, bids, ok, ns, |bids|);
  }

  /** A taker needs a price only to face a maker of another user. */
  ghost predicate TakerPriced(T: Table, taker: Node, id: MarketId, makerSide: Side, oraclePrice: int, slot: nat) {
    || Priced(taker.order, oraclePrice, slot)
    || forall s :: s in Quoted(T, id, makerSide) ==> s.user == taker.user
  }

  method MatchTaker(dlob: Dlob, taker: Node, makers: seq<Node>, id: MarketId, makerSide: Side, fallback: Option<nat>,
                    slot: nat, oraclePrice: int, ghost T: Table)
    returns (fills: seq<NodeToFill>, ghost ns: seq<Node>)
    requires Running(dlob.State(), T, slot) && RoundReady(T, taker, makers)
    requires Priced(taker.order, oraclePrice, slot) || forall n :: n in makers ==> n.user == taker.user
    modifies dlob
    ensures ns == Picked(taker, makers, TakingEligible(id.kind, makerSide, PriceAt(oraclePrice, slot), fallback))
    ensures fills == TakingFills(MatchesOf(taker, ns)) && TakingReport(fills, MatchesOf(taker, ns))
    ensures dlob.State() == BookRound(old(dlob.State()), taker, ns, slot)
    ensures Running(dlob.State(), AllMatched(T, taker, ns), slot)
    ensures (forall n :: n in makers ==> PricedApart(taker, n, oraclePrice, slot)) ==>
              IsRound(taker, makers, Take(id.kind, makerSide, fallback, oraclePrice, slot), ns)
  {
    hide Running, RoundReady, InRound, Picked, AllMatched, BookRound, TakingReport, PricedApart, IsRound;
    ReadyFillOk(T, taker, makers);
    if forall n :: n in makers ==> PricedApart(taker, n, oraclePrice, slot) {
      TakingRound(taker, makers, id.kind, makerSide, fallback, oraclePrice, slot);
    }
    fills, ns := [], [];
    var price := PriceAt(oraclePrice, slot);
    ghost var ok := TakingEligible(id.kind, makerSide, price, fallback);
    TakingFillsReport(MatchesOf(taker, Picked(taker, makers, ok)));
    ghost var b := dlob.State();
    RoundStarts(taker, makers, ok, b, slot);
    PickedRuns(b, T, taker, makers, ok, slot);
    for i := 0 to |makers|
      invariant InRound(taker, makers, ok, ns, i)
      invariant fills == TakingFills(MatchesOf(taker, ns))
      invariant dlob.State() == BookRound(b, taker, ns, slot)
    {
      var maker := makers[i];
      if taker.user == maker.user || !Crosses(id.kind, makerSide, price(taker.order), price(maker.order), fallback) {
        RoundSkip(taker, makers, ok, ns, i);
      } else {
        fills := fills + [NodeToFill(taker, [maker])];
        TakeMatch(dlob, taker, makers, i, slot, ok, ns, b, T);
        FillsAppend(MatchesOf(taker, ns), [Match(taker, maker)]);
        FilledIsCovered(taker, maker);
        ns := ns + [maker];
        if taker.order.baseAmount == taker.order.filled + Amount(taker, maker) {
          return;
        }
      }
    }
    PickedNothing(taker, makers, ok);
    RoundEnds(taker, makers, ok, ns, |makers|);
  }

  // ----- reads -----

  /** The outer orders a pass may start from: distinct current entries that are not quotes. */
  ghost predicate CanStart(outers: seq<Node>, T: Table, id: MarketId, side: Side) {
    && DistinctSigs(outers)
    && forall n :: n in outers ==> n.Key() in T && T[n.Key()].node == n && n.Key() !in Quoted(T, id, side)
  }

  /** Reads the quotes of one side while a pass runs; the promotion inside has nothing left to do. */
  method ReadQuotes(dlob: Dlob, slot: nat, id: MarketId, side: Side, oraclePrice: int, ghost T: Table)
    returns (r: seq<Node>)
    requires Running(dlob.State(), T, slot) && Sortable(T, id, side, oraclePrice, slot)
    modifies dlob
    ensures dlob.State() == old(dlob.State())
    ensures IsBookRead(dlob.State(), r, id, side, PriceAt(oraclePrice, slot))
    ensures IsQuoteList(r, T, id, side, PriceAt(oraclePrice, slot))
    ensures Lists(r, T, Classified(T, slot, id, RestingLimit, side) + Classified(T, slot, id, FloatingLimit, side))
    ensures QuotesPriced(T, id, side, oraclePrice, slot) ==> SortedByPrice(r, side, oraclePrice, slot)
  {
    ghost var pv, sv;
    r, pv, sv := dlob.GetRestingLimitOrders(slot, id, side, oraclePrice);
    ReadIsOrdered(dlob.State(), T, id, side, oraclePrice, slot, r);
    RunningClassifies(dlob.State(), T, slot, id, side);
    if QuotesPriced(T, id, side, oraclePrice, slot) {
      QuoteListSorted(r, T, id, side, oraclePrice, slot);
    }
  }

  /** While a book runs, quotes and takers are the orders so classified. */
  lemma RunningClassifies(b: Book, T: Table, slot: nat, id: MarketId, side: Side)
    requires Running(b, T, slot)
    ensures Quoted(T, id, side)
         == Classified(T, slot, id, RestingLimit, side) + Classified(T, slot, id, FloatingLimit, side)
    ensures Members(T, id, TakingLimit, side) + Members(T, id, NodeType.Market, side)
         == Classified(T, slot, id, TakingLimit, side) + Classified(T, slot, id, NodeType.Market, side)
  {
    hide Members, Classified, ListsRep, Unmixed, Book.WellFormed;
    MembersAreClassified(T, slot, id, RestingLimit, side);
    MembersAreClassified(T, slot, id, FloatingLimit, side);
    MembersAreClassified(T, slot, id, TakingLimit, side);
    MembersAreClassified(T, slot, id, NodeType.Market, side);
  }

  lemma QuoteListSorted(r: seq<Node>, T: Table, id: MarketId, side: Side, oraclePrice: int, slot: nat)
    requires IsQuoteList(r, T, id, side, PriceAt(oraclePrice, slot)) && QuotesPriced(T, id, side, oraclePrice, slot)
    ensures SortedByPrice(r, side, oraclePrice, slot)
  {
    hide Quoted, PriceAt, LimitPrice, SortedByPrice;
    forall n | n in r ensures Priced(n.order, oraclePrice, slot) {
      ListedPriced(r, T, Quoted(T, id, side), n);
    }
    OrderedByPrice(r, side, oraclePrice, slot);
  }

  lemma QuotesCanStart(r: seq<Node>, T: Table, id: MarketId, price: Order -> int)
    requires IsQuoteList(r, T, id, Ask, price)
    ensures CanStart(r, T, id, Bid)
  {
    forall n | n in r ensures n.Key() in T && T[n.Key()].node == n && n.Key() !in Quoted(T, id, Bid) {
      var i :| 0 <= i < |r| && r[i] == n;
      assert r[i].Key() in SigsOf(r);
    }
  }

  lemma InvForm(b: Book, a: Abstract)
    requires Inv(b, a)
    ensures b.WellFormed()
  {}

  /** The asks the first pass starts from. */
  method ReadAsks(dlob: Dlob, slot: nat, id: MarketId, oraclePrice: int, ghost a: Abstract)
    returns (asks: seq<Node>, ghost pv: seq<nat>, ghost sv: seq<nat>)
    requires Inv(dlob.State(), a) && FillsOk(a.table)
    requires a.now <= slot && Allowed(a, dlob.State(), Promote(slot, [], []))
    requires QuotesPriced(TablePromoted(a.table, slot), id, Ask, oraclePrice, slot)
    modifies dlob
    ensures IsPromotion(old(dlob.State()), dlob.State(), slot, pv, sv)
    ensures IsJointDrain(dlob.State().Read(id), RestingLimit, FloatingLimit, Ask, asks)
    ensures var T := TablePromoted(a.table, slot);
            && Running(dlob.State(), T, slot)
            && IsQuoteList(asks, T, id, Ask, PriceAt(oraclePrice, slot))
            && Lists(asks, T, Classified(T, slot, id, RestingLimit, Ask) + Classified(T, slot, id, FloatingLimit, Ask))
            && SortedByPrice(asks, Ask, oraclePrice, slot)
            && CanStart(asks, T, id, Bid)
  {
    hide Classified, SortedByPrice, Inv, IsQuoteList, CanStart, IsPromotion, Allowed, QuotesPriced, TablePromoted,
      Represents, IsJointDrain, Running;
    ghost var b := dlob.State();
    ghost var T := TablePromoted(a.table, slot);
    InvForm(b, a);
    asks, pv, sv := dlob.GetRestingLimitOrders(slot, id, Ask, oraclePrice);
    FirstReadPromotes(b, a, dlob.State(), slot, pv, sv);
    RunningFacts(dlob.State(), T, slot);
    ReadIsOrdered(dlob.State(), T, id, Ask, oraclePrice, slot, asks);
    QuotesCanStart(asks, T, id, PriceAt(oraclePrice, slot));
    QuoteListSorted(asks, T, id, Ask, oraclePrice, slot);
    RunningClassifies(dlob.State(), T, slot, id, Ask);
    QuotesListed(asks, T, id, Ask, PriceAt(oraclePrice, slot));
  }

  lemma QuotesListed(r: seq<Node>, T: Table, id: MarketId, side: Side, price: Order -> int)
    requires IsQuoteList(r, T, id, side, price)
    ensures Lists(r, T, Quoted(T, id, side))
  {}

  /** The taking orders the second pass starts from: all of one side, newest slot first. */
  method ReadTakers(dlob: Dlob, slot: nat, id: MarketId, side: Side, ghost a: Abstract)
    returns (takers: seq<Node>, ghost pv: seq<nat>, ghost sv: seq<nat>)
    requires Inv(dlob.State(), a) && FillsOk(a.table)
    requires a.now <= slot && Allowed(a, dlob.State(), Promote(slot, [], []))
    modifies dlob
    ensures IsPromotion(old(dlob.State()), dlob.State(), slot, pv, sv)
    ensures IsJointDrain(dlob.State().Read(id), TakingLimit, NodeType.Market, side, takers)
    ensures var T := TablePromoted(a.table, slot);
            && Running(dlob.State(), T, slot)
            && Lists(takers, T, Members(T, id, TakingLimit, side) + Members(T, id, NodeType.Market, side))
            && Lists(takers, T,
                     Classified(T, slot, id, TakingLimit, side) + Classified(T, slot, id, NodeType.Market, side))
            && Ordered(takers, SlotOf(), true)
            && (forall i, j :: 0 <= i < j < |takers| ==> takers[i].order.slot >= takers[j].order.slot)
            && forall makerSide :: CanStart(takers, T, id, makerSide)
  {
    hide Classified, Members, Inv, Lists, CanStart, IsPromotion, Allowed, IsJointDrain, Running;
    ghost var b := dlob.State();
    ghost var T := TablePromoted(a.table, slot);
    InvForm(b, a);
    takers, pv, sv := dlob.GetTakingOrders(slot, id, side);
    FirstReadPromotes(b, a, dlob.State(), slot, pv, sv);
    TakersCanStart(dlob.State(), T, slot, id, side, takers);
    RunningClassifies(dlob.State(), T, slot, id, side);
  }

  lemma TakersCanStart(b: Book, T: Table, slot: nat, id: MarketId, side: Side, takers: seq<Node>)
    requires Running(b, T, slot) && IsJointDrain(b.Read(id), TakingLimit, NodeType.Market, side, takers)
    ensures Lists(takers, T, Members(T, id, TakingLimit, side) + Members(T, id, NodeType.Market, side))
    ensures forall makerSide :: CanStart(takers, T, id, makerSide)
  {
    JointDrainLists(b, T, id, TakingLimit, NodeType.Market, side, takers);
    ListedCanStart(T, id, side, takers);
  }

  lemma ListedCanStart(T: Table, id: MarketId, side: Side, takers: seq<Node>)
    requires Lists(takers, T, Members(T, id, TakingLimit, side) + Members(T, id, NodeType.Market, side))
    ensures forall makerSide :: CanStart(takers, T, id, makerSide)
  {
    forall makerSide, n | n in takers
      ensures n.Key() in T && T[n.Key()].node == n && n.Key() !in Quoted(T, id, makerSide)
    {
      var i :| 0 <= i < |takers| && takers[i] == n;
      assert takers[i].Key() in SigsOf(takers);
    }
  }

  // ----- whole passes -----

  /** The rounds so far: run against a prefix of `outers`, each with a fresh read, with `b` the book they leave. */
  ghost predicate InPass(b0: Book, b: Book, rounds: seq<Round>, ok: Eligibility, id: MarketId, side: Side,
                         price: Order -> int, slot: nat, outers: seq<Node>) {
    && |rounds| <= |outers| && OutersOf(rounds) == outers[..|rounds|]
    && BookReads(b0, rounds, ok, id, side, price, slot)
    && b == BookPass(b0, rounds, ok, slot)
  }

  lemma PassStarts(b: Book, ok: Eligibility, id: MarketId, side: Side, price: Order -> int, slot: nat,
                   outers: seq<Node>)
    ensures InPass(b, b, [], ok, id, side, price, slot, outers) && Matches([], ok) == []
  {}

  lemma PrefixOutersOk(T: Table, rounds: seq<Round>, outers: seq<Node>, id: MarketId, side: Side)
    requires CanStart(outers, T, id, side) && |rounds| <= |outers| && OutersOf(rounds) == outers[..|rounds|]
    ensures OutersOk(T, rounds, id, side)
    ensures forall k :: 0 <= k < |rounds| ==> rounds[k].outer == outers[k]
  {
    forall k | 0 <= k < |rounds| ensures rounds[k].outer == outers[k] && rounds[k].outer in outers {
      assert OutersOf(rounds)[k] == outers[..|rounds|][k];
    }
  }

  /** Part-way through a pass the book runs for the table of the rounds so far. */
  lemma InPassRuns(b0: Book, b: Book, T: Table, rounds: seq<Round>, ok: Eligibility, id: MarketId, side: Side,
                   price: Order -> int, slot: nat, outers: seq<Node>)
    requires Running(b0, T, slot) && CanStart(outers, T, id, side)
    requires InPass(b0, b, rounds, ok, id, side, price, slot, outers)
    ensures IsPass(T, rounds, ok, id, side, price) && Running(b, PassTable(T, rounds, ok), slot)
    ensures SameShape(T, PassTable(T, rounds, ok))
    ensures |rounds| <= |outers| && forall k :: 0 <= k < |rounds| ==> rounds[k].outer == outers[k]
  {
    hide Running, BookReads, BookPass, IsPass, PassTable, SameShape;
    PrefixOutersOk(T, rounds, outers, id, side);
    PassRuns(b0, T, rounds, ok, id, side, price, slot);
    AfterShape(T, rounds, ok);
  }

  /** The next outer order meets the quotes it was meant to meet. */
  lemma NextIsReady(T: Table, rounds: seq<Round>, ok: Eligibility, id: MarketId, side: Side, price: Order -> int,
                    outers: seq<Node>, r: seq<Node>)
    requires FillsOk(T) && IsPass(T, rounds, ok, id, side, price) && CanStart(outers, T, id, side)
    requires |rounds| < |outers| && forall k :: 0 <= k < |rounds| ==> rounds[k].outer == outers[k]
    requires IsQuoteList(r, PassTable(T, rounds, ok), id, side, price)
    ensures RoundReady(PassTable(T, rounds, ok), outers[|rounds|], r)
  {
    hide IsPass, PassTable, IsQuoteList, FillsOk;
    assert outers[|rounds|] in outers;
    RoundIsReady(T, rounds, ok, id, side, price, outers[|rounds|], r);
  }

  /** One more round. */
  lemma PassAdvances(b0: Book, b: Book, rounds: seq<Round>, ok: Eligibility, id: MarketId, side: Side,
                     price: Order -> int, slot: nat, outers: seq<Node>, r: seq<Node>)
    requires InPass(b0, b, rounds, ok, id, side, price, slot, outers) && |rounds| < |outers|
    requires IsBookRead(b, r, id, side, price)
    ensures var a := outers[|rounds|];
            var rounds', ns := rounds + [Round(a, r)], Picked(a, r, ok);
            && InPass(b0, BookRound(b, a, ns, slot), rounds', ok, id, side, price, slot, outers)
            && Matches(rounds', ok) == Matches(rounds, ok) + MatchesOf(a, ns)
  {
    hide IsBookRead, BookRound, Picked;
    var k, a := |rounds|, outers[|rounds|];
    var rounds' := rounds + [Round(a, r)];
    assert rounds'[..k] == rounds;
    assert OutersOf(rounds') == OutersOf(rounds) + [a];
    forall j | 0 <= j < |rounds'|
      ensures IsBookRead(BookPass(b0, rounds'[..j], ok, slot), rounds'[j].read, id, side, price)
    {
      assert j < k ==> rounds'[..j] == rounds[..j];
    }
  }

  lemma PassEnds(b0: Book, b: Book, rounds: seq<Round>, ok: Eligibility, id: MarketId, side: Side,
                 price: Order -> int, slot: nat, outers: seq<Node>)
    requires InPass(b0, b, rounds, ok, id, side, price, slot, outers) && |rounds| == |outers|
    requires BookOuters(b0, outers, id, side) && b0.maxSlot == slot
    ensures MoveNext(b0, Pass(rounds, ok, id, side, price), b)
  {
    assert outers[..|rounds|] == outers;
  }

  lemma NoFills()
    ensures RestingFills([]) == [] && TakingFills([]) == []
  {}

  /**
    * Resting asks against resting bids. The call is a promotion followed by one pass of a
    * session, with `promoted` the book in between.
    */
  method FindCrossingRestingLimitOrders(dlob: Dlob, id: MarketId, slot: nat, oraclePrice: int, ghost a: Abstract)
    returns (fills: seq<NodeToFill>, ghost asks: seq<Node>, ghost rounds: seq<Round>, ghost promoted: Book,
             ghost pv: seq<nat>, ghost sv: seq<nat>)
    requires Inv(dlob.State(), a) && FillsOk(a.table)
    requires a.now <= slot && Allowed(a, dlob.State(), Promote(slot, [], []))
    requires QuotesPriced(TablePromoted(a.table, slot), id, Ask, oraclePrice, slot)
    requires var T := TablePromoted(a.table, slot);
             Quoted(T, id, Ask) == {} || QuotesPriced(T, id, Bid, oraclePrice, slot)
    modifies dlob
    ensures var price := PriceAt(oraclePrice, slot);
            && MoveNext(old(dlob.State()), Apply(Promote(slot, pv, sv)), promoted)
            && MoveNext(promoted, Pass(rounds, RestingEligible(price), id, Bid, price), dlob.State())
    ensures var T, price := TablePromoted(a.table, slot), PriceAt(oraclePrice, slot);
            var ok := RestingEligible(price);
            && IsQuoteList(asks, T, id, Ask, price)
            && Lists(asks, T, Classified(T, slot, id, RestingLimit, Ask) + Classified(T, slot, id, FloatingLimit, Ask))
            && SortedByPrice(asks, Ask, oraclePrice, slot)
            && |rounds| == |asks| && (forall k :: 0 <= k < |asks| ==> rounds[k].outer == asks[k])
            && IsPass(T, rounds, ok, id, Bid, price)
            && fills == RestingFills(Matches(rounds, ok))
            && Running(dlob.State(), PassTable(T, rounds, ok), slot)
    ensures var ms := Matches(rounds, RestingEligible(PriceAt(oraclePrice, slot)));
            AreMatches(ms, rounds, Trade(oraclePrice, slot)) && RestingReport(fills, ms)
  {
    hide *;
    ghost var T, price := TablePromoted(a.table, slot), PriceAt(oraclePrice, slot);
    ghost var ok := RestingEligible(price);
    ghost var b := dlob.State();
    var restingAsks;
    restingAsks, pv, sv := ReadAsks(dlob, slot, id, oraclePrice, a);
    promoted := dlob.State();
    PromotedNext(b, promoted, slot, pv, sv);
    RunningFacts(promoted, T, slot);
    AsksAreOuters(promoted, id, restingAsks);
    AsksNeedBids(restingAsks, T, id, oraclePrice, slot);
    fills, asks, rounds := [], restingAsks, [];
    PassStarts(promoted, ok, id, Bid, price, slot, asks);
    NoFills();
    for k := 0 to |restingAsks|
      invariant |rounds| == k && InPass(promoted, dlob.State(), rounds, ok, id, Bid, price, slot, asks)
      invariant fills == RestingFills(Matches(rounds, ok))
    {
      ghost var U := PassTable(T, rounds, ok);
      InPassRuns(promoted, dlob.State(), T, rounds, ok, id, Bid, price, slot, asks);
      ShapeKeepsSortable(T, U, id, Bid, oraclePrice, slot);
      var bids := ReadQuotes(dlob, slot, id, Bid, oraclePrice, U);
      NextIsReady(T, rounds, ok, id, Bid, price, asks, bids);
      PassAdvances(promoted, dlob.State(), rounds, ok, id, Bid, price, slot, asks, bids);
      QuotesOrdered(bids, U, id, price);
      var more;
      ghost var ns;
      more, ns := MatchRestingAsk(dlob, restingAsks[k], bids, slot, oraclePrice, U);
      FillsAppend(Matches(rounds, ok), MatchesOf(restingAsks[k], Picked(restingAsks[k], bids, ok)));
      fills := fills + more;
      rounds := rounds + [Round(restingAsks[k], bids)];
    }
    InPassRuns(promoted, dlob.State(), T, rounds, ok, id, Bid, price, slot, asks);
    PassEnds(promoted, dlob.State(), rounds, ok, id, Bid, price, slot, asks);
    RestingPriced(T, rounds, asks, id, oraclePrice, slot);
    RestingPass(T, rounds, id, oraclePrice, slot);
  }

  lemma RestingPriced(T: Table, rounds: seq<Round>, asks: seq<Node>, id: MarketId, oraclePrice: int, slot: nat)
    requires var price := PriceAt(oraclePrice, slot); IsPass(T, rounds, RestingEligible(price), id, Bid, price)
    requires IsQuoteList(asks, T, id, Ask, PriceAt(oraclePrice, slot)) && QuotesPriced(T, id, Ask, oraclePrice, slot)
    requires Quoted(T, id, Ask) == {} || QuotesPriced(T, id, Bid, oraclePrice, slot)
    requires |rounds| == |asks| && forall k :: 0 <= k < |asks| ==> rounds[k].outer == asks[k]
    ensures forall k, n :: 0 <= k < |rounds| && n in rounds[k].read ==>
              PricedApart(rounds[k].outer, n, oraclePrice, slot)
  {
    hide RestingEligible, PassTable, Quoted, PriceAt;
    forall k, n | 0 <= k < |rounds| && n in rounds[k].read ensures PricedApart(rounds[k].outer, n, oraclePrice, slot) {
      var U := PassTable(T, rounds[..k], RestingEligible(PriceAt(oraclePrice, slot)));
      assert asks[k].Key() in SigsOf(asks);
      AfterShape(T, rounds[..k], RestingEligible(PriceAt(oraclePrice, slot)));
      ShapeKeepsPriced(T, U, id, Bid, oraclePrice, slot);
      ListedPriced(rounds[k].read, U, Quoted(U, id, Bid), n);
    }
  }

  lemma ListedPriced(r: seq<Node>, U: Table, keys: set<Sig>, n: Node)
    requires Lists(r, U, keys) && n in r
    ensures n.Key() in keys && n.Key() in U && U[n.Key()].node == n
  {
    var i :| 0 <= i < |r| && r[i] == n;
    assert r[i].Key() in SigsOf(r);
  }

  lemma TakingPriced(T: Table, rounds: seq<Round>, takers: seq<Node>, ok: Eligibility, id: MarketId, makerSide: Side,
                     oraclePrice: int, slot: nat)
    requires IsPass(T, rounds, ok, id, makerSide, PriceAt(oraclePrice, slot))
    requires |rounds| == |takers| && forall k :: 0 <= k < |takers| ==> rounds[k].outer == takers[k]
    requires MakersPriced(T, SigsOf(takers), id, makerSide, oraclePrice, slot)
    requires forall n :: n in takers ==> TakerPriced(T, n, id, makerSide, oraclePrice, slot)
    ensures forall k, n :: 0 <= k < |rounds| && n in rounds[k].read ==>
              PricedApart(rounds[k].outer, n, oraclePrice, slot)
  {
    hide PassTable, Quoted, PriceAt, SameShape;
    forall k, n | 0 <= k < |rounds| && n in rounds[k].read ensures PricedApart(rounds[k].outer, n, oraclePrice, slot) {
      var U := PassTable(T, rounds[..k], ok);
      AfterShape(T, rounds[..k], ok);
      ShapeKeepsQuoted(T, U, id, makerSide);
      ListedPriced(rounds[k].read, U, Quoted(U, id, makerSide), n);
      assert takers[k] in takers && takers[k].Key() in SigsOf(takers);
      if QuotesPriced(T, id, makerSide, oraclePrice, slot) {
        ShapeKeepsPriced(T, U, id, makerSide, oraclePrice, slot);
      }
    }
  }

  lemma PromotedNext(b: Book, b': Book, slot: nat, pv: seq<nat>, sv: seq<nat>)
    requires IsPromotion(b, b', slot, pv, sv)
    ensures MoveNext(b, Apply(Promote(slot, pv, sv)), b')
  {}

  lemma AsksNeedBids(asks: seq<Node>, T: Table, id: MarketId, oraclePrice: int, slot: nat)
    requires IsQuoteList(asks, T, id, Ask, PriceAt(oraclePrice, slot))
    requires Quoted(T, id, Ask) == {} || QuotesPriced(T, id, Bid, oraclePrice, slot)
    ensures asks == [] || Sortable(T, id, Bid, oraclePrice, slot)
  {
    if asks != [] {
      assert asks[0].Key() in SigsOf(asks);
    }
  }

  lemma AsksAreOuters(b: Book, id: MarketId, asks: seq<Node>)
    requires IsJointDrain(b.Read(id), RestingLimit, FloatingLimit, Ask, asks)
    ensures BookOuters(b, asks, id, Bid)
  {}

  lemma QuotesOrdered(r: seq<Node>, T: Table, id: MarketId, price: Order -> int)
    requires IsQuoteList(r, T, id, Bid, price)
    ensures Ordered(r, price, true)
  {}

  lemma TakerStillPriced(T: Table, U: Table, taker: Node, makers: seq<Node>, id: MarketId, makerSide: Side,
                         oraclePrice: int, slot: nat)
    requires TakerPriced(T, taker, id, makerSide, oraclePrice, slot) && SameShape(T, U)
    requires IsQuoteList(makers, U, id, makerSide, PriceAt(oraclePrice, slot))
    ensures Priced(taker.order, oraclePrice, slot) || forall n :: n in makers ==> n.user == taker.user
  {
    ShapeKeepsQuoted(T, U, id, makerSide);
    forall n | n in makers ensures n.Key() in Quoted(T, id, makerSide) && n.Key().user == n.user {
      var i :| 0 <= i < |makers| && makers[i] == n;
      assert makers[i].Key() in SigsOf(makers);
    }
  }

  /**
    * Where the loop asks the makers for prices: not without takers, and a single maker not if it faces
    * nobody but its own user.
    */
  ghost predicate MakersPriced(T: Table, takers: set<Sig>, id: MarketId, makerSide: Side, oraclePrice: int, slot: nat) {
    || takers == {}
    || QuotesPriced(T, id, makerSide, oraclePrice, slot)
    || (|Quoted(T, id, makerSide)| <= 1 &&
        forall s, m :: s in takers && m in Quoted(T, id, makerSide) ==> s.user == m.user)
  }

  lemma MakersSortable(T: Table, takers: seq<Node>, id: MarketId, makerSide: Side, oraclePrice: int, slot: nat)
    requires takers != [] && MakersPriced(T, SigsOf(takers), id, makerSide, oraclePrice, slot)
    ensures Sortable(T, id, makerSide, oraclePrice, slot)
  {
    assert takers[0].Key() in SigsOf(takers);
  }

  /** Taking orders against the quotes of the other side: one pass of a session. */
  method FindTakingNodesCrossingMakerNodes(dlob: Dlob, id: MarketId, slot: nat, oraclePrice: int, takers: seq<Node>,
                                           makerSide: Side, fallback: Option<nat>, ghost T: Table)
    returns (fills: seq<NodeToFill>, ghost rounds: seq<Round>)
    requires Running(dlob.State(), T, slot) && CanStart(takers, T, id, makerSide)
    requires MakersPriced(T, SigsOf(takers), id, makerSide, oraclePrice, slot)
    requires forall n :: n in takers ==> TakerPriced(T, n, id, makerSide, oraclePrice, slot)
    modifies dlob
    ensures var price := PriceAt(oraclePrice, slot);
            BookOuters(old(dlob.State()), takers, id, makerSide) ==>
              MoveNext(old(dlob.State()),
                       Pass(rounds, TakingEligible(id.kind, makerSide, price, fallback), id, makerSide, price),
                       dlob.State())
    ensures var price := PriceAt(oraclePrice, slot);
            var ok := TakingEligible(id.kind, makerSide, price, fallback);
            && |rounds| == |takers| && (forall k :: 0 <= k < |takers| ==> rounds[k].outer == takers[k])
            && IsPass(T, rounds, ok, id, makerSide, price)
            && fills == TakingFills(Matches(rounds, ok))
            && Running(dlob.State(), PassTable(T, rounds, ok), slot)
    ensures var ms := Matches(rounds, TakingEligible(id.kind, makerSide, PriceAt(oraclePrice, slot), fallback));
            && AreMatches(ms, rounds, Take(id.kind, makerSide, fallback, oraclePrice, slot))
            && TakingReport(fills, ms)
  {
    hide *;
    ghost var price := PriceAt(oraclePrice, slot);
    ghost var ok := TakingEligible(id.kind, makerSide, price, fallback);
    ghost var b := dlob.State();
    fills, rounds := [], [];
    RunningFacts(b, T, slot);
    PassStarts(b, ok, id, makerSide, price, slot, takers);
    NoFills();
    for k := 0 to |takers|
      invariant |rounds| == k && InPass(b, dlob.State(), rounds, ok, id, makerSide, price, slot, takers)
      invariant fills == TakingFills(Matches(rounds, ok))
    {
      ghost var U := PassTable(T, rounds, ok);
      InPassRuns(b, dlob.State(), T, rounds, ok, id, makerSide, price, slot, takers);
      MakersSortable(T, takers, id, makerSide, oraclePrice, slot);
      ShapeKeepsSortable(T, U, id, makerSide, oraclePrice, slot);
      var makers := ReadQuotes(dlob, slot, id, makerSide, oraclePrice, U);
      NextIsReady(T, rounds, ok, id, makerSide, price, takers, makers);
      PassAdvances(b, dlob.State(), rounds, ok, id, makerSide, price, slot, takers, makers);
      assert takers[k] in takers;
      TakerStillPriced(T, U, takers[k], makers, id, makerSide, oraclePrice, slot);
      var more;
      ghost var ns;
      more, ns := MatchTaker(dlob, takers[k], makers, id, makerSide, fallback, slot, oraclePrice, U);
      FillsAppend(Matches(rounds, ok), MatchesOf(takers[k], Picked(takers[k], makers, ok)));
      fills := fills + more;
      rounds := rounds + [Round(takers[k], makers)];
    }
    InPassRuns(b, dlob.State(), T, rounds, ok, id, makerSide, price, slot, takers);
    TakingPriced(T, rounds, takers, ok, id, makerSide, oraclePrice, slot);
    TakingPass(T, rounds, id, makerSide, fallback, oraclePrice, slot);
    TakingFillsReport(Matches(rounds, ok));
    if BookOuters(b, takers, id, makerSide) {
      PassEnds(b, dlob.State(), rounds, ok, id, makerSide, price, slot, takers);
    }
  }

  // ----- two passes in a row -----

  lemma RunningAllows(b: Book, T: Table, slot: nat)
    requires Running(b, T, slot)
    ensures Inv(b, Abstract(T, slot, slot)) && FillsOk(T) && TablePromoted(T, slot) == T
    ensures Allowed(Abstract(T, slot, slot), b, Promote(slot, [], []))
  {
    PromotedAlready(b, T, slot);
  }

  lemma PromotionIsIdle(b: Book, b': Book, slot: nat, pv: seq<nat>, sv: seq<nat>)
    requires IsPromotion(b, b', slot, pv, sv) && b.maxSlot == slot
    ensures b' == b
  {}

  /** The orders of one side that take: taking limit orders and market orders. */
  function Takers(T: Table, id: MarketId, side: Side): set<Sig> {
    Members(T, id, TakingLimit, side) + Members(T, id, NodeType.Market, side)
  }

  lemma ShapeKeepsMakersPriced(T: Table, U: Table, id: MarketId, side: Side, makerSide: Side, oraclePrice: int,
                               slot: nat)
    requires SameShape(T, U) && MakersPriced(T, Takers(T, id, side), id, makerSide, oraclePrice, slot)
    ensures Takers(U, id, side) == Takers(T, id, side)
    ensures MakersPriced(U, Takers(U, id, side), id, makerSide, oraclePrice, slot)
  {
    hide SameShape, Quoted, Takers, QuotesPriced;
    ShapeKeepsQuoted(T, U, id, makerSide);
    ShapeKeepsTakers(T, U, id, side);
    if QuotesPriced(T, id, makerSide, oraclePrice, slot) {
      ShapeKeepsPriced(T, U, id, makerSide, oraclePrice, slot);
    }
  }

  lemma ShapeKeepsTakers(T: Table, U: Table, id: MarketId, side: Side)
    requires SameShape(T, U)
    ensures Takers(U, id, side) == Takers(T, id, side)
  {
    assert forall s :: s in U <==> s in T.Keys;
  }

  lemma ListedTakers(U: Table, takers: seq<Node>, id: MarketId, side: Side)
    requires Lists(takers, U, Members(U, id, TakingLimit, side) + Members(U, id, NodeType.Market, side))
    ensures SigsOf(takers) == Takers(U, id, side)
  {}

  /** The takers of one side can all be priced where the source asks for a price. */
  ghost predicate TakersPriced(T: Table, id: MarketId, side: Side, makerSide: Side, oraclePrice: int, slot: nat) {
    forall s :: s in Takers(T, id, side) ==>
      s in T && TakerPriced(T, T[s].node, id, makerSide, oraclePrice, slot)
  }

  lemma TakersStayPriced(T: Table, U: Table, takers: seq<Node>, id: MarketId, side: Side, makerSide: Side,
                         oraclePrice: int, slot: nat)
    requires SameShape(T, U) && TakersPriced(T, id, side, makerSide, oraclePrice, slot)
    requires Lists(takers, U, Members(U, id, TakingLimit, side) + Members(U, id, NodeType.Market, side))
    ensures forall n :: n in takers ==> TakerPriced(U, n, id, makerSide, oraclePrice, slot)
  {
    ShapeKeepsQuoted(T, U, id, makerSide);
    forall n | n in takers ensures TakerPriced(U, n, id, makerSide, oraclePrice, slot) {
      var i :| 0 <= i < |takers| && takers[i] == n;
      var s := takers[i].Key();
      assert s in SigsOf(takers);
      assert s in Takers(T, id, side);
      FillKeepsPrice(T[s].node.order, n.order.filled, oraclePrice, slot);
    }
  }

  lemma TakersAreOuters(b: Book, id: MarketId, side: Side, makerSide: Side, takers: seq<Node>)
    requires IsJointDrain(b.Read(id), TakingLimit, NodeType.Market, side, takers)
    ensures BookOuters(b, takers, id, makerSide)
  {}

  /**
    * The resting pass and then the taking asks, both against the bids of one market: together
    * they match no more against a bid than it had left before the first of them.
    */
  method MatchAgainstBids(dlob: Dlob, id: MarketId, slot: nat, oraclePrice: int, fallback: Option<nat>,
                          ghost a: Abstract)
    returns (fills: seq<NodeToFill>, ghost r1: seq<Round>, ghost r2: seq<Round>,
             ghost promoted: Book, ghost between: Book, ghost pv: seq<nat>, ghost sv: seq<nat>)
    requires Inv(dlob.State(), a) && FillsOk(a.table)
    requires a.now <= slot && Allowed(a, dlob.State(), Promote(slot, [], []))
    requires QuotesPriced(TablePromoted(a.table, slot), id, Ask, oraclePrice, slot)
    requires var T := TablePromoted(a.table, slot);
             && (Quoted(T, id, Ask) == {} || QuotesPriced(T, id, Bid, oraclePrice, slot))
             && MakersPriced(T, Takers(T, id, Ask), id, Bid, oraclePrice, slot)
    requires TakersPriced(TablePromoted(a.table, slot), id, Ask, Bid, oraclePrice, slot)
    modifies dlob
    ensures var price := PriceAt(oraclePrice, slot);
            && MoveNext(old(dlob.State()), Apply(Promote(slot, pv, sv)), promoted)
            && MoveNext(promoted, Pass(r1, RestingEligible(price), id, Bid, price), between)
            && MoveNext(between, Pass(r2, TakingEligible(id.kind, Bid, price, fallback), id, Bid, price), dlob.State())
    ensures var T, price := TablePromoted(a.table, slot), PriceAt(oraclePrice, slot);
            var m1 := Matches(r1, RestingEligible(price));
            var m2 := Matches(r2, TakingEligible(id.kind, Bid, price, fallback));
            && fills == RestingFills(m1) + TakingFills(m2)
            && forall s :: s in Quoted(T, id, Bid) ==>
                 s in T && 0 <= MatchedAgainst(m1 + m2, s) <= T[s].node.order.Remaining()
  {
    hide *;
    ghost var T, price := TablePromoted(a.table, slot), PriceAt(oraclePrice, slot);
    ghost var ok1, ok2 := RestingEligible(price), TakingEligible(id.kind, Bid, price, fallback);
    ghost var asks, pv2, sv2;
    var crossing;
    crossing, asks, r1, promoted, pv, sv := FindCrossingRestingLimitOrders(dlob, id, slot, oraclePrice, a);
    between := dlob.State();
    ghost var U := PassTable(T, r1, ok1);
    RunningAllows(between, U, slot);
    RunningFacts(between, U, slot);
    var takers;
    takers, pv2, sv2 := ReadTakers(dlob, slot, id, Ask, Abstract(U, slot, slot));
    PromotionIsIdle(between, dlob.State(), slot, pv2, sv2);
    TakersAreOuters(between, id, Ask, Bid, takers);
    AfterShape(T, r1, ok1);
    ShapeKeepsMakersPriced(T, U, id, Ask, Bid, oraclePrice, slot);
    ListedTakers(U, takers, id, Ask);
    TakersStayPriced(T, U, takers, id, Ask, Bid, oraclePrice, slot);
    var taking;
    taking, r2 := FindTakingNodesCrossingMakerNodes(dlob, id, slot, oraclePrice, takers, Bid, fallback, U);
    fills := crossing + taking;
    PromotionKeepsFills(a.table, slot);
    TwoPassesConserve(T, r1, ok1, price, r2, ok2, price, id, Bid);
  }
}
