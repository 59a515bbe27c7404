/**
  * Matching passes: each outer order, as it was read at the start of the pass, runs
  * against a freshly read quote list, and every match writes both fills back.
  */
module Matching {
  import opened Arithmetic
  import opened Collections
  import opened Orders
  import opened Nodes
  import opened OrderLists
  import opened Books
  import opened Tables
  import opened Builds
  import opened Queries

  datatype NodeToFill = NodeToFill(node: Node, makers: seq<Node>)

  type Eligibility = (Node, Node) -> bool

  // ----- who matches whom -----

  /** First component documented as the maker, second as the taker. */
  function DetermineMakerAndTaker(ask: Node, bid: Node): Option<(Node, Node)> {
    var askSlot := ask.order.slot + ask.order.auctionDuration;
    var bidSlot := bid.order.slot + bid.order.auctionDuration;
    if bid.order.postOnly && ask.order.postOnly then None
    else if bid.order.postOnly then Some((ask, bid))
    else if ask.order.postOnly then Some((bid, ask))
    else if askSlot <= bidSlot then Some((bid, ask))
    else Some((ask, bid))
  }

  /** Whatever the documentation suggests, a post-only order always comes second. */
  lemma PostOnlyComesSecond(ask: Node, bid: Node)
    ensures DetermineMakerAndTaker(ask, bid).None? <==> ask.order.postOnly && bid.order.postOnly
    ensures var r := DetermineMakerAndTaker(ask, bid);
            r.Some? ==> !r.value.0.order.postOnly && {r.value.0, r.value.1} == {ask, bid}
  {}

  /** An ask and a bid that the resting pass lets trade. */
  function RestingEligible(price: Order -> int): Eligibility {
    (ask: Node, bid: Node) =>
      && price(bid.order) >= price(ask.order)
      && bid.user != ask.user
      && DetermineMakerAndTaker(ask, bid).Some?
  }

  /** Whether a taker's price crosses a maker's; spot makers behind the fallback price are skipped. */
  predicate Crosses(kind: MarketType, makerSide: Side, takerPrice: int, makerPrice: int, fallback: Option<nat>) {
    if kind == Spot && fallback.Some? && !Before(makerPrice, fallback.value, makerSide == Bid) then false
    else Before(makerPrice, takerPrice, makerSide == Bid)
  }

  function TakingEligible(kind: MarketType, makerSide: Side, price: Order -> int, fallback: Option<nat>): Eligibility {
    (taker: Node, maker: Node) =>
      && taker.user != maker.user
      && Crosses(kind, makerSide, price(taker.order), price(maker.order), fallback)
  }

  // ----- one outer order -----

  predicate Covers(n: Node, a: Node) {
    n.order.Remaining() >= a.order.Remaining()
  }

  /** The quotes an outer order is matched with: eligible ones, up to the first that covers it. */
  function Picked(a: Node, r: seq<Node>, ok: Eligibility): seq<Node> {
    if r == [] then []
    else if !ok(a, r[0]) then Picked(a, r[1..], ok)
    else if Covers(r[0], a) then [r[0]]
    else [r[0]] + Picked(a, r[1..], ok)
  }

  function Eligible(a: Node, r: seq<Node>, ok: Eligibility): seq<Node> {
    if r == [] then []
    else if ok(a, r[0]) then [r[0]] + Eligible(a, r[1..], ok)
    else Eligible(a, r[1..], ok)
  }

  /** How far the list is read. */
  function Reach(a: Node, r: seq<Node>, ok: Eligibility): (k: nat)
    ensures k <= |r|
    ensures forall i :: 0 <= i < k - 1 && ok(a, r[i]) ==> !Covers(r[i], a)
    ensures k < |r| ==> k > 0 && ok(a, r[k - 1]) && Covers(r[k - 1], a)
  {
    if r == [] then 0
    else if ok(a, r[0]) && Covers(r[0], a) then 1
    else
      var k := Reach(a, r[1..], ok);
      assert forall i :: 0 < i < k ==> r[i] == r[1..][i - 1];
      k + 1
  }

  /** The matches are exactly the eligible quotes up to that point, in list order. */
  lemma {:induction false} PickedIsEligiblePrefix(a: Node, r: seq<Node>, ok: Eligibility)
    ensures Picked(a, r, ok) == Eligible(a, r[..Reach(a, r, ok)], ok)
  {
    if r == [] {
    } else {
      var k := Reach(a, r, ok);
      assert r[..k][1..] == r[1..][..k - 1];
      if ok(a, r[0]) && Covers(r[0], a) {
        assert r[..1] == [r[0]];
        assert Eligible(a, r[..1][1..], ok) == [];
      } else {
        PickedIsEligiblePrefix(a, r[1..], ok);
      }
    }
  }

  /** A quote is matched if and only if it is eligible and no eligible quote before it covers the order. */
  lemma {:induction false} PickedExactly(a: Node, r: seq<Node>, ok: Eligibility, i: nat)
    requires i < |r| && DistinctSigs(r)
    ensures r[i] in Picked(a, r, ok) <==>
            ok(a, r[i]) && forall j :: 0 <= j < i && ok(a, r[j]) ==> !Covers(r[j], a)
  {
    if i > 0 {
      PickedExactly(a, r[1..], ok, i - 1);
      assert r[1..][i - 1] == r[i] && r[0].Key() != r[i].Key();
      assert forall j :: 0 <= j < i - 1 ==> r[1..][j] == r[j + 1];
    } else {
      PickedFromList(a, r[1..], ok);
      assert forall j :: 0 <= j < |r| - 1 ==> r[1..][j] == r[j + 1] && r[0].Key() != r[j + 1].Key();
      assert r[0] !in r[1..];
    }
  }

  lemma {:induction false} PickedFromList(a: Node, r: seq<Node>, ok: Eligibility)
    ensures forall n :: n in Picked(a, r, ok) ==> n in r && ok(a, n)
    ensures |Picked(a, r, ok)| <= |r|
  {
    if r == [] {
    } else {
      PickedFromList(a, r[1..], ok);
    }
  }

  lemma {:induction false} PickedDistinct(a: Node, r: seq<Node>, ok: Eligibility)
    requires DistinctSigs(r)
    ensures DistinctSigs(Picked(a, r, ok))
  {
    if r == [] {
    } else {
      PickedDistinct(a, r[1..], ok);
      PickedFromList(a, r[1..], ok);
      forall n | n in r[1..] ensures n.Key() != r[0].Key() {
        var j :| 0 <= j < |r[1..]| && r[1..][j] == n;
        assert r[j + 1] == n;
      }
    }
  }

  /** Stopping at the first bid cheaper than the ask loses nothing. */
  lemma {:induction false} CheaperTailIsIneligible(ask: Node, r: seq<Node>, price: Order -> int)
    requires Ordered(r, price, true) && (r == [] || price(r[0].order) < price(ask.order))
    ensures Picked(ask, r, RestingEligible(price)) == []
  {
    if r == [] {
    } else {
      if |r| > 1 {
        assert Before(price(r[0].order), price(r[1].order), true);
      }
      CheaperTailIsIneligible(ask, r[1..], price);
    }
  }

  // ----- fills -----

  predicate FillOk(n: Node) {
    n.order.filled <= n.order.baseAmount
  }

  ghost predicate FillsOk(T: Table) {
    forall s :: s in T ==> FillOk(T[s].node)
  }

  function Amount(a: Node, n: Node): int {
    Min(n.order.Remaining(), a.order.Remaining())
  }

  /** A table whose order `s` has `filled` filled; nothing changes if there is no such order. */
  function SetFilled(T: Table, s: Sig, filled: int): Table {
    if s in T && filled >= 0 then TableFilled(T, s, filled) else T
  }

  /** One match: the quote first, then the outer order from its own snapshot. */
  function Matched(T: Table, a: Node, n: Node): Table {
    SetFilled(SetFilled(T, n.Key(), n.order.filled + Amount(a, n)), a.Key(), a.order.filled + Amount(a, n))
  }

  function AllMatched(T: Table, a: Node, ns: seq<Node>): Table {
    if ns == [] then T else Matched(AllMatched(T, a, ns[..|ns| - 1]), a, ns[|ns| - 1])
  }

  // ----- a pass -----

  /** An outer order and the quote list it was run against. */
  datatype Round = Round(outer: Node, read: seq<Node>)

  datatype Match = Match(outer: Node, inner: Node)

  function PassTable(T: Table, rounds: seq<Round>, ok: Eligibility): Table {
    if rounds == [] then T
    else
      var k := |rounds| - 1;
      AllMatched(PassTable(T, rounds[..k], ok), rounds[k].outer, Picked(rounds[k].outer, rounds[k].read, ok))
  }

  function MatchesOf(a: Node, ns: seq<Node>): seq<Match> {
    seq(|ns|, i requires 0 <= i < |ns| => Match(a, ns[i]))
  }

  function Matches(rounds: seq<Round>, ok: Eligibility): seq<Match> {
    if rounds == [] then []
    else
      var k := |rounds| - 1;
      Matches(rounds[..k], ok) + MatchesOf(rounds[k].outer, Picked(rounds[k].outer, rounds[k].read, ok))
  }

  /** Every round reads the complete quote list of the table as it stands. */
  ghost predicate ReadsQuotes(T: Table, rounds: seq<Round>, ok: Eligibility, id: MarketId, side: Side,
                              price: Order -> int) {
    forall k :: 0 <= k < |rounds| ==> IsQuoteList(rounds[k].read, PassTable(T, rounds[..k], ok), id, side, price)
  }

  /** The outer orders are distinct entries of the table, read at the start, and none of them is a quote. */
  ghost predicate OutersOk(T: Table, rounds: seq<Round>, id: MarketId, side: Side) {
    && (forall k :: 0 <= k < |rounds| ==>
          && rounds[k].outer.Key() in T
          && T[rounds[k].outer.Key()].node == rounds[k].outer
          && rounds[k].outer.Key() !in Quoted(T, id, side))
    && (forall j, k :: 0 <= j < k < |rounds| ==> rounds[j].outer.Key() != rounds[k].outer.Key())
  }

  ghost predicate IsPass(T: Table, rounds: seq<Round>, ok: Eligibility, id: MarketId, side: Side, price: Order -> int) {
    ReadsQuotes(T, rounds, ok, id, side, price) && OutersOk(T, rounds, id, side)
  }

  lemma PassPrefix(T: Table, rounds: seq<Round>, ok: Eligibility, id: MarketId, side: Side, price: Order -> int)
    requires IsPass(T, rounds, ok, id, side, price) && rounds != []
    ensures IsPass(T, rounds[..|rounds| - 1], ok, id, side, price)
  {
    ReadsPrefix(T, rounds, ok, id, side, price);
    OutersPrefix(T, rounds, id, side);
  }

  lemma ReadsPrefix(T: Table, rounds: seq<Round>, ok: Eligibility, id: MarketId, side: Side, price: Order -> int)
    requires ReadsQuotes(T, rounds, ok, id, side, price) && rounds != []
    ensures ReadsQuotes(T, rounds[..|rounds| - 1], ok, id, side, price)
  {
    var n := |rounds| - 1;
    forall k | 0 <= k < n
      ensures IsQuoteList(rounds[..n][k].read, PassTable(T, rounds[..n][..k], ok), id, side, price)
    {
      assert rounds[..n][..k] == rounds[..k];
    }
  }

  lemma OutersPrefix(T: Table, rounds: seq<Round>, id: MarketId, side: Side)
    requires OutersOk(T, rounds, id, side) && rounds != []
    ensures OutersOk(T, rounds[..|rounds| - 1], id, side)
  {
    var n := |rounds| - 1;
    assert forall k :: 0 <= k < n ==> rounds[..n][k] == rounds[k];
  }

  // ----- what a pass leaves alone -----

  /** `T'` differs from `T` at most in filled amounts. */
  ghost predicate SameShape(T: Table, T': Table) {
    T'.Keys == T.Keys && forall s :: s in T ==> T'[s] == T[s].(node := T[s].node.WithFilled(T'[s].node.order.filled))
  }

  lemma SetFilledShape(T: Table, T': Table, s: Sig, filled: int)
    requires SameShape(T, T')
    ensures SameShape(T, SetFilled(T', s, filled))
  {}

  lemma SetTwiceShape(T: Table, U: Table, s: Sig, filled: int, s': Sig, filled': int)
    requires SameShape(T, U)
    ensures SameShape(T, SetFilled(SetFilled(U, s, filled), s', filled'))
  {
    var V := SetFilled(U, s, filled);
    SetFilledShape(T, U, s, filled);
    SetFilledShape(T, V, s', filled');
  }

  lemma MatchedShape(T: Table, U: Table, a: Node, n: Node)
    requires SameShape(T, U)
    ensures SameShape(T, Matched(U, a, n))
  {
    hide SameShape, SetFilled, Amount;
    SetTwiceShape(T, U, n.Key(), n.order.filled + Amount(a, n), a.Key(), a.order.filled + Amount(a, n));
  }

  lemma {:induction false} AllMatchedShape(T: Table, T': Table, a: Node, ns: seq<Node>)
    requires SameShape(T, T')
    ensures SameShape(T, AllMatched(T', a, ns))
  {
    if ns == [] {
    } else {
      var k := |ns| - 1;
      AllMatchedShape(T, T', a, ns[..k]);
      MatchedShape(T, AllMatched(T', a, ns[..k]), a, ns[k]);
    }
  }

  lemma {:induction false} AfterShape(T: Table, rounds: seq<Round>, ok: Eligibility)
    ensures SameShape(T, PassTable(T, rounds, ok))
  {
    if rounds == [] {
    } else {
      var k := |rounds| - 1;
      AfterShape(T, rounds[..k], ok);
      AllMatchedShape(T, PassTable(T, rounds[..k], ok), rounds[k].outer, Picked(rounds[k].outer, rounds[k].read, ok));
    }
  }

  lemma ShapeKeepsQuoted(T: Table, T': Table, id: MarketId, side: Side)
    requires SameShape(T, T')
    ensures Quoted(T', id, side) == Quoted(T, id, side)
  {
    assert forall s :: s in T' <==> s in T.Keys;
  }

  // ----- conservation -----

  /** The amount matched against quote `s`. */
  function MatchedAgainst(ms: seq<Match>, s: Sig): int {
    if ms == [] then 0
    else
      var m := ms[|ms| - 1];
      MatchedAgainst(ms[..|ms| - 1], s) + if m.inner.Key() == s then Amount(m.outer, m.inner) else 0
  }

  lemma {:induction false} MatchedAgainstAppend(x: seq<Match>, y: seq<Match>, s: Sig)
    ensures MatchedAgainst(x + y, s) == MatchedAgainst(x, s) + MatchedAgainst(y, s)
  {
    if y == [] {
      assert x + y == x;
    } else {
      var k := |y| - 1;
      assert (x + y)[..|x| + k] == x + y[..k];
      MatchedAgainstAppend(x, y[..k], s);
    }
  }

  lemma OneMatch(U: Table, a: Node, n: Node, s: Sig)
    requires FillOk(a) && FillOk(n) && s in U && a.Key() != s
    ensures s in Matched(U, a, n)
    ensures Matched(U, a, n)[s].node ==
              if n.Key() == s then U[s].node.WithFilled(n.order.filled + Amount(a, n)) else U[s].node
  {}

  lemma PickedPrefix(ns: seq<Node>, k: nat)
    requires k < |ns| && DistinctSigs(ns)
    ensures DistinctSigs(ns[..k]) && ns[k] in ns
    ensures forall m :: m in ns[..k] ==> m in ns && m.Key() != ns[k].Key()
  {
    forall m | m in ns[..k] ensures m in ns && m.Key() != ns[k].Key() {
      var j :| 0 <= j < k && ns[..k][j] == m;
      assert ns[j] == m;
    }
  }

  /** One outer order: each matched quote grows by what it was matched for, every other one keeps its fill. */
  lemma {:induction false} RoundConserves(T: Table, a: Node, ns: seq<Node>, s: Sig)
    requires FillsOk(T) && FillOk(a) && s in T && a.Key() != s
    requires DistinctSigs(ns) && forall n :: n in ns ==> n.Key() in T && T[n.Key()].node == n
    ensures var T' := AllMatched(T, a, ns);
            && s in T'
            && T'[s].node.order.filled == T[s].node.order.filled + MatchedAgainst(MatchesOf(a, ns), s)
            && ((forall n :: n in ns ==> n.Key() != s) ==> T'[s].node == T[s].node)
            && T[s].node.order.filled <= T'[s].node.order.filled <= T[s].node.order.baseAmount
  {
    hide Matched, SameShape;
    assert FillOk(T[s].node);
    if ns == [] {
    } else {
      var k := |ns| - 1;
      var n := ns[k];
      PickedPrefix(ns, k);
      RoundConserves(T, a, ns[..k], s);
      assert MatchesOf(a, ns)[..k] == MatchesOf(a, ns[..k]);
      assert FillOk(n) by { assert FillOk(T[n.Key()].node); }
      OneMatch(AllMatched(T, a, ns[..k]), a, n, s);
    }
  }

  /**
    * Conservation: over a whole pass the fill of every quote that is not an outer order grows by
    * exactly what was matched against it, and never beyond what it had left at the start.
    */
  lemma {:induction false} PassConserves(T: Table, rounds: seq<Round>, ok: Eligibility, id: MarketId, side: Side,
                                         price: Order -> int, s: Sig)
    requires FillsOk(T) && IsPass(T, rounds, ok, id, side, price)
    requires s in T && forall k :: 0 <= k < |rounds| ==> rounds[k].outer.Key() != s
    ensures var T' := PassTable(T, rounds, ok);
            && s in T'
            && T'[s].node.order.filled - T[s].node.order.filled == MatchedAgainst(Matches(rounds, ok), s)
            && 0 <= MatchedAgainst(Matches(rounds, ok), s) <= T[s].node.order.Remaining()
  {
    if rounds == [] {
    } else {
      var k := |rounds| - 1;
      var a, r := rounds[k].outer, rounds[k].read;
      var U := PassTable(T, rounds[..k], ok);
      PassPrefix(T, rounds, ok, id, side, price);
      PassConserves(T, rounds[..k], ok, id, side, price, s);
      PassKeepsFills(T, rounds[..k], ok, id, side, price);
      AfterShape(T, rounds[..k], ok);
      RoundPicks(U, a, r, ok, id, side, price);
      OuterFillOk(T, rounds, id, side, k);
      RoundConserves(U, a, Picked(a, r, ok), s);
      MatchedAgainstAppend(Matches(rounds[..k], ok), MatchesOf(a, Picked(a, r, ok)), s);
    }
  }

  /** In particular for every quote of the pass: outer orders are never quotes themselves. */
  lemma QuotesConserved(T: Table, rounds: seq<Round>, ok: Eligibility, id: MarketId, side: Side, price: Order -> int)
    requires FillsOk(T) && IsPass(T, rounds, ok, id, side, price)
    ensures forall s :: s in Quoted(T, id, side) ==>
              && s in T && s in PassTable(T, rounds, ok)
              && PassTable(T, rounds, ok)[s].node.order.filled
                 == T[s].node.order.filled + MatchedAgainst(Matches(rounds, ok), s)
              && 0 <= MatchedAgainst(Matches(rounds, ok), s) <= T[s].node.order.Remaining()
  {
    forall s | s in Quoted(T, id, side)
      ensures
        && s in T && s in PassTable(T, rounds, ok)
        && PassTable(T, rounds, ok)[s].node.order.filled
           == T[s].node.order.filled + MatchedAgainst(Matches(rounds, ok), s)
        && 0 <= MatchedAgainst(Matches(rounds, ok), s) <= T[s].node.order.Remaining()
    {
      PassConserves(T, rounds, ok, id, side, price, s);
    }
  }

  /** Two passes in a row over the same quotes together match no more against a quote than it had before them. */
  lemma TwoPassesConserve(T: Table, r1: seq<Round>, ok1: Eligibility, price1: Order -> int,
                          r2: seq<Round>, ok2: Eligibility, price2: Order -> int, id: MarketId, side: Side)
    requires FillsOk(T) && IsPass(T, r1, ok1, id, side, price1)
    requires IsPass(PassTable(T, r1, ok1), r2, ok2, id, side, price2)
    ensures forall s :: s in Quoted(T, id, side) ==>
              && s in T
              && 0 <= MatchedAgainst(Matches(r1, ok1) + Matches(r2, ok2), s) <= T[s].node.order.Remaining()
  {
    hide PassTable, IsPass, Quoted, FillsOk, Matches;
    var U := PassTable(T, r1, ok1);
    QuotesConserved(T, r1, ok1, id, side, price1);
    PassKeepsFills(T, r1, ok1, id, side, price1);
    AfterShape(T, r1, ok1);
    ShapeKeepsQuoted(T, U, id, side);
    QuotesConserved(U, r2, ok2, id, side, price2);
    forall s | s in Quoted(T, id, side)
      ensures s in T && 0 <= MatchedAgainst(Matches(r1, ok1) + Matches(r2, ok2), s) <= T[s].node.order.Remaining()
    {
      MatchedAgainstAppend(Matches(r1, ok1), Matches(r2, ok2), s);
    }
  }

  lemma RoundPicks(U: Table, a: Node, r: seq<Node>, ok: Eligibility, id: MarketId, side: Side, price: Order -> int)
    requires IsQuoteList(r, U, id, side, price)
    ensures DistinctSigs(Picked(a, r, ok))
    ensures forall n :: n in Picked(a, r, ok) ==> n.Key() in U && U[n.Key()].node == n && n.Key() in Quoted(U, id, side)
  {
    PickedDistinct(a, r, ok);
    PickedFromList(a, r, ok);
    forall n | n in Picked(a, r, ok) ensures n.Key() in U && U[n.Key()].node == n && n.Key() in Quoted(U, id, side) {
      var i :| 0 <= i < |r| && r[i] == n;
      assert r[i].Key() in SigsOf(r);
    }
  }

  /** An outer order ends its own round with at least the fill it was read with. */
  lemma {:induction false} RoundKeepsOuter(T: Table, a: Node, ns: seq<Node>)
    requires a.Key() in T && T[a.Key()].node == a && FillOk(a)
    requires forall n :: n in ns ==> n.Key() != a.Key() && FillOk(n)
    ensures var T' := AllMatched(T, a, ns);
            a.Key() in T' && a.order.filled <= T'[a.Key()].node.order.filled <= a.order.baseAmount
  {
    if ns == [] {
    } else {
      var k := |ns| - 1;
      assert ns[k] in ns;
      assert forall n :: n in ns[..k] ==> n in ns;
      RoundKeepsOuter(T, a, ns[..k]);
    }
  }

  /** A round that does not involve `s`. */
  lemma RoundSkips(U: Table, a: Node, r: seq<Node>, ok: Eligibility, id: MarketId, side: Side, price: Order -> int,
                   s: Sig)
    requires FillsOk(U) && FillOk(a) && IsQuoteList(r, U, id, side, price)
    requires s in U && s !in Quoted(U, id, side) && a.Key() != s
    ensures var U' := AllMatched(U, a, Picked(a, r, ok)); s in U' && U'[s].node == U[s].node
  {
    RoundPicks(U, a, r, ok, id, side, price);
    RoundConserves(U, a, Picked(a, r, ok), s);
  }

  lemma OuterFillOk(T: Table, rounds: seq<Round>, id: MarketId, side: Side, k: nat)
    requires FillsOk(T) && OutersOk(T, rounds, id, side) && k < |rounds|
    ensures FillOk(rounds[k].outer)
  {
    assert FillOk(T[rounds[k].outer.Key()].node);
  }

  /** Orders that are neither quotes nor already run keep their exact node. */
  lemma {:induction false} PassKeepsOthers(T: Table, rounds: seq<Round>, ok: Eligibility, id: MarketId, side: Side,
                                           price: Order -> int, s: Sig)
    requires FillsOk(T) && IsPass(T, rounds, ok, id, side, price)
    requires s in T && s !in Quoted(T, id, side) && forall k :: 0 <= k < |rounds| ==> rounds[k].outer.Key() != s
    ensures s in PassTable(T, rounds, ok) && PassTable(T, rounds, ok)[s].node == T[s].node
    decreases |rounds|, 0
  {
    hide AllMatched, Picked, Quoted;
    if rounds == [] {
    } else {
      var k := |rounds| - 1;
      var U := PassTable(T, rounds[..k], ok);
      PassPrefix(T, rounds, ok, id, side, price);
      PassKeepsOthers(T, rounds[..k], ok, id, side, price, s);
      PassKeepsFills(T, rounds[..k], ok, id, side, price);
      AfterShape(T, rounds[..k], ok);
      ShapeKeepsQuoted(T, U, id, side);
      OuterFillOk(T, rounds, id, side, k);
      RoundSkips(U, rounds[k].outer, rounds[k].read, ok, id, side, price, s);
    }
  }

  /** Fill bound: no order is ever filled beyond its size, and none ends a pass with less filled than before. */
  lemma {:induction false} PassKeepsFills(T: Table, rounds: seq<Round>, ok: Eligibility, id: MarketId, side: Side,
                                          price: Order -> int)
    requires FillsOk(T) && IsPass(T, rounds, ok, id, side, price)
    ensures var T' := PassTable(T, rounds, ok);
            && FillsOk(T')
            && forall s :: s in T ==> s in T' && T'[s].node.order.filled >= T[s].node.order.filled
    decreases |rounds|, 1
  {
    if rounds == [] {
    } else {
      var k := |rounds| - 1;
      var U, T' := PassTable(T, rounds[..k], ok), PassTable(T, rounds, ok);
      PassPrefix(T, rounds, ok, id, side, price);
      PassKeepsFills(T, rounds[..k], ok, id, side, price);
      AfterShape(T, rounds[..k], ok);
      AfterShape(T, rounds, ok);
      forall s | s in T ensures s in T' && FillOk(T'[s].node) && T'[s].node.order.filled >= T[s].node.order.filled {
        LastRoundFill(T, rounds, ok, id, side, price, s);
      }
    }
  }

  lemma LastRoundFill(T: Table, rounds: seq<Round>, ok: Eligibility, id: MarketId, side: Side, price: Order -> int,
                      s: Sig)
    requires FillsOk(T) && IsPass(T, rounds, ok, id, side, price) && rounds != [] && s in T
    requires var U := PassTable(T, rounds[..|rounds| - 1], ok);
             FillsOk(U) && s in U && U[s].node.order.filled >= T[s].node.order.filled
    ensures var T' := PassTable(T, rounds, ok);
            s in T' && FillOk(T'[s].node) && T'[s].node.order.filled >= T[s].node.order.filled
    decreases |rounds|, 0
  {
    var k := |rounds| - 1;
    var a, r := rounds[k].outer, rounds[k].read;
    var U, T' := PassTable(T, rounds[..k], ok), PassTable(T, rounds, ok);
    PassPrefix(T, rounds, ok, id, side, price);
    AfterShape(T, rounds[..k], ok);
    AfterShape(T, rounds, ok);
    ShapeKeepsQuoted(T, U, id, side);
    RoundPicks(U, a, r, ok, id, side, price);
    OuterFillOk(T, rounds, id, side, k);
    if a.Key() == s {
      PassKeepsOthers(T, rounds[..k], ok, id, side, price, s);
      RoundKeepsOuter(U, a, Picked(a, r, ok));
    } else {
      RoundConserves(U, a, Picked(a, r, ok), s);
    }
  }

  // ----- exactness against the market -----

  /**
    * In its round, an order is matched with exactly the eligible quotes that no eligible
    * covering quote precedes; and an eligible quote is passed over only because a quote at
    * least as good was matched and covered the order.
    */
  lemma RoundIsExact(U: Table, a: Node, r: seq<Node>, ok: Eligibility, id: MarketId, side: Side, price: Order -> int,
                     s: Sig)
    requires IsQuoteList(r, U, id, side, price) && s in Quoted(U, id, side) && ok(a, U[s].node)
    ensures U[s].node in Picked(a, r, ok) ||
            exists n :: && n in Picked(a, r, ok) && Covers(n, a)
                        && if side == Bid then price(n.order) >= price(U[s].node.order)
                           else price(n.order) <= price(U[s].node.order)
  {
    assert s in SigsOf(r);
    var i :| 0 <= i < |r| && r[i].Key() == s;
    PickedExactly(a, r, ok, i);
    if r[i] !in Picked(a, r, ok) {
      var j := FirstCovering(a, r, ok, i);
      PickedExactly(a, r, ok, j);
      assert r[j] in Picked(a, r, ok);
    }
  }

  lemma {:induction false} FirstCovering(a: Node, r: seq<Node>, ok: Eligibility, i: nat) returns (j: nat)
    requires i <= |r| && exists j :: 0 <= j < i && ok(a, r[j]) && Covers(r[j], a)
    ensures j < i && ok(a, r[j]) && Covers(r[j], a)
    ensures forall k :: 0 <= k < j && ok(a, r[k]) ==> !Covers(r[k], a)
  {
    if exists j :: 0 <= j < i - 1 && ok(a, r[j]) && Covers(r[j], a) {
      j := FirstCovering(a, r, ok, i - 1);
    } else {
      j := i - 1;
    }
  }
}
