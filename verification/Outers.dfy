/**
  * What a pass does to its outer orders. Each match writes the outer order's fill from
  * the copy read at the start, so of all its matches only the last one stays recorded.
  */
module Outers {
  import opened Arithmetic
  import opened Collections
  import opened Orders
  import opened Nodes
  import opened OrderLists
  import opened Books
  import opened Tables
  import opened Builds
  import opened Queries
  import opened Matching

  // ----- one round -----

  /** The amounts of all matches of a round. */
  function TotalAmount(a: Node, ns: seq<Node>): int {
    if ns == [] then 0 else TotalAmount(a, ns[..|ns| - 1]) + Amount(a, ns[|ns| - 1])
  }

  function LastAmount(a: Node, ns: seq<Node>): int {
    if ns == [] then 0 else Amount(a, ns[|ns| - 1])
  }

  /** After its round an outer order records its last match alone, added to the fill it was read with. */
  lemma RoundOuterFill(T: Table, a: Node, ns: seq<Node>)
    requires a.Key() in T && T[a.Key()].node == a && FillOk(a)
    requires forall n :: n in ns ==> FillOk(n)
    ensures var T' := AllMatched(T, a, ns);
            a.Key() in T' && T'[a.Key()].node.order.filled == a.order.filled + LastAmount(a, ns)
  {
    if ns != [] {
      AllMatchedShape(T, T, a, ns[..|ns| - 1]);
      AllMatchedShape(T, T, a, ns);
      assert ns[|ns| - 1] in ns;
    }
  }

  /** Every match before the last is for nothing. */
  predicate OnlyLastCounts(a: Node, ns: seq<Node>) {
    forall i :: 0 <= i < |ns| - 1 ==> Amount(a, ns[i]) == 0
  }

  lemma OnlyLastCountsTail(a: Node, n: Node, q: seq<Node>)
    ensures OnlyLastCounts(a, [n] + q) <==> OnlyLastCounts(a, q) && (q == [] || Amount(a, n) == 0)
  {
    var p := [n] + q;
    assert forall i :: 0 <= i < |q| ==> p[i + 1] == q[i];
    if OnlyLastCounts(a, p) {
      assert q != [] ==> Amount(a, p[0]) == 0;
      forall i | 0 <= i < |q| - 1 ensures Amount(a, q[i]) == 0 {
        assert Amount(a, p[i + 1]) == 0;
      }
    }
  }

  /** The last match is the whole amount exactly if the matches before it were all for nothing. */
  lemma {:induction false} LastIsTotal(a: Node, ns: seq<Node>)
    requires FillOk(a) && forall n :: n in ns ==> FillOk(n)
    ensures 0 <= LastAmount(a, ns) <= TotalAmount(a, ns)
    ensures LastAmount(a, ns) == TotalAmount(a, ns) <==> OnlyLastCounts(a, ns)
  {
    if ns == [] {
    } else {
      var k := |ns| - 1;
      assert forall n :: n in ns[..k] ==> n in ns;
      assert ns[k] in ns;
      LastIsTotal(a, ns[..k]);
      assert k > 0 ==> LastAmount(a, ns[..k]) == Amount(a, ns[k - 1]);
      assert forall i :: 0 <= i < k - 1 ==> ns[..k][i] == ns[i];
      if k > 0 && Amount(a, ns[k - 1]) == 0 && TotalAmount(a, ns[..k]) == 0 {
        assert forall i :: 0 <= i < k ==> i == k - 1 || Amount(a, ns[i]) == 0;
      }
    }
  }

  /**
    * The test on the quotes as read: an eligible quote that another eligible one follows,
    * with no covering quote before that one, is exhausted.
    */
  predicate FilledOnce(a: Node, r: seq<Node>, ok: Eligibility) {
    forall i, j :: 0 <= i < j < |r| && ok(a, r[i]) && ok(a, r[j]) && Uncovered(a, r[..j], ok) ==>
      r[i].order.Remaining() == 0
  }

  /** No eligible quote in `r` covers the order. */
  predicate Uncovered(a: Node, r: seq<Node>, ok: Eligibility) {
    forall h :: 0 <= h < |r| && ok(a, r[h]) ==> !Covers(r[h], a)
  }

  lemma UncoveredTail(a: Node, r: seq<Node>, ok: Eligibility, j: nat)
    requires 0 < j <= |r|
    ensures Uncovered(a, r[..j], ok) <==>
            Uncovered(a, r[1..][..j - 1], ok) && (ok(a, r[0]) ==> !Covers(r[0], a))
  {
    var x, y := r[..j], r[1..][..j - 1];
    assert forall h :: 0 <= h < |y| ==> x[h + 1] == y[h];
    assert x[0] == r[0];
    assert forall h :: 0 < h < |x| ==> y[h - 1] == x[h];
  }

  /** Nothing is picked exactly if nothing is eligible; otherwise the first eligible quote is. */
  lemma {:induction false} FirstPicked(a: Node, r: seq<Node>, ok: Eligibility)
    ensures Picked(a, r, ok) == [] ==> forall j :: 0 <= j < |r| ==> !ok(a, r[j])
    ensures Picked(a, r, ok) != [] ==>
              exists j :: 0 <= j < |r| && ok(a, r[j]) && forall h :: 0 <= h < j ==> !ok(a, r[h])
  {
    if r == [] {
    } else if ok(a, r[0]) {
    } else {
      FirstPicked(a, r[1..], ok);
      if Picked(a, r, ok) == [] {
        assert forall j :: 0 < j < |r| ==> r[1..][j - 1] == r[j];
      } else {
        var j :| 0 <= j < |r[1..]| && ok(a, r[1..][j]) && forall h :: 0 <= h < j ==> !ok(a, r[1..][h]);
        assert ok(a, r[j + 1]);
        assert forall h :: 0 < h < j + 1 ==> r[1..][h - 1] == r[h];
      }
    }
  }

  lemma FilledOnceTail(a: Node, r: seq<Node>, ok: Eligibility)
    requires r != [] && !(ok(a, r[0]) && Covers(r[0], a))
    ensures FilledOnce(a, r, ok) <==>
            && FilledOnce(a, r[1..], ok)
            && (ok(a, r[0]) && Picked(a, r[1..], ok) != [] ==> r[0].order.Remaining() == 0)
  {
    var q := r[1..];
    FirstPicked(a, q, ok);
    forall j | 0 < j < |r| ensures Uncovered(a, r[..j], ok) <==> Uncovered(a, q[..j - 1], ok) {
      UncoveredTail(a, r, ok, j);
    }
    if FilledOnce(a, r, ok) {
      forall i, j | 0 <= i < j < |q| && ok(a, q[i]) && ok(a, q[j]) && Uncovered(a, q[..j], ok)
        ensures q[i].order.Remaining() == 0
      {
        assert q[i] == r[i + 1] && q[j] == r[j + 1] && Uncovered(a, r[..j + 1], ok);
      }
      if ok(a, r[0]) && Picked(a, q, ok) != [] {
        var j :| 0 <= j < |q| && ok(a, q[j]) && forall h :: 0 <= h < j ==> !ok(a, q[h]);
        assert Uncovered(a, q[..j], ok);
        assert q[j] == r[j + 1] && Uncovered(a, r[..j + 1], ok);
      }
    }
    if FilledOnce(a, q, ok) && (ok(a, r[0]) && Picked(a, q, ok) != [] ==> r[0].order.Remaining() == 0) {
      forall i, j | 0 <= i < j < |r| && ok(a, r[i]) && ok(a, r[j]) && Uncovered(a, r[..j], ok)
        ensures r[i].order.Remaining() == 0
      {
        assert r[j] == q[j - 1] && Uncovered(a, q[..j - 1], ok);
        if i > 0 {
          assert r[i] == q[i - 1];
        }
      }
    }
  }

  /** The test says precisely that every match before the last is for nothing. */
  lemma {:induction false} FilledOnceMeaning(a: Node, r: seq<Node>, ok: Eligibility)
    requires FillOk(a) && forall n :: n in r ==> FillOk(n)
    ensures FilledOnce(a, r, ok) <==> OnlyLastCounts(a, Picked(a, r, ok))
  {
    if r == [] {
    } else if ok(a, r[0]) && Covers(r[0], a) {
      forall j | 0 < j < |r| ensures !Uncovered(a, r[..j], ok) {
        UncoveredTail(a, r, ok, j);
      }
    } else {
      assert forall n :: n in r[1..] ==> n in r;
      assert r[0] in r;
      FilledOnceTail(a, r, ok);
      FilledOnceMeaning(a, r[1..], ok);
      if ok(a, r[0]) {
        assert Amount(a, r[0]) == r[0].order.Remaining();
        OnlyLastCountsTail(a, r[0], Picked(a, r[1..], ok));
      }
    }
  }

  /** What the eligible quotes have left in sum. */
  function Available(a: Node, r: seq<Node>, ok: Eligibility): int {
    if r == [] then 0 else (if ok(a, r[0]) then r[0].order.Remaining() else 0) + Available(a, r[1..], ok)
  }

  lemma {:induction false} TotalAmountFirst(a: Node, n: Node, q: seq<Node>)
    ensures TotalAmount(a, [n] + q) == Amount(a, n) + TotalAmount(a, q)
  {
    var p := [n] + q;
    if q == [] {
      assert p == [n] && p[..0] == [];
      assert TotalAmount(a, p[..0]) == 0;
    } else {
      assert p[..|p| - 1] == [n] + q[..|q| - 1];
      TotalAmountFirst(a, n, q[..|q| - 1]);
    }
  }

  /** Without a covering quote the total is all there is; with one, the last match takes all that is left. */
  lemma {:induction false} TotalByCover(a: Node, r: seq<Node>, ok: Eligibility)
    ensures Uncovered(a, r, ok) ==> TotalAmount(a, Picked(a, r, ok)) == Available(a, r, ok)
    ensures !Uncovered(a, r, ok) ==> LastAmount(a, Picked(a, r, ok)) == a.order.Remaining()
  {
    if r == [] {
    } else {
      var q := Picked(a, r[1..], ok);
      UncoveredTail(a, r, ok, |r|);
      assert r[..|r|] == r && r[1..][..|r| - 1] == r[1..];
      TotalByCover(a, r[1..], ok);
      if ok(a, r[0]) && !Covers(r[0], a) {
        TotalAmountFirst(a, r[0], q);
        if !Uncovered(a, r[1..], ok) && q == [] {
          FirstPicked(a, r[1..], ok);
          assert false;
        }
      }
    }
  }

  /**
    * When the matches of a round do not exceed what the order had left: without a covering quote
    * if all eligible quotes together do not, with one if and only if the round passes `FilledOnce`.
    */
  lemma WithinIff(a: Node, r: seq<Node>, ok: Eligibility)
    requires FillOk(a) && forall n :: n in r ==> FillOk(n)
    ensures TotalAmount(a, Picked(a, r, ok)) <= a.order.Remaining() <==>
            if Uncovered(a, r, ok) then Available(a, r, ok) <= a.order.Remaining() else FilledOnce(a, r, ok)
  {
    hide FilledOnce, Uncovered;
    PickedFromList(a, r, ok);
    TotalByCover(a, r, ok);
    LastIsTotal(a, Picked(a, r, ok));
    FilledOnceMeaning(a, r, ok);
  }

  // ----- whole passes -----

  /** The amount matched for the outer order `s`. */
  function MatchedBy(ms: seq<Match>, s: Sig): int {
    if ms == [] then 0
    else
      var m := ms[|ms| - 1];
      MatchedBy(ms[..|ms| - 1], s) + if m.outer.Key() == s then Amount(m.outer, m.inner) else 0
  }

  lemma {:induction false} MatchedByAppend(x: seq<Match>, y: seq<Match>, s: Sig)
    ensures MatchedBy(x + y, s) == MatchedBy(x, s) + MatchedBy(y, s)
  {
    if y == [] {
      assert x + y == x;
    } else {
      var k := |y| - 1;
      assert (x + y)[..|x| + k] == x + y[..k];
      MatchedByAppend(x, y[..k], s);
    }
  }

  lemma {:induction false} MatchedByRound(a: Node, ns: seq<Node>, s: Sig)
    ensures MatchedBy(MatchesOf(a, ns), s) == if a.Key() == s then TotalAmount(a, ns) else 0
  {
    if ns == [] {
    } else {
      var k := |ns| - 1;
      assert MatchesOf(a, ns)[..k] == MatchesOf(a, ns[..k]);
      MatchedByRound(a, ns[..k], s);
    }
  }

  lemma {:induction false} MatchedByOthers(rounds: seq<Round>, ok: Eligibility, s: Sig)
    requires forall k :: 0 <= k < |rounds| ==> rounds[k].outer.Key() != s
    ensures MatchedBy(Matches(rounds, ok), s) == 0
  {
    if rounds == [] {
    } else {
      var k := |rounds| - 1;
      var ns := Picked(rounds[k].outer, rounds[k].read, ok);
      MatchedByOthers(rounds[..k], ok, s);
      MatchedByAppend(Matches(rounds[..k], ok), MatchesOf(rounds[k].outer, ns), s);
      MatchedByRound(rounds[k].outer, ns, s);
    }
  }

  /** A pass with a last round, in terms of the pass before it. */
  lemma LastRound(T: Table, rounds: seq<Round>, ok: Eligibility, id: MarketId, side: Side, price: Order -> int)
    requires FillsOk(T) && IsPass(T, rounds, ok, id, side, price) && rounds != []
    ensures var n := |rounds| - 1;
            var a, r, U := rounds[n].outer, rounds[n].read, PassTable(T, rounds[..n], ok);
            && IsPass(T, rounds[..n], ok, id, side, price)
            && FillsOk(U) && SameShape(T, U) && Quoted(U, id, side) == Quoted(T, id, side)
            && IsQuoteList(r, U, id, side, price)
            && FillOk(a) && (forall m :: m in r ==> FillOk(m))
            && PassTable(T, rounds, ok) == AllMatched(U, a, Picked(a, r, ok))
            && Matches(rounds, ok) == Matches(rounds[..n], ok) + MatchesOf(a, Picked(a, r, ok))
  {
    hide AllMatched, Picked, Quoted, IsQuoteList;
    var n := |rounds| - 1;
    var U := PassTable(T, rounds[..n], ok);
    PassPrefix(T, rounds, ok, id, side, price);
    PassKeepsFills(T, rounds[..n], ok, id, side, price);
    AfterShape(T, rounds[..n], ok);
    ShapeKeepsQuoted(T, U, id, side);
    OuterFillOk(T, rounds, id, side, n);
    ReadFillsOk(U, rounds[n].read, id, side, price);
  }

  /** The outer order of a pass's last round: untouched before it, recorded by it. */
  lemma LastOuter(T: Table, rounds: seq<Round>, ok: Eligibility, id: MarketId, side: Side, price: Order -> int)
    requires FillsOk(T) && IsPass(T, rounds, ok, id, side, price) && rounds != []
    ensures var a, r := rounds[|rounds| - 1].outer, rounds[|rounds| - 1].read;
            var T', ns := PassTable(T, rounds, ok), Picked(a, r, ok);
            && FillOk(a) && (forall n :: n in r ==> FillOk(n)) && (forall n :: n in ns ==> n in r)
            && a.Key() in T'
            && T'[a.Key()].node.order.filled == a.order.filled + LastAmount(a, ns)
            && MatchedBy(Matches(rounds, ok), a.Key()) == TotalAmount(a, ns)
  {
    hide AllMatched, Quoted, IsQuoteList, SameShape, PassTable, Matches, FillsOk, Covers;
    var k := |rounds| - 1;
    var a, r := rounds[k].outer, rounds[k].read;
    var U, ns := PassTable(T, rounds[..k], ok), Picked(a, r, ok);
    LastRound(T, rounds, ok, id, side, price);
    assert OutersOk(T, rounds, id, side);
    PassKeepsOthers(T, rounds[..k], ok, id, side, price, a.Key());
    PickedFromList(a, r, ok);
    RoundOuterFill(U, a, ns);
    MatchedByOthers(rounds[..k], ok, a.Key());
    MatchedByAppend(Matches(rounds[..k], ok), MatchesOf(a, ns), a.Key());
    MatchedByRound(a, ns, a.Key());
  }

  lemma ReadFillsOk(U: Table, r: seq<Node>, id: MarketId, side: Side, price: Order -> int)
    requires FillsOk(U) && IsQuoteList(r, U, id, side, price)
    ensures forall n :: n in r ==> FillOk(n)
  {
    forall n | n in r ensures FillOk(n) {
      var i :| 0 <= i < |r| && r[i] == n;
      assert FillOk(U[r[i].Key()].node);
    }
  }

  /** The last round does not involve the outer order of an earlier one. */
  lemma LaterRoundSkips(T: Table, rounds: seq<Round>, ok: Eligibility, id: MarketId, side: Side, price: Order -> int,
                        k: nat)
    requires FillsOk(T) && IsPass(T, rounds, ok, id, side, price) && k < |rounds| - 1
    ensures var s, U, T' := rounds[k].outer.Key(), PassTable(T, rounds[..|rounds| - 1], ok), PassTable(T, rounds, ok);
            s in T' && s in U && T'[s].node == U[s].node
  {
    hide AllMatched, Picked, Quoted, IsQuoteList, PassTable, Matches, FillsOk, IsPass, SameShape, MatchesOf, FillOk;
    var n := |rounds| - 1;
    LastRound(T, rounds, ok, id, side, price);
    DistinctOuters(T, rounds, ok, id, side, price, k, n);
    RoundSkips(PassTable(T, rounds[..n], ok), rounds[n].outer, rounds[n].read, ok, id, side, price,
               rounds[k].outer.Key());
  }

  lemma LaterRoundMatches(T: Table, rounds: seq<Round>, ok: Eligibility, id: MarketId, side: Side, price: Order -> int,
                          k: nat)
    requires IsPass(T, rounds, ok, id, side, price) && k < |rounds| - 1
    ensures var s := rounds[k].outer.Key();
            MatchedBy(Matches(rounds, ok), s) == MatchedBy(Matches(rounds[..|rounds| - 1], ok), s)
  {
    hide Picked, PassTable, IsPass, MatchesOf;
    var n := |rounds| - 1;
    var s, ns := rounds[k].outer.Key(), Picked(rounds[n].outer, rounds[n].read, ok);
    DistinctOuters(T, rounds, ok, id, side, price, k, n);
    MatchedByAppend(Matches(rounds[..n], ok), MatchesOf(rounds[n].outer, ns), s);
    MatchedByRound(rounds[n].outer, ns, s);
  }

  lemma DistinctOuters(T: Table, rounds: seq<Round>, ok: Eligibility, id: MarketId, side: Side, price: Order -> int,
                       j: nat, k: nat)
    requires IsPass(T, rounds, ok, id, side, price) && j < k < |rounds|
    ensures rounds[j].outer.Key() in T && rounds[j].outer.Key() !in Quoted(T, id, side)
    ensures rounds[j].outer.Key() != rounds[k].outer.Key()
    ensures rounds[j].outer.Key() in PassTable(T, rounds[..k], ok)
  {
    hide Quoted, PassTable, ReadsQuotes;
    AfterShape(T, rounds[..k], ok);
  }

  /** Over a whole pass an outer order records exactly its last match. */
  lemma {:induction false} PassOuterFill(T: Table, rounds: seq<Round>, ok: Eligibility, id: MarketId, side: Side,
                                         price: Order -> int, k: nat)
    requires FillsOk(T) && IsPass(T, rounds, ok, id, side, price) && k < |rounds|
    ensures var a, r := rounds[k].outer, rounds[k].read;
            var T', ns := PassTable(T, rounds, ok), Picked(a, r, ok);
            && FillOk(a) && (forall n :: n in r ==> FillOk(n)) && (forall n :: n in ns ==> n in r)
            && a.Key() in T'
            && T'[a.Key()].node.order.filled == a.order.filled + LastAmount(a, ns)
            && MatchedBy(Matches(rounds, ok), a.Key()) == TotalAmount(a, ns)
  {
    hide IsPass, PassTable, Matches, Picked, FillsOk;
    var n := |rounds| - 1;
    if k == n {
      LastOuter(T, rounds, ok, id, side, price);
    } else {
      PassPrefix(T, rounds, ok, id, side, price);
      PassOuterFill(T, rounds[..n], ok, id, side, price, k);
      LaterRoundSkips(T, rounds, ok, id, side, price, k);
      LaterRoundMatches(T, rounds, ok, id, side, price, k);
    }
  }

  /**
    * When outer orders are conserved too: over a pass the fill of an outer order grows by what
    * was matched for it if and only if its quotes pass the test `FilledOnce`; otherwise it grows
    * by less. And it is matched for no more than it had left if and only if the test holds, or
    * no quote covers it and all eligible quotes together do not exceed it.
    */
  lemma OuterConservedIff(T: Table, rounds: seq<Round>, ok: Eligibility, id: MarketId, side: Side, price: Order -> int,
                          k: nat)
    requires FillsOk(T) && IsPass(T, rounds, ok, id, side, price) && k < |rounds|
    ensures var a, r := rounds[k].outer, rounds[k].read;
            var T', total := PassTable(T, rounds, ok), MatchedBy(Matches(rounds, ok), a.Key());
            && a.Key() in T'
            && T'[a.Key()].node.order.filled - a.order.filled <= total
            && (T'[a.Key()].node.order.filled - a.order.filled == total <==> FilledOnce(a, r, ok))
            && (total <= a.order.Remaining() <==>
                  if Uncovered(a, r, ok) then Available(a, r, ok) <= a.order.Remaining() else FilledOnce(a, r, ok))
  {
    hide IsPass, PassTable, Matches, FilledOnce, Uncovered;
    var a, r := rounds[k].outer, rounds[k].read;
    PassOuterFill(T, rounds, ok, id, side, price, k);
    LastIsTotal(a, Picked(a, r, ok));
    FilledOnceMeaning(a, r, ok);
    WithinIff(a, r, ok);
  }

  // ----- every order of a pass -----

  /** What the rounds that start from `s` leave recorded: their last matches. */
  function Recorded(rounds: seq<Round>, ok: Eligibility, s: Sig): int {
    if rounds == [] then 0
    else
      var k := |rounds| - 1;
      var a := rounds[k].outer;
      Recorded(rounds[..k], ok, s) + if a.Key() == s then LastAmount(a, Picked(a, rounds[k].read, ok)) else 0
  }

  lemma {:induction false} RecordedNothing(rounds: seq<Round>, ok: Eligibility, s: Sig)
    requires forall k :: 0 <= k < |rounds| ==> rounds[k].outer.Key() != s
    ensures Recorded(rounds, ok, s) == 0
  {
    if rounds == [] {
    } else {
      RecordedNothing(rounds[..|rounds| - 1], ok, s);
    }
  }

  lemma {:induction false} RecordedOnce(rounds: seq<Round>, ok: Eligibility, k: nat)
    requires k < |rounds|
    requires forall i, j :: 0 <= i < j < |rounds| ==> rounds[i].outer.Key() != rounds[j].outer.Key()
    ensures var a := rounds[k].outer; Recorded(rounds, ok, a.Key()) == LastAmount(a, Picked(a, rounds[k].read, ok))
  {
    hide Picked, LastAmount;
    var n := |rounds| - 1;
    if k == n {
      RecordedNothing(rounds[..n], ok, rounds[k].outer.Key());
    } else {
      RecordedOnce(rounds[..n], ok, k);
    }
  }

  lemma {:induction false} MatchedNothing(a: Node, ns: seq<Node>, s: Sig)
    requires forall n :: n in ns ==> n.Key() != s
    ensures MatchedAgainst(MatchesOf(a, ns), s) == 0
  {
    if ns == [] {
    } else {
      var k := |ns| - 1;
      assert MatchesOf(a, ns)[..k] == MatchesOf(a, ns[..k]);
      assert ns[k] in ns;
      MatchedNothing(a, ns[..k], s);
    }
  }

  /** Only quotes are matched against. */
  lemma {:induction false} OnlyQuotesMatched(T: Table, rounds: seq<Round>, ok: Eligibility, id: MarketId, side: Side,
                                             price: Order -> int, s: Sig)
    requires FillsOk(T) && IsPass(T, rounds, ok, id, side, price) && s !in Quoted(T, id, side)
    ensures MatchedAgainst(Matches(rounds, ok), s) == 0
  {
    hide IsPass, PassTable, FillsOk, IsQuoteList, Quoted, Picked, SameShape, AllMatched;
    if rounds == [] {
    } else {
      var n := |rounds| - 1;
      var a, r := rounds[n].outer, rounds[n].read;
      LastRound(T, rounds, ok, id, side, price);
      OnlyQuotesMatched(T, rounds[..n], ok, id, side, price, s);
      RoundPicks(PassTable(T, rounds[..n], ok), a, r, ok, id, side, price);
      MatchedNothing(a, Picked(a, r, ok), s);
      MatchedAgainstAppend(Matches(rounds[..n], ok), MatchesOf(a, Picked(a, r, ok)), s);
    }
  }

  /**
    * The exact growth of every order over a pass: what was matched against it as a quote, plus
    * the last match of the round it started, if there is one.
    */
  lemma PassGrowth(T: Table, rounds: seq<Round>, ok: Eligibility, id: MarketId, side: Side, price: Order -> int, s: Sig)
    requires FillsOk(T) && IsPass(T, rounds, ok, id, side, price) && s in T
    ensures var T' := PassTable(T, rounds, ok);
            && s in T'
            && T'[s].node.order.filled
               == T[s].node.order.filled + MatchedAgainst(Matches(rounds, ok), s) + Recorded(rounds, ok, s)
  {
    hide PassTable, FillsOk, Matches, MatchedAgainst, Recorded, ReadsQuotes, Quoted, Picked;
    if k :| 0 <= k < |rounds| && rounds[k].outer.Key() == s {
      PassOuterFill(T, rounds, ok, id, side, price, k);
      RecordedOnce(rounds, ok, k);
      OnlyQuotesMatched(T, rounds, ok, id, side, price, s);
    } else {
      PassConserves(T, rounds, ok, id, side, price, s);
      RecordedNothing(rounds, ok, s);
    }
  }

  // ----- a test before the pass -----

  /** Neither eligibility nor price looks at filled amounts. */
  ghost predicate FillBlind(ok: Eligibility, price: Order -> int) {
    && (forall a: Node, n: Node, filled: nat :: ok(a, n.WithFilled(filled)) == ok(a, n))
    && (forall o: Order, filled: nat :: price(o.(filled := filled)) == price(o))
  }

  lemma PriceIsBlind(oraclePrice: int, slot: nat)
    ensures forall o: Order, filled: nat ::
              PriceAt(oraclePrice, slot)(o.(filled := filled)) == PriceAt(oraclePrice, slot)(o)
  {
    forall o: Order, filled: nat
      ensures PriceAt(oraclePrice, slot)(o.(filled := filled)) == PriceAt(oraclePrice, slot)(o)
    {
      FillKeepsPrice(o, filled, oraclePrice, slot);
    }
  }

  /** The eligibility of both matching loops is of that kind. */
  lemma LoopsAreBlind(kind: MarketType, makerSide: Side, fallback: Option<nat>, oraclePrice: int, slot: nat)
    ensures FillBlind(RestingEligible(PriceAt(oraclePrice, slot)), PriceAt(oraclePrice, slot))
    ensures FillBlind(TakingEligible(kind, makerSide, PriceAt(oraclePrice, slot), fallback), PriceAt(oraclePrice, slot))
  {
    hide PriceAt, Crosses;
    var price := PriceAt(oraclePrice, slot);
    PriceIsBlind(oraclePrice, slot);
    forall a: Node, n: Node, filled: nat
      ensures RestingEligible(price)(a, n.WithFilled(filled)) == RestingEligible(price)(a, n)
      ensures TakingEligible(kind, makerSide, price, fallback)(a, n.WithFilled(filled))
           == TakingEligible(kind, makerSide, price, fallback)(a, n)
    {
      assert price(n.WithFilled(filled).order) == price(n.order);
    }
  }

  /**
    * The test on the table before a pass: the order has nothing left, or every eligible quote that may
    * be read before another eligible one is exhausted.
    */
  ghost predicate ClearAtStart(T: Table, a: Node, ok: Eligibility, id: MarketId, side: Side, price: Order -> int) {
    || a.order.Remaining() == 0
    || forall s, t :: s in Quoted(T, id, side) && t in Quoted(T, id, side) && s != t ==>
         (s in T && t in T && ok(a, T[s].node) && ok(a, T[t].node)
            && Before(price(T[s].node.order), price(T[t].node.order), side == Bid) ==>
            T[s].node.order.Remaining() == 0)
  }

  /** Exhausted quotes stay exhausted and blind tests stay as they are, so the test holds in every round. */
  lemma ClearInRound(T: Table, U: Table, a: Node, r: seq<Node>, ok: Eligibility, id: MarketId, side: Side,
                     price: Order -> int)
    requires FillBlind(ok, price) && ClearAtStart(T, a, ok, id, side, price)
    requires SameShape(T, U) && FillsOk(U) && IsQuoteList(r, U, id, side, price)
    requires forall s :: s in T ==> s in U && T[s].node.order.filled <= U[s].node.order.filled
    ensures FilledOnce(a, r, ok)
  {
    ReadFillsOk(U, r, id, side, price);
    forall i, j | 0 <= i < j < |r| && ok(a, r[i]) && ok(a, r[j]) && Uncovered(a, r[..j], ok)
      ensures r[i].order.Remaining() == 0
    {
      assert r[..j][i] == r[i] && !Covers(r[i], a);
      ShapeKeepsQuoted(T, U, id, side);
      var s, t := r[i].Key(), r[j].Key();
      QuoteAsAtStart(T, U, a, r, ok, id, side, price, i);
      QuoteAsAtStart(T, U, a, r, ok, id, side, price, j);
      assert s != t && Before(price(r[i].order), price(r[j].order), side == Bid);
    }
  }

  lemma QuoteAsAtStart(T: Table, U: Table, a: Node, r: seq<Node>, ok: Eligibility, id: MarketId, side: Side,
                       price: Order -> int, i: nat)
    requires FillBlind(ok, price) && SameShape(T, U) && FillsOk(U) && IsQuoteList(r, U, id, side, price) && i < |r|
    requires forall s :: s in T ==> s in U && T[s].node.order.filled <= U[s].node.order.filled
    ensures r[i].Key() in Quoted(T, id, side) && r[i].Key() in T
    ensures var n := T[r[i].Key()].node;
            && ok(a, n) == ok(a, r[i]) && price(n.order) == price(r[i].order)
            && 0 <= r[i].order.Remaining() <= n.order.Remaining()
  {
    var s := r[i].Key();
    assert s in SigsOf(r);
    ShapeKeepsQuoted(T, U, id, side);
    var n := T[s].node;
    assert FillOk(U[s].node);
    assert r[i] == n.WithFilled(r[i].order.filled) && r[i].order == n.order.(filled := r[i].order.filled);
    assert ok(a, n.WithFilled(r[i].order.filled)) == ok(a, n);
    assert price(n.order.(filled := r[i].order.filled)) == price(n.order);
  }

  /** An outer order that passes the test before a pass is conserved by it, whatever the rounds before its own do. */
  lemma ConservedFromStart(T: Table, rounds: seq<Round>, ok: Eligibility, id: MarketId, side: Side,
                           price: Order -> int, k: nat)
    requires FillsOk(T) && IsPass(T, rounds, ok, id, side, price) && k < |rounds|
    requires FillBlind(ok, price) && ClearAtStart(T, rounds[k].outer, ok, id, side, price)
    ensures FilledOnce(rounds[k].outer, rounds[k].read, ok)
    ensures var a, T' := rounds[k].outer, PassTable(T, rounds, ok);
            && a.Key() in T'
            && T'[a.Key()].node.order.filled - a.order.filled == MatchedBy(Matches(rounds, ok), a.Key())
            && MatchedBy(Matches(rounds, ok), a.Key()) <= a.order.Remaining()
  {
    hide FillBlind, ClearAtStart, PassTable, FilledOnce, SameShape, IsQuoteList, FillsOk, Matches;
    var U := PassTable(T, rounds[..k], ok);
    PassUpTo(T, rounds, ok, id, side, price, k);
    PassKeepsFills(T, rounds[..k], ok, id, side, price);
    AfterShape(T, rounds[..k], ok);
    ClearInRound(T, U, rounds[k].outer, rounds[k].read, ok, id, side, price);
    OuterConservedIff(T, rounds, ok, id, side, price, k);
    GrowthWithin(T, rounds, ok, id, side, price, k);
  }

  lemma GrowthWithin(T: Table, rounds: seq<Round>, ok: Eligibility, id: MarketId, side: Side, price: Order -> int,
                     k: nat)
    requires FillsOk(T) && IsPass(T, rounds, ok, id, side, price) && k < |rounds|
    ensures var a, T' := rounds[k].outer, PassTable(T, rounds, ok);
            && a.Key() in T && T[a.Key()].node == a
            && a.Key() in T' && T'[a.Key()].node.order.filled - a.order.filled <= a.order.Remaining()
  {
    hide PassTable;
    PassKeepsFills(T, rounds, ok, id, side, price);
    AfterShape(T, rounds, ok);
    assert OutersOk(T, rounds, id, side);
  }

  lemma {:induction false} PassUpTo(T: Table, rounds: seq<Round>, ok: Eligibility, id: MarketId, side: Side,
                                    price: Order -> int, k: nat)
    requires IsPass(T, rounds, ok, id, side, price) && k < |rounds|
    ensures IsPass(T, rounds[..k], ok, id, side, price)
    ensures IsQuoteList(rounds[k].read, PassTable(T, rounds[..k], ok), id, side, price)
    decreases |rounds|
  {
    hide PassTable, IsQuoteList, OutersOk;
    var n := |rounds| - 1;
    PassPrefix(T, rounds, ok, id, side, price);
    if k == n {
    } else {
      PassUpTo(T, rounds[..n], ok, id, side, price, k);
      assert rounds[..n][..k] == rounds[..k];
    }
  }

  // ----- an order matched for more than it had -----

  /** A resting ask of size 10. */
  const BIG_ASK: Order :=
    Order(Open, Limit, Perp, 0, 1, Short, 0, 5, 10, 0, 0, TriggerCondition.Above, 0, 0, 0, 0, false)

  /** A resting bid of size 6 that crosses it. */
  const SMALL_BID: Order := BIG_ASK.(direction := Long, price := 6, baseAmount := 6)

  function Crossed(): Table {
    TableInserted(TableInserted(TableInserted(map[], BIG_ASK, "a", 0), SMALL_BID, "b", 0), SMALL_BID, "c", 0)
  }

  function Resting(o: Order, user: Pubkey): Node {
    Node(RestingLimit, o, user)
  }

  lemma CrossedQuotes()
    ensures var T := Crossed();
            && T.Keys == {Sig(1, "a"), Sig(1, "b"), Sig(1, "c")}
            && T[Sig(1, "a")] == Placed(Resting(BIG_ASK, "a"), RestingLimit, Ask, BIG_ASK.Id())
            && T[Sig(1, "b")] == Placed(Resting(SMALL_BID, "b"), RestingLimit, Bid, BIG_ASK.Id())
            && T[Sig(1, "c")] == Placed(Resting(SMALL_BID, "c"), RestingLimit, Bid, BIG_ASK.Id())
    ensures Quoted(Crossed(), BIG_ASK.Id(), Bid) == {Sig(1, "b"), Sig(1, "c")}
  {}

  lemma BidsRead(r: seq<Node>, price: Order -> int)
    requires r == [Resting(SMALL_BID, "b"), Resting(SMALL_BID, "c")]
    ensures IsQuoteList(r, Crossed(), BIG_ASK.Id(), Bid, price)
  {
    CrossedQuotes();
    assert r[0].Key() == Sig(1, "b") && r[1].Key() == Sig(1, "c");
    assert SigsOf(r) == {Sig(1, "b"), Sig(1, "c")};
  }

  lemma BothPicked(a: Node, m: Node, n: Node, ok: Eligibility)
    requires ok(a, m) && ok(a, n) && !Covers(m, a)
    ensures Picked(a, [m, n], ok) == [m, n]
    ensures TotalAmount(a, [m, n]) == Amount(a, m) + Amount(a, n) && LastAmount(a, [m, n]) == Amount(a, n)
  {
    var r, q := [m, n], [n];
    assert r[1..] == q && q[1..] == [] && r[..1] == [m] && [m][..0] == [];
    assert Picked(a, q, ok) == [n];
    assert TotalAmount(a, [m]) == Amount(a, m);
  }

  lemma CrossedPass(ok: Eligibility, price: Order -> int)
    ensures IsPass(Crossed(), [CrossedRound()], ok, BIG_ASK.Id(), Bid, price)
    ensures FillsOk(Crossed())
  {
    hide Crossed, Quoted, IsQuoteList;
    CrossedQuotes();
    BidsRead(CrossedRound().read, price);
    assert [CrossedRound()][..0] == [];
  }

  function CrossedRound(): Round {
    Round(Resting(BIG_ASK, "a"), [Resting(SMALL_BID, "b"), Resting(SMALL_BID, "c")])
  }

  lemma BidsCross(user: Pubkey)
    requires user != "a"
    ensures RestingEligible(PriceAt(0, 1))(Resting(BIG_ASK, "a"), Resting(SMALL_BID, user))
  {
    assert LimitPrice(BIG_ASK, 0, 1) == Some(5);
    assert LimitPrice(SMALL_BID, 0, 1) == Some(6);
    assert PriceAt(0, 1)(BIG_ASK) == 5 && PriceAt(0, 1)(SMALL_BID) == 6;
    assert DetermineMakerAndTaker(Resting(BIG_ASK, "a"), Resting(SMALL_BID, user)).Some?;
  }

  /** A pass of one round with two matches. */
  lemma TwoMatches(T: Table, a: Node, m: Node, n: Node, ok: Eligibility, id: MarketId, price: Order -> int)
    requires FillsOk(T) && IsPass(T, [Round(a, [m, n])], ok, id, Bid, price)
    requires ok(a, m) && ok(a, n) && !Covers(m, a)
    ensures var T' := PassTable(T, [Round(a, [m, n])], ok);
            && a.Key() in T && T[a.Key()].node == a
            && MatchedBy(Matches([Round(a, [m, n])], ok), a.Key()) == Amount(a, m) + Amount(a, n)
            && a.Key() in T' && T'[a.Key()].node.order.filled == a.order.filled + Amount(a, n)
  {
    hide PassTable, Matches, Picked, MatchedBy, FillsOk, ReadsQuotes;
    var rounds := [Round(a, [m, n])];
    assert rounds[0].outer == a && rounds[0].read == [m, n];
    BothPicked(a, m, n, ok);
    PassOuterFill(T, rounds, ok, id, Bid, price, 0);
  }

  lemma CrossedAmounts(user: Pubkey)
    ensures var a, n := Resting(BIG_ASK, "a"), Resting(SMALL_BID, user);
            && a.order.Remaining() == 10 && a.order.filled == 0 && a.Key() == Sig(1, "a")
            && Amount(a, n) == 6 && !Covers(n, a)
  {}

  /** A pass over three inserted orders that matches an ask of size 10 for 12 and records 6. */
  lemma MatchedTooOften(T: Table, round: Round, ok: Eligibility, price: Order -> int)
    requires T == Crossed() && round == CrossedRound() && price == PriceAt(0, 1) && ok == RestingEligible(price)
    ensures FillsOk(T) && IsPass(T, [round], ok, BIG_ASK.Id(), Bid, price)
    ensures var s, T' := Sig(1, "a"), PassTable(T, [round], ok);
            && s in T && T[s].node.order.Remaining() == 10
            && MatchedBy(Matches([round], ok), s) == 12
            && s in T' && T'[s].node.order.filled == 6
  {
    hide *;
    CrossedPass(ok, price);
    BidsCross("b");
    BidsCross("c");
    CrossedAmounts("b");
    CrossedAmounts("c");
    CrossedRoundIs();
    TwoMatches(T, Resting(BIG_ASK, "a"), Resting(SMALL_BID, "b"), Resting(SMALL_BID, "c"), ok, BIG_ASK.Id(), price);
  }

  lemma CrossedRoundIs()
    ensures CrossedRound() == Round(Resting(BIG_ASK, "a"), [Resting(SMALL_BID, "b"), Resting(SMALL_BID, "c")])
  {}
}
