/**
  * What a matching pass does to the book itself: every match writes two orders back into
  * the lists they are classified to, and the next round reads the lists as they then are.
  * On a book that represents a table this is the pass on that table.
  */
module WriteBacks {
  import opened Collections
  import opened Orders
  import opened Nodes
  import opened OrderLists
  import opened Books
  import opened Tables
  import opened Runs
  import opened Builds
  import opened Queries
  import opened Matching

  // ----- write-backs -----

  /** An order written back with a new fill; without its market, where the source panics, nothing happens. */
  function FillWritten(b: Book, n: Node, filled: int, slot: nat): Book {
    if filled >= 0 && b.Has(n.order.Id()) then b.Updated(n.order.(filled := filled), n.user, slot) else b
  }

  /** One match: the quote first, then the outer order from its own copy. */
  function BookMatched(b: Book, a: Node, n: Node, slot: nat): Book {
    FillWritten(FillWritten(b, n, n.order.filled + Amount(a, n), slot), a, a.order.filled + Amount(a, n), slot)
  }

  function BookRound(b: Book, a: Node, ns: seq<Node>, slot: nat): Book {
    if ns == [] then b else BookMatched(BookRound(b, a, ns[..|ns| - 1], slot), a, ns[|ns| - 1], slot)
  }

  function BookPass(b: Book, rounds: seq<Round>, ok: Eligibility, slot: nat): Book {
    if rounds == [] then b
    else
      var k := |rounds| - 1;
      var a := rounds[k].outer;
      BookRound(BookPass(b, rounds[..k], ok, slot), a, Picked(a, rounds[k].read, ok), slot)
  }

  // ----- reads -----

  /** What reading the quotes of one side returns. */
  ghost predicate IsBookRead(b: Book, r: seq<Node>, id: MarketId, side: Side, price: Order -> int) {
    IsJointDrain(b.Read(id), RestingLimit, FloatingLimit, side, r) && Ordered(r, price, side == Bid)
  }

  /** Every round reads the quotes of the book as the rounds before left it. */
  ghost predicate BookReads(b: Book, rounds: seq<Round>, ok: Eligibility, id: MarketId, side: Side,
                            price: Order -> int, slot: nat) {
    forall k :: 0 <= k < |rounds| ==> IsBookRead(BookPass(b, rounds[..k], ok, slot), rounds[k].read, id, side, price)
  }

  function OutersOf(rounds: seq<Round>): seq<Node> {
    seq(|rounds|, k requires 0 <= k < |rounds| => rounds[k].outer)
  }

  function Opposite(side: Side): Side {
    if side == Bid then Ask else Bid
  }

  /** A pass starts from the quotes of the other side or from the takers of one side. */
  ghost predicate BookOuters(b: Book, outers: seq<Node>, id: MarketId, side: Side) {
    || IsJointDrain(b.Read(id), RestingLimit, FloatingLimit, Opposite(side), outers)
    || exists takerSide :: IsJointDrain(b.Read(id), TakingLimit, NodeType.Market, takerSide, outers)
  }

  /** A whole pass, in terms of the book alone. */
  ghost predicate IsBookPass(b: Book, rounds: seq<Round>, ok: Eligibility, id: MarketId, side: Side,
                             price: Order -> int, slot: nat) {
    BookReads(b, rounds, ok, id, side, price, slot) && BookOuters(b, OutersOf(rounds), id, side)
  }

  // ----- the book during a pass -----

  /** The book stands for `T`, promoted at `slot`, with no order overfilled. */
  ghost predicate Running(b: Book, T: Table, slot: nat) {
    Inv(b, Abstract(T, slot, slot)) && FillsOk(T)
  }

  lemma RunningFacts(b: Book, T: Table, slot: nat)
    requires Running(b, T, slot)
    ensures Represents(b, T) && FillsOk(T) && b.WellFormed() && b.maxSlot == slot
  {}

  lemma UpdateRuns(b: Book, T: Table, s: Sig, filled: nat, slot: nat)
    requires Running(b, T, slot) && s in T && filled <= T[s].node.order.baseAmount
    ensures var o := T[s].node.order.(filled := filled);
            b.Has(o.Id()) && Running(b.Updated(o, s.user, slot), TableFilled(T, s, filled), slot)
  {
    var o := T[s].node.order.(filled := filled);
    assert EntryOk(s, T[s]);
    FillKeepsType(T[s].node.order, filled, slot);
    FillInv(b, Abstract(T, slot, slot), b.Updated(o, s.user, slot), o, s.user, slot);
  }

  lemma FillWrittenRuns(b: Book, T: Table, n: Node, filled: nat, slot: nat)
    requires Running(b, T, slot) && filled <= n.order.baseAmount
    requires n.Key() in T && T[n.Key()].node.WithFilled(n.order.filled) == n
    ensures b.Has(n.order.Id()) && Running(FillWritten(b, n, filled, slot), SetFilled(T, n.Key(), filled), slot)
  {
    hide Running, Book.Updated, TableFilled;
    assert T[n.Key()].node.order.(filled := filled) == n.order.(filled := filled);
    UpdateRuns(b, T, n.Key(), filled, slot);
  }

  /** One match on the book is one match on the table, and finds both markets. */
  lemma BookMatchedRuns(b: Book, T: Table, a: Node, n: Node, slot: nat)
    requires Running(b, T, slot)
    requires n.Key() in T && T[n.Key()].node == n
    requires a.Key() in T && T[a.Key()].node.WithFilled(a.order.filled) == a
    requires a.Key() != n.Key() && FillOk(a)
    ensures b.Has(n.order.Id()) && 0 <= n.order.filled + Amount(a, n) && 0 <= a.order.filled + Amount(a, n)
    ensures FillWritten(b, n, n.order.filled + Amount(a, n), slot).Has(a.order.Id())
    ensures Running(BookMatched(b, a, n, slot), Matched(T, a, n), slot)
  {
    hide Inv, Running, SetFilled, FillWritten;
    RunningFacts(b, T, slot);
    assert FillOk(T[n.Key()].node);
    var amount := Amount(a, n);
    var U := SetFilled(T, n.Key(), n.order.filled + amount);
    FillWrittenRuns(b, T, n, n.order.filled + amount, slot);
    OthersKept(T, n.Key(), n.order.filled + amount, a.Key());
    FillWrittenRuns(FillWritten(b, n, n.order.filled + amount, slot), U, a, a.order.filled + amount, slot);
  }

  lemma OthersKept(T: Table, s: Sig, filled: int, t: Sig)
    requires t in T && s != t
    ensures t in SetFilled(T, s, filled) && SetFilled(T, s, filled)[t] == T[t]
  {}

  // ----- one round -----

  ghost predicate RoundReady(T: Table, a: Node, r: seq<Node>) {
    && FillsOk(T) && FillOk(a)
    && a.Key() in T && T[a.Key()].node.WithFilled(a.order.filled) == a
    && DistinctSigs(r)
    && forall n :: n in r ==> n.Key() in T && T[n.Key()].node == n && n.Key() != a.Key()
  }

  lemma ReadyPrefix(T: Table, a: Node, r: seq<Node>, ok: Eligibility, k: nat)
    requires RoundReady(T, a, r) && k <= |Picked(a, r, ok)|
    ensures RoundReady(T, a, Picked(a, r, ok)[..k])
  {
    PickedDistinct(a, r, ok);
    PickedFromList(a, r, ok);
  }

  /** The last quote of a round is still as it was read, and so is the outer order apart from its fill. */
  lemma LastUnchanged(T: Table, a: Node, ns: seq<Node>)
    requires RoundReady(T, a, ns) && ns != []
    ensures RoundReady(T, a, ns[..|ns| - 1])
    ensures var U, n := AllMatched(T, a, ns[..|ns| - 1]), ns[|ns| - 1];
            && n.Key() in U && U[n.Key()].node == n && n.Key() != a.Key()
            && a.Key() in U && U[a.Key()].node.WithFilled(a.order.filled) == a
  {
    var k := |ns| - 1;
    PickedPrefix(ns, k);
    RoundConserves(T, a, ns[..k], ns[k].Key());
    AllMatchedShape(T, T, a, ns[..k]);
  }

  lemma {:induction false} RoundRuns(b: Book, T: Table, a: Node, ns: seq<Node>, slot: nat)
    requires Running(b, T, slot) && RoundReady(T, a, ns)
    ensures Running(BookRound(b, a, ns, slot), AllMatched(T, a, ns), slot)
  {
    hide Running, BookMatched, Matched;
    if ns == [] {
    } else {
      var k := |ns| - 1;
      LastUnchanged(T, a, ns);
      RoundRuns(b, T, a, ns[..k], slot);
      BookMatchedRuns(BookRound(b, a, ns[..k], slot), AllMatched(T, a, ns[..k]), a, ns[k], slot);
    }
  }

  // ----- whole passes -----

  lemma BookReadIsQuoteList(b: Book, T: Table, r: seq<Node>, id: MarketId, side: Side, price: Order -> int)
    requires Represents(b, T) && IsBookRead(b, r, id, side, price)
    ensures IsQuoteList(r, T, id, side, price)
  {
    JointDrainLists(b, T, id, RestingLimit, FloatingLimit, side, r);
  }

  /** What the next round of a pass finds. */
  lemma RoundIsReady(T: Table, rounds: seq<Round>, ok: Eligibility, id: MarketId, side: Side, price: Order -> int,
                     a: Node, r: seq<Node>)
    requires IsPass(T, rounds, ok, id, side, price) && FillsOk(T)
    requires a.Key() in T && T[a.Key()].node == a && a.Key() !in Quoted(T, id, side)
    requires forall k :: 0 <= k < |rounds| ==> rounds[k].outer.Key() != a.Key()
    requires IsQuoteList(r, PassTable(T, rounds, ok), id, side, price)
    ensures RoundReady(PassTable(T, rounds, ok), a, r)
    ensures IsPass(T, rounds + [Round(a, r)], ok, id, side, price)
  {
    var U := PassTable(T, rounds, ok);
    AfterShape(T, rounds, ok);
    ShapeKeepsQuoted(T, U, id, side);
    PassKeepsFills(T, rounds, ok, id, side, price);
    assert FillOk(T[a.Key()].node);
    forall n | n in r ensures n.Key() in U && U[n.Key()].node == n && n.Key() != a.Key() {
      var i :| 0 <= i < |r| && r[i] == n;
      assert r[i].Key() in SigsOf(r);
    }
    PassExtend(T, rounds, ok, id, side, price, a, r);
  }

  lemma PassExtend(T: Table, rounds: seq<Round>, ok: Eligibility, id: MarketId, side: Side, price: Order -> int,
                   a: Node, r: seq<Node>)
    requires IsPass(T, rounds, ok, id, side, price) && IsQuoteList(r, PassTable(T, rounds, ok), id, side, price)
    requires a.Key() in T && T[a.Key()].node == a && a.Key() !in Quoted(T, id, side)
    requires forall k :: 0 <= k < |rounds| ==> rounds[k].outer.Key() != a.Key()
    ensures IsPass(T, rounds + [Round(a, r)], ok, id, side, price)
  {
    hide IsQuoteList, PassTable, Quoted;
    var rounds' := rounds + [Round(a, r)];
    forall k | 0 <= k < |rounds'|
      ensures IsQuoteList(rounds'[k].read, PassTable(T, rounds'[..k], ok), id, side, price)
    {
      assert rounds'[..k] == rounds[..k];
      assert rounds[..|rounds|] == rounds;
    }
  }

  lemma BookReadsPrefix(b: Book, rounds: seq<Round>, ok: Eligibility, id: MarketId, side: Side, price: Order -> int,
                        slot: nat)
    requires BookReads(b, rounds, ok, id, side, price, slot) && rounds != []
    ensures var n := |rounds| - 1;
            && BookReads(b, rounds[..n], ok, id, side, price, slot)
            && IsBookRead(BookPass(b, rounds[..n], ok, slot), rounds[n].read, id, side, price)
  {
    hide IsBookRead, BookPass;
    var n := |rounds| - 1;
    forall k | 0 <= k < n
      ensures IsBookRead(BookPass(b, rounds[..n][..k], ok, slot), rounds[..n][k].read, id, side, price)
    {
      assert rounds[..n][..k] == rounds[..k];
    }
  }

  /** A pass on the book is that pass on the table it represents. */
  lemma {:induction false} PassRuns(b: Book, T: Table, rounds: seq<Round>, ok: Eligibility, id: MarketId, side: Side,
                                    price: Order -> int, slot: nat)
    requires Running(b, T, slot) && OutersOk(T, rounds, id, side)
    requires BookReads(b, rounds, ok, id, side, price, slot)
    ensures IsPass(T, rounds, ok, id, side, price)
    ensures Running(BookPass(b, rounds, ok, slot), PassTable(T, rounds, ok), slot)
  {
    hide Running, Represents, IsBookRead, BookReads, AllMatched, BookRound, Picked, IsQuoteList, Quoted;
    RunningFacts(b, T, slot);
    if rounds == [] {
    } else {
      var n := |rounds| - 1;
      var a, r := rounds[n].outer, rounds[n].read;
      var c, U := BookPass(b, rounds[..n], ok, slot), PassTable(T, rounds[..n], ok);
      BookReadsPrefix(b, rounds, ok, id, side, price, slot);
      OutersPrefix(T, rounds, id, side);
      PassRuns(b, T, rounds[..n], ok, id, side, price, slot);
      RunningFacts(c, U, slot);
      BookReadIsQuoteList(c, U, r, id, side, price);
      RoundIsReady(T, rounds[..n], ok, id, side, price, a, r);
      assert rounds[..n] + [Round(a, r)] == rounds;
      PickedRuns(c, U, a, r, ok, slot);
    }
  }

  lemma PickedRuns(b: Book, T: Table, a: Node, r: seq<Node>, ok: Eligibility, slot: nat)
    requires Running(b, T, slot) && RoundReady(T, a, r)
    ensures Running(BookRound(b, a, Picked(a, r, ok), slot), AllMatched(T, a, Picked(a, r, ok)), slot)
  {
    hide Running, RoundReady, BookRound, AllMatched;
    var ns := Picked(a, r, ok);
    ReadyPrefix(T, a, r, ok, |ns|);
    assert ns[..|ns|] == ns;
    RoundRuns(b, T, a, ns, slot);
  }

  /** What a pass starts from are distinct entries that are not quotes of its side. */
  lemma BookOutersOk(b: Book, T: Table, rounds: seq<Round>, id: MarketId, side: Side)
    requires Represents(b, T) && BookOuters(b, OutersOf(rounds), id, side)
    ensures OutersOk(T, rounds, id, side)
  {
    hide Represents, IsJointDrain;
    var outers := OutersOf(rounds);
    if IsJointDrain(b.Read(id), RestingLimit, FloatingLimit, Opposite(side), outers) {
      JointDrainLists(b, T, id, RestingLimit, FloatingLimit, Opposite(side), outers);
      ListedOutersOk(T, rounds, Quoted(T, id, Opposite(side)), id, side);
    } else {
      var takerSide :| IsJointDrain(b.Read(id), TakingLimit, NodeType.Market, takerSide, outers);
      JointDrainLists(b, T, id, TakingLimit, NodeType.Market, takerSide, outers);
      ListedOutersOk(T, rounds, Members(T, id, TakingLimit, takerSide) + Members(T, id, NodeType.Market, takerSide),
                     id, side);
    }
  }

  lemma ListedOutersOk(T: Table, rounds: seq<Round>, keys: set<Sig>, id: MarketId, side: Side)
    requires Lists(OutersOf(rounds), T, keys) && keys !! Quoted(T, id, side)
    ensures OutersOk(T, rounds, id, side)
  {
    var outers := OutersOf(rounds);
    forall k | 0 <= k < |rounds|
      ensures rounds[k].outer.Key() in T && T[rounds[k].outer.Key()].node == rounds[k].outer
      ensures rounds[k].outer.Key() !in Quoted(T, id, side)
    {
      assert outers[k] == rounds[k].outer && outers[k].Key() in SigsOf(outers);
    }
    forall j, k | 0 <= j < k < |rounds| ensures rounds[j].outer.Key() != rounds[k].outer.Key() {
      assert outers[j].Key() != outers[k].Key();
    }
  }

  /** A pass on the book keeps it running; the table it then stands for is the table after the pass. */
  lemma BookPassRuns(b: Book, T: Table, rounds: seq<Round>, ok: Eligibility, id: MarketId, side: Side,
                     price: Order -> int, slot: nat)
    requires Running(b, T, slot) && IsBookPass(b, rounds, ok, id, side, price, slot)
    ensures IsPass(T, rounds, ok, id, side, price)
    ensures Running(BookPass(b, rounds, ok, slot), PassTable(T, rounds, ok), slot)
  {
    hide Running, BookReads, BookOuters, OutersOk;
    RunningFacts(b, T, slot);
    BookOutersOk(b, T, rounds, id, side);
    PassRuns(b, T, rounds, ok, id, side, price, slot);
  }

  // ----- the promotion a pass begins with -----

  lemma PromotionKeepsFills(T: Table, slot: nat)
    requires FillsOk(T)
    ensures FillsOk(TablePromoted(T, slot))
  {
    var T' := TablePromoted(T, slot);
    assert forall s :: s in T' ==> T'[s].node == T[s].node;
  }

  /** The first read of a pass promotes the book. */
  lemma FirstReadPromotes(b: Book, a: Abstract, b': Book, slot: nat, pv: seq<nat>, sv: seq<nat>)
    requires Inv(b, a) && FillsOk(a.table) && a.now <= slot && Allowed(a, b, Promote(slot, [], []))
    requires IsPromotion(b, b', slot, pv, sv)
    ensures Running(b', TablePromoted(a.table, slot), slot)
  {
    hide Represents, IsPromotion, TimeOk;
    PromoteInv(b, a, b', slot, pv, sv);
    PromotionKeepsFills(a.table, slot);
    ClockAfter(b, a, slot);
  }

  lemma ClockAfter(b: Book, a: Abstract, slot: nat)
    requires Inv(b, a) && a.now <= slot
    ensures Max(a.maxSlot, slot) == slot
  {}

  /** Promoting again at the same slot changes nothing. */
  lemma PromotedAlready(b: Book, T: Table, slot: nat)
    requires Running(b, T, slot)
    ensures TablePromoted(T, slot) == T && Allowed(Abstract(T, slot, slot), b, Promote(slot, [], []))
  {
    PromotionKeepsTime(T, slot, slot, slot);
  }
}
