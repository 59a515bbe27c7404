/**
  * Whole lives of a book: builds, inserts, promotions and matching passes in any order. Unlike
  * the runs of module `Runs`, a session leaves no fill to the caller: each pass writes its own,
  * and the only assumption about amounts concerns the orders as they are inserted or built.
  */
module Sessions {
  import opened Collections
  import opened Orders
  import opened Nodes
  import opened OrderLists
  import opened Books
  import opened Tables
  import opened Runs
  import opened Builds
  import opened Queries
  import opened Matching
  import opened Outers
  import opened WriteBacks

  // ----- moves -----

  /** A build from a user map, an insert or promotion, or a pass over the quotes of one side of a market. */
  datatype Move =
    | Build(users: Users, visit: seq<Pubkey>, slot: nat)
    | Apply(op: Op)
    | Pass(rounds: seq<Round>, ok: Eligibility, id: MarketId, side: Side, price: Order -> int)

  /** What a move does to the book. */
  ghost predicate MoveNext(b: Book, m: Move, b': Book) {
    match m
    case Build(users, visit, slot) => (forall u :: u in visit ==> u in users) && b' == Built(users, visit, slot)
    case Apply(op) => Next(b, op, b')
    case Pass(rounds, ok, id, side, price) =>
      IsBookPass(b, rounds, ok, id, side, price, b.maxSlot) && b' == BookPass(b, rounds, ok, b.maxSlot)
  }

  function MoveStep(a: Abstract, m: Move): Abstract {
    match m
    case Build(users, _, slot) => Abstract(UserTable(users, slot), 0, slot)
    case Apply(op) => Step(a, op)
    case Pass(rounds, ok, _, _, _) => a.(table := PassTable(a.table, rounds, ok))
  }

  /**
    * The regime of `Runs`, without fills. A build visits every user once; a pass happens at the slot
    * the book is promoted to, no earlier than any insert.
    */
  ghost predicate MoveAllowed(a: Abstract, b: Book, m: Move) {
    match m
    case Build(users, visit, _) => Visits(visit, users.Keys) && forall u :: u in users ==> DistinctIds(users[u])
    case Apply(op) => !op.Fill? && Allowed(a, b, op)
    case Pass(_, _, _, _, _) => a.now == a.maxSlot
  }

  function AfterAll(moves: seq<Move>): Abstract {
    if |moves| == 0 then Start() else MoveStep(AfterAll(moves[..|moves| - 1]), moves[|moves| - 1])
  }

  ghost predicate IsSession(books: seq<Book>, moves: seq<Move>) {
    && |books| == |moves| + 1
    && books[0] == EmptyBook()
    && forall i :: 0 <= i < |moves| ==>
         MoveNext(books[i], moves[i], books[i + 1]) && MoveAllowed(AfterAll(moves[..i]), books[i], moves[i])
  }

  /** No order arrives with more filled than its size. */
  predicate ArrivesWithin(m: Move) {
    match m
    case Build(users, _, _) =>
      forall u :: u in users ==>
        forall i :: 0 <= i < |users[u]| && users[u][i].status != Init ==> users[u][i].filled <= users[u][i].baseAmount
    case Apply(op) => op.Insert? ==> op.order.filled <= op.order.baseAmount
    case Pass(_, _, _, _, _) => true
  }

  /** Nothing is assumed of later writes. */
  predicate InsertedWithin(moves: seq<Move>) {
    forall i :: 0 <= i < |moves| ==> ArrivesWithin(moves[i])
  }

  lemma SessionPrefix(books: seq<Book>, moves: seq<Move>, n: nat)
    requires IsSession(books, moves) && InsertedWithin(moves) && n <= |moves|
    ensures |books| == |moves| + 1 && IsSession(books[..n + 1], moves[..n]) && InsertedWithin(moves[..n])
    ensures n < |moves| ==>
              && MoveNext(books[n], moves[n], books[n + 1])
              && MoveAllowed(AfterAll(moves[..n]), books[n], moves[n])
              && ArrivesWithin(moves[n])
  {
    hide MoveNext, MoveAllowed, ArrivesWithin;
    assert forall i :: 0 <= i < n ==> moves[..n][..i] == moves[..i];
  }

  // ----- every reachable book -----

  ghost predicate Sound(b: Book, a: Abstract) {
    Inv(b, a) && FillsOk(a.table)
  }

  lemma SoundRuns(b: Book, a: Abstract)
    requires Sound(b, a) && a.now == a.maxSlot
    ensures b.maxSlot == a.maxSlot && a == Abstract(a.table, a.now, a.now) && Running(b, a.table, a.now)
  {}

  /** Each move keeps the book represented and no order overfilled. */
  lemma MoveKeepsSound(b: Book, a: Abstract, m: Move, b': Book)
    requires Sound(b, a) && MoveNext(b, m, b') && MoveAllowed(a, b, m) && ArrivesWithin(m)
    ensures Sound(b', MoveStep(a, m))
  {
    hide Represents, TimeOk, Next, Allowed, IsBookPass, BookPass, PassTable, UserTable, Built;
    match m
    case Build(users, visit, slot) =>
      BuildIsSound(users, visit, slot);
    case Apply(op) =>
      StepInv(b, a, op, b');
      StepKeepsFills(a, op);
    case Pass(rounds, ok, id, side, price) =>
      SoundRuns(b, a);
      BookPassRuns(b, a.table, rounds, ok, id, side, price, a.now);
  }

  lemma BuildIsSound(users: Users, visit: seq<Pubkey>, slot: nat)
    requires Visits(visit, users.Keys) && forall u :: u in users ==> DistinctIds(users[u])
    requires (forall u :: u in visit ==> u in users) && ArrivesWithin(Build(users, visit, slot))
    ensures Sound(Built(users, visit, slot), Abstract(UserTable(users, slot), 0, slot))
  {
    hide UserTable, Built, TableBuilt, Inv, DistinctIds;
    BuiltInv(users, visit, slot);
    TableBuiltIsUserTable(users, visit, slot);
    UserTableExact(users, slot);
    forall s | s in UserTable(users, slot) ensures FillOk(UserTable(users, slot)[s].node) {
      var p :| p in UsedSlots(users) && SigAt(users, p) == s;
    }
  }

  lemma StepKeepsFills(a: Abstract, op: Op)
    requires FillsOk(a.table) && !op.Fill?
    requires op.Insert? ==> op.order.filled <= op.order.baseAmount
    ensures FillsOk(Step(a, op).table)
  {
    if op.Promote? {
      PromotionKeepsFills(a.table, op.slot);
    }
  }

  /** No reachable book stores an overfilled order, given only that none was inserted or built overfilled. */
  lemma {:induction false} SessionSound(books: seq<Book>, moves: seq<Move>)
    requires IsSession(books, moves) && InsertedWithin(moves)
    ensures |books| == |moves| + 1
    ensures Inv(books[|moves|], AfterAll(moves)) && FillsOk(AfterAll(moves).table)
  {
    hide Inv, MoveNext, MoveAllowed, MoveStep, ArrivesWithin;
    if |moves| == 0 {
      EmptyStart();
    } else {
      var n := |moves| - 1;
      SessionPrefix(books, moves, n);
      SessionSound(books[..n + 1], moves[..n]);
      MoveKeepsSound(books[n], AfterAll(moves[..n]), moves[n], books[n + 1]);
    }
  }

  /** Every order a pass of a session reads, as outer order or as quote, has a non-negative amount left. */
  lemma SessionReadsWithin(books: seq<Book>, moves: seq<Move>, i: nat, k: nat)
    requires IsSession(books, moves) && InsertedWithin(moves)
    requires i < |moves| && moves[i].Pass? && k < |moves[i].rounds|
    ensures moves[i].rounds[k].outer.order.Remaining() >= 0
    ensures forall n :: n in moves[i].rounds[k].read ==> n.order.Remaining() >= 0
  {
    hide IsSession, Inv, FillsOk, IsBookPass, BookPass, PassTable, AfterAll;
    SessionPrefix(books, moves, i);
    SessionSound(books[..i + 1], moves[..i]);
    var a, m := AfterAll(moves[..i]), moves[i];
    SoundRuns(books[i], a);
    BookPassRuns(books[i], a.table, m.rounds, m.ok, m.id, m.side, m.price, a.now);
    PassOuterFill(a.table, m.rounds, m.ok, m.id, m.side, m.price, k);
  }

  /** The book is promoted to the latest slot of any build, insert or promotion. */
  predicate UpToDate(a: Abstract) {
    a.now == a.maxSlot
  }

  lemma SessionSettled(books: seq<Book>, moves: seq<Move>)
    requires IsSession(books, moves) && InsertedWithin(moves) && UpToDate(AfterAll(moves))
    ensures |books| == |moves| + 1 && Represents(books[|moves|], AfterAll(moves).table)
    ensures Settled(AfterAll(moves).table, AfterAll(moves).now)
  {
    hide IsSession, AfterAll, Represents;
    SessionSound(books, moves);
  }

  /** Then every list reads as the orders classified there. */
  lemma SessionReads(books: seq<Book>, moves: seq<Move>, id: MarketId, t: NodeType, side: Side, r: seq<Node>)
    requires IsSession(books, moves) && InsertedWithin(moves) && UpToDate(AfterAll(moves))
    requires IsDrain(books[|moves|].Read(id).List(t), side, r)
    ensures var a := AfterAll(moves); Lists(r, a.table, Classified(a.table, a.now, id, t, side))
  {
    hide IsSession, AfterAll, Represents, IsDrain;
    SessionSettled(books, moves);
    SettledRead(books[|moves|], AfterAll(moves).table, AfterAll(moves).now, id, t, side, r);
  }

  /** And quotes and takers contain every order so classified exactly once. */
  lemma SessionJointReads(books: seq<Book>, moves: seq<Move>, id: MarketId, t: NodeType, u: NodeType, side: Side,
                          r: seq<Node>)
    requires IsSession(books, moves) && InsertedWithin(moves) && UpToDate(AfterAll(moves))
    requires t != u && IsJointDrain(books[|moves|].Read(id), t, u, side, r)
    ensures var a := AfterAll(moves);
            Lists(r, a.table, Classified(a.table, a.now, id, t, side) + Classified(a.table, a.now, id, u, side))
  {
    hide IsSession, AfterAll, Represents, IsJointDrain;
    SessionSettled(books, moves);
    SettledJointRead(books[|moves|], AfterAll(moves).table, AfterAll(moves).now, id, t, u, side, r);
  }

  /** At any time a lookup finds exactly the order of the table, with the fill the passes gave it. */
  lemma SessionLookup(books: seq<Book>, moves: seq<Move>, s: Sig, r: Option<Order>)
    requires IsSession(books, moves) && InsertedWithin(moves)
    requires IsLookup(books[|moves|], s, r)
    ensures var T := AfterAll(moves).table; r == if s in T then Some(T[s].node.order) else None
  {
    hide IsSession, AfterAll, Represents, IsLookup;
    SessionSound(books, moves);
    LookupInTable(books[|moves|], AfterAll(moves).table, s, r);
  }

  /** The production path: a build, a promotion at a slot no earlier, and then a read. */
  lemma BuiltReads(users: Users, visit: seq<Pubkey>, slot: nat, b: Book, S: nat, pv: seq<nat>, sv: seq<nat>,
                   id: MarketId, t: NodeType, side: Side, r: seq<Node>)
    requires Visits(visit, users.Keys) && (forall u :: u in users ==> DistinctIds(users[u]))
    requires (forall u :: u in visit ==> u in users) && slot <= S
    requires IsPromotion(Built(users, visit, slot), b, S, pv, sv) && IsDrain(b.Read(id).List(t), side, r)
    ensures var T := TablePromoted(UserTable(users, slot), S); Lists(r, T, Classified(T, S, id, t, side))
  {
    hide Built, UserTable, TableBuilt, IsPromotion, IsDrain, Represents, DistinctIds, Unmixed;
    var built, a := Built(users, visit, slot), Abstract(UserTable(users, slot), 0, slot);
    BuiltInv(users, visit, slot);
    TableBuiltIsUserTable(users, visit, slot);
    RegimesAllow(built, a, S, pv, sv);
    PromoteInv(built, a, b, S, pv, sv);
    PromotionSettles(a.table, 0, slot, S);
    SettledRead(b, TablePromoted(a.table, S), S, id, t, side, r);
  }

  /** A used order slot of account `u` whose order belongs in list `t` of this market and side. */
  predicate Wanted(o: Order, slot: nat, id: MarketId, t: NodeType, side: Side) {
    && o.status != Init
    && o.marketType == id.kind && o.marketIndex == id.index
    && ListedIn(o, slot, t) && OnSide(o, side)
  }

  /**
    * What such a read returns, in terms of the user accounts alone: each of their orders that belongs in the
    * list, once, and nothing else.
    */
  lemma BuiltReadsExactly(users: Users, visit: seq<Pubkey>, slot: nat, b: Book, S: nat, pv: seq<nat>, sv: seq<nat>,
                          id: MarketId, t: NodeType, side: Side, r: seq<Node>)
    requires Visits(visit, users.Keys) && (forall u :: u in users ==> DistinctIds(users[u]))
    requires (forall u :: u in visit ==> u in users) && slot <= S
    requires IsPromotion(Built(users, visit, slot), b, S, pv, sv) && IsDrain(b.Read(id).List(t), side, r)
    ensures DistinctSigs(r)
    ensures forall n :: n in r ==> n.user in users && n.order in users[n.user] && Wanted(n.order, S, id, t, side)
    ensures forall u, i :: u in users && 0 <= i < |users[u]| && Wanted(users[u][i], S, id, t, side) ==>
              exists k :: 0 <= k < |r| && r[k].order == users[u][i] && r[k].user == u
  {
    hide Built, IsPromotion, IsDrain, Wanted, UserTable, DistinctIds, Classified, TablePromoted;
    BuiltReads(users, visit, slot, b, S, pv, sv, id, t, side, r);
    forall n | n in r ensures n.user in users && n.order in users[n.user] && Wanted(n.order, S, id, t, side) {
      ReadIsWanted(users, slot, S, id, t, side, r, n);
    }
    forall u, i | u in users && 0 <= i < |users[u]| && Wanted(users[u][i], S, id, t, side)
      ensures exists k :: 0 <= k < |r| && r[k].order == users[u][i] && r[k].user == u
    {
      WantedIsRead(users, slot, S, id, t, side, r, u, i);
    }
  }

  lemma PromotedNodes(T: Table, slot: nat)
    ensures TablePromoted(T, slot).Keys == T.Keys
    ensures forall s :: s in T ==> TablePromoted(T, slot)[s].node == T[s].node
  {}

  lemma ReadIsWanted(users: Users, slot: nat, S: nat, id: MarketId, t: NodeType, side: Side, r: seq<Node>, n: Node)
    requires (forall u :: u in users ==> DistinctIds(users[u])) && n in r
    requires var T := TablePromoted(UserTable(users, slot), S); Lists(r, T, Classified(T, S, id, t, side))
    ensures n.user in users && n.order in users[n.user] && Wanted(n.order, S, id, t, side)
  {
    hide UserTable, DistinctIds, TablePromoted, ListedIn, OnSide, TypeAt, SideOf, PlacedWell;
    PromotedNodes(UserTable(users, slot), S);
    UserTableExact(users, slot);
    var k :| 0 <= k < |r| && r[k] == n;
    assert r[k].Key() in SigsOf(r);
    var p :| p in UsedSlots(users) && SigAt(users, p) == n.Key();
    assert n.order == users[p.0][p.1] && n.user == p.0;
  }

  lemma WantedIsRead(users: Users, slot: nat, S: nat, id: MarketId, t: NodeType, side: Side, r: seq<Node>,
                     u: Pubkey, i: nat)
    requires (forall u :: u in users ==> DistinctIds(users[u]))
    requires u in users && i < |users[u]| && Wanted(users[u][i], S, id, t, side)
    requires var T := TablePromoted(UserTable(users, slot), S); Lists(r, T, Classified(T, S, id, t, side))
    ensures exists k :: 0 <= k < |r| && r[k].order == users[u][i] && r[k].user == u
  {
    hide UserTable, DistinctIds, TablePromoted, ListedIn, OnSide, TypeAt, SideOf, PlacedWell;
    var T0 := UserTable(users, slot);
    PromotedNodes(T0, S);
    UserTableExact(users, slot);
    assert (u, i) in UsedSlots(users);
    var s := SigAt(users, (u, i));
    assert s in T0 && T0[s].node.order == users[u][i] && T0[s].node.user == u;
    assert s in SigsOf(r);
  }

  // ----- conservation over a whole session -----

  /** The amount matched against `s` as a quote, over all passes. */
  function MatchedOver(moves: seq<Move>, s: Sig): int {
    if |moves| == 0 then 0
    else
      var m := moves[|moves| - 1];
      MatchedOver(moves[..|moves| - 1], s) + if m.Pass? then MatchedAgainst(Matches(m.rounds, m.ok), s) else 0
  }

  /** What the rounds that start from `s` leave recorded, over all passes. */
  function RecordedOver(moves: seq<Move>, s: Sig): int {
    if |moves| == 0 then 0
    else
      var m := moves[|moves| - 1];
      RecordedOver(moves[..|moves| - 1], s) + if m.Pass? then Recorded(m.rounds, m.ok, s) else 0
  }

  /** No pass starts from `s`. */
  predicate NeverOuter(moves: seq<Move>, s: Sig) {
    forall i :: 0 <= i < |moves| && moves[i].Pass? ==>
      forall k :: 0 <= k < |moves[i].rounds| ==> moves[i].rounds[k].outer.Key() != s
  }

  /** The book is not built anew. */
  predicate NoBuild(moves: seq<Move>) {
    forall i :: 0 <= i < |moves| ==> !moves[i].Build?
  }

  lemma {:induction false} NeverOuterRecordsNothing(moves: seq<Move>, s: Sig)
    requires NeverOuter(moves, s)
    ensures RecordedOver(moves, s) == 0
  {
    if |moves| == 0 {
    } else {
      var n := |moves| - 1;
      NeverOuterRecordsNothing(moves[..n], s);
      if moves[n].Pass? {
        RecordedNothing(moves[n].rounds, moves[n].ok, s);
      }
    }
  }

  /** A move changes at most the fill of an order, never downwards, and by a known amount. */
  lemma MoveFills(b: Book, a: Abstract, m: Move, b': Book, s: Sig)
    requires Sound(b, a) && MoveNext(b, m, b') && MoveAllowed(a, b, m) && !m.Build? && s in a.table
    ensures var T' := MoveStep(a, m).table;
            && s in T' && T'[s].node == a.table[s].node.WithFilled(T'[s].node.order.filled)
            && a.table[s].node.order.filled <= T'[s].node.order.filled
            && T'[s].node.order.filled == a.table[s].node.order.filled + MatchedOver([m], s) + RecordedOver([m], s)
  {
    hide Inv, IsBookPass, BookPass, PassTable, FillsOk, SameShape, IsPass, Matches, MatchedAgainst, Recorded;
    assert [m][..0] == [] && MatchedOver([m][..0], s) == 0 && RecordedOver([m][..0], s) == 0;
    match m
    case Apply(op) =>
    case Pass(rounds, ok, id, side, price) =>
      SoundRuns(b, a);
      BookPassRuns(b, a.table, rounds, ok, id, side, price, a.now);
      PassKeepsFills(a.table, rounds, ok, id, side, price);
      AfterShape(a.table, rounds, ok);
      ShapeAt(a.table, PassTable(a.table, rounds, ok), s);
      PassGrowth(a.table, rounds, ok, id, side, price, s);
  }

  lemma ShapeAt(T: Table, T': Table, s: Sig)
    requires SameShape(T, T') && s in T
    ensures s in T' && T'[s].node == T[s].node.WithFilled(T'[s].node.order.filled)
  {}

  lemma NothingMatched(moves: seq<Move>, s: Sig)
    requires |moves| == 0
    ensures MatchedOver(moves, s) == 0 && RecordedOver(moves, s) == 0
  {}

  lemma SplitLast(moves: seq<Move>, j: nat, s: Sig)
    requires j < |moves|
    ensures var n := |moves| - 1;
            && MatchedOver(moves[j..], s) == MatchedOver(moves[..n][j..], s) + MatchedOver([moves[n]], s)
            && RecordedOver(moves[j..], s) == RecordedOver(moves[..n][j..], s) + RecordedOver([moves[n]], s)
            && (NoBuild(moves[j..]) ==> NoBuild(moves[..n][j..]) && !moves[n].Build?)
  {
    var n := |moves| - 1;
    assert moves[j..][..n - j] == moves[..n][j..];
    assert moves[j..][n - j] == moves[n];
    assert [moves[n]][..0] == [];
    assert forall i :: 0 <= i < n - j ==> moves[..n][j..][i] == moves[j..][i];
  }

  /**
    * Conservation for life: from any point of a session on, the fill of every order grows by exactly
    * what all later passes match against it as a quote, plus the last match of each round they start
    * from it. In sum this is never negative and at most what it had left at that point.
    */
  lemma {:induction false} LifeConserves(books: seq<Book>, moves: seq<Move>, j: nat, s: Sig)
    requires IsSession(books, moves) && InsertedWithin(moves) && j <= |moves| && NoBuild(moves[j..])
    requires s in AfterAll(moves[..j]).table
    ensures var T, T' := AfterAll(moves[..j]).table, AfterAll(moves).table;
            && s in T' && T'[s].node == T[s].node.WithFilled(T'[s].node.order.filled)
            && T[s].node.order.filled <= T'[s].node.order.filled <= T[s].node.order.baseAmount
            && T'[s].node.order.filled
               == T[s].node.order.filled + MatchedOver(moves[j..], s) + RecordedOver(moves[j..], s)
  {
    hide IsSession, Inv, MoveNext, MoveAllowed, MoveStep, MatchedOver, RecordedOver, NoBuild, ArrivesWithin;
    SessionSound(books, moves);
    if j == |moves| {
      assert moves[..j] == moves && |moves[j..]| == 0;
      NothingMatched(moves[j..], s);
      assert FillOk(AfterAll(moves).table[s].node);
    } else {
      var n := |moves| - 1;
      SessionPrefix(books, moves, n);
      SessionSound(books[..n + 1], moves[..n]);
      assert moves[..n][..j] == moves[..j];
      SplitLast(moves, j, s);
      LifeConserves(books[..n + 1], moves[..n], j, s);
      MoveFills(books[n], AfterAll(moves[..n]), moves[n], books[n + 1], s);
      assert FillOk(AfterAll(moves).table[s].node);
    }
  }

  /** An order that no later pass starts from is matched, in sum, for at most what it had left. */
  lemma QuoteForLife(books: seq<Book>, moves: seq<Move>, j: nat, s: Sig)
    requires IsSession(books, moves) && InsertedWithin(moves) && j <= |moves| && NoBuild(moves[j..])
    requires s in AfterAll(moves[..j]).table && NeverOuter(moves[j..], s)
    ensures 0 <= MatchedOver(moves[j..], s) <= AfterAll(moves[..j]).table[s].node.order.Remaining()
    ensures var T, T' := AfterAll(moves[..j]).table, AfterAll(moves).table;
            s in T' && T'[s].node.order.filled == T[s].node.order.filled + MatchedOver(moves[j..], s)
  {
    hide IsSession, InsertedWithin, AfterAll, MatchedOver, NoBuild;
    LifeConserves(books, moves, j, s);
    NeverOuterRecordsNothing(moves[j..], s);
  }
}
