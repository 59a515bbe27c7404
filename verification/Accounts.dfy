/** The account list of an instruction: seen-masks and a sorted vector. */
module Accounts {
  import opened Collections
  import opened Orders

  /**
    * An account key as the list compares it: a big-endian byte string, that is, a number. The other
    * modules only print keys and test them for equality, so there they are texts (`Pubkey`).
    */
  type Key = nat

  /** A market as the masks see it: its index keeps the 16 bits that the shift cuts down. */
  datatype MarketRef = MarketRef(kind: MarketType, index: bv16)

  const QUOTE_SPOT: MarketRef := MarketRef(MarketType.Spot, 0)

  datatype Config = Config(pubkey: Key, oracle: Key)

  type ProgramData = map<MarketRef, Config>

  datatype Remaining = Oracle(pubkey: Key) | Spot(pubkey: Key, writable: bool) | Perp(pubkey: Key, writable: bool) {
    function Rank(): nat {
      match this
      case Oracle(_) => 0
      case Spot(_, _) => 1
      case Perp(_, _) => 2
    }

    predicate Less(other: Remaining) {
      Rank() < other.Rank() || (Rank() == other.Rank() && pubkey < other.pubkey)
    }

    /** Equality of the ordering: it does not look at `writable`. */
    predicate Same(other: Remaining) {
      Rank() == other.Rank() && pubkey == other.pubkey
    }

    function ToMeta(): AccountMeta {
      AccountMeta(pubkey, !Oracle? && writable, false)
    }
  }

  datatype AccountMeta = AccountMeta(pubkey: Key, isWritable: bool, isSigner: bool)

  // ----- the seen masks -----

  /** The mask bit of a market index; the shift amount is taken modulo the mask width. */
  function Bit(index: bv16): bv64 {
    1 << ((index & 63) as bv64)
  }

  predicate InMask(mask: bv64, index: bv16) {
    mask & Bit(index) != 0
  }

  /** Two markets that share a mask bit. */
  predicate Collide(a: MarketRef, b: MarketRef) {
    a.kind == b.kind && a.index & 63 == b.index & 63
  }

  lemma AndOverOr(m: bv64, b: bv64, c: bv64)
    ensures (m | b) & c == (m & c) | (b & c)
  {}

  lemma OrIsZero(x: bv64, y: bv64)
    ensures x | y == 0 <==> x == 0 && y == 0
  {}

  lemma BitsMeet(i: bv64, j: bv64)
    requires i < 64 && j < 64
    ensures (1 as bv64 << i) & (1 as bv64 << j) != 0 <==> i == j
  {}

  lemma WidenedIndex(i: bv16, j: bv16)
    ensures ((i & 63) as bv64) < 64
    ensures i & 63 == j & 63 <==> ((i & 63) as bv64) == ((j & 63) as bv64)
  {}

  lemma MaskAfterSet(mask: bv64, i: bv16, j: bv16)
    ensures InMask(mask | Bit(i), j) <==> InMask(mask, j) || i & 63 == j & 63
  {
    WidenedIndex(i, j);
    WidenedIndex(j, i);
    BitsMeet((i & 63) as bv64, (j & 63) as bv64);
    AndOverOr(mask, Bit(i), Bit(j));
    OrIsZero(mask & Bit(j), Bit(i) & Bit(j));
  }

  lemma SmallIndexesDiffer(i: bv16, j: bv16)
    requires i < 64 && j < 64 && i & 63 == j & 63
    ensures i == j
  {}

  // ----- the sorted vector -----

  predicate StrictlySorted(xs: seq<Remaining>) {
    forall i, j :: 0 <= i < j < |xs| ==> xs[i].Less(xs[j])
  }

  /** A strictly sorted list is determined by its elements. */
  lemma {:induction false} SortedIsUnique(xs: seq<Remaining>, ys: seq<Remaining>)
    requires StrictlySorted(xs) && StrictlySorted(ys) && Elems(xs) == Elems(ys)
    ensures xs == ys
  {
    if xs == [] {
      HasElems(ys);
    } else {
      assert xs[0] in Elems(ys);
      assert ys != [];
      assert ys[0] in Elems(xs);
      SameHead(xs, ys);
      TailElems(xs);
      TailElems(ys);
      SortedIsUnique(xs[1..], ys[1..]);
      assert xs == [xs[0]] + xs[1..] && ys == [ys[0]] + ys[1..];
    }
  }

  lemma HasElems(xs: seq<Remaining>)
    ensures xs != [] ==> Elems(xs) != {}
  {
    if xs != [] {
      assert xs[0] in Elems(xs);
    }
  }

  lemma SameHead(xs: seq<Remaining>, ys: seq<Remaining>)
    requires StrictlySorted(xs) && StrictlySorted(ys) && xs != [] && ys != []
    requires xs[0] in ys && ys[0] in xs
    ensures xs[0] == ys[0]
  {
    var i :| 0 <= i < |ys| && ys[i] == xs[0];
    var j :| 0 <= j < |xs| && xs[j] == ys[0];
    assert i == 0 || ys[0].Less(ys[i]);
    assert j == 0 || xs[0].Less(xs[j]);
  }

  lemma TailElems(xs: seq<Remaining>)
    requires StrictlySorted(xs) && xs != []
    ensures Elems(xs[1..]) == Elems(xs) - {xs[0]}
  {
    assert xs == [xs[0]] + xs[1..];
    forall i | 1 <= i < |xs| ensures xs[i] != xs[0] {
      assert xs[0].Less(xs[i]);
    }
  }

  /** `slice::binary_search`. */
  method BinarySearch(xs: seq<Remaining>, x: Remaining) returns (found: bool, at: nat)
    requires StrictlySorted(xs)
    ensures found ==> at < |xs| && xs[at].Same(x)
    ensures !found ==>
              && at <= |xs|
              && (forall i :: 0 <= i < at ==> xs[i].Less(x))
              && forall i :: at <= i < |xs| ==> x.Less(xs[i])
  {
    var lo, hi := 0, |xs|;
    while lo < hi
      invariant lo <= hi <= |xs|
      invariant forall i :: 0 <= i < lo ==> xs[i].Less(x)
      invariant forall i :: hi <= i < |xs| ==> x.Less(xs[i])
    {
      var mid := (lo + hi) / 2;
      if xs[mid].Less(x) {
        lo := mid + 1;
      } else if x.Less(xs[mid]) {
        hi := mid;
      } else {
        return true, mid;
      }
    }
    return false, lo;
  }

  // ----- what should be in the list -----

  /** Included markets, and whether each is writable. */
  type Included = map<MarketRef, bool>

  function AccountOf(m: MarketRef, pubkey: Key, writable: bool): Remaining {
    match m.kind
    case Spot => Remaining.Spot(pubkey, writable)
    case Perp => Remaining.Perp(pubkey, writable)
  }

  function AccountSet(program: ProgramData, included: Included): set<Remaining> {
    (set m | m in included && m in program :: Remaining.Oracle(program[m].oracle))
      + set m | m in included && m in program :: AccountOf(m, program[m].pubkey, included[m])
  }

  /** Markets of one kind have different account keys. */
  predicate DistinctKeys(program: ProgramData) {
    forall m, n :: m in program && n in program && m.kind == n.kind && program[m].pubkey == program[n].pubkey ==> m == n
  }

  /** Some included market shares the mask bit of `m`. */
  ghost predicate Taken(included: Included, m: MarketRef) {
    exists n :: n in included && Collide(n, m)
  }

  /** The mask of a kind says which of its indexes are taken. */
  ghost predicate MaskOk(mask: bv64, kind: MarketType, included: Included) {
    forall index: bv16 :: InMask(mask, index) <==> Taken(included, MarketRef(kind, index))
  }

  lemma TakenGrows(included: Included, m: MarketRef, writable: bool, j: MarketRef)
    ensures Taken(included[m := writable], j) <==> Collide(m, j) || Taken(included, j)
  {
    assert m in included[m := writable];
    if n :| n in included && Collide(n, j) {
      assert n in included[m := writable];
    }
  }

  lemma MaskGrows(mask: bv64, included: Included, m: MarketRef, writable: bool)
    requires MaskOk(mask, m.kind, included)
    ensures MaskOk(mask | Bit(m.index), m.kind, included[m := writable])
  {
    hide InMask, Bit, Taken;
    forall index: bv16
      ensures InMask(mask | Bit(m.index), index) <==> Taken(included[m := writable], MarketRef(m.kind, index))
    {
      MaskAfterSet(mask, m.index, index);
      TakenGrows(included, m, writable, MarketRef(m.kind, index));
    }
  }

  lemma MaskOfOtherKind(mask: bv64, kind: MarketType, included: Included, m: MarketRef, writable: bool)
    requires MaskOk(mask, kind, included) && m.kind != kind
    ensures MaskOk(mask, kind, included[m := writable])
  {
    hide InMask, Bit, Taken;
    forall index: bv16
      ensures InMask(mask, index) <==> Taken(included[m := writable], MarketRef(kind, index))
    {
      TakenGrows(included, m, writable, MarketRef(kind, index));
    }
  }

  lemma EmptyMask(kind: MarketType)
    ensures MaskOk(0, kind, map[])
  {
    forall index: bv16 ensures !InMask(0, index) {
      ZeroMask(Bit(index));
    }
  }

  lemma ZeroMask(b: bv64)
    ensures 0 & b == 0
  {}

  // ----- the closure of the source, with its captured state -----

  class AccountList {
    const program: ProgramData
    var seenSpot: bv64
    var seenPerp: bv64
    var accounts: seq<Remaining>
    /** The markets whose accounts are in the list. */
    ghost var included: Included

    ghost predicate Valid()
      reads this
    {
      && DistinctKeys(program)
      && included.Keys <= program.Keys
      && MaskOk(seenSpot, MarketType.Spot, included)
      && MaskOk(seenPerp, MarketType.Perp, included)
      && StrictlySorted(accounts)
      && Elems(accounts) == AccountSet(program, included)
    }

    constructor (program: ProgramData)
      requires DistinctKeys(program)
      ensures Valid() && included == map[] && this.program == program
    {
      this.program, seenSpot, seenPerp, accounts, included := program, 0, 0, [], map[];
      EmptyMask(MarketType.Spot);
      EmptyMask(MarketType.Perp);
    }

    method Add(x: Remaining)
      requires StrictlySorted(accounts)
      modifies this`accounts
      ensures StrictlySorted(accounts)
      ensures Elems(accounts) ==
                if HasSame(Elems(old(accounts)), x) then Elems(old(accounts)) else Elems(old(accounts)) + {x}
    {
      var found, at := BinarySearch(accounts, x);
      if found {
        assert accounts[at] in Elems(accounts);
      } else {
        InsertedElems(accounts, at, x);
        forall y | y in Elems(accounts) ensures !y.Same(x) {
          var i :| 0 <= i < |accounts| && accounts[i] == y;
        }
        accounts := accounts[..at] + [x] + accounts[at..];
      }
    }

    /** Adds a market's account and oracle, unless its mask bit is set. */
    method IncludeMarket(m: MarketRef, writable: bool)
      requires Valid() && (Taken(included, m) || m in program)
      modifies this
      ensures Valid()
      ensures included == IncludeStep(old(included), m, writable)
    {
      hide MaskOk, StrictlySorted, Remaining.Less, DistinctKeys, AccountSet, InMask, Bit, Taken;
      var mask := if m.kind == MarketType.Spot then seenSpot else seenPerp;
      MaskMeaning(mask, included, m);
      if InMask(mask, m.index) {
        return;
      }
      MaskGrows(mask, included, m, writable);
      match m.kind {
        case Spot =>
          MaskOfOtherKind(seenPerp, MarketType.Perp, included, m, writable);
          seenSpot := seenSpot | Bit(m.index);
        case Perp =>
          MaskOfOtherKind(seenSpot, MarketType.Spot, included, m, writable);
          seenPerp := seenPerp | Bit(m.index);
      }
      var account := AccountOf(m, program[m].pubkey, writable);
      var oracle := Remaining.Oracle(program[m].oracle);
      NotIncluded(included, m);
      FreshAccount(program, included, m, writable);
      Add(account);
      Add(oracle);
      AccountSetGrows(program, included, m, writable);
      OracleDeduplicated(AccountSet(program, included) + {account}, oracle);
      included := included[m := writable];
    }
  }

  ghost predicate HasSame(xs: set<Remaining>, x: Remaining) {
    exists y :: y in xs && y.Same(x)
  }

  /** The first inclusion of a mask bit wins. */
  ghost function IncludeStep(included: Included, m: MarketRef, writable: bool): Included {
    if Taken(included, m) then included else included[m := writable]
  }

  lemma MaskMeaning(mask: bv64, included: Included, m: MarketRef)
    requires MaskOk(mask, m.kind, included)
    ensures InMask(mask, m.index) <==> Taken(included, m)
  {
    assert MarketRef(m.kind, m.index) == m;
  }

  lemma NotIncluded(included: Included, m: MarketRef)
    ensures Taken(included, m) || m !in included
  {
    assert Collide(m, m);
  }

  lemma InsertedElems(xs: seq<Remaining>, at: nat, x: Remaining)
    requires at <= |xs|
    ensures Elems(xs[..at] + [x] + xs[at..]) == Elems(xs) + {x}
  {
    assert xs == xs[..at] + xs[at..];
  }

  lemma FreshAccount(program: ProgramData, included: Included, m: MarketRef, writable: bool)
    requires DistinctKeys(program) && m in program && m !in included && included.Keys <= program.Keys
    ensures !HasSame(AccountSet(program, included), AccountOf(m, program[m].pubkey, writable))
  {
    var account := AccountOf(m, program[m].pubkey, writable);
    forall y | y in AccountSet(program, included) ensures !y.Same(account) {
      if !y.Oracle? {
        var n :| n in included && n in program && y == AccountOf(n, program[n].pubkey, included[n]);
      }
    }
  }

  lemma OracleDeduplicated(xs: set<Remaining>, oracle: Remaining)
    requires oracle.Oracle?
    ensures HasSame(xs, oracle) ==> xs + {oracle} == xs
  {
    if HasSame(xs, oracle) {
      var y :| y in xs && y.Same(oracle);
      assert y == oracle;
    }
  }

  lemma AccountSetGrows(program: ProgramData, included: Included, m: MarketRef, writable: bool)
    requires m in program && m !in included
    ensures AccountSet(program, included[m := writable])
         == AccountSet(program, included) + {AccountOf(m, program[m].pubkey, writable)}
           + {Remaining.Oracle(program[m].oracle)}
  {}

  // ----- building the list -----

  datatype Position = Position(index: bv16, available: bool)

  datatype User = User(spot: seq<Position>, perp: seq<Position>)

  datatype Mention = Mention(m: MarketRef, writable: bool)

  function MarketMentions(ms: seq<MarketRef>, writable: bool): seq<Mention> {
    seq(|ms|, i requires 0 <= i < |ms| => Mention(ms[i], writable))
  }

  function PositionMentions(ps: seq<Position>, kind: MarketType): seq<Mention> {
    if ps == [] then []
    else
      var k := |ps| - 1;
      PositionMentions(ps[..k], kind) + if ps[k].available then [] else [Mention(MarketRef(kind, ps[k].index), false)]
  }

  function UserMentions(users: seq<User>): seq<Mention> {
    if users == [] then []
    else
      var u := users[|users| - 1];
      UserMentions(users[..|users| - 1]) + PositionMentions(u.spot, MarketType.Spot)
        + PositionMentions(u.perp, MarketType.Perp)
  }

  /** Every market the call mentions, in the order of the source's loops. */
  function Mentions(readable: seq<MarketRef>, writable: seq<MarketRef>, users: seq<User>): seq<Mention> {
    MarketMentions(writable, true) + MarketMentions(readable, false) + UserMentions(users)
      + [Mention(QUOTE_SPOT, false)]
  }

  ghost function IncludeAll(xs: seq<Mention>): Included {
    if xs == [] then map[] else IncludeStep(IncludeAll(xs[..|xs| - 1]), xs[|xs| - 1].m, xs[|xs| - 1].writable)
  }

  lemma NothingIncluded()
    ensures IncludeAll([]) == map[]
  {}

  lemma IncludeOne(xs: seq<Mention>, x: Mention)
    ensures IncludeAll(xs + [x]) == IncludeStep(IncludeAll(xs), x.m, x.writable)
  {
    assert (xs + [x])[..|xs|] == xs;
  }

  function Mentioned(xs: seq<Mention>): set<MarketRef> {
    set i | 0 <= i < |xs| :: xs[i].m
  }

  predicate NoCollisions(ms: set<MarketRef>) {
    forall m, n :: m in ms && n in ms && Collide(m, n) ==> m == n
  }

  /** Every mentioned market is known when its turn comes, unless its mask bit is taken by then. */
  ghost predicate Known(program: ProgramData, xs: seq<Mention>) {
    forall i :: 0 <= i < |xs| ==> Taken(IncludeAll(xs[..i]), xs[i].m) || xs[i].m in program
  }

  lemma KnownNext(program: ProgramData, total: seq<Mention>, done: seq<Mention>, x: Mention)
    requires Known(program, total) && done + [x] <= total
    ensures Taken(IncludeAll(done), x.m) || x.m in program
  {
    assert total[..|done|] == done && total[|done|] == x;
  }

  /** `total` are all mentions of the call; `before` were included already. */
  method IncludeMentions(list: AccountList, xs: seq<Mention>, ghost before: seq<Mention>, ghost total: seq<Mention>)
    requires list.Valid() && list.included == IncludeAll(before)
    requires Known(list.program, total) && before + xs <= total
    modifies list
    ensures list.Valid() && list.included == IncludeAll(before + xs)
  {
    hide AccountList.Valid, IncludeAll, IncludeStep, Known, Taken;
    assert before + xs[..0] == before;
    for i := 0 to |xs|
      invariant list.Valid() && list.included == IncludeAll(before + xs[..i])
    {
      IncludeOne(before + xs[..i], xs[i]);
      assert before + xs[..i + 1] == (before + xs[..i]) + [xs[i]];
      assert before + xs[..i + 1] <= before + xs;
      KnownNext(list.program, total, before + xs[..i], xs[i]);
      list.IncludeMarket(xs[i].m, xs[i].writable);
    }
    assert xs[..|xs|] == xs;
  }

  method IncludePositions(list: AccountList, ps: seq<Position>, kind: MarketType, ghost before: seq<Mention>,
                          ghost total: seq<Mention>)
    requires list.Valid() && list.included == IncludeAll(before)
    requires Known(list.program, total) && before + PositionMentions(ps, kind) <= total
    modifies list
    ensures list.Valid() && list.included == IncludeAll(before + PositionMentions(ps, kind))
  {
    hide AccountList.Valid, IncludeAll, IncludeStep, Known, Taken;
    assert before + PositionMentions(ps[..0], kind) == before;
    for i := 0 to |ps|
      invariant list.Valid() && list.included == IncludeAll(before + PositionMentions(ps[..i], kind))
    {
      PositionStep(ps, kind, i);
      ghost var done := before + PositionMentions(ps[..i], kind);
      if ps[i].available {
        assert before + PositionMentions(ps[..i + 1], kind) == done;
      } else {
        var m := MarketRef(kind, ps[i].index);
        assert before + PositionMentions(ps[..i + 1], kind) == done + [Mention(m, false)];
        IncludeOne(done, Mention(m, false));
        assert done + [Mention(m, false)] <= before + PositionMentions(ps, kind);
        KnownNext(list.program, total, done, Mention(m, false));
        list.IncludeMarket(m, false);
      }
    }
    assert ps[..|ps|] == ps;
  }

  lemma {:induction false} PositionStep(ps: seq<Position>, kind: MarketType, i: nat)
    requires i < |ps|
    ensures PositionMentions(ps[..i + 1], kind)
         == PositionMentions(ps[..i], kind)
            + if ps[i].available then [] else [Mention(MarketRef(kind, ps[i].index), false)]
    ensures PositionMentions(ps[..i + 1], kind) <= PositionMentions(ps, kind)
    decreases |ps|
  {
    assert ps[..i + 1][..i] == ps[..i];
    if i + 1 < |ps| {
      var k := |ps| - 1;
      PositionStep(ps[..k], kind, i);
      assert ps[..k][..i + 1] == ps[..i + 1];
    } else {
      assert ps[..i + 1] == ps;
    }
  }

  /** The accounts of an instruction: the base accounts, then the sorted list of all mentioned markets. */
  method BuildAccounts(program: ProgramData, base: seq<AccountMeta>, users: seq<User>,
                       readable: seq<MarketRef>, writable: seq<MarketRef>)
    returns (metas: seq<AccountMeta>, accounts: seq<Remaining>)
    requires DistinctKeys(program) && Known(program, Mentions(readable, writable, users))
    ensures StrictlySorted(accounts)
    ensures Elems(accounts) == AccountSet(program, IncludeAll(Mentions(readable, writable, users)))
    ensures ProgramOrder(accounts)
    ensures HoldsAll(accounts, program, IncludeAll(Mentions(readable, writable, users)).Keys, writable)
    ensures HoldsOnly(accounts, program, IncludeAll(Mentions(readable, writable, users)).Keys, writable)
    ensures AppendedMetas(metas, base, accounts)
  {
    hide HoldsAll, HoldsOnly, ProgramOrder, AppendedMetas, Known, IncludeAll, AccountSet, StrictlySorted, Taken;
    var list := new AccountList(program);
    ghost var xs := Mentions(readable, writable, users);
    NothingIncluded();
    IncludeMentions(list, MarketMentions(writable, true), [], xs);
    ghost var done := MarketMentions(writable, true);
    assert [] + done == done;
    IncludeMentions(list, MarketMentions(readable, false), done, xs);
    done := done + MarketMentions(readable, false);
    IncludeUsers(list, users, done, xs);
    done := done + UserMentions(users);
    IncludeMentions(list, [Mention(QUOTE_SPOT, false)], done, xs);
    accounts := list.accounts;
    metas := base + seq(|accounts|, i requires 0 <= i < |accounts| => accounts[i].ToMeta());
    SortedIsProgramOrder(accounts);
    AccountsAreExact(program, readable, writable, users, accounts);
    MetasAppended(base, accounts);
  }

  lemma MetasAppended(base: seq<AccountMeta>, xs: seq<Remaining>)
    ensures AppendedMetas(base + seq(|xs|, i requires 0 <= i < |xs| => xs[i].ToMeta()), base, xs)
  {}

  method IncludeUsers(list: AccountList, users: seq<User>, ghost before: seq<Mention>, ghost total: seq<Mention>)
    requires list.Valid() && list.included == IncludeAll(before)
    requires Known(list.program, total) && before + UserMentions(users) <= total
    modifies list
    ensures list.Valid() && list.included == IncludeAll(before + UserMentions(users))
  {
    hide AccountList.Valid, IncludeAll, IncludeStep, PositionMentions, Known, Taken;
    assert before + UserMentions(users[..0]) == before;
    for i := 0 to |users|
      invariant list.Valid() && list.included == IncludeAll(before + UserMentions(users[..i]))
    {
      UserStep(users, i);
      ghost var spot := PositionMentions(users[i].spot, MarketType.Spot);
      ghost var perp := PositionMentions(users[i].perp, MarketType.Perp);
      ghost var done := before + UserMentions(users[..i]);
      assert done + spot + perp == before + (UserMentions(users[..i]) + spot + perp);
      assert done + spot + perp <= before + UserMentions(users);
      IncludePositions(list, users[i].spot, MarketType.Spot, done, total);
      IncludePositions(list, users[i].perp, MarketType.Perp, done + spot, total);
    }
    assert users[..|users|] == users;
  }

  lemma {:induction false} UserStep(users: seq<User>, i: nat)
    requires i < |users|
    ensures var spot := PositionMentions(users[i].spot, MarketType.Spot);
            var perp := PositionMentions(users[i].perp, MarketType.Perp);
            && UserMentions(users[..i + 1]) == UserMentions(users[..i]) + spot + perp
            && UserMentions(users[..i + 1]) <= UserMentions(users)
    decreases |users|
  {
    assert users[..i + 1][..i] == users[..i];
    if i + 1 < |users| {
      UserStep(users[..|users| - 1], i);
      assert users[..|users| - 1][..i + 1] == users[..i + 1];
    } else {
      assert users[..i + 1] == users;
    }
  }

  // ----- the list in the program's terms -----

  /** The order the program reads: oracles, then spot markets, then perp markets, each by ascending key. */
  predicate ProgramOrder(xs: seq<Remaining>) {
    forall i, j :: 0 <= i < j < |xs| ==>
      match xs[i]
      case Oracle(key) => xs[j].Oracle? ==> key < xs[j].pubkey
      case Spot(key, _) => !xs[j].Oracle? && (xs[j].Spot? ==> key < xs[j].pubkey)
      case Perp(key, _) => xs[j].Perp? && key < xs[j].pubkey
  }

  /** The markets a call mentions: those listed, those of the users' positions in use, and spot market 0. */
  ghost predicate Mentioning(readable: seq<MarketRef>, writable: seq<MarketRef>, users: seq<User>, m: MarketRef) {
    || m in writable
    || m in readable
    || (exists u, p :: u in users && p in u.spot && !p.available && m == MarketRef(MarketType.Spot, p.index))
    || (exists u, p :: u in users && p in u.perp && !p.available && m == MarketRef(MarketType.Perp, p.index))
    || m == MarketRef(MarketType.Spot, 0)
  }

  /** Every market in `included` has its oracle and its account in the list. */
  ghost predicate HoldsAll(xs: seq<Remaining>, program: ProgramData, included: set<MarketRef>,
                           writable: seq<MarketRef>) {
    forall m :: m in included && m in program ==>
      && Remaining.Oracle(program[m].oracle) in xs
      && match m.kind
         case Spot => Remaining.Spot(program[m].pubkey, m in writable) in xs
         case Perp => Remaining.Perp(program[m].pubkey, m in writable) in xs
  }

  /** Nothing else is in the list. */
  ghost predicate HoldsOnly(xs: seq<Remaining>, program: ProgramData, included: set<MarketRef>,
                            writable: seq<MarketRef>) {
    forall x :: x in xs ==> exists m :: m in included && m in program && BelongsTo(x, m, program[m], m in writable)
  }

  /** The account is the oracle of this market, or the market's own with this flag. */
  predicate BelongsTo(x: Remaining, m: MarketRef, config: Config, writable: bool) {
    match x
    case Oracle(key) => key == config.oracle
    case Spot(key, w) => m.kind == MarketType.Spot && key == config.pubkey && w == writable
    case Perp(key, w) => m.kind == MarketType.Perp && key == config.pubkey && w == writable
  }

  /** The base accounts unchanged, then one entry per account: never a signer, and no oracle is writable. */
  predicate AppendedMetas(metas: seq<AccountMeta>, base: seq<AccountMeta>, xs: seq<Remaining>) {
    && |metas| == |base| + |xs|
    && metas[..|base|] == base
    && forall i :: 0 <= i < |xs| ==>
         var meta := metas[|base| + i];
         && !meta.isSigner
         && match xs[i]
            case Oracle(key) => meta.pubkey == key && !meta.isWritable
            case Spot(key, w) => meta.pubkey == key && meta.isWritable == w
            case Perp(key, w) => meta.pubkey == key && meta.isWritable == w
  }

  lemma SortedIsProgramOrder(xs: seq<Remaining>)
    requires StrictlySorted(xs)
    ensures ProgramOrder(xs)
  {
    forall i, j | 0 <= i < j < |xs| ensures xs[i].Less(xs[j]) {}
  }

  lemma {:induction false} MentionedPositions(ps: seq<Position>, kind: MarketType, x: Mention)
    ensures x in PositionMentions(ps, kind) <==>
            !x.writable && exists p :: p in ps && !p.available && x.m == MarketRef(kind, p.index)
  {
    if ps == [] {
    } else {
      var k := |ps| - 1;
      MentionedPositions(ps[..k], kind, x);
      assert ps == ps[..k] + [ps[k]];
      assert forall p :: p in ps <==> p in ps[..k] || p == ps[k];
    }
  }

  lemma {:induction false} MentionedByUsers(users: seq<User>, x: Mention)
    ensures x in UserMentions(users) <==>
            && !x.writable
            && (|| (exists u, p ::
                      u in users && p in u.spot && !p.available && x.m == MarketRef(MarketType.Spot, p.index))
                || (exists u, p ::
                      u in users && p in u.perp && !p.available && x.m == MarketRef(MarketType.Perp, p.index)))
  {
    if users == [] {
    } else {
      var k := |users| - 1;
      MentionedByUsers(users[..k], x);
      MentionedPositions(users[k].spot, MarketType.Spot, x);
      MentionedPositions(users[k].perp, MarketType.Perp, x);
      assert users == users[..k] + [users[k]];
      assert forall u :: u in users <==> u in users[..k] || u == users[k];
    }
  }

  lemma ListedMentions(ms: seq<MarketRef>, writable: bool, x: Mention)
    ensures x in MarketMentions(ms, writable) <==> x.writable == writable && x.m in ms
  {
    var xs := MarketMentions(ms, writable);
    if x in xs {
      var i :| 0 <= i < |xs| && xs[i] == x;
      assert x.m == ms[i];
    }
    if x.writable == writable && x.m in ms {
      var i :| 0 <= i < |ms| && ms[i] == x.m;
      assert xs[i] == x;
    }
  }

  /** The mentions are those of the call, the writable ones first. */
  lemma MentionsAreExact(readable: seq<MarketRef>, writable: seq<MarketRef>, users: seq<User>, m: MarketRef)
    ensures m in Mentioned(Mentions(readable, writable, users)) <==> Mentioning(readable, writable, users, m)
    ensures |writable| <= |Mentions(readable, writable, users)|
    ensures var xs := Mentions(readable, writable, users);
            && |writable| + |readable| < |xs|
            && (forall i :: 0 <= i < |writable| ==> xs[i] == Mention(writable[i], true))
            && (forall i :: 0 <= i < |readable| ==> xs[|writable| + i] == Mention(readable[i], false))
            && xs[|xs| - 1] == Mention(MarketRef(MarketType.Spot, 0), false)
  {
    hide UserMentions, MarketMentions;
    var xs := Mentions(readable, writable, users);
    ListedMentions(writable, true, Mention(m, true));
    ListedMentions(readable, false, Mention(m, false));
    ListedMentions(writable, true, Mention(m, false));
    ListedMentions(readable, false, Mention(m, true));
    MentionedByUsers(users, Mention(m, false));
    MentionedByUsers(users, Mention(m, true));
    ListedInOrder(writable, true);
    ListedInOrder(readable, false);
    assert m in Mentioned(xs) <==> Mention(m, true) in xs || Mention(m, false) in xs by {
      InMentioned(xs, m);
    }
  }

  lemma ListedInOrder(ms: seq<MarketRef>, writable: bool)
    ensures |MarketMentions(ms, writable)| == |ms|
    ensures forall i :: 0 <= i < |ms| ==> MarketMentions(ms, writable)[i] == Mention(ms[i], writable)
  {}

  lemma InMentioned(xs: seq<Mention>, m: MarketRef)
    ensures m in Mentioned(xs) <==> Mention(m, true) in xs || Mention(m, false) in xs
  {
    if m in Mentioned(xs) {
      var i :| 0 <= i < |xs| && xs[i].m == m;
      assert xs[i] in xs && (xs[i] == Mention(m, true) || xs[i] == Mention(m, false));
    }
    if x :| x in xs && x.m == m {
      var i :| 0 <= i < |xs| && xs[i] == x;
    }
  }

  lemma AccountsAreExact(program: ProgramData, readable: seq<MarketRef>, writable: seq<MarketRef>, users: seq<User>,
                         accounts: seq<Remaining>)
    requires Elems(accounts) == AccountSet(program, IncludeAll(Mentions(readable, writable, users)))
    ensures HoldsAll(accounts, program, IncludeAll(Mentions(readable, writable, users)).Keys, writable)
    ensures HoldsOnly(accounts, program, IncludeAll(Mentions(readable, writable, users)).Keys, writable)
  {
    hide Mentions, IncludeAll;
    var inc := IncludeAll(Mentions(readable, writable, users));
    IncludedFlags(readable, writable, users);
    assert forall x :: x in accounts <==> x in Elems(accounts);
    forall x | x in accounts
      ensures exists m :: m in inc.Keys && m in program && BelongsTo(x, m, program[m], m in writable)
    {
      assert x in AccountSet(program, inc);
      var m :| m in inc && m in program &&
               (x == Remaining.Oracle(program[m].oracle) || x == AccountOf(m, program[m].pubkey, inc[m]));
      assert BelongsTo(x, m, program[m], m in writable);
    }
  }

  lemma IncludedFlags(readable: seq<MarketRef>, writable: seq<MarketRef>, users: seq<User>)
    ensures var inc := IncludeAll(Mentions(readable, writable, users));
            forall m :: m in inc ==> (inc[m] <==> m in writable)
  {
    var rest := MarketMentions(readable, false) + UserMentions(users) + [Mention(QUOTE_SPOT, false)];
    UsersReadable(users);
    assert Mentions(readable, writable, users) == MarketMentions(writable, true) + rest;
    WritableFirst(writable, rest);
  }

  /** The market whose account this is. */
  predicate IsAccountOf(x: Remaining, m: MarketRef, program: ProgramData) {
    && m in program && program[m].pubkey == x.pubkey
    && match m.kind
       case Spot => x.Spot?
       case Perp => x.Perp?
  }

  /** An appended entry is writable exactly if it is the account of a market listed as writable. */
  lemma WritableMetas(program: ProgramData, metas: seq<AccountMeta>, base: seq<AccountMeta>, xs: seq<Remaining>,
                      included: set<MarketRef>, writable: seq<MarketRef>, i: nat)
    requires DistinctKeys(program) && AppendedMetas(metas, base, xs) && HoldsOnly(xs, program, included, writable)
    requires i < |xs|
    ensures metas[|base| + i].isWritable <==> exists m :: m in writable && IsAccountOf(xs[i], m, program)
  {
    hide HoldsOnly, AppendedMetas, DistinctKeys, IsAccountOf, BelongsTo;
    var n := OwnerOf(program, xs, included, writable, i);
    MetaFlag(metas, base, xs, i);
    OwnerIsUnique(program, xs[i], n, n in writable);
    forall m | m in writable && IsAccountOf(xs[i], m, program) ensures n in writable && !xs[i].Oracle? {
      SameOwner(program, xs[i], m, n, n in writable);
    }
  }

  lemma OwnerOf(program: ProgramData, xs: seq<Remaining>, included: set<MarketRef>, writable: seq<MarketRef>, i: nat)
    returns (n: MarketRef)
    requires HoldsOnly(xs, program, included, writable) && i < |xs|
    ensures n in program && BelongsTo(xs[i], n, program[n], n in writable)
  {
    assert xs[i] in xs;
    n :| n in included && n in program && BelongsTo(xs[i], n, program[n], n in writable);
  }

  lemma MetaFlag(metas: seq<AccountMeta>, base: seq<AccountMeta>, xs: seq<Remaining>, i: nat)
    requires AppendedMetas(metas, base, xs) && i < |xs|
    ensures |base| + i < |metas| && metas[|base| + i].isWritable == (!xs[i].Oracle? && xs[i].writable)
  {}

  lemma OwnerIsUnique(program: ProgramData, x: Remaining, n: MarketRef, writable: bool)
    requires n in program && BelongsTo(x, n, program[n], writable)
    ensures !x.Oracle? ==> IsAccountOf(x, n, program) && x.writable == writable
  {}

  lemma SameOwner(program: ProgramData, x: Remaining, m: MarketRef, n: MarketRef, writable: bool)
    requires DistinctKeys(program) && n in program && BelongsTo(x, n, program[n], writable)
    requires IsAccountOf(x, m, program)
    ensures m == n && !x.Oracle?
  {}

  // ----- exactness -----

  lemma StepTakes(inc: Included, m: MarketRef, writable: bool)
    ensures var inc' := IncludeStep(inc, m, writable);
            && Taken(inc', m)
            && (forall j :: Taken(inc, j) ==> Taken(inc', j))
            && inc'.Keys <= inc.Keys + {m}
            && (NoCollisions(inc.Keys) ==> NoCollisions(inc'.Keys))
  {
    var inc' := IncludeStep(inc, m, writable);
    assert Collide(m, m);
    if inc' != inc {
      assert m in inc';
      assert inc'.Keys == inc.Keys + {m};
      assert forall n :: n in inc ==> !Collide(n, m);
    }
    forall j | Taken(inc, j) ensures Taken(inc', j) {
      var n :| n in inc && Collide(n, j);
      assert n in inc';
    }
  }

  /** Whatever collides, the included markets are mentioned, do not collide, and leave no mention uncovered. */
  lemma {:induction false} IncludeAllFacts(xs: seq<Mention>)
    ensures var inc := IncludeAll(xs);
            && inc.Keys <= Mentioned(xs)
            && NoCollisions(inc.Keys)
            && forall i :: 0 <= i < |xs| ==> Taken(inc, xs[i].m)
  {
    if xs == [] {
    } else {
      var k := |xs| - 1;
      IncludeAllFacts(xs[..k]);
      MentionedAppend(xs);
      StepTakes(IncludeAll(xs[..k]), xs[k].m, xs[k].writable);
      assert forall i :: 0 <= i < k ==> xs[..k][i] == xs[i];
    }
  }

  lemma MentionedAppend(xs: seq<Mention>)
    requires xs != []
    ensures Mentioned(xs) == Mentioned(xs[..|xs| - 1]) + {xs[|xs| - 1].m}
  {
    var k := |xs| - 1;
    forall i | 0 <= i < k ensures xs[i].m in Mentioned(xs[..k]) {
      assert xs[..k][i] == xs[i];
    }
    assert xs[k].m in Mentioned(xs);
  }

  /** Every mentioned market gets its accounts if and only if no two mentioned markets share a mask bit. */
  lemma AllMentionedIncluded(xs: seq<Mention>)
    ensures IncludeAll(xs).Keys == Mentioned(xs) <==> NoCollisions(Mentioned(xs))
  {
    IncludeAllFacts(xs);
    if NoCollisions(Mentioned(xs)) {
      forall m | m in Mentioned(xs) ensures m in IncludeAll(xs) {
        var i :| 0 <= i < |xs| && xs[i].m == m;
        var n :| n in IncludeAll(xs) && Collide(n, m);
        assert n in IncludeAll(xs).Keys;
      }
    }
  }

  /** The accounts of every mentioned market are in the list if and only if no two of them share a mask bit. */
  lemma AllAccountsPresent(program: ProgramData, xs: seq<Mention>)
    requires DistinctKeys(program) && Known(program, xs)
    ensures (forall m :: m in Mentioned(xs) ==>
               m in program && HasSame(AccountSet(program, IncludeAll(xs)), AccountOf(m, program[m].pubkey, true)))
            <==> NoCollisions(Mentioned(xs))
  {
    var inc := IncludeAll(xs);
    IncludeAllFacts(xs);
    AllMentionedIncluded(xs);
    IncludedAreKnown(program, xs);
    forall m | m in Mentioned(xs)
      ensures m in program && HasSame(AccountSet(program, inc), AccountOf(m, program[m].pubkey, true)) <==> m in inc
    {
      if m in inc {
        assert AccountOf(m, program[m].pubkey, inc[m]) in AccountSet(program, inc);
      } else if m in program {
        FreshAccount(program, inc, m, true);
      }
    }
    assert inc.Keys == Mentioned(xs) <==> forall m :: m in Mentioned(xs) ==> m in inc;
  }

  lemma {:induction false} IncludedAreKnown(program: ProgramData, xs: seq<Mention>)
    requires Known(program, xs)
    ensures IncludeAll(xs).Keys <= program.Keys
  {
    hide Taken;
    if xs == [] {
    } else {
      var k := |xs| - 1;
      assert forall i :: 0 <= i < k ==> xs[..k][..i] == xs[..i];
      IncludedAreKnown(program, xs[..k]);
    }
  }

  /** First come, first served: a market is included exactly if no earlier mention shares its mask bit. */
  lemma {:induction false} IncludedIsFirst(xs: seq<Mention>, m: MarketRef)
    ensures m in IncludeAll(xs) <==>
            exists i :: 0 <= i < |xs| && xs[i].m == m && forall j :: 0 <= j < i ==> !Collide(xs[j].m, m)
  {
    if xs == [] {
    } else {
      var k := |xs| - 1;
      var inc := IncludeAll(xs[..k]);
      IncludedIsFirst(xs[..k], m);
      TakenIsMentioned(xs[..k], m);
      assert forall i :: 0 <= i < k ==> xs[..k][i] == xs[i];
      assert m in IncludeAll(xs) <==> m in inc || (m == xs[k].m && !Taken(inc, m)) by {
        NotIncluded(inc, m);
      }
    }
  }

  lemma TakenIsMentioned(xs: seq<Mention>, m: MarketRef)
    ensures Taken(IncludeAll(xs), m) <==> exists j :: 0 <= j < |xs| && Collide(xs[j].m, m)
  {
    var inc := IncludeAll(xs);
    IncludeAllFacts(xs);
    if Taken(inc, m) {
      var n :| n in inc && Collide(n, m);
      assert n in Mentioned(xs);
    }
    if j :| 0 <= j < |xs| && Collide(xs[j].m, m) {
      var n :| n in inc && Collide(n, xs[j].m);
      assert Collide(n, m);
    }
  }

  /** A writable spot market whose index is a positive multiple of 64 keeps the quote market's account out. */
  lemma QuoteMarketLost(program: ProgramData, index: bv16)
    requires index != 0 && index & 63 == 0
    requires DistinctKeys(program) && QUOTE_SPOT in program && MarketRef(MarketType.Spot, index) in program
    ensures var xs := Mentions([], [MarketRef(MarketType.Spot, index)], []);
            && QUOTE_SPOT in Mentioned(xs) && QUOTE_SPOT !in IncludeAll(xs)
            && !HasSame(AccountSet(program, IncludeAll(xs)), AccountOf(QUOTE_SPOT, program[QUOTE_SPOT].pubkey, false))
  {
    var m := MarketRef(MarketType.Spot, index);
    var xs := Mentions([], [m], []);
    assert xs == [Mention(m, true), Mention(QUOTE_SPOT, false)];
    assert Collide(m, QUOTE_SPOT) && m != QUOTE_SPOT;
    assert xs[0].m == m && xs[1].m == QUOTE_SPOT;
    IncludedIsFirst(xs, QUOTE_SPOT);
    assert Mentioned(xs) == {m, QUOTE_SPOT};
    IncludeAllFacts(xs);
    FreshAccount(program, IncludeAll(xs), QUOTE_SPOT, false);
  }

  /** The smallest such index. */
  lemma QuoteMarketLostAt64()
    ensures QUOTE_SPOT !in IncludeAll(Mentions([], [MarketRef(MarketType.Spot, 64)], []))
  {
    var m := MarketRef(MarketType.Spot, 64);
    var program := map[m := Config(1, 1), QUOTE_SPOT := Config(2, 2)];
    QuoteMarketLost(program, 64);
  }

  /** Indexes below 64 cannot collide. */
  lemma SmallIndexesNeverCollide(ms: set<MarketRef>)
    requires forall m :: m in ms ==> m.index < 64
    ensures NoCollisions(ms)
  {
    forall m, n | m in ms && n in ms && Collide(m, n) ensures m == n {
      SmallIndexesDiffer(m.index, n.index);
    }
  }

  /** A market is writable if and only if it was listed writable, whatever else mentions it. */
  lemma {:induction false} WritableFirst(ws: seq<MarketRef>, rest: seq<Mention>)
    requires forall x :: x in rest ==> !x.writable
    ensures forall m :: m in IncludeAll(MarketMentions(ws, true) + rest) ==>
              (IncludeAll(MarketMentions(ws, true) + rest)[m] <==> m in ws)
  {
    var xs := MarketMentions(ws, true) + rest;
    if rest != [] {
      var k := |rest| - 1;
      assert xs[..|ws| + k] == MarketMentions(ws, true) + rest[..k];
      WritableFirst(ws, rest[..k]);
      assert xs[|xs| - 1] == rest[k] && rest[k] in rest;
      CoveredWritable(ws, rest[..k], rest[k].m);
    } else {
      assert xs == MarketMentions(ws, true);
      AllWritable(ws);
    }
  }

  lemma CoveredWritable(ws: seq<MarketRef>, rest: seq<Mention>, m: MarketRef)
    ensures m in ws ==> Taken(IncludeAll(MarketMentions(ws, true) + rest), m)
  {
    var xs := MarketMentions(ws, true) + rest;
    IncludeAllFacts(xs);
    if m in ws {
      var i :| 0 <= i < |ws| && ws[i] == m;
      assert xs[i].m == m;
    }
  }

  lemma {:induction false} AllWritable(ws: seq<MarketRef>)
    ensures forall m :: m in IncludeAll(MarketMentions(ws, true)) ==> m in ws && IncludeAll(MarketMentions(ws, true))[m]
  {
    if ws == [] {
    } else {
      var k := |ws| - 1;
      AllWritable(ws[..k]);
      assert MarketMentions(ws, true)[..k] == MarketMentions(ws[..k], true);
    }
  }

  /** What the list must hold: the mentioned markets, writable exactly where listed so. */
  function Required(mentioned: set<MarketRef>, writable: set<MarketRef>): Included {
    map m | m in mentioned :: m in writable
  }

  lemma {:induction false} PositionsReadable(ps: seq<Position>, kind: MarketType)
    ensures forall x :: x in PositionMentions(ps, kind) ==> !x.writable
  {
    if ps == [] {
    } else {
      PositionsReadable(ps[..|ps| - 1], kind);
    }
  }

  lemma {:induction false} UsersReadable(users: seq<User>)
    ensures forall x :: x in UserMentions(users) ==> !x.writable
  {
    if users == [] {
    } else {
      var u := users[|users| - 1];
      UsersReadable(users[..|users| - 1]);
      PositionsReadable(u.spot, MarketType.Spot);
      PositionsReadable(u.perp, MarketType.Perp);
    }
  }

  /**
    * Exact and canonical: without collisions the list depends only on the set of mentioned and
    * the set of writable markets, not on the order or repetition of the arguments.
    */
  lemma IncludedIsRequired(readable: seq<MarketRef>, writable: seq<MarketRef>, users: seq<User>)
    requires NoCollisions(Mentioned(Mentions(readable, writable, users)))
    ensures IncludeAll(Mentions(readable, writable, users))
         == Required(Mentioned(Mentions(readable, writable, users)), set m | m in writable)
  {
    var xs := Mentions(readable, writable, users);
    var rest := MarketMentions(readable, false) + UserMentions(users) + [Mention(QUOTE_SPOT, false)];
    UsersReadable(users);
    assert xs == MarketMentions(writable, true) + rest;
    WritableFirst(writable, rest);
    AllMentionedIncluded(xs);
    var inc, req := IncludeAll(xs), Required(Mentioned(xs), set m | m in writable);
    assert inc.Keys == req.Keys;
  }

  /** Two argument lists that mention the same markets build the same list. */
  lemma BuildIsCanonical(program: ProgramData, r: seq<MarketRef>, w: seq<MarketRef>, us: seq<User>, xs: seq<Remaining>,
                         r': seq<MarketRef>, w': seq<MarketRef>, us': seq<User>, ys: seq<Remaining>)
    requires NoCollisions(Mentioned(Mentions(r, w, us)))
    requires Mentioned(Mentions(r, w, us)) == Mentioned(Mentions(r', w', us')) && Elems(w) == Elems(w')
    requires StrictlySorted(xs) && Elems(xs) == AccountSet(program, IncludeAll(Mentions(r, w, us)))
    requires StrictlySorted(ys) && Elems(ys) == AccountSet(program, IncludeAll(Mentions(r', w', us')))
    ensures xs == ys
  {
    IncludedIsRequired(r, w, us);
    IncludedIsRequired(r', w', us');
    assert (set m | m in w) == Elems(w) && (set m | m in w') == Elems(w');
    SortedIsUnique(xs, ys);
  }
}
