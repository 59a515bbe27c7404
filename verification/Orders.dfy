/** Orders, their auction state and their classification. */
module Orders {
  import opened Arithmetic
  import opened Collections

  datatype MarketType = Spot | Perp

  datatype MarketId = MarketId(kind: MarketType, index: nat)

  datatype OrderType = Market | Limit | TriggerMarket | TriggerLimit | Oracle

  datatype Direction = Long | Short

  datatype TriggerCondition = Above | Below | TriggeredAbove | TriggeredBelow

  datatype OrderStatus = Init | Open | Filled | Canceled

  datatype NodeType = TakingLimit | RestingLimit | FloatingLimit | Market | Trigger

  datatype Side = Bid | Ask

  datatype Order = Order(
    status: OrderStatus,
    orderType: OrderType,
    marketType: MarketType,
    marketIndex: nat,
    orderId: nat,
    direction: Direction,
    slot: nat,
    price: nat,
    baseAmount: nat,
    filled: nat,
    triggerPrice: nat,
    triggerCondition: TriggerCondition,
    oraclePriceOffset: int,
    auctionDuration: nat,
    auctionStartPrice: int,
    auctionEndPrice: int,
    postOnly: bool)
  {
    function Id(): MarketId {
      MarketId(marketType, marketIndex)
    }

    /** The two subtractions of the matching loops. */
    function Remaining(): int {
      baseAmount - filled
    }

    // Predicates of the drift program crate.

    predicate IsLimitOrder() {
      orderType == Limit || orderType == TriggerLimit
    }

    predicate MustBeTriggered() {
      orderType == TriggerMarket || orderType == TriggerLimit
    }

    predicate IsTriggered() {
      triggerCondition == TriggeredAbove || triggerCondition == TriggeredBelow
    }
  }

  // ----- auction state -----

  predicate IsAuctionComplete(o: Order, slot: nat) {
    o.auctionDuration == 0 || o.slot + o.auctionDuration < slot
  }

  predicate IsRestingLimitOrder(o: Order, slot: nat) {
    if !o.IsLimitOrder() then
      false
    else if o.orderType == TriggerLimit then
      if o.direction == Long && o.triggerPrice < o.price then false
      else if o.direction == Short && o.triggerPrice > o.price then false
      else IsAuctionComplete(o, slot)
    else
      o.postOnly || IsAuctionComplete(o, slot)
  }

  // ----- classification -----

  predicate IsInactiveTrigger(o: Order) {
    o.MustBeTriggered() && !o.IsTriggered()
  }

  /** The list an order belongs to at `slot`. */
  function TypeAt(o: Order, slot: nat): NodeType {
    if IsInactiveTrigger(o) then NodeType.Trigger
    else if o.orderType == OrderType.Market || o.orderType == TriggerMarket || o.orderType == OrderType.Oracle then
      NodeType.Market
    else if o.oraclePriceOffset != 0 then FloatingLimit
    else if IsRestingLimitOrder(o, slot) then RestingLimit
    else TakingLimit
  }

  /** The side of that list; it does not depend on the slot. */
  function SideOf(o: Order): Side {
    if IsInactiveTrigger(o) then
      if o.triggerCondition == TriggerCondition.Above then Bid else Ask
    else
      match o.direction
      case Long => Bid
      case Short => Ask
  }

  // ----- what classification means, in the order's own fields -----

  /** A trigger order that still waits for its condition. */
  predicate Waits(o: Order) {
    && (o.orderType == TriggerMarket || o.orderType == TriggerLimit)
    && (o.triggerCondition == TriggerCondition.Above || o.triggerCondition == TriggerCondition.Below)
  }

  /** A plain limit order, or a trigger limit order whose condition was met. */
  predicate ActsAsLimit(o: Order) {
    || o.orderType == Limit
    || (o.orderType == TriggerLimit && (o.triggerCondition == TriggeredAbove || o.triggerCondition == TriggeredBelow))
  }

  /**
    * A limit order rests if it is a post-only plain one, or once its auction is over: from the first slot after
    * the auction's last. A trigger limit order does not rest while its trigger price is on the wrong side.
    */
  predicate Rests(o: Order, slot: nat) {
    || (o.orderType == Limit && o.postOnly)
    || (&& (o.auctionDuration == 0 || slot > o.slot + o.auctionDuration)
        && (o.orderType == TriggerLimit ==>
              if o.direction == Long then o.triggerPrice >= o.price else o.triggerPrice <= o.price))
  }

  predicate ListedIn(o: Order, slot: nat, t: NodeType) {
    match t
    case Trigger => Waits(o)
    case Market =>
      || o.orderType == OrderType.Market
      || o.orderType == OrderType.Oracle
      || (o.orderType == TriggerMarket
          && (o.triggerCondition == TriggeredAbove || o.triggerCondition == TriggeredBelow))
    case FloatingLimit => ActsAsLimit(o) && o.oraclePriceOffset != 0
    case RestingLimit => ActsAsLimit(o) && o.oraclePriceOffset == 0 && Rests(o, slot)
    case TakingLimit => ActsAsLimit(o) && o.oraclePriceOffset == 0 && !Rests(o, slot)
  }

  /** Waiting orders are bids if they wait for a price above; all others if they buy. */
  predicate OnSide(o: Order, side: Side) {
    (side == Bid) == if Waits(o) then o.triggerCondition == TriggerCondition.Above else o.direction == Long
  }

  /** Classification names the one list, side and market that the order's own fields say. */
  lemma ClassificationIsExact(o: Order, slot: nat)
    ensures forall t :: TypeAt(o, slot) == t <==> ListedIn(o, slot, t)
    ensures forall side :: SideOf(o) == side <==> OnSide(o, side)
    ensures forall id :: o.Id() == id <==> o.marketType == id.kind && o.marketIndex == id.index
  {}

  /** A plain limit order with an auction takes up to the auction's last slot and rests from the next one. */
  lemma RestsAfterAuction(o: Order, slot: nat)
    requires o.orderType == Limit && o.oraclePriceOffset == 0
    ensures o.postOnly ==> TypeAt(o, slot) == RestingLimit
    ensures !o.postOnly && o.auctionDuration > 0 ==>
              TypeAt(o, slot) == if slot <= o.slot + o.auctionDuration then TakingLimit else RestingLimit
    ensures o.auctionDuration == 0 ==> TypeAt(o, slot) == RestingLimit
  {}

  /** A trigger limit order that was triggered never rests while its trigger price is on the wrong side of its price. */
  lemma WrongSideNeverRests(o: Order, slot: nat)
    requires o.orderType == TriggerLimit && o.oraclePriceOffset == 0
    requires o.triggerCondition == TriggeredAbove || o.triggerCondition == TriggeredBelow
    requires if o.direction == Long then o.triggerPrice < o.price else o.triggerPrice > o.price
    ensures TypeAt(o, slot) == TakingLimit
  {}

  /**
    * Time only ever moves an order from the taking list to the resting list:
    * every other list is final, and resting is final.
    */
  lemma TypeIsMonotone(o: Order, s: nat, t: nat)
    requires s <= t
    ensures TypeAt(o, s) != TakingLimit ==> TypeAt(o, t) == TypeAt(o, s)
    ensures TypeAt(o, s) == TakingLimit ==> TypeAt(o, t) == TakingLimit || TypeAt(o, t) == RestingLimit
    ensures TypeAt(o, s) == TakingLimit ==> (IsRestingLimitOrder(o, t) <==> TypeAt(o, t) == RestingLimit)
  {}

  /** Classification does not look at the filled amount. */
  lemma FillKeepsType(o: Order, filled: nat, slot: nat)
    ensures TypeAt(o.(filled := filled), slot) == TypeAt(o, slot)
    ensures SideOf(o.(filled := filled)) == SideOf(o)
    ensures o.(filled := filled).Id() == o.Id()
  {}

  // ----- prices -----

  /** Price (or oracle offset) inside the auction, with the source's operator precedence. */
  function AuctionValue(o: Order, slot: nat): int {
    var elapsed := Min(slot - o.slot, o.auctionDuration);
    if o.auctionDuration == 0 then
      o.auctionStartPrice
    else
      match o.direction
      case Long =>
        var delta := o.auctionEndPrice - TruncDiv(o.auctionStartPrice * elapsed, o.auctionDuration);
        o.auctionStartPrice + delta
      case Short =>
        var delta := o.auctionStartPrice - TruncDiv(o.auctionEndPrice * elapsed, o.auctionDuration);
        o.auctionStartPrice - delta
  }

  function AuctionPrice(o: Order, slot: nat, oraclePrice: int): int {
    if o.orderType == OrderType.Oracle then oraclePrice + AuctionValue(o, slot) else AuctionValue(o, slot)
  }

  predicate HasAuctionPrice(o: Order, slot: nat) {
    !IsAuctionComplete(o, slot) && (o.auctionStartPrice != 0 || o.auctionEndPrice != 0)
  }

  const U64_LIMIT: nat := 0x1_0000_0000_0000_0000

  function ToU64(v: int): Option<nat> {
    if 0 <= v < U64_LIMIT then Some(v) else None
  }

  /** `None` stands for the source's panics: a price outside u64, or no price at all. */
  function LimitPrice(o: Order, oraclePrice: int, slot: nat): Option<nat> {
    if HasAuctionPrice(o, slot) then ToU64(AuctionPrice(o, slot, oraclePrice))
    else if o.oraclePriceOffset != 0 then ToU64(oraclePrice + o.oraclePriceOffset)
    else if o.price == 0 then None
    else Some(o.price)
  }

  predicate Priced(o: Order, oraclePrice: int, slot: nat) {
    LimitPrice(o, oraclePrice, slot).Some?
  }

  /** Outside its auction a resting order quotes its own price and a floating one its distance from the oracle. */
  lemma QuoteOutsideAuction(o: Order, oraclePrice: int, slot: nat)
    requires IsAuctionComplete(o, slot)
    ensures TypeAt(o, slot) == RestingLimit ==>
              LimitPrice(o, oraclePrice, slot) == if o.price == 0 then None else Some(o.price)
    ensures TypeAt(o, slot) == FloatingLimit ==>
              LimitPrice(o, oraclePrice, slot) == ToU64(oraclePrice + o.oraclePriceOffset)
  {}

  /**
    * The limit price: inside its auction the auction value, on top of the oracle price for oracle orders; outside
    * it the distance from the oracle, or the order's own price. `None` if that is no price or none is given.
    */
  lemma LimitPriceIsExact(o: Order, oraclePrice: int, slot: nat)
    ensures var p := LimitPrice(o, oraclePrice, slot);
            var running := o.auctionDuration != 0 && slot <= o.slot + o.auctionDuration;
            if running && (o.auctionStartPrice != 0 || o.auctionEndPrice != 0) then
              var v := AuctionValue(o, slot) + if o.orderType == OrderType.Oracle then oraclePrice else 0;
              if 0 <= v < 0x1_0000_0000_0000_0000 then p == Some(v) else p == None
            else if o.oraclePriceOffset != 0 then
              var v := oraclePrice + o.oraclePriceOffset;
              if 0 <= v < 0x1_0000_0000_0000_0000 then p == Some(v) else p == None
            else
              if o.price != 0 then p == Some(o.price) else p == None
  {}

  /** The price as a function of the order alone, for comparators. */
  function PriceAt(oraclePrice: int, slot: nat): Order -> int {
    (o: Order) =>
      match LimitPrice(o, oraclePrice, slot)
      case Some(p) => p
      case None => 0
  }

  /** Filling an order does not move its price. */
  lemma FillKeepsPrice(o: Order, filled: nat, oraclePrice: int, slot: nat)
    ensures LimitPrice(o.(filled := filled), oraclePrice, slot) == LimitPrice(o, oraclePrice, slot)
    ensures PriceAt(oraclePrice, slot)(o.(filled := filled)) == PriceAt(oraclePrice, slot)(o)
  {
    assert o.(filled := filled).auctionStartPrice == o.auctionStartPrice;
    assert AuctionValue(o.(filled := filled), slot) == AuctionValue(o, slot);
  }

  /** From its last slot on an auction quotes its end price. */
  lemma AuctionValueAtEnd(o: Order, slot: nat)
    requires o.auctionDuration > 0 && slot >= o.slot + o.auctionDuration
    ensures AuctionValue(o, slot) == o.auctionEndPrice
  {
    TruncDivExact(o.auctionStartPrice, o.auctionDuration);
    TruncDivExact(o.auctionEndPrice, o.auctionDuration);
  }

  /** At its first slot an auction quotes its start price only in a degenerate case. */
  lemma AuctionValueAtStart(o: Order)
    requires o.auctionDuration > 0
    ensures o.direction == Long ==> (AuctionValue(o, o.slot) == o.auctionStartPrice <==> o.auctionEndPrice == 0)
    ensures o.direction == Short ==> (AuctionValue(o, o.slot) == o.auctionStartPrice <==> o.auctionStartPrice == 0)
  {
    assert o.auctionStartPrice * 0 == 0 && o.auctionEndPrice * 0 == 0;
  }

  /** How far the auction value is above the straight line from start to end price, times the duration. */
  function AboveLine(o: Order, slot: nat): int {
    o.auctionDuration * AuctionValue(o, slot)
      - (o.auctionDuration * o.auctionStartPrice + (o.auctionEndPrice - o.auctionStartPrice) * (slot - o.slot))
  }

  /**
    * Up to the end of the auction the value is off that line by a share of one of its end points: a long quotes too
    * much by the end price, a short too little by the start price, each times the share of the auction that is still
    * to come. The rest is rounding, by less than one and toward zero in the quotient.
    */
  lemma AuctionIsOffLine(o: Order, slot: nat)
    requires o.auctionDuration > 0 && slot <= o.slot + o.auctionDuration
    ensures var elapsed := slot - o.slot;
            var left := o.auctionDuration - elapsed;
            && (o.direction == Long ==>
                  RoundsTowardZero(AboveLine(o, slot) - o.auctionEndPrice * left,
                                   o.auctionStartPrice * elapsed, o.auctionDuration))
            && (o.direction == Short ==>
                  RoundsTowardZero(-AboveLine(o, slot) - o.auctionStartPrice * left,
                                   o.auctionEndPrice * elapsed, o.auctionDuration))
  {
    hide AuctionValue, AboveLine, TruncDiv;
    var d, s, e, elapsed := o.auctionDuration, o.auctionStartPrice, o.auctionEndPrice, slot - o.slot;
    AuctionValueInside(o, slot);
    match o.direction
    case Long =>
      LongGap(d, s, e, elapsed, TruncDiv(s * elapsed, d));
      RoundedShare(s * elapsed, d);
    case Short =>
      ShortGap(d, s, e, elapsed, TruncDiv(e * elapsed, d));
      RoundedShare(e * elapsed, d);
  }

  /** What a truncating division by `d` leaves over of a number with the sign of `sign`. */
  predicate RoundsTowardZero(rest: int, sign: int, d: int) {
    && (sign >= 0 ==> 0 <= rest < d)
    && (sign <= 0 ==> -d < rest <= 0)
  }

  lemma AuctionValueInside(o: Order, slot: nat)
    requires o.auctionDuration > 0 && slot <= o.slot + o.auctionDuration
    ensures var d, s, e, elapsed := o.auctionDuration, o.auctionStartPrice, o.auctionEndPrice, slot - o.slot;
            && AboveLine(o, slot) == d * AuctionValue(o, slot) - (d * s + (e - s) * elapsed)
            && (o.direction == Long ==> AuctionValue(o, slot) == s + (e - TruncDiv(s * elapsed, d)))
            && (o.direction == Short ==> AuctionValue(o, slot) == TruncDiv(e * elapsed, d))
  {
    hide TruncDiv;
  }

  lemma RoundedShare(p: int, d: nat)
    requires d > 0
    ensures RoundsTowardZero(p - TruncDiv(p, d) * d, p, d)
  {
    hide TruncDiv;
    TruncDivRemainder(p, d);
  }

  lemma LongGap(d: int, s: int, e: int, t: int, q: int)
    ensures d * (s + (e - q)) - (d * s + (e - s) * t) - e * (d - t) == s * t - q * d
  {
    Expand(d, s, e - q);
    Expand(d, e, -q);
    Expand(t, e, -s);
    Expand(e, d, -t);
  }

  lemma ShortGap(d: int, s: int, e: int, t: int, q: int)
    ensures d * q - (d * s + (e - s) * t) + s * (d - t) == -(e * t - q * d)
  {
    Expand(t, e, -s);
    Expand(s, d, -t);
  }

  lemma Expand(x: int, y: int, z: int)
    ensures x * (y + z) == (y + z) * x == x * y + x * z
  {}
}
