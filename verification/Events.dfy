/** Drift events, the signature cache and the two event streams. */
module Events {
  import opened Collections

  type TxSig = string

  /** Events, with the fields that decide whom they concern. */
  datatype DriftEvent =
    | OrderFill(maker: Option<Pubkey>, taker: Option<Pubkey>)
    | OrderCancel(taker: Option<Pubkey>, maker: Option<Pubkey>)
    | OrderCancelMissing(userOrderId: nat, orderId: nat)
    | OrderCreate(user: Pubkey)
    | OrderExpire(expired: Option<Pubkey>)
    | FundingPayment(user: Pubkey)
  {
    predicate PertainsTo(account: Pubkey) {
      match this
      case OrderFill(maker, taker) => maker == Some(account) || taker == Some(account)
      case OrderCancel(taker, maker) => maker == Some(account) || taker == Some(account)
      case OrderCancelMissing(_, _) => true
      case OrderCreate(user) => user == account
      case OrderExpire(user) => user == Some(account)
      case FundingPayment(user) => user == account
    }
  }

  /** Parsing of one log line, given its transaction and position. */
  type Parser = (string, TxSig, nat) -> Option<DriftEvent>

  /** The events of a transaction's logs that concern the account, in log order. */
  function Relevant(logs: seq<string>, sig: TxSig, parse: Parser, account: Pubkey): seq<DriftEvent> {
    if logs == [] then []
    else
      var k := |logs| - 1;
      Relevant(logs[..k], sig, parse, account)
        + match parse(logs[k], sig, k)
          case Some(e) => if e.PertainsTo(account) then [e] else []
          case None => []
  }

  /** The loop both streams share. */
  method Emit(logs: seq<string>, sig: TxSig, parse: Parser, account: Pubkey) returns (out: seq<DriftEvent>)
    ensures out == Relevant(logs, sig, parse, account)
  {
    out := [];
    for i := 0 to |logs|
      invariant out == Relevant(logs[..i], sig, parse, account)
    {
      assert logs[..i + 1][..i] == logs[..i];
      var event := parse(logs[i], sig, i);
      if event.Some? && event.value.PertainsTo(account) {
        out := out + [event.value];
      }
    }
    assert logs[..|logs|] == logs;
  }

  // ----- what is emitted, position by position -----

  /** An event concerns whoever it names; a cancelled order that was not found names nobody and concerns all. */
  predicate Concerns(e: DriftEvent, account: Pubkey) {
    match e
    case OrderFill(maker, taker) => Some(account) == maker || Some(account) == taker
    case OrderCancel(taker, maker) => Some(account) == taker || Some(account) == maker
    case OrderCancelMissing(_, _) => true
    case OrderCreate(user) => account == user
    case OrderExpire(expired) => Some(account) == expired
    case FundingPayment(user) => account == user
  }

  /** The log lines of one transaction that are looked at. */
  datatype Batch = Batch(logs: seq<string>, signature: TxSig)

  /** A line of one of several transactions. */
  datatype Origin = Origin(batch: nat, line: nat)

  predicate Earlier(p: Origin, q: Origin) {
    p.batch < q.batch || (p.batch == q.batch && p.line < q.line)
  }

  /** The line parses to an event that concerns the account. */
  predicate Yields(batches: seq<Batch>, p: Origin, parse: Parser, account: Pubkey) {
    && p.batch < |batches| && p.line < |batches[p.batch].logs|
    && var e := parse(batches[p.batch].logs[p.line], batches[p.batch].signature, p.line);
       e.Some? && Concerns(e.value, account)
  }

  function EventAt(batches: seq<Batch>, p: Origin, parse: Parser): Option<DriftEvent> {
    if p.batch < |batches| && p.line < |batches[p.batch].logs|
    then parse(batches[p.batch].logs[p.line], batches[p.batch].signature, p.line)
    else None
  }

  /**
    * `out` are the events of exactly those lines that parse to an event concerning the account, each once, in
    * transaction order and then log order; `from` says which line each comes from.
    */
  ghost predicate IsEmission(out: seq<DriftEvent>, from: seq<Origin>, batches: seq<Batch>, parse: Parser,
                             account: Pubkey) {
    && |from| == |out|
    && (forall i :: 0 <= i < |from| ==>
          Yields(batches, from[i], parse, account) && EventAt(batches, from[i], parse) == Some(out[i]))
    && (forall i, j :: 0 <= i < j < |from| ==> Earlier(from[i], from[j]))
    && (forall p :: Yields(batches, p, parse, account) ==> p in from)
  }

  lemma {:induction false} RelevantLines(logs: seq<string>, sig: TxSig, parse: Parser, account: Pubkey)
    returns (from: seq<Origin>)
    ensures IsEmission(Relevant(logs, sig, parse, account), from, [Batch(logs, sig)], parse, account)
  {
    if logs == [] {
      from := [];
    } else {
      var k := |logs| - 1;
      var before := RelevantLines(logs[..k], sig, parse, account);
      var e, p := parse(logs[k], sig, k), Origin(0, k);
      assert e.Some? ==> (e.value.PertainsTo(account) <==> Concerns(e.value, account));
      from := before + if e.Some? && Concerns(e.value, account) then [p] else [];
      forall q ensures Yields([Batch(logs, sig)], q, parse, account) <==>
                       Yields([Batch(logs[..k], sig)], q, parse, account) || (q == p && q in from[|before|..])
      {
        if q.batch == 0 && q.line < k {
          assert logs[..k][q.line] == logs[q.line];
        }
      }
      assert forall i :: 0 <= i < |before| ==> before[i].line < k && from[i] == before[i];
    }
  }

  /** The batches one after the other. */
  function BatchEvents(batches: seq<Batch>, parse: Parser, account: Pubkey): seq<DriftEvent> {
    if batches == [] then []
    else
      var b := batches[|batches| - 1];
      BatchEvents(batches[..|batches| - 1], parse, account) + Relevant(b.logs, b.signature, parse, account)
  }

  function Shifted(from: seq<Origin>, batch: nat): seq<Origin> {
    seq(|from|, i requires 0 <= i < |from| => Origin(batch, from[i].line))
  }

  lemma {:induction false} BatchLines(batches: seq<Batch>, parse: Parser, account: Pubkey) returns (from: seq<Origin>)
    ensures IsEmission(BatchEvents(batches, parse, account), from, batches, parse, account)
  {
    if batches == [] {
      from := [];
    } else {
      var k := |batches| - 1;
      var b := batches[k];
      var before := BatchLines(batches[..k], parse, account);
      var last := RelevantLines(b.logs, b.signature, parse, account);
      from := before + Shifted(last, k);
      LastBatchLines(batches, BatchEvents(batches[..k], parse, account), before,
                     Relevant(b.logs, b.signature, parse, account), last, parse, account);
    }
  }

  lemma LastBatchLines(batches: seq<Batch>, out: seq<DriftEvent>, before: seq<Origin>, more: seq<DriftEvent>,
                       last: seq<Origin>, parse: Parser, account: Pubkey)
    requires batches != []
    requires IsEmission(out, before, batches[..|batches| - 1], parse, account)
    requires IsEmission(more, last, [batches[|batches| - 1]], parse, account)
    ensures IsEmission(out + more, before + Shifted(last, |batches| - 1), batches, parse, account)
  {
    hide Concerns;
    var k := |batches| - 1;
    var from := before + Shifted(last, k);
    forall i | 0 <= i < |from|
      ensures Yields(batches, from[i], parse, account) && EventAt(batches, from[i], parse) == Some((out + more)[i])
      ensures i < |before| ==> from[i].batch < k
      ensures i >= |before| ==> from[i] == Origin(k, last[i - |before|].line)
    {
      if i < |before| {
        assert Yields(batches[..k], before[i], parse, account);
      } else {
        assert Yields([batches[k]], last[i - |before|], parse, account);
      }
    }
    forall p | Yields(batches, p, parse, account) ensures p in from {
      if p.batch < k {
        assert Yields(batches[..k], p, parse, account);
      } else {
        assert Yields([batches[k]], Origin(0, p.line), parse, account);
        var i :| 0 <= i < |last| && last[i] == Origin(0, p.line);
        assert from[|before| + i] == p;
      }
    }
  }

  // ----- the signature cache -----

  datatype CacheState = CacheState(capacity: nat, entries: set<TxSig>, age: seq<TxSig>) {
    function Inserted(x: TxSig): CacheState {
      var longer := age + [x];
      if |longer| >= capacity then
        CacheState(capacity, entries + {x} - {longer[0]}, longer[1..])
      else
        CacheState(capacity, entries + {x}, longer)
    }
  }

  /** How many accepted signatures the cache remembers. */
  function Window(capacity: nat): nat {
    if capacity == 0 then 0 else capacity - 1
  }

  function Last(xs: seq<TxSig>, n: nat): seq<TxSig> {
    if |xs| <= n then xs else xs[|xs| - n..]
  }

  /** The cache after accepting exactly `accepted`. */
  ghost predicate Remembers(c: CacheState, accepted: seq<TxSig>) {
    && c.age == Last(accepted, Window(c.capacity))
    && Distinct(c.age)
    && c.entries == Elems(c.age)
  }

  /** Check-then-insert keeps set and queue in step: the cache is the last capacity - 1 accepted signatures. */
  lemma CacheStep(c: CacheState, accepted: seq<TxSig>, x: TxSig)
    requires Remembers(c, accepted) && x !in c.entries
    ensures Remembers(c.Inserted(x), accepted + [x])
  {
    var longer := c.age + [x];
    assert forall y :: y in c.age ==> y in Elems(c.age);
    assert Distinct(longer);
    assert Elems(longer) == c.entries + {x};
    if |longer| >= c.capacity {
      DropOldest(longer);
      assert longer[1..] == Last(accepted + [x], Window(c.capacity));
    } else {
      assert longer == Last(accepted + [x], Window(c.capacity));
    }
  }

  lemma DropOldest(xs: seq<TxSig>)
    requires Distinct(xs) && xs != []
    ensures Elems(xs) - {xs[0]} == Elems(xs[1..]) && Distinct(xs[1..])
  {
    VisitsDropFirst(xs, Elems(xs));
  }

  class TxSignatureCache {
    var capacity: nat
    var entries: set<TxSig>
    var age: seq<TxSig>

    function State(): CacheState
      reads this
    {
      CacheState(capacity, entries, age)
    }

    constructor (capacity: nat)
      ensures State() == CacheState(capacity, {}, [])
    {
      this.capacity, entries, age := capacity, {}, [];
    }

    method Contains(x: TxSig) returns (r: bool)
      ensures r <==> x in entries
    {
      r := x in entries;
    }

    method Insert(x: TxSig)
      modifies this
      ensures State() == old(State()).Inserted(x)
    {
      entries := entries + {x};
      age := age + [x];
      if |age| >= capacity {
        entries := entries - {age[0]};
        age := age[1..];
      }
    }
  }

  // ----- the log stream -----

  datatype LogResponse = LogResponse(failed: bool, signature: TxSig, logs: seq<string>)

  /** Which responses are accepted, newest last; the specification of the log stream. */
  function Accepted(responses: seq<LogResponse>, capacity: nat): seq<LogResponse> {
    if responses == [] then []
    else
      var before := Accepted(responses[..|responses| - 1], capacity);
      var r := responses[|responses| - 1];
      if r.failed || r.signature in Last(SignaturesOf(before), Window(capacity)) then before else before + [r]
  }

  function SignaturesOf(responses: seq<LogResponse>): seq<TxSig> {
    seq(|responses|, i requires 0 <= i < |responses| => responses[i].signature)
  }

  function EventsOf(responses: seq<LogResponse>, parse: Parser, account: Pubkey): seq<DriftEvent> {
    if responses == [] then []
    else
      var r := responses[|responses| - 1];
      EventsOf(responses[..|responses| - 1], parse, account) + Relevant(r.logs, r.signature, parse, account)
  }

  function BatchesOf(responses: seq<LogResponse>): seq<Batch> {
    seq(|responses|, i requires 0 <= i < |responses| => Batch(responses[i].logs, responses[i].signature))
  }

  lemma {:induction false} EventsOfBatches(responses: seq<LogResponse>, parse: Parser, account: Pubkey)
    ensures EventsOf(responses, parse, account) == BatchEvents(BatchesOf(responses), parse, account)
  {
    if responses == [] {
    } else {
      var k := |responses| - 1;
      assert BatchesOf(responses)[..k] == BatchesOf(responses[..k]);
      EventsOfBatches(responses[..k], parse, account);
    }
  }

  /** One of the last `capacity - 1` of `before` has this signature. */
  predicate Recent(before: seq<LogResponse>, capacity: nat, signature: TxSig) {
    exists j :: 0 <= j < |before| && |before| - j < capacity && before[j].signature == signature
  }

  /**
    * Which responses are accepted: a failed one never, any other one exactly if its signature is not among
    * the last `capacity - 1` accepted ones.
    */
  lemma AcceptedUnlessRecent(responses: seq<LogResponse>, capacity: nat)
    requires responses != []
    ensures var r, before := responses[|responses| - 1], Accepted(responses[..|responses| - 1], capacity);
            Accepted(responses, capacity) ==
              if r.failed || Recent(before, capacity, r.signature) then before else before + [r]
  {
    hide Recent, Last, Window, SignaturesOf;
    var k := |responses| - 1;
    RecentIsRemembered(Accepted(responses[..k], capacity), capacity, responses[k].signature);
  }

  lemma RecentIsRemembered(before: seq<LogResponse>, capacity: nat, x: TxSig)
    ensures x in Last(SignaturesOf(before), Window(capacity)) <==> Recent(before, capacity, x)
  {
    var sigs := SignaturesOf(before);
    var last := Last(sigs, Window(capacity));
    if x in last {
      var i :| 0 <= i < |last| && last[i] == x;
      assert before[i + |sigs| - |last|].signature == x;
    }
    if j :| 0 <= j < |before| && |before| - j < capacity && before[j].signature == x {
      assert sigs[j] == x;
      InLast(sigs, Window(capacity), j);
    }
  }

  class LogEventStream {
    const cache: TxSignatureCache
    const account: Pubkey
    const parse: Parser
    var emitted: seq<DriftEvent>

    constructor (account: Pubkey, parse: Parser, capacity: nat)
      ensures cache.State() == CacheState(capacity, {}, []) && emitted == []
      ensures this.account == account && this.parse == parse && fresh(cache)
    {
      cache := new TxSignatureCache(capacity);
      this.account, this.parse, emitted := account, parse, [];
    }

    method ProcessLog(r: LogResponse)
      modifies this, cache
      ensures r.failed || r.signature in old(cache.entries) ==>
                cache.State() == old(cache.State()) && emitted == old(emitted)
      ensures !r.failed && r.signature !in old(cache.entries) ==>
                && cache.State() == old(cache.State()).Inserted(r.signature)
                && emitted == old(emitted) + Relevant(r.logs, r.signature, parse, account)
                && exists from ::
                     IsEmission(emitted[|old(emitted)|..], from, [Batch(r.logs, r.signature)], parse, account)
    {
      if r.failed {
        return;
      }
      var seen := cache.Contains(r.signature);
      if seen {
        return;
      }
      cache.Insert(r.signature);
      var out := Emit(r.logs, r.signature, parse, account);
      ghost var from := RelevantLines(r.logs, r.signature, parse, account);
      emitted := emitted + out;
      assert emitted[|old(emitted)|..] == out;
    }

    /** The subscription loop over the responses of one or more connections. */
    method Run(responses: seq<LogResponse>)
      requires cache.State() == CacheState(cache.capacity, {}, []) && emitted == []
      modifies this, cache
      ensures emitted == EventsOf(Accepted(responses, old(cache.capacity)), parse, account)
      ensures exists from ::
                IsEmission(emitted, from, BatchesOf(Accepted(responses, old(cache.capacity))), parse, account)
      ensures Remembers(cache.State(), SignaturesOf(Accepted(responses, old(cache.capacity))))
      ensures cache.capacity == old(cache.capacity)
    {
      ghost var capacity := cache.capacity;
      for i := 0 to |responses|
        invariant cache.capacity == capacity
        invariant emitted == EventsOf(Accepted(responses[..i], capacity), parse, account)
        invariant Remembers(cache.State(), SignaturesOf(Accepted(responses[..i], capacity)))
      {
        ghost var before := Accepted(responses[..i], capacity);
        var r := responses[i];
        assert responses[..i + 1][..i] == responses[..i];
        assert r.signature in cache.entries <==> r.signature in Last(SignaturesOf(before), Window(capacity));
        if !r.failed && r.signature !in cache.entries {
          CacheStep(cache.State(), SignaturesOf(before), r.signature);
          assert SignaturesOf(before + [r]) == SignaturesOf(before) + [r.signature];
          assert (before + [r])[..|before|] == before;
        }
        ProcessLog(r);
      }
      assert responses[..|responses|] == responses;
      EventsOfBatches(Accepted(responses, capacity), parse, account);
      ghost var from := BatchLines(BatchesOf(Accepted(responses, capacity)), parse, account);
    }
  }

  /** A signature is processed again only after at least a window of other accepted signatures. */
  lemma {:induction false} NoRepeatInWindow(responses: seq<LogResponse>, capacity: nat, i: nat, j: nat)
    requires i < j < |Accepted(responses, capacity)|
    requires var acc := Accepted(responses, capacity); acc[i].signature == acc[j].signature
    ensures j - i > Window(capacity) && j - i >= capacity
  {
    var before := Accepted(responses[..|responses| - 1], capacity);
    var acc := Accepted(responses, capacity);
    if j < |before| {
      NoRepeatInWindow(responses[..|responses| - 1], capacity, i, j);
    } else {
      var sigs := SignaturesOf(before);
      assert acc[i] == before[i] && sigs[i] == acc[j].signature;
      assert acc[j].signature !in Last(sigs, Window(capacity));
      InLast(sigs, Window(capacity), i);
    }
  }

  lemma InLast(xs: seq<TxSig>, n: nat, i: nat)
    requires i < |xs|
    ensures |xs| - i <= n ==> xs[i] in Last(xs, n)
  {
    var last := Last(xs, n);
    if |xs| - i <= n {
      assert last[i - (|xs| - |last|)] == xs[i];
    }
  }

  /** Failed responses are never accepted, and every accepted one was delivered. */
  lemma {:induction false} AcceptedWereDelivered(responses: seq<LogResponse>, capacity: nat)
    ensures forall r :: r in Accepted(responses, capacity) ==> r in responses && !r.failed
  {
    if responses == [] {
    } else {
      AcceptedWereDelivered(responses[..|responses| - 1], capacity);
    }
  }

  /** Every successful delivery is accepted, or was within the window. */
  lemma {:induction false} EveryDeliveryAccepted(responses: seq<LogResponse>, capacity: nat, i: nat)
    requires i < |responses| && !responses[i].failed
    ensures responses[i].signature in SignaturesOf(Accepted(responses, capacity))
  {
    var k := |responses| - 1;
    var before, acc := Accepted(responses[..k], capacity), Accepted(responses, capacity);
    assert forall j :: 0 <= j < |before| ==> SignaturesOf(acc)[j] == SignaturesOf(before)[j];
    if i < k {
      EveryDeliveryAccepted(responses[..k], capacity, i);
      var j :| 0 <= j < |before| && SignaturesOf(before)[j] == responses[i].signature;
      assert SignaturesOf(acc)[j] == responses[i].signature;
    } else if acc == before + [responses[k]] {
      assert SignaturesOf(acc)[|before|] == responses[k].signature;
    } else {
      var last := Last(SignaturesOf(before), Window(capacity));
      assert responses[k].signature in last;
    }
  }

  // ----- the polled stream -----

  datatype TxMeta = TxMeta(failed: bool, logs: Option<seq<string>>)

  /** A fetched transaction; `touchesProgram` is absent when it cannot be decoded. */
  datatype Tx = Tx(meta: Option<TxMeta>, touchesProgram: Option<bool>)

  function TxEvents(tx: Tx, sig: TxSig, parse: Parser, account: Pubkey): seq<DriftEvent> {
    if tx.meta.None? || tx.touchesProgram == Some(false) || tx.meta.value.failed || tx.meta.value.logs.None? then []
    else Relevant(tx.meta.value.logs.value, sig, parse, account)
  }

  function EventsOfTxs(sigs: seq<TxSig>, txs: TxSig -> Tx, parse: Parser, account: Pubkey): seq<DriftEvent> {
    if sigs == [] then []
    else
      var s := sigs[|sigs| - 1];
      EventsOfTxs(sigs[..|sigs| - 1], txs, parse, account) + TxEvents(txs(s), s, parse, account)
  }

  /** What counts of a transaction: the logs of a successful one, unless it decodes without touching the program. */
  function TxBatch(tx: Tx, sig: TxSig): Batch {
    if tx.meta.Some? && !tx.meta.value.failed && tx.meta.value.logs.Some? && tx.touchesProgram != Some(false)
    then Batch(tx.meta.value.logs.value, sig)
    else Batch([], sig)
  }

  function TxBatches(sigs: seq<TxSig>, txs: TxSig -> Tx): seq<Batch> {
    seq(|sigs|, i requires 0 <= i < |sigs| => TxBatch(txs(sigs[i]), sigs[i]))
  }

  lemma {:induction false} EventsOfTxBatches(sigs: seq<TxSig>, txs: TxSig -> Tx, parse: Parser, account: Pubkey)
    ensures EventsOfTxs(sigs, txs, parse, account) == BatchEvents(TxBatches(sigs, txs), parse, account)
  {
    if sigs == [] {
    } else {
      var k := |sigs| - 1;
      assert TxBatches(sigs, txs)[..k] == TxBatches(sigs[..k], txs);
      EventsOfTxBatches(sigs[..k], txs, parse, account);
    }
  }

  /** One poll: the ledger (oldest first) at that time, whether listing works, and which fetches fail. */
  datatype Poll = Poll(ledger: seq<TxSig>, listed: bool, failing: set<TxSig>)

  function Reverse(xs: seq<TxSig>): (r: seq<TxSig>)
    ensures |r| == |xs| && forall i :: 0 <= i < |r| ==> r[i] == xs[|xs| - 1 - i]
  {
    if xs == [] then [] else [xs[|xs| - 1]] + Reverse(xs[..|xs| - 1])
  }

  function Position(ledger: seq<TxSig>, s: TxSig): (k: nat)
    ensures k <= |ledger| && (k < |ledger| ==> ledger[k] == s) && s !in ledger[..k]
  {
    if ledger == [] || ledger[0] == s then 0
    else
      var k := Position(ledger[1..], s);
      assert ledger[..k + 1] == [ledger[0]] + ledger[1..][..k];
      k + 1
  }

  /** Signatures more recent than `after`, newest first, at most `limit` of them. */
  function GetTxSignatures(ledger: seq<TxSig>, after: Option<TxSig>, limit: Option<nat>): seq<TxSig> {
    var from := if after.Some? && after.value in ledger then Position(ledger, after.value) + 1 else 0;
    var r := Reverse(ledger[if from <= |ledger| then from else |ledger|..]);
    if limit.Some? && limit.value < |r| then r[..limit.value] else r
  }

  /** Where a poll that starts at `next` stops: at the first failing fetch, or at the end. */
  function StopAt(ledger: seq<TxSig>, next: nat, failing: set<TxSig>): (k: nat)
    requires next <= |ledger|
    ensures next <= k <= |ledger|
    ensures forall i :: next <= i < k ==> ledger[i] !in failing
    ensures k < |ledger| ==> ledger[k] in failing
    decreases |ledger| - next
  {
    if next == |ledger| || ledger[next] in failing then next else StopAt(ledger, next + 1, failing)
  }

  function LedgerAfter(ledger: seq<TxSig>, polls: seq<Poll>): seq<TxSig> {
    if polls == [] then ledger else polls[|polls| - 1].ledger
  }

  /** The ledger only grows, and never repeats a signature. */
  predicate Growing(ledger: seq<TxSig>, polls: seq<Poll>) {
    if polls == [] then Distinct(ledger)
    else
      var n := |polls| - 1;
      && Growing(ledger, polls[..n])
      && Distinct(polls[n].ledger)
      && LedgerAfter(ledger, polls[..n]) <= polls[n].ledger
  }

  lemma {:induction false} GrowingPrefix(ledger: seq<TxSig>, polls: seq<Poll>, i: nat)
    requires Growing(ledger, polls) && i <= |polls|
    ensures Growing(ledger, polls[..i])
    ensures i > 0 ==> Distinct(polls[i - 1].ledger) && LedgerAfter(ledger, polls[..i - 1]) <= polls[i - 1].ledger
  {
    if i == |polls| {
      assert polls[..i] == polls;
    } else {
      GrowingPrefix(ledger, polls[..|polls| - 1], i);
      assert polls[..|polls| - 1][..i] == polls[..i];
      assert i > 0 ==> polls[..|polls| - 1][..i - 1] == polls[..i - 1];
    }
  }

  /** How far the stream got: failed polls and failed fetches only delay it. */
  ghost function Progress(ledger: seq<TxSig>, polls: seq<Poll>): (k: nat)
    requires Growing(ledger, polls)
    ensures |ledger| <= k <= |LedgerAfter(ledger, polls)|
  {
    if polls == [] then |ledger|
    else
      var n := |polls| - 1;
      var k := Progress(ledger, polls[..n]);
      if polls[n].listed then StopAt(polls[n].ledger, k, polls[n].failing) else k
  }

  lemma ProgressStart(ledger: seq<TxSig>)
    requires Growing(ledger, [])
    ensures Progress(ledger, []) == |ledger| && Distinct(ledger)
  {}

  lemma ProgressStep(ledger: seq<TxSig>, polls: seq<Poll>)
    requires Growing(ledger, polls) && polls != []
    ensures Growing(ledger, polls[..|polls| - 1])
    ensures var p, k := polls[|polls| - 1], Progress(ledger, polls[..|polls| - 1]);
            k <= |p.ledger| && Progress(ledger, polls) == if p.listed then StopAt(p.ledger, k, p.failing) else k
  {}

  /** A poll without failures catches up with the whole ledger. */
  lemma CleanPollCatchesUp(ledger: seq<TxSig>, polls: seq<Poll>)
    requires Growing(ledger, polls) && polls != []
    requires var p := polls[|polls| - 1];
             p.listed && forall i :: |ledger| <= i < |p.ledger| ==> p.ledger[i] !in p.failing
    ensures Progress(ledger, polls) == |LedgerAfter(ledger, polls)|
  {
    var n := |polls| - 1;
    var k := StopAt(polls[n].ledger, Progress(ledger, polls[..n]), polls[n].failing);
    assert k == Progress(ledger, polls);
  }

  class PolledEventStream {
    const cache: TxSignatureCache
    const account: Pubkey
    const parse: Parser
    const txs: TxSig -> Tx
    var lastSeen: Option<TxSig>
    var emitted: seq<DriftEvent>
    /** Signatures whose transaction was processed, in processing order. */
    ghost var processed: seq<TxSig>

    /** The stream stands at `next`, having processed exactly the ledger from `start` to there. */
    ghost predicate At(ledger: seq<TxSig>, start: nat, next: nat)
      reads this, cache
    {
      && start <= next <= |ledger|
      && processed == ledger[start..next]
      && lastSeen == (if next == 0 then None else Some(ledger[next - 1]))
      && Remembers(cache.State(), processed)
      && emitted == EventsOfTxs(processed, txs, parse, account)
    }

    /** The initial query: the most recent transaction becomes the cursor. */
    constructor (account: Pubkey, parse: Parser, txs: TxSig -> Tx, capacity: nat, ledger: seq<TxSig>)
      requires Distinct(ledger)
      ensures At(ledger, |ledger|, |ledger|)
      ensures this.account == account && this.parse == parse && this.txs == txs && fresh(cache)
    {
      hide GetTxSignatures, Distinct, Elems;
      NothingRemembered(capacity);
      NewestIsLast(ledger);
      cache := new TxSignatureCache(capacity);
      this.account, this.parse, this.txs, emitted, processed := account, parse, txs, [], [];
      var newest := GetTxSignatures(ledger, None, Some(1));
      lastSeen := if newest == [] then None else Some(newest[0]);
    }

    lemma AtMeaning(ledger: seq<TxSig>, start: nat, next: nat)
      requires At(ledger, start, next)
      ensures start <= next <= |ledger| && processed == ledger[start..next]
      ensures emitted == EventsOfTxs(ledger[start..next], txs, parse, account)
      ensures lastSeen == if next == 0 then None else Some(ledger[next - 1])
    {}

    lemma LedgerGrew(ledger: seq<TxSig>, ledger': seq<TxSig>, start: nat, next: nat)
      requires At(ledger, start, next) && ledger <= ledger' && Distinct(ledger')
      ensures At(ledger', start, next) && next <= |ledger'|
      ensures Reverse(GetTxSignatures(ledger', lastSeen, None)) == ledger'[next..]
    {
      assert ledger'[start..next] == ledger[start..next];
      BatchIsRest(ledger', lastSeen, next);
    }

    /** One turn of the polling loop. */
    method PollOnce(p: Poll, ghost ledger: seq<TxSig>, ghost start: nat, ghost next: nat)
      requires At(ledger, start, next) && ledger <= p.ledger && Distinct(p.ledger)
      modifies this, cache
      ensures At(p.ledger, start, if p.listed then StopAt(p.ledger, next, p.failing) else next)
    {
      hide PolledEventStream.At, Distinct, GetTxSignatures;
      LedgerGrew(ledger, p.ledger, start, next);
      if !p.listed {
        return;
      }
      var batch := Reverse(GetTxSignatures(p.ledger, lastSeen, None));
      for i := 0 to |batch|
        invariant batch == p.ledger[next..]
        invariant next + i <= |p.ledger| && At(p.ledger, start, next + i)
        invariant StopAt(p.ledger, next, p.failing) == StopAt(p.ledger, next + i, p.failing)
      {
        var signature := batch[i];
        assert signature == p.ledger[next + i];
        if signature in p.failing {
          return;
        }
        ProcessTx(signature, p.ledger, start, next + i);
      }
    }

    /** A fetched transaction: the cursor moves, and an unseen signature is processed. */
    method ProcessTx(signature: TxSig, ghost ledger: seq<TxSig>, ghost start: nat, ghost k: nat)
      requires At(ledger, start, k) && Distinct(ledger) && k < |ledger| && signature == ledger[k]
      modifies this, cache
      ensures At(ledger, start, k + 1)
    {
      NotSeenBefore(ledger, start, k);
      Processing(cache.State(), processed, signature);
      ExtendRun(ledger, start, k);
      lastSeen := Some(signature);
      var seen := cache.Contains(signature);
      if seen {
        assert false;
      }
      cache.Insert(signature);
      processed := processed + [signature];
      EmitTx(signature);
    }

    method EmitTx(signature: TxSig)
      modifies this`emitted
      ensures emitted == old(emitted) + TxEvents(txs(signature), signature, parse, account)
    {
      var tx := txs(signature);
      if tx.meta.None? {
        return;
      }
      if tx.touchesProgram == Some(false) {
        return;
      }
      if tx.meta.value.failed {
        return;
      }
      if tx.meta.value.logs.Some? {
        var out := Emit(tx.meta.value.logs.value, signature, parse, account);
        emitted := emitted + out;
      }
    }
  }

  lemma ExtendRun(ledger: seq<TxSig>, start: nat, k: nat)
    requires start <= k < |ledger|
    ensures ledger[start..k + 1] == ledger[start..k] + [ledger[k]]
    ensures (ledger[start..k] + [ledger[k]])[..|ledger[start..k]|] == ledger[start..k]
  {}

  lemma NothingRemembered(capacity: nat)
    ensures Remembers(CacheState(capacity, {}, []), [])
  {
    assert Elems<TxSig>([]) == {};
  }

  lemma NewestIsLast(ledger: seq<TxSig>)
    ensures GetTxSignatures(ledger, None, Some(1)) == if ledger == [] then [] else [ledger[|ledger| - 1]]
  {
    assert ledger[0..] == ledger;
  }

  lemma BatchIsRest(ledger: seq<TxSig>, lastSeen: Option<TxSig>, next: nat)
    requires Distinct(ledger) && next <= |ledger|
    requires lastSeen == if next == 0 then None else Some(ledger[next - 1])
    ensures Reverse(GetTxSignatures(ledger, lastSeen, None)) == ledger[next..]
  {
    if next > 0 {
      var k := Position(ledger, ledger[next - 1]);
      assert forall j :: 0 <= j < k ==> ledger[..k][j] == ledger[j];
      assert k == next - 1;
    }
  }

  lemma NotSeenBefore(ledger: seq<TxSig>, start: nat, k: nat)
    requires Distinct(ledger) && start <= k < |ledger|
    ensures ledger[k] !in ledger[start..k]
  {}

  lemma Processing(c: CacheState, processed: seq<TxSig>, x: TxSig)
    requires Remembers(c, processed) && x !in processed
    ensures x !in c.entries && Remembers(c.Inserted(x), processed + [x])
  {
    CacheStep(c, processed, x);
  }

  /**
    * Exactly once, in order: over every pattern of failed polls and failed fetches, the
    * processed transactions are the ledger from right after the initial one up to the cursor.
    */
  method StreamFn(account: Pubkey, parse: Parser, txs: TxSig -> Tx, capacity: nat, ledger: seq<TxSig>, polls: seq<Poll>)
    returns (emitted: seq<DriftEvent>, cursor: Option<TxSig>, ghost processed: seq<TxSig>)
    requires Growing(ledger, polls)
    ensures var k, end := Progress(ledger, polls), LedgerAfter(ledger, polls);
            emitted == EventsOfTxs(end[|ledger|..k], txs, parse, account)
    ensures var k, end := Progress(ledger, polls), LedgerAfter(ledger, polls);
            cursor == if k == 0 then None else Some(end[k - 1])
    ensures var k, end := Progress(ledger, polls), LedgerAfter(ledger, polls);
            processed == end[|ledger|..k]
    ensures exists from :: IsEmission(emitted, from, TxBatches(processed, txs), parse, account)
  {
    hide Relevant, IsEmission, PolledEventStream.At, Growing, EventsOfTxs, StopAt, Distinct, Progress;
    GrowingPrefix(ledger, polls, 0);
    ProgressStart(ledger);
    var stream := new PolledEventStream(account, parse, txs, capacity, ledger);
    for i := 0 to |polls|
      invariant fresh(stream) && fresh(stream.cache)
      invariant stream.account == account && stream.parse == parse && stream.txs == txs
      invariant Growing(ledger, polls[..i])
      invariant stream.At(LedgerAfter(ledger, polls[..i]), |ledger|, Progress(ledger, polls[..i]))
    {
      assert polls[..i + 1][..i] == polls[..i];
      GrowingPrefix(ledger, polls, i + 1);
      ProgressStep(ledger, polls[..i + 1]);
      stream.PollOnce(polls[i], LedgerAfter(ledger, polls[..i]), |ledger|, Progress(ledger, polls[..i]));
    }
    assert polls[..|polls|] == polls;
    stream.AtMeaning(LedgerAfter(ledger, polls), |ledger|, Progress(ledger, polls));
    emitted, cursor, processed := stream.emitted, stream.lastSeen, stream.processed;
    EventsOfTxBatches(processed, txs, parse, account);
    ghost var from := BatchLines(TxBatches(processed, txs), parse, account);
  }
}
