/** One order list: a keyed heap per side and the index of signatures. */
module OrderLists {
  import opened Collections
  import opened Orders
  import opened Nodes

  /** A keyed max-priority queue: pushing an existing key replaces its node. */
  type Heap = map<Sig, DirectionalNode>

  /** The contents of an order list. */
  datatype ListState = ListState(
    bids: Heap,
    asks: Heap,
    sigs: map<Sig, Node>,
    bidDir: SortDirection,
    askDir: SortDirection)
  {
    function Heap(side: Side): Heap {
      if side == Bid then bids else asks
    }

    function Dir(side: Side): SortDirection {
      if side == Bid then bidDir else askDir
    }

    function WithHeap(side: Side, h: Heap): ListState {
      if side == Bid then this.(bids := h) else this.(asks := h)
    }

    function Inserted(node: Node, side: Side): ListState {
      this.(sigs := sigs[node.Key() := node])
          .WithHeap(side, Heap(side)[node.Key() := DirectionalNode(node, Dir(side))])
    }

    /** Replaces the order stored under a signature, in the index and in the heap of `side`. */
    function Updated(order: Order, user: Pubkey, side: Side): ListState {
      var s := Sig(order.orderId, user);
      if s !in sigs then
        this
      else
        var indexed := this.(sigs := sigs[s := sigs[s].WithOrder(order)]);
        if s !in Heap(side) then
          indexed
        else
          indexed.WithHeap(side, Heap(side)[s := Heap(side)[s].(node := Heap(side)[s].node.WithOrder(order))])
    }

    function Size(): nat {
      |bids| + |asks|
    }

    /** Heap keys are the signatures of their nodes, and a heap has one direction. */
    predicate WellKeyed() {
      && (forall s :: s in sigs ==> sigs[s].Key() == s)
      && (forall s :: s in bids ==> bids[s].node.Key() == s && bids[s].dir == bidDir)
      && (forall s :: s in asks ==> asks[s].node.Key() == s && asks[s].dir == askDir)
    }
  }

  lemma InsertedKeepsKeys(l: ListState, node: Node, side: Side)
    requires l.WellKeyed()
    ensures l.Inserted(node, side).WellKeyed()
  {}

  lemma UpdatedKeepsKeys(l: ListState, order: Order, user: Pubkey, side: Side)
    requires l.WellKeyed()
    ensures l.Updated(order, user, side).WellKeyed()
  {}

  // ----- draining -----

  ghost function SigsOf(r: seq<Node>): set<Sig> {
    set i | 0 <= i < |r| :: r[i].Key()
  }

  predicate DistinctSigs(r: seq<Node>) {
    forall i, j :: 0 <= i < j < |r| ==> r[i].Key() != r[j].Key()
  }

  /** `r` lists the nodes of `h` under exactly the keys `keys`, each once. */
  ghost predicate Enumerates(r: seq<Node>, h: Heap, keys: set<Sig>) {
    && DistinctSigs(r)
    && SigsOf(r) == keys
    && forall i :: 0 <= i < |r| ==> r[i].Key() in h && h[r[i].Key()].node == r[i]
  }

  ghost predicate BestFirst(r: seq<Node>, dir: SortDirection) {
    forall i, j :: 0 <= i < j < |r| ==> Cmp(DirectionalNode(r[i], dir), DirectionalNode(r[j], dir)) >= 0
  }

  /** What reading one side to exhaustion yields: its indexed nodes, best first. */
  ghost predicate IsDrain(l: ListState, side: Side, r: seq<Node>) {
    && Enumerates(r, l.Heap(side), l.Heap(side).Keys * l.sigs.Keys)
    && BestFirst(r, l.Dir(side))
  }

  /** Best first means smallest sort value first in an ascending list, largest first in a descending one. */
  lemma BestFirstMeaning(r: seq<Node>, dir: SortDirection, i: nat, j: nat)
    requires BestFirst(r, dir) && i < j < |r|
    ensures if dir == Ascending then r[i].SortValue() <= r[j].SortValue() else r[i].SortValue() >= r[j].SortValue()
    ensures r[i].SortValue() == r[j].SortValue() ==>
              if dir == Ascending then r[i].order.slot <= r[j].order.slot else r[i].order.slot >= r[j].order.slot
  {}

  ghost predicate IsBest(h: Heap, s: Sig) {
    s in h && forall t :: t in h ==> Cmp(h[s], h[t]) >= 0
  }

  /** One read: the best key leaves the heap and the index; its node is returned if it was indexed. */
  ghost predicate IsPop(l: ListState, l': ListState, side: Side, s: Sig, r: Option<Node>) {
    && IsBest(l.Heap(side), s)
    && l' == l.(sigs := l.sigs - {s}).WithHeap(side, l.Heap(side) - {s})
    && r == if s in l.sigs then Some(l.Heap(side)[s].node) else None
  }

  ghost predicate Uniform(h: Heap, dir: SortDirection) {
    forall s :: s in h ==> h[s].node.Key() == s && h[s].dir == dir
  }

  /** Part-way through a drain of `h0`: `r` was read and `h` is left. */
  ghost predicate Draining(h0: Heap, index: set<Sig>, dir: SortDirection, h: Heap, r: seq<Node>) {
    && (forall s :: s in h ==> s in h0 && h[s] == h0[s])
    && Enumerates(r, h0, (h0.Keys - h.Keys) * index)
    && BestFirst(r, dir)
    && Dominates(r, dir, h)
  }

  ghost predicate Dominates(r: seq<Node>, dir: SortDirection, h: Heap) {
    forall i, s :: 0 <= i < |r| && s in h ==> Cmp(DirectionalNode(r[i], dir), h[s]) >= 0
  }

  lemma SigsOfAppend(r: seq<Node>, n: Node)
    ensures SigsOf(r + [n]) == SigsOf(r) + {n.Key()}
  {
    var r' := r + [n];
    assert r'[|r|].Key() in SigsOf(r');
    forall i | 0 <= i < |r| ensures r[i].Key() in SigsOf(r') {
      assert r'[i] == r[i];
    }
  }

  lemma EnumeratesAppend(r: seq<Node>, h: Heap, keys: set<Sig>, s: Sig)
    requires Enumerates(r, h, keys) && s in h && h[s].node.Key() == s && s !in keys
    ensures Enumerates(r + [h[s].node], h, keys + {s})
  {
    SigsOfAppend(r, h[s].node);
    forall i | 0 <= i < |r| ensures r[i].Key() != s {
      assert r[i].Key() in SigsOf(r);
    }
  }

  lemma DrainingPop(h0: Heap, index: set<Sig>, dir: SortDirection, h: Heap, r: seq<Node>, s: Sig)
    requires Uniform(h0, dir) && Draining(h0, index, dir, h, r) && IsBest(h, s)
    ensures Draining(h0, index, dir, h - {s}, if s in index then r + [h[s].node] else r)
  {
    var done := (h0.Keys - h.Keys) * index;
    if s in index {
      EnumeratesAppend(r, h0, done, s);
      assert (h0.Keys - (h - {s}).Keys) * index == done + {s};
      assert DirectionalNode(h[s].node, dir) == h[s];
    } else {
      assert (h0.Keys - (h - {s}).Keys) * index == done;
    }
  }

  /** The mutable order list. */
  class Orderlist {
    var bids: Heap
    var asks: Heap
    var sigs: map<Sig, Node>
    var bidDir: SortDirection
    var askDir: SortDirection

    function State(): ListState
      reads this
    {
      ListState(bids, asks, sigs, bidDir, askDir)
    }

    /** A list with given contents; cloning a stored list is this constructor. */
    constructor (s: ListState)
      ensures State() == s
    {
      bids, asks, sigs, bidDir, askDir := s.bids, s.asks, s.sigs, s.bidDir, s.askDir;
    }

    method Insert(node: Node, side: Side)
      modifies this
      ensures State() == old(State()).Inserted(node, side)
    {
      var s := node.Key();
      sigs := sigs[s := node];
      match side {
        case Bid => bids := bids[s := DirectionalNode(node, bidDir)];
        case Ask => asks := asks[s := DirectionalNode(node, askDir)];
      }
    }

    /** The best key of a side. A scan stands in for the heap's sift. */
    method BestKey(side: Side) returns (s: Sig)
      requires State().WellKeyed() && State().Heap(side) != map[]
      ensures IsBest(State().Heap(side), s)
    {
      var h := State().Heap(side);
      s :| s in h;
      var todo := h.Keys - {s};
      while todo != {}
        invariant s in h && todo <= h.Keys
        invariant forall t :: t in h && t !in todo ==> Cmp(h[s], h[t]) >= 0
      {
        var t :| t in todo;
        todo := todo - {t};
        if Cmp(h[t], h[s]) > 0 {
          s := t;
        }
      }
    }

    /** Pops the best node of a side, indexed or not. */
    method Pop(side: Side) returns (node: Node)
      requires State().WellKeyed() && State().Heap(side) != map[]
      modifies this
      ensures IsBest(old(State()).Heap(side), node.Key())
      ensures node == old(State()).Heap(side)[node.Key()].node
      ensures State() == old(State()).WithHeap(side, old(State()).Heap(side) - {node.Key()})
      ensures State().WellKeyed()
    {
      var s := BestKey(side);
      node := State().Heap(side)[s].node;
      match side {
        case Bid => bids := bids - {s};
        case Ask => asks := asks - {s};
      }
    }

    /**
      * Removes the best node of a side. It is returned only if its signature is
      * indexed, and then the index forgets it.
      */
    method GetBest(side: Side) returns (r: Option<Node>, ghost s: Sig)
      requires State().WellKeyed()
      modifies this
      ensures State().WellKeyed()
      ensures old(State()).Heap(side) == map[] ==> r.None? && State() == old(State())
      ensures old(State()).Heap(side) != map[] ==> IsPop(old(State()), State(), side, s, r)
    {
      r, s := None, Sig(0, "");
      if State().Heap(side) != map[] {
        var node := Pop(side);
        s := node.Key();
        if node.Key() in sigs {
          sigs := sigs - {node.Key()};
          return Some(node), s;
        }
        assert sigs - {s} == sigs;
      }
    }

    method Update(order: Order, user: Pubkey, side: Side)
      modifies this
      ensures State() == old(State()).Updated(order, user, side)
    {
      var s := Sig(order.orderId, user);
      if s in sigs {
        sigs := sigs[s := sigs[s].WithOrder(order)];
        match side {
          case Bid =>
            if s in bids {
              bids := bids[s := bids[s].(node := bids[s].node.WithOrder(order))];
            }
          case Ask =>
            if s in asks {
              asks := asks[s := asks[s].(node := asks[s].node.WithOrder(order))];
            }
        }
      }
    }

    /** Reads a side to exhaustion, as every caller does with a private copy. */
    method Drain(side: Side) returns (r: seq<Node>)
      requires State().WellKeyed()
      modifies this
      ensures IsDrain(old(State()), side, r)
    {
      r := [];
      ghost var h0, index, dir := State().Heap(side), sigs.Keys, State().Dir(side);
      while State().Heap(side) != map[]
        invariant State().WellKeyed()
        invariant Draining(h0, index, dir, State().Heap(side), r)
        invariant forall s :: s in State().Heap(side) ==> (s in sigs <==> s in index)
        decreases State().Heap(side).Keys
      {
        ghost var h := State().Heap(side);
        var best, s := GetBest(side);
        DrainingPop(h0, index, dir, h, r, s);
        if best.Some? {
          r := r + [best.value];
        }
      }
    }
  }
}
