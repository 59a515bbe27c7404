/** Merging the fills of the two passes into one entry per order. */
module Merging {
  import opened Collections
  import opened Nodes
  import opened Matching

  type Merged = map<Sig, NodeToFill>

  function MergeStep(m: Merged, x: NodeToFill): Merged {
    var s := x.node.Key();
    var m' := if s in m then m else m[s := NodeToFill(x.node, [])];
    if |x.makers| > 0 then m'[s := NodeToFill(m'[s].node, m'[s].makers + x.makers)] else m'
  }

  function MergeAll(xs: seq<NodeToFill>): Merged {
    if xs == [] then map[] else MergeStep(MergeAll(xs[..|xs| - 1]), xs[|xs| - 1])
  }

  // ----- reference definitions -----

  /** All makers reported for a signature, in order. */
  function MakersFor(xs: seq<NodeToFill>, s: Sig): seq<Node> {
    if xs == [] then []
    else MakersFor(xs[..|xs| - 1], s) + if xs[|xs| - 1].node.Key() == s then xs[|xs| - 1].makers else []
  }

  ghost predicate IsFirst(xs: seq<NodeToFill>, s: Sig, n: Node) {
    exists i :: 0 <= i < |xs| && xs[i].node == n && n.Key() == s && forall j :: 0 <= j < i ==> xs[j].node.Key() != s
  }

  function Sigs(xs: seq<NodeToFill>): set<Sig> {
    set i | 0 <= i < |xs| :: xs[i].node.Key()
  }

  function MakerCount(xs: seq<NodeToFill>): nat {
    if xs == [] then 0 else MakerCount(xs[..|xs| - 1]) + |xs[|xs| - 1].makers|
  }

  lemma SigsAppend(xs: seq<NodeToFill>)
    requires xs != []
    ensures Sigs(xs) == Sigs(xs[..|xs| - 1]) + {xs[|xs| - 1].node.Key()}
  {
    var k := |xs| - 1;
    forall i | 0 <= i < k ensures xs[i].node.Key() in Sigs(xs[..k]) {
      assert xs[..k][i] == xs[i];
    }
    assert xs[k].node.Key() in Sigs(xs);
  }

  lemma FirstAppend(xs: seq<NodeToFill>, s: Sig, n: Node)
    requires xs != []
    ensures IsFirst(xs[..|xs| - 1], s, n) ==> IsFirst(xs, s, n)
    ensures s !in Sigs(xs[..|xs| - 1]) && xs[|xs| - 1].node.Key() == s ==> IsFirst(xs, s, xs[|xs| - 1].node)
  {
    var k := |xs| - 1;
    if IsFirst(xs[..k], s, n) {
      var i :| 0 <= i < k && xs[..k][i].node == n && n.Key() == s &&
               forall j :: 0 <= j < i ==> xs[..k][j].node.Key() != s;
      assert forall j :: 0 <= j < i ==> xs[..k][j] == xs[j];
      assert xs[i].node == n;
    }
    if s !in Sigs(xs[..k]) && xs[k].node.Key() == s {
      forall j | 0 <= j < k ensures xs[j].node.Key() != s {
        assert xs[..k][j].node.Key() in Sigs(xs[..k]);
      }
    }
  }

  lemma {:induction false} MakersOfAbsent(xs: seq<NodeToFill>, s: Sig)
    requires s !in Sigs(xs)
    ensures MakersFor(xs, s) == []
  {
    if xs == [] {
    } else {
      SigsAppend(xs);
      MakersOfAbsent(xs[..|xs| - 1], s);
    }
  }

  /** One entry per signature, with the first node seen and every maker in order. */
  lemma {:induction false} MergeIsExact(xs: seq<NodeToFill>)
    ensures MergeAll(xs).Keys == Sigs(xs)
    ensures forall s :: s in MergeAll(xs) ==>
              IsFirst(xs, s, MergeAll(xs)[s].node) && MergeAll(xs)[s].makers == MakersFor(xs, s)
  {
    if xs == [] {
    } else {
      var k := |xs| - 1;
      var x, s := xs[k], xs[k].node.Key();
      var m, m' := MergeAll(xs[..k]), MergeAll(xs);
      MergeIsExact(xs[..k]);
      SigsAppend(xs);
      if s !in m {
        MakersOfAbsent(xs[..k], s);
        FirstAppend(xs, s, x.node);
      }
      forall t | t in m' ensures IsFirst(xs, t, m'[t].node) && m'[t].makers == MakersFor(xs, t) {
        if t in m {
          FirstAppend(xs, t, m[t].node);
          assert m'[t].node == m[t].node;
        }
      }
    }
  }

  // ----- the maker count is conserved -----

  function CountOver(xs: seq<NodeToFill>, keys: seq<Sig>): nat {
    if keys == [] then 0 else CountOver(xs, keys[..|keys| - 1]) + |MakersFor(xs, keys[|keys| - 1])|
  }

  lemma {:induction false} CountStep(xs: seq<NodeToFill>, keys: seq<Sig>)
    requires xs != [] && Distinct(keys)
    ensures CountOver(xs, keys) == CountOver(xs[..|xs| - 1], keys)
                                   + if xs[|xs| - 1].node.Key() in keys then |xs[|xs| - 1].makers| else 0
  {
    if keys == [] {
    } else {
      var k := |keys| - 1;
      CountStep(xs, keys[..k]);
      assert keys == keys[..k] + [keys[k]];
      assert keys[k] !in keys[..k];
    }
  }

  lemma {:induction false} CountOfNothing(keys: seq<Sig>)
    ensures CountOver([], keys) == 0
  {
    if keys == [] {
    } else {
      CountOfNothing(keys[..|keys| - 1]);
    }
  }

  lemma {:induction false} CountIsTotal(xs: seq<NodeToFill>, keys: seq<Sig>)
    requires Distinct(keys) && forall s :: s in Sigs(xs) ==> s in keys
    ensures CountOver(xs, keys) == MakerCount(xs)
  {
    if xs == [] {
      CountOfNothing(keys);
    } else {
      SigsAppend(xs);
      CountStep(xs, keys);
      CountIsTotal(xs[..|xs| - 1], keys);
    }
  }

  // ----- the loops -----

  /** The output lists the merged entries in some order. */
  ghost predicate IsMergeOf(xs: seq<NodeToFill>, keys: seq<Sig>, r: seq<NodeToFill>) {
    && Visits(keys, Sigs(xs))
    && |r| == |keys|
    && forall i :: 0 <= i < |r| ==>
         r[i].node.Key() == keys[i] && IsFirst(xs, keys[i], r[i].node) && r[i].makers == MakersFor(xs, keys[i])
  }

  /** No maker is lost or duplicated by a merge. */
  lemma {:induction false} MergeConservesMakers(xs: seq<NodeToFill>, keys: seq<Sig>, r: seq<NodeToFill>)
    requires IsMergeOf(xs, keys, r)
    ensures MakerCount(r) == MakerCount(xs)
  {
    assert forall s :: s in Sigs(xs) ==> s in Elems(keys);
    CountIsTotal(xs, keys);
    CountPrefix(xs, keys, r, |r|);
    assert r[..|r|] == r && keys[..|r|] == keys;
  }

  lemma {:induction false} CountPrefix(xs: seq<NodeToFill>, keys: seq<Sig>, r: seq<NodeToFill>, n: nat)
    requires IsMergeOf(xs, keys, r) && n <= |r|
    ensures MakerCount(r[..n]) == CountOver(xs, keys[..n])
  {
    hide IsFirst, Visits, Sigs, MakersFor;
    if n == 0 {
    } else {
      CountPrefix(xs, keys, r, n - 1);
      assert r[..n][..n - 1] == r[..n - 1] && keys[..n][..n - 1] == keys[..n - 1];
    }
  }

  lemma MergeAppend(xs: seq<NodeToFill>, x: NodeToFill)
    ensures MergeAll(xs + [x]) == MergeStep(MergeAll(xs), x)
  {
    assert (xs + [x])[..|xs|] == xs;
  }

  method MergeOne(m: Merged, x: NodeToFill) returns (m': Merged)
    ensures m' == MergeStep(m, x)
  {
    m' := m;
    var s := x.node.Key();
    if s !in m' {
      m' := m'[s := NodeToFill(x.node, [])];
    }
    if |x.makers| > 0 {
      m' := m'[s := NodeToFill(m'[s].node, m'[s].makers + x.makers)];
    }
  }

  method MergeList(m: Merged, list: seq<NodeToFill>, ghost before: seq<NodeToFill>) returns (m': Merged)
    requires m == MergeAll(before)
    ensures m' == MergeAll(before + list)
  {
    hide MergeAll, MergeStep;
    m' := m;
    assert before + list[..0] == before;
    for i := 0 to |list|
      invariant m' == MergeAll(before + list[..i])
    {
      assert before + list[..i + 1] == (before + list[..i]) + [list[i]];
      MergeAppend(before + list[..i], list[i]);
      m' := MergeOne(m', list[i]);
    }
    assert list[..|list|] == list;
  }

  lemma EmptyMerge()
    ensures MergeAll([]) == map[]
  {}

  /** The values of the map, in whatever order it is iterated. */
  method ListValues(m: Merged) returns (r: seq<NodeToFill>, ghost keys: seq<Sig>)
    ensures Visits(keys, m.Keys) && |r| == |keys|
    ensures forall i :: 0 <= i < |r| ==> keys[i] in m && r[i] == m[keys[i]]
  {
    r, keys := [], [];
    var todo := m.Keys;
    while todo != {}
      invariant todo <= m.Keys && Visits(keys, m.Keys - todo)
      invariant |r| == |keys| && forall i :: 0 <= i < |r| ==> keys[i] in m && r[i] == m[keys[i]]
    {
      var s :| s in todo;
      VisitsExtend(keys, m.Keys - todo, s);
      assert m.Keys - (todo - {s}) == m.Keys - todo + {s};
      r, keys := r + [m[s]], keys + [s];
      todo := todo - {s};
    }
  }

  lemma ValuesAreMerge(xs: seq<NodeToFill>, keys: seq<Sig>, r: seq<NodeToFill>)
    requires Visits(keys, MergeAll(xs).Keys) && |r| == |keys|
    requires forall i :: 0 <= i < |r| ==> keys[i] in MergeAll(xs) && r[i] == MergeAll(xs)[keys[i]]
    ensures IsMergeOf(xs, keys, r)
  {
    hide MergeAll, MakersFor;
    MergeIsExact(xs);
  }

  method MergeAndDeduplicateNodes(a: seq<NodeToFill>, b: seq<NodeToFill>)
    returns (r: seq<NodeToFill>, ghost keys: seq<Sig>)
    ensures IsMergeOf(a + b, keys, r)
    ensures MakerCount(r) == MakerCount(a + b)
  {
    hide MergeAll, MakersFor, MakerCount, IsMergeOf, Visits;
    EmptyMerge();
    var merged := MergeList(map[], a, []);
    assert [] + a == a;
    merged := MergeList(merged, b, a);
    r, keys := ListValues(merged);
    ValuesAreMerge(a + b, keys, r);
    MergeConservesMakers(a + b, keys, r);
  }
}
