/** Types and small facts about sequences, sets and maps that several components share. */
module Collections {

  datatype Option<+T> = None | Some(value: T)

  /** An account key, as the base58 text it is printed with. */
  type Pubkey = string

  predicate Distinct<T(==)>(xs: seq<T>) {
    forall i, j :: 0 <= i < j < |xs| ==> xs[i] != xs[j]
  }

  ghost function Elems<T>(xs: seq<T>): set<T> {
    set x | x in xs
  }

  /** `xs` visits every element of `s` once, in some order. */
  ghost predicate Visits<T>(xs: seq<T>, s: set<T>) {
    Distinct(xs) && Elems(xs) == s
  }

  lemma VisitsExtend<T>(xs: seq<T>, s: set<T>, x: T)
    requires Visits(xs, s) && x !in s
    ensures Visits(xs + [x], s + {x})
  {
    assert Elems(xs + [x]) == Elems(xs) + {x};
    forall i | 0 <= i < |xs| ensures xs[i] != x {
      assert xs[i] in Elems(xs);
    }
  }

  lemma VisitsDropFirst<T>(xs: seq<T>, s: set<T>)
    requires Visits(xs, s) && xs != []
    ensures xs[0] in s && Visits(xs[1..], s - {xs[0]})
  {
    assert xs == [xs[0]] + xs[1..];
    assert xs[0] in Elems(xs);
    forall x ensures x in Elems(xs[1..]) <==> x in s - {xs[0]} {
      if x in Elems(xs[1..]) {
        var i :| 0 <= i < |xs[1..]| && xs[1..][i] == x;
        assert xs[i + 1] == x;
      }
    }
  }
}
