/** Facts about finite sets and maps that the bounded stores need. */
module Finite {

  lemma {:induction false} SubsetSize<T>(a: set<T>, b: set<T>)
    requires a <= b
    ensures |a| <= |b|
    decreases |a|
  {
    if a != {} {
      var x :| x in a;
      SubsetSize(a - {x}, b - {x});
    }
  }

  lemma OneMore<T>(a: set<T>, b: set<T>, x: T)
    requires b <= a + {x}
    ensures |b| <= |a| + 1
  {
    SubsetSize(b, a + {x});
    SubsetSize(a + {x}, a + {x});
    if x in a {
      assert a + {x} == a;
    }
  }

  /** One step of a count that walks over a set and counts the members of another. */
  lemma OneCounted<T>(counted: set<T>, todo: set<T>, x: T)
    requires x in todo
    ensures |counted - (todo - {x})| == |counted - todo| + if x in counted then 1 else 0
  {
    assert counted - (todo - {x}) == counted - todo + if x in counted then {x} else {};
  }

  /** What a walk that deletes has left of a map: what stays, and the entries still to look at. */
  function Kept<V>(m: map<string, V>, stays: V -> bool, todo: set<string>): map<string, V> {
    map id | id in m && (id in todo || stays(m[id])) :: m[id]
  }

  lemma KeptStep<V>(m: map<string, V>, stays: V -> bool, todo: set<string>, id: string)
    requires id in todo && todo <= m.Keys
    ensures Kept(m, stays, todo - {id}) == Kept(m, stays, todo) - if stays(m[id]) then {} else {id}
  {}

  /** At the start of the walk nothing is gone, at its end only what stays is left. */
  lemma KeptEnds<V>(m: map<string, V>, stays: V -> bool, left: map<string, V>)
    requires left.Keys <= m.Keys && forall id | id in m ::
             (id in left <==> stays(m[id])) && (id in left ==> left[id] == m[id])
    ensures Kept(m, stays, m.Keys) == m && Kept(m, stays, {}) == left
  {}
}
