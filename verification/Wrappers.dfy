/** Small definitions shared by the models. */
module Wrappers {
  datatype Option<+T> = None | Some(value: T)

  predicate IsLeast(x: nat, s: set<nat>) {
    x in s && forall y :: y in s ==> x <= y
  }

  lemma {:induction false} Least(s: set<nat>) returns (x: nat)
    requires s != {}
    ensures IsLeast(x, s)
    decreases s
  {
    x :| x in s;
    if s != {x} {
      var y := Least(s - {x});
      forall z | z in s ensures x <= z || y <= z {
        if z != x { assert z in s - {x}; }
      }
      x := if x < y then x else y;
    }
  }

  lemma HasLeast(s: set<nat>)
    requires s != {}
    ensures exists x :: IsLeast(x, s)
  {
    var x := Least(s);
  }

  /** Every element is in relation `r` to every later one. */
  ghost predicate Pairwise<T(!new)>(r: (T, T) -> bool, s: seq<T>) {
    forall i, j :: 0 <= i < j < |s| ==> r(s[i], s[j])
  }

  lemma PairwiseSplit<T(!new)>(r: (T, T) -> bool, x: seq<T>, y: seq<T>)
    requires Pairwise(r, x + y)
    ensures Pairwise(r, y) && forall c, d :: c in x && d in y ==> r(c, d)
  {
    forall i, j | 0 <= i < j < |y| ensures r(y[i], y[j]) { assert r((x + y)[|x| + i], (x + y)[|x| + j]); }
    forall c, d | c in x && d in y ensures r(c, d) {
      var i :| 0 <= i < |x| && x[i] == c;
      var j :| 0 <= j < |y| && y[j] == d;
      assert r((x + y)[i], (x + y)[|x| + j]);
    }
  }

  lemma Associative<T>(x: seq<T>, y: seq<T>, z: seq<T>)
    ensures (x + y) + z == x + (y + z)
  {
  }
}
