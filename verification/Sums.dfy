/**
 Sums of a measure over the processes of a system. A system is a map from
 process identifiers to local states; counting the processes in a region of
 their code is summing a 0/1 measure.
 */
module Sums {

  ghost function Sum<T>(m: map<int, T>, f: T -> nat): (n: nat)
    decreases m.Keys
  {
    if exists k :: k in m then
      var k :| k in m;
      f(m[k]) + Sum(m - {k}, f)
    else
      0
  }

  /** The sum does not depend on the order in which the entries are visited. */
  lemma {:induction false} SumSplit<T>(m: map<int, T>, f: T -> nat, p: int)
    requires p in m
    ensures Sum(m, f) == f(m[p]) + Sum(m - {p}, f)
    decreases m.Keys
  {
    var k :| k in m && Sum(m, f) == f(m[k]) + Sum(m - {k}, f);
    if k != p {
      SumSplit(m - {k}, f, p);
      SumSplit(m - {p}, f, k);
      assert m - {k} - {p} == m - {p} - {k};
    }
  }

  lemma SumUpdate<T>(m: map<int, T>, f: T -> nat, p: int, c: T)
    requires p in m
    ensures Sum(m[p := c], f) == Sum(m, f) - f(m[p]) + f(c)
  {
    SumSplit(m, f, p);
    SumSplit(m[p := c], f, p);
    assert m[p := c] - {p} == m - {p};
  }

  lemma {:induction false} SumPositive<T>(m: map<int, T>, f: T -> nat) returns (p: int)
    requires Sum(m, f) > 0
    ensures p in m && f(m[p]) > 0
    decreases m.Keys
  {
    var k :| k in m && Sum(m, f) == f(m[k]) + Sum(m - {k}, f);
    if f(m[k]) > 0 {
      p := k;
    } else {
      p := SumPositive(m - {k}, f);
    }
  }

  lemma SumZero<T>(m: map<int, T>, f: T -> nat)
    requires forall p :: p in m ==> f(m[p]) == 0
    ensures Sum(m, f) == 0
  {
    if Sum(m, f) > 0 {
      var p := SumPositive(m, f);
    }
  }
}
