/**
 The permutation behind the shuffle of cw02/zad1/shuffler.c. Drawing j < i, and not
 j <= i, makes it Sattolo's algorithm: every outcome is a single cycle through all
 positions, and the choices and the cycles correspond one to one.
 */
module Sattolo {

  // ---------- cycles ----------

  /** `p[k]` is the position whose record ends up at `k`. */
  ghost predicate IsPermutation(p: seq<nat>)
  {
    && (forall k :: 0 <= k < |p| ==> p[k] < |p|)
    && (forall k, l :: 0 <= k < l < |p| ==> p[k] != p[l])
  }

  /** Following the permutation from x for m steps. */
  ghost function Follow(p: seq<nat>, m: nat, x: nat): nat
    requires IsPermutation(p) && x < |p|
    ensures Follow(p, m, x) < |p|
    decreases m
  {
    if m == 0 then x else Follow(p, m - 1, p[x])
  }

  ghost predicate Reaches(p: seq<nat>, x: nat, y: nat)
    requires IsPermutation(p) && x < |p|
  {
    exists m: nat :: Follow(p, m, x) == y
  }

  /** One cycle through all positions: each leads to each. */
  ghost predicate IsCycle(p: seq<nat>)
  {
    IsPermutation(p) && forall x: nat, y: nat :: x < |p| && y < |p| ==> Reaches(p, x, y)
  }

  lemma {:induction false} FollowAdds(p: seq<nat>, a: nat, b: nat, x: nat)
    requires IsPermutation(p) && x < |p|
    ensures Follow(p, a + b, x) == Follow(p, b, Follow(p, a, x))
    decreases a
  {
    if a > 0 {
      FollowAdds(p, a - 1, b, p[x]);
    }
  }

  lemma ReachesSelf(p: seq<nat>, x: nat)
    requires IsPermutation(p) && x < |p|
    ensures Reaches(p, x, x)
  {
    assert Follow(p, 0, x) == x;
  }

  lemma ReachesNext(p: seq<nat>, x: nat)
    requires IsPermutation(p) && x < |p|
    ensures Reaches(p, x, p[x])
  {
    assert Follow(p, 0, p[x]) == p[x];
    assert Follow(p, 1, x) == p[x];
  }

  lemma ReachesTransitive(p: seq<nat>, x: nat, y: nat, z: nat)
    requires IsPermutation(p) && x < |p| && y < |p|
    requires Reaches(p, x, y) && Reaches(p, y, z)
    ensures Reaches(p, x, z)
  {
    var a: nat :| Follow(p, a, x) == y;
    var b: nat :| Follow(p, b, y) == z;
    FollowAdds(p, a, b, x);
    assert Follow(p, a + b, x) == z;
  }

  /** In a cycle of two or more, no position keeps its record. */
  lemma CycleMovesAll(p: seq<nat>, k: nat)
    requires IsCycle(p) && |p| >= 2 && k < |p|
    ensures p[k] != k
  {
    if p[k] == k {
      var other: nat := if k == 0 then 1 else 0;
      assert Reaches(p, k, other);
      var m: nat :| Follow(p, m, k) == other;
      FixedStays(p, k, m);
      assert false;
    }
  }

  lemma {:induction false} FixedStays(p: seq<nat>, k: nat, m: nat)
    requires IsPermutation(p) && k < |p| && p[k] == k
    ensures Follow(p, m, k) == k
    decreases m
  {
    if m > 0 {
      FixedStays(p, k, m - 1);
    }
  }

  /** In a cycle every position has a predecessor. */
  lemma Predecessor(p: seq<nat>, y: nat) returns (x: nat)
    requires IsCycle(p) && y < |p|
    ensures x < |p| && p[x] == y
  {
    assert Reaches(p, p[y], y);
    var m: nat :| Follow(p, m, p[y]) == y;
    if m == 0 {
      x := y;
    } else {
      FollowAdds(p, m - 1, 1, p[y]);
      x := Follow(p, m - 1, p[y]);
      assert Follow(p, 1, x) == Follow(p, 0, p[x]);
    }
  }

  // ---------- one more position ----------

  /** The cycle with position |p| put in just before j. */
  function Insert(p: seq<nat>, j: nat): seq<nat>
    requires j < |p|
  {
    seq(|p| + 1, k requires 0 <= k <= |p| => if k == |p| then j else if p[k] == j then |p| else p[k])
  }

  lemma InsertIsPermutation(p: seq<nat>, j: nat)
    requires IsPermutation(p) && j < |p|
    ensures IsPermutation(Insert(p, j))
  {
  }

  lemma {:induction false} InsertKeepsPaths(p: seq<nat>, j: nat, m: nat, x: nat)
    requires IsPermutation(p) && j < |p| && x < |p| && IsPermutation(Insert(p, j))
    ensures Reaches(Insert(p, j), x, Follow(p, m, x))
    decreases m
  {
    var q := Insert(p, j);
    if m == 0 {
      ReachesSelf(q, x);
    } else {
      InsertKeepsPaths(p, j, m - 1, p[x]);
      ReachesNext(q, x);
      if p[x] == j {
        ReachesNext(q, |p|);
        ReachesTransitive(q, x, |p|, j);
      }
      ReachesTransitive(q, x, p[x], Follow(p, m, x));
    }
  }

  lemma InsertIsCycle(p: seq<nat>, j: nat)
    requires IsCycle(p) && j < |p|
    ensures IsCycle(Insert(p, j))
  {
    var q, n := Insert(p, j), |p|;
    InsertIsPermutation(p, j);
    var before := Predecessor(p, j);
    assert q[before] == n && q[n] == j;
    ReachesNext(q, before);
    ReachesNext(q, n);
    forall x: nat, y: nat | x < |q| && y < |q|
      ensures Reaches(q, x, y)
    {
      var x' := if x == n then j else x;
      var y' := if y == n then before else y;
      assert Reaches(p, x', y');
      var m: nat :| Follow(p, m, x') == y';
      InsertKeepsPaths(p, j, m, x');
      if y == n {
        ReachesTransitive(q, x', before, n);
      }
      if x == n {
        ReachesTransitive(q, n, j, y);
      }
    }
  }

  /** The cycle with its last position taken out. */
  function Remove(q: seq<nat>): seq<nat>
    requires |q| > 0
  {
    var n := |q| - 1;
    seq(n, k requires 0 <= k < n => if q[k] == n then q[n] else q[k])
  }

  lemma RemoveIsPermutation(q: seq<nat>)
    requires IsCycle(q) && |q| >= 2
    ensures q[|q| - 1] < |q| - 1
    ensures IsPermutation(Remove(q))
  {
    CycleMovesAll(q, |q| - 1);
  }

  lemma {:induction false} RemoveKeepsPaths(q: seq<nat>, m: nat, x: nat)
    requires IsCycle(q) && |q| >= 2 && x < |q| - 1 && IsPermutation(Remove(q))
    requires Follow(q, m, x) < |q| - 1
    ensures Reaches(Remove(q), x, Follow(q, m, x))
    decreases m
  {
    var p, n := Remove(q), |q| - 1;
    RemoveIsPermutation(q);
    if m == 0 {
      ReachesSelf(p, x);
    } else if q[x] != n {
      RemoveKeepsPaths(q, m - 1, q[x]);
      ReachesNext(p, x);
      ReachesTransitive(p, x, q[x], Follow(q, m, x));
    } else {
      assert m >= 2 && Follow(q, m, x) == Follow(q, m - 1, n) == Follow(q, m - 2, q[n]);
      RemoveKeepsPaths(q, m - 2, q[n]);
      ReachesNext(p, x);
      ReachesTransitive(p, x, q[n], Follow(q, m, x));
    }
  }

  lemma RemoveIsCycle(q: seq<nat>)
    requires IsCycle(q) && |q| >= 2
    ensures IsCycle(Remove(q)) && q[|q| - 1] < |Remove(q)|
    ensures Insert(Remove(q), q[|q| - 1]) == q
  {
    RemoveIsPermutation(q);
    var p := Remove(q);
    forall x: nat, y: nat | x < |p| && y < |p|
      ensures Reaches(p, x, y)
    {
      assert Reaches(q, x, y);
      var m: nat :| Follow(q, m, x) == y;
      RemoveKeepsPaths(q, m, x);
    }
    assert Insert(p, q[|q| - 1]) == q;
  }

  lemma RemoveUndoesInsert(p: seq<nat>, j: nat)
    requires IsPermutation(p) && j < |p|
    ensures Remove(Insert(p, j)) == p && Insert(p, j)[|p|] == j
  {
  }

  // ---------- choices and cycles ----------

  /** `js[i - 1]` is the choice at index i: below i. */
  ghost predicate AreChoices(js: seq<nat>)
  {
    forall k :: 0 <= k < |js| ==> js[k] <= k
  }

  /** The permutation that the choices for indices |js|, ..., 1 produce. */
  function CycleOf(js: seq<nat>): (p: seq<nat>)
    ensures |p| == |js| + 1
    decreases |js|
  {
    if js == [] then [0]
    else
      var p := CycleOf(js[..|js| - 1]);
      var j := js[|js| - 1];
      if j < |p| then Insert(p, j) else p + [|p|]
  }

  /** The choices that produce a cycle. */
  function ChoicesOf(p: seq<nat>): (js: seq<nat>)
    ensures |js| == if |p| == 0 then 0 else |p| - 1
    decreases |p|
  {
    if |p| <= 1 then [] else ChoicesOf(Remove(p)) + [p[|p| - 1]]
  }

  /** Whatever is drawn, the shuffle is one cycle through all records. */
  lemma {:induction false} EveryOutcomeIsOneCycle(js: seq<nat>)
    requires AreChoices(js)
    ensures IsCycle(CycleOf(js))
    decreases |js|
  {
    if js == [] {
      ReachesSelf([0], 0);
    } else {
      EveryOutcomeIsOneCycle(js[..|js| - 1]);
      InsertIsCycle(CycleOf(js[..|js| - 1]), js[|js| - 1]);
    }
  }

  /** Different choices give different cycles: the choices can be read back. */
  lemma {:induction false} ChoicesCanBeReadBack(js: seq<nat>)
    requires AreChoices(js)
    ensures ChoicesOf(CycleOf(js)) == js
    decreases |js|
  {
    if js != [] {
      var n := |js| - 1;
      EveryOutcomeIsOneCycle(js[..n]);
      RemoveUndoesInsert(CycleOf(js[..n]), js[n]);
      ChoicesCanBeReadBack(js[..n]);
      assert js == js[..n] + [js[n]];
    }
  }

  /** Every cycle is the outcome of some choices. */
  lemma {:induction false} EveryCycleIsAnOutcome(p: seq<nat>)
    requires IsCycle(p) && |p| >= 1
    ensures AreChoices(ChoicesOf(p)) && CycleOf(ChoicesOf(p)) == p
    decreases |p|
  {
    if |p| == 1 {
      assert p == [0];
    } else {
      RemoveIsCycle(p);
      EveryCycleIsAnOutcome(Remove(p));
      var js := ChoicesOf(p);
      assert js[..|js| - 1] == ChoicesOf(Remove(p));
    }
  }

  // ---------- how many ----------

  function Factorial(n: nat): nat
  {
    if n == 0 then 1 else n * Factorial(n - 1)
  }

  /** All choice sequences for a shuffle of n + 1 records. */
  ghost function AllChoices(n: nat): set<seq<nat>>
    decreases n
  {
    if n == 0 then {[]}
    else Extended(AllChoices(n - 1), n)
  }

  /** Each sequence continued by each of 0, ..., b - 1. */
  ghost function Extended(choices: set<seq<nat>>, b: nat): set<seq<nat>>
    decreases b
  {
    if b == 0 then {}
    else Extended(choices, b - 1) + (set js | js in choices :: js + [b - 1])
  }

  lemma {:induction false} ExtendedMembers(choices: set<seq<nat>>, b: nat, js: seq<nat>)
    ensures js in Extended(choices, b) <==> js != [] && js[..|js| - 1] in choices && js[|js| - 1] < b
    decreases b
  {
    if b > 0 {
      ExtendedMembers(choices, b - 1, js);
      if js != [] && js[|js| - 1] == b - 1 && js[..|js| - 1] in choices {
        assert js == js[..|js| - 1] + [b - 1];
      }
    }
  }

  lemma SameSize(choices: set<seq<nat>>, last: nat, image: set<seq<nat>>)
    requires image == set js | js in choices :: js + [last]
    ensures |image| == |choices|
    decreases choices
  {
    if exists js :: js in choices {
      var js :| js in choices;
      var rest := choices - {js};
      SameSize(rest, last, set x | x in rest :: x + [last]);
      forall x: seq<nat> | x in rest ensures x + [last] != js + [last] {
        assert (x + [last])[..|x|] == x && (js + [last])[..|js|] == js;
      }
      assert image == (set x | x in rest :: x + [last]) + {js + [last]};
    } else {
      assert choices == {};
      assert image == {};
    }
  }

  /** `b * c`, counted one `c` at a time. */
  function Times(b: nat, c: nat): nat
  {
    if b == 0 then 0 else Times(b - 1, c) + c
  }

  lemma {:induction false} TimesIsProduct(b: nat, c: nat)
    ensures Times(b, c) == b * c
    decreases b
  {
    if b > 0 {
      TimesIsProduct(b - 1, c);
      assert b * c == (b - 1) * c + c;
    }
  }

  lemma {:induction false} ExtendedSize(choices: set<seq<nat>>, b: nat)
    ensures |Extended(choices, b)| == Times(b, |choices|)
    decreases b
  {
    if b > 0 {
      var fewer := Extended(choices, b - 1);
      var more := set js | js in choices :: js + [b - 1];
      ExtendedSize(choices, b - 1);
      SameSize(choices, b - 1, more);
      forall js | js in more ensures js !in fewer {
        ExtendedMembers(choices, b - 1, js);
      }
      assert fewer !! more;
      assert |Extended(choices, b)| == |fewer| + |more|;
    }
  }

  lemma LastChoice(js: seq<nat>)
    requires js != []
    ensures AreChoices(js) <==> AreChoices(js[..|js| - 1]) && js[|js| - 1] <= |js| - 1
  {
    var front := js[..|js| - 1];
    if AreChoices(front) && js[|js| - 1] <= |js| - 1 {
      forall k | 0 <= k < |js| ensures js[k] <= k {
        if k < |js| - 1 {
          assert front[k] == js[k];
        }
      }
    }
  }

  /** `AllChoices` holds the choice sequences, and all of them. */
  lemma {:induction false} ChoicesListed(n: nat, js: seq<nat>)
    ensures js in AllChoices(n) <==> |js| == n && AreChoices(js)
    decreases n
  {
    if n > 0 {
      ExtendedMembers(AllChoices(n - 1), n, js);
      if js != [] {
        ChoicesListed(n - 1, js[..|js| - 1]);
        LastChoice(js);
      }
    }
  }

  /** There are n! of them. */
  lemma {:induction false} ChoicesCounted(n: nat)
    ensures |AllChoices(n)| == Factorial(n)
    decreases n
  {
    if n > 0 {
      ChoicesCounted(n - 1);
      ExtendedSize(AllChoices(n - 1), n);
      TimesIsProduct(n, Factorial(n - 1));
    }
  }

  /** What the shuffle of n + 1 records can do. */
  ghost function Outcomes(n: nat): set<seq<nat>>
  {
    set js | js in AllChoices(n) :: CycleOf(js)
  }

  lemma InjectiveImage(choices: set<seq<nat>>, image: set<seq<nat>>)
    requires forall js :: js in choices ==> AreChoices(js)
    requires image == set js | js in choices :: CycleOf(js)
    ensures |image| == |choices|
    decreases choices
  {
    if exists js :: js in choices {
      var js :| js in choices;
      var rest := choices - {js};
      InjectiveImage(rest, set x | x in rest :: CycleOf(x));
      forall x: seq<nat> | x in rest ensures CycleOf(x) != CycleOf(js) {
        ChoicesCanBeReadBack(x);
        ChoicesCanBeReadBack(js);
      }
      assert image == (set x | x in rest :: CycleOf(x)) + {CycleOf(js)};
    } else {
      assert choices == {};
      assert image == {};
    }
  }

  /** The outcomes for n + 1 records are exactly the cycles on n + 1 positions, n! of them. */
  lemma OutcomesAreTheCycles(n: nat)
    ensures forall p :: p in Outcomes(n) <==> |p| == n + 1 && IsCycle(p)
    ensures |Outcomes(n)| == Factorial(n)
  {
    ChoicesCounted(n);
    forall js ensures js in AllChoices(n) <==> |js| == n && AreChoices(js) {
      ChoicesListed(n, js);
    }
    InjectiveImage(AllChoices(n), Outcomes(n));
    forall p ensures p in Outcomes(n) <==> |p| == n + 1 && IsCycle(p) {
      if p in Outcomes(n) {
        var js :| js in AllChoices(n) && CycleOf(js) == p;
        EveryOutcomeIsOneCycle(js);
      }
      if |p| == n + 1 && IsCycle(p) {
        EveryCycleIsAnOutcome(p);
        assert ChoicesOf(p) in AllChoices(n);
      }
    }
  }
}
