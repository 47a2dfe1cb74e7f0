/** Repeated rounds of a program, as sequences of operations. */
module Rounds {

  /** Whole rounds of the program, and the beginning of another. */
  ghost predicate AreRounds<Op(!new)>(ops: seq<Op>, program: iset<seq<Op>>)
    decreases |ops|
  {
    exists round :: round in program &&
      (ops <= round || (round != [] && round <= ops && AreRounds(ops[|round|..], program)))
  }

  lemma BeginningIsRounds<Op(!new)>(ops: seq<Op>, round: seq<Op>, program: iset<seq<Op>>)
    requires round in program && ops <= round
    ensures AreRounds(ops, program)
  {
  }

  lemma OneMoreRound<Op(!new)>(round: seq<Op>, ops: seq<Op>, program: iset<seq<Op>>)
    requires round in program && round != [] && AreRounds(ops, program)
    ensures AreRounds(round + ops, program)
  {
    assert (round + ops)[|round|..] == ops;
    assert round <= round + ops;
  }

  lemma Regroup<Op(!new)>(sofar: seq<Op>, op: Op, later: seq<Op>)
    ensures sofar + ([op] + later) == (sofar + [op]) + later
  {
  }

  lemma NothingBefore<Op(!new)>(later: seq<Op>)
    ensures [] + later == later
  {
  }

  /** One operation that continues a round or completes it, before operations that go on from there. */
  lemma OneMoreOp<Op(!new)>(
    sofar: seq<Op>, op: Op, next: seq<Op>, later: seq<Op>, round: seq<Op>, program: iset<seq<Op>>)
    requires AreRounds(next + later, program)
    requires sofar + [op] == next || (next == [] && round in program && sofar + [op] == round)
    ensures AreRounds(sofar + ([op] + later), program)
  {
    Regroup(sofar, op, later);
    if sofar + [op] != next {
      NothingBefore(later);
      OneMoreRound(round, later, program);
    }
  }
}
