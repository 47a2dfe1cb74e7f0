/** Notions shared by the two readers-writers programs: who owns a lock, and counting threads. */
module Threads {

  datatype Owner = Nobody | AThread(id: int)

  /** Moving one thread in or out of a region changes the region's count by one. */
  lemma MemberMoves(before: set<int>, after: set<int>, t: int)
    requires forall u :: u != t ==> (u in before <==> u in after)
    ensures |after| == |before| - (if t in before then 1 else 0) + (if t in after then 1 else 0)
  {
    var others := before - {t};
    assert before == if t in before then others + {t} else others;
    assert forall u :: u in after - {t} <==> u in others;
    assert after - {t} == others;
    assert after == if t in after then others + {t} else others;
  }

  lemma MemberCounts(members: set<int>, t: int)
    requires t in members
    ensures |members| > 0
  {
    assert members == (members - {t}) + {t};
  }

  lemma HasMember(members: set<int>)
    ensures |members| > 0 ==> exists t :: t in members
  {
    if !exists t :: t in members {
      assert members == {};
    }
  }
}
