/** Counting the threads of a step system that stand at given program points. */
module ThreadCounts {

  /** The threads whose program point satisfies `p`. */
  ghost function Those<Pc>(pcs: map<nat, Pc>, p: Pc -> bool): set<nat> {
    set t | t in pcs && p(pcs[t])
  }

  /** One thread moving changes a count by the difference it makes itself. */
  lemma CountAfterMove<Pc>(pcs: map<nat, Pc>, t: nat, pc: Pc, p: Pc -> bool)
    requires t in pcs
    ensures |Those(pcs[t := pc], p)| ==
            |Those(pcs, p)| - (if p(pcs[t]) then 1 else 0) + (if p(pc) then 1 else 0)
  {
    var others := Those(pcs, p) - {t};
    assert Those(pcs, p) == others + (if p(pcs[t]) then {t} else {});
    assert Those(pcs[t := pc], p) == others + (if p(pc) then {t} else {});
  }

  /** A count is positive as soon as one thread qualifies. */
  lemma CountPositive<Pc>(pcs: map<nat, Pc>, t: nat, p: Pc -> bool)
    requires t in pcs && p(pcs[t])
    ensures |Those(pcs, p)| >= 1
  {
    assert t in Those(pcs, p);
  }

  /** Two different qualifying threads make a count of two. */
  lemma CountPair<Pc>(pcs: map<nat, Pc>, t: nat, u: nat, p: Pc -> bool)
    requires t in pcs && u in pcs && t != u && p(pcs[t]) && p(pcs[u])
    ensures |Those(pcs, p)| >= 2
  {
    SubsetSize({t, u}, Those(pcs, p));
  }

  lemma SubsetSize(a: set<nat>, b: set<nat>)
    requires a <= b
    ensures |a| <= |b|
  {
    assert b == a + (b - a);
  }
}
