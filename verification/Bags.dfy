/** Small facts about sums of multisets. */
module Bags {

  lemma Shrink<V>(part: multiset<V>, taken: multiset<V>, whole: multiset<V>, bound: multiset<V>)
    requires part + taken == whole && whole <= bound
    ensures taken <= bound && part <= bound - taken
  {
  }

  lemma Chain<V>(end: multiset<V>, later: multiset<V>, middle: multiset<V>, first: multiset<V>, start: multiset<V>)
    requires end + later == middle && middle + first == start
    ensures end + (first + later) == start
  {
  }

  lemma Nothing<V>(whole: multiset<V>, none: seq<V>)
    requires none == []
    ensures multiset(none) <= whole
    ensures whole - multiset(none) == whole == whole + multiset(none)
  {
  }

  lemma TakeTwice<V>(whole: multiset<V>, first: multiset<V>, second: multiset<V>)
    ensures (whole - first) - second == whole - (first + second)
  {
  }

  /** Taking a part of one summand out of a sum. */
  lemma TakeFrom<V>(part: multiset<V>, taken: multiset<V>, whole: multiset<V>, others: multiset<V>)
    requires part + taken == whole
    ensures taken <= whole + others
    ensures (whole + others) - taken == part + others
  {
  }

  lemma AddTo<V>(part: multiset<V>, added: multiset<V>, others: multiset<V>)
    ensures (part + others) + added == (part + added) + others
  {
  }

  lemma AddMember<V>(members: set<V>, v: V)
    requires v !in members
    ensures multiset(members + {v}) == multiset(members) + multiset{v}
  {
  }

  lemma RemoveMember<V>(members: set<V>, v: V)
    requires v in members
    ensures multiset(members - {v}) + multiset{v} == multiset(members)
  {
  }

  /** A sequence that was part of a sum leaves it element by element. */
  lemma NextOut<V>(s: seq<V>, i: nat, now: multiset<V>, before: multiset<V>)
    requires i < |s| && multiset(s) <= before && now + multiset(s[..i]) == before
    ensures s[i] in now && (now - multiset{s[i]}) + multiset(s[..i + 1]) == before
  {
    assert s == s[..i] + [s[i]] + s[i + 1..];
    assert multiset(s) == multiset(s[..i]) + multiset{s[i]} + multiset(s[i + 1..]);
    assert s[..i + 1] == s[..i] + [s[i]];
    assert multiset(s)[s[i]] <= before[s[i]] == now[s[i]] + multiset(s[..i])[s[i]];
  }

  lemma Sooner<V>(part: multiset<V>, whole: multiset<V>, other: multiset<V>, bound: multiset<V>)
    requires part <= whole && other + whole <= bound
    ensures part + other <= bound
  {
  }

  lemma AllOut<V>(now: multiset<V>, out: multiset<V>, before: multiset<V>)
    requires now + out == before
    ensures out <= before && before - out == now
  {
  }

  lemma Append<V>(below: multiset<V>, s: seq<V>, v: V)
    ensures below + multiset(s + [v]) == (below + multiset(s)) + multiset{v}
  {
  }
}
