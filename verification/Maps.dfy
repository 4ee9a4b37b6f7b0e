/** Facts about finite maps that the proofs name instead of rediscovering. */
module Maps {

  /** Growing `start` by the visited part of `more` is one update per visited key. */
  lemma VisitOne<K, V>(start: map<K, V>, more: map<K, V>, left: set<K>, k: K)
    requires start.Keys !! more.Keys && left <= more.Keys && k in left
    ensures start + (more - (left - {k})) == (start + (more - left))[k := more[k]]
    ensures k !in start + (more - left)
  {
  }

  lemma PartOne<K, V>(more: map<K, V>, left: set<K>, k: K)
    requires left <= more.Keys && k in left
    ensures more - (left - {k}) == (more - left)[k := more[k]] && k !in more - left
  {
  }

  lemma VisitSome<K, V>(start: map<K, V>, more: map<K, V>, left: set<K>)
    requires start.Keys !! more.Keys && left <= more.Keys
    ensures (start + (more - left)).Keys <= (start + more).Keys
    ensures forall j :: j in start + (more - left) ==> (start + (more - left))[j] == (start + more)[j]
  {
  }

  lemma VisitEnds<K, V>(start: map<K, V>, more: map<K, V>)
    ensures start + (more - more.Keys) == start && start + (more - {}) == start + more
  {
  }
}
