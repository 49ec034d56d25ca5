/** Facts about right-biased map union, `m1 + m2`, used to track what a run writes on top of what was there. */
module Maps {
  /** Updating after an overlay is overlaying the updated map. */
  lemma OverlayUpdate<K, V>(d: map<K, V>, m: map<K, V>, k: K, v: V)
    ensures (d + m)[k := v] == d + m[k := v]
  {
  }

  /** Overlaying the same writes twice is overlaying them once. */
  lemma OverlayTwice<K, V>(d: map<K, V>, m: map<K, V>)
    ensures (d + m) + m == d + m
  {
  }

  /** Writes that do not share a key with the writes made after them can be made again without effect. */
  lemma OverlayAgain<K, V>(d: map<K, V>, s: map<K, V>, e: map<K, V>)
    requires forall k :: k in s ==> k !in e
    ensures ((d + s) + e) + s == (d + s) + e
  {
  }
}
