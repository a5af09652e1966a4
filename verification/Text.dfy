/** Occurrences of one string in another. */
module Text {
  import opened Common

  predicate OccursAt(text: string, pattern: string, at: int) {
    0 <= at <= |text| - |pattern| && text[at..at + |pattern|] == pattern
  }

  ghost predicate Occurs(text: string, pattern: string) {
    exists at :: OccursAt(text, pattern, at)
  }

  lemma WindowChar(text: string, pattern: string, at: int, i: int)
    requires OccursAt(text, pattern, at) && at <= i < at + |pattern|
    ensures text[i] == pattern[i - at]
  {
    assert text[at..at + |pattern|][i - at] == text[i];
  }

  /** `str.find(pattern, from)`. */
  function Find(text: string, pattern: string, from: nat): (r: Option<nat>)
    ensures r.Some? ==> from <= r.value && OccursAt(text, pattern, r.value) && forall k :: from <= k < r.value ==> !OccursAt(text, pattern, k)
    ensures r.None? ==> forall k :: from <= k ==> !OccursAt(text, pattern, k)
    decreases |text| - from
  {
    if from + |pattern| > |text| then None
    else if text[from..from + |pattern|] == pattern then Some(from)
    else Find(text, pattern, from + 1)
  }

  lemma FindFinds(text: string, pattern: string)
    ensures Find(text, pattern, 0).Some? <==> Occurs(text, pattern)
  {
    if at :| OccursAt(text, pattern, at) {
      assert 0 <= at;
    }
  }
}
