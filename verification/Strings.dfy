/** Python's substring test and prefix test on strings. */
module Strings {

  predicate OccursAt(text: string, part: string, i: nat) {
    i + |part| <= |text| && text[i..i + |part|] == part
  }

  /** `part in text`. */
  predicate Contains(text: string, part: string) {
    exists i: nat | i <= |text| :: OccursAt(text, part, i)
  }

  /** `text.find(part, i)`. */
  function FirstFrom(text: string, part: string, i: nat): (r: (bool, nat))
    requires i <= |text|
    ensures r.0 ==> i <= r.1 <= |text| && OccursAt(text, part, r.1)
    ensures forall k: nat :: i <= k <= |text| && (r.0 ==> k < r.1) ==> !OccursAt(text, part, k)
    decreases |text| - i
  {
    if OccursAt(text, part, i) then (true, i)
    else if i < |text| then FirstFrom(text, part, i + 1)
    else (false, 0)
  }

  predicate EndsWith(text: string, tail: string) {
    |tail| <= |text| && text[|text| - |tail|..] == tail
  }
}
