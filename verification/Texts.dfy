/** One text inside another, position by position. */
module Texts {
  predicate HasAt(text: string, i: nat, part: string) {
    i + |part| <= |text| && text[i..i + |part|] == part
  }

  predicate Contains(text: string, part: string) {
    exists i: nat :: i <= |text| && HasAt(text, i, part)
  }

  predicate Around(text: string, before: string, part: string, after: string) {
    text == before + part + after
  }

  /** A part is contained exactly when something stands before it and something after. */
  lemma ContainsIff(text: string, part: string)
    ensures Contains(text, part) <==> exists before: string, after: string :: Around(text, before, part, after)
  {
    if Contains(text, part) {
      var i: nat :| i <= |text| && HasAt(text, i, part);
      assert text == text[..i] + text[i..i + |part|] + text[i + |part|..];
      assert Around(text, text[..i], part, text[i + |part|..]);
    }
    if before: string, after: string :| Around(text, before, part, after) {
      assert text[|before|..|before| + |part|] == part;
      assert HasAt(text, |before|, part);
    }
  }
}
